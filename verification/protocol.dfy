/**
 * Properties that span the handlers: the challenge keys the generator writes
 * are the ones the verifier reads, and what the verifier writes is what the
 * generator reads on the next attempt.
 */
module Protocol {
  import opened Wrappers
  import opened Credentials
  import Seqs
  import Gen = CreateAuthChallenge
  import Ver = VerifyAuthChallenge

  /**
   * The private map built by the generator, handed back by the directory,
   * gives the verifier the nonce of the ceremony it checks: the registration
   * nonce always, the authentication nonce exactly when one was issued.
   */
  lemma VerifierReadsGeneratedNonces(
    genRequest: Gen.CreateAuthRequest, rpID: string, assertionNonce: string, attestationNonce: string,
    verRequest: Ver.VerifyAuthRequest)
    requires verRequest.privateChallengeParameters
      == Gen.ChallengeParametersFor(genRequest, rpID, assertionNonce, attestationNonce).privateParameters
    ensures Ver.AttestationCheckFor(verRequest, rpID).expectedChallenge == Some(attestationNonce)
    ensures Ver.AssertionCheckFor(verRequest, rpID).expectedChallenge
      == (if genRequest.userAttributes.authCreds.Some? then Some(assertionNonce) else None)
  {
    var p := Gen.ChallengeParametersFor(genRequest, rpID, assertionNonce, attestationNonce);
    assert p.privateParameters[Gen.AttestationKey] == attestationNonce;
    if genRequest.userAttributes.authCreds.Some? {
      assert p.privateParameters[Gen.AssertionKey] == assertionNonce;
    }
  }

  /** The generator's view of an attribute holding `written`. */
  function NextRequest(verRequest: Ver.VerifyAuthRequest, written: seq<Authenticator>): Gen.CreateAuthRequest {
    Gen.CreateAuthRequest(UserAttributes(verRequest.userAttributes.email, Some(written)), "CUSTOM_CHALLENGE", false, map[])
  }

  /**
   * After a verified registration, the next challenge excludes the new
   * credential from re-registration and allows it for authentication, with no
   * transports, behind the credentials already stored.
   */
  lemma RegisteredCredentialOfferedNextTime(
    verRequest: Ver.VerifyAuthRequest, rpID: string,
    verifyAssertion: Ver.AssertionCheck -> Ver.AssertionVerdict,
    verifyAttestation: Ver.AttestationCheck -> Ver.AttestationVerdict,
    info: Option<Ver.AttestationInfo>)
    requires !Ver.IsAssertion(verRequest.challengeAnswer)
    requires verifyAttestation(Ver.AttestationCheckFor(verRequest, rpID)) == Ver.AttestationVerified(info)
    ensures var r := Ver.Verify(verRequest, rpID, verifyAssertion, verifyAttestation, false);
      var before := Decode(StoredList(verRequest.userAttributes.authCreds));
      var next := Gen.UserAuthenticators(NextRequest(verRequest, r.write.value).userAttributes);
      var id := Ver.NewAuthenticator(info).credentialID;
      && r.write.Some?
      && Gen.ExcludeList(next) == Gen.ExcludeList(before) + [Gen.CredentialDescriptor(id, "public-key", Gen.AnyTransport)]
      && Gen.AllowList(next) == Gen.AllowList(before) + [Gen.CredentialDescriptor(id, "public-key", [])]
  {
    var stored := StoredList(verRequest.userAttributes.authCreds);
    var a := Ver.NewAuthenticator(info);
    DecodeAppend(stored, a);
    Seqs.MapAppend(Gen.ExcludeDescriptor, Decode(stored), [Normalise(a)]);
    Seqs.MapAppend(Gen.AllowDescriptor, Decode(stored), [Normalise(a)]);
  }

  /**
   * After a verified authentication, the next challenge offers the same
   * allow-list and exclude-list: only a counter changed, and counters are not
   * part of the options.
   */
  lemma AuthenticationKeepsOffers(
    verRequest: Ver.VerifyAuthRequest, rpID: string,
    verifyAssertion: Ver.AssertionCheck -> Ver.AssertionVerdict,
    verifyAttestation: Ver.AttestationCheck -> Ver.AttestationVerdict,
    newCounter: nat)
    requires Ver.IsAssertion(verRequest.challengeAnswer)
    requires verifyAssertion(Ver.AssertionCheckFor(verRequest, rpID)) == Ver.AssertionVerified(newCounter)
    requires |StoredList(verRequest.userAttributes.authCreds)| > 0
    ensures var r := Ver.Verify(verRequest, rpID, verifyAssertion, verifyAttestation, false);
      var before := Decode(StoredList(verRequest.userAttributes.authCreds));
      var next := Gen.UserAuthenticators(NextRequest(verRequest, r.write.value).userAttributes);
      && r.write.Some?
      && Gen.AllowList(next) == Gen.AllowList(before)
      && Gen.ExcludeList(next) == Gen.ExcludeList(before)
  {
    var before := Decode(StoredList(verRequest.userAttributes.authCreds));
    var r := Ver.Verify(verRequest, rpID, verifyAssertion, verifyAttestation, false);
    Ver.VerifiedAssertionUpdatesCounter(verRequest, rpID, verifyAssertion, verifyAttestation, newCounter);
    var w := r.write.value;
    assert IsNormalised(w) by {
      forall j | 0 <= j < |w| ensures w[j].transports.Some? {
        assert before[j].transports.Some?;
      }
    }
    DecodeNormalisedIsIdentity(w);
    Gen.OffersIgnoreKeysAndCounters(w, before);
  }

  /**
   * A user with no stored credentials who completes registration ends with one
   * stored record, which the next challenge offers for authentication.
   */
  lemma FirstRegistration(
    verRequest: Ver.VerifyAuthRequest, rpID: string,
    verifyAssertion: Ver.AssertionCheck -> Ver.AssertionVerdict,
    verifyAttestation: Ver.AttestationCheck -> Ver.AttestationVerdict,
    info: Option<Ver.AttestationInfo>, assertionNonce: string, attestationNonce: string)
    requires StoredList(verRequest.userAttributes.authCreds) == []
    requires !Ver.IsAssertion(verRequest.challengeAnswer)
    requires verifyAttestation(Ver.AttestationCheckFor(verRequest, rpID)) == Ver.AttestationVerified(info)
    ensures var r := Ver.Verify(verRequest, rpID, verifyAssertion, verifyAttestation, false);
      var p := Gen.ChallengeParametersFor(NextRequest(verRequest, r.write.value), rpID, assertionNonce, attestationNonce);
      && r.answerCorrect == Some(true) && r.write.Some? && |r.write.value| == 1
      && Gen.AssertionKey in p.publicParameters
      && p.publicParameters[Gen.AssertionKey].request.allowCredentials
         == [Gen.CredentialDescriptor(Ver.NewAuthenticator(info).credentialID, "public-key", [])]
  {
    DecodeAppend([], Ver.NewAuthenticator(info));
  }
}
