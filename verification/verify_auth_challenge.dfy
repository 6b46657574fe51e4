/**
 * The response verifier (Cognito's "verify auth challenge response" trigger).
 * The shape of the answer decides the ceremony: an answer carrying
 * `response.authenticatorData` is an assertion (authentication), any other an
 * attestation (registration). A verified assertion rewrites the selected
 * record's signature counter (W3C Web Authentication Level 2, section 6.1.1);
 * a verified attestation appends a new record.
 *
 * The WebAuthn library's two verification calls are oracles passed in as
 * functions; the directory write is returned as a value.
 */
module VerifyAuthChallenge {
  import opened Wrappers
  import opened Credentials
  import Seqs

  const AssertionKey := "assertionChallenge"
  const AttestationKey := "attestationChallenge"

  /** The `response` member of the client's answer; only the presence of `authenticatorData` is inspected. */
  datatype AuthenticatorResponse = AuthenticatorResponse(authenticatorData: Option<string>, clientDataJSON: string)

  /** The parsed challenge answer; `rawId` is given already base64url-decoded. */
  datatype ChallengeAnswer = ChallengeAnswer(rawId: Bytes, response: AuthenticatorResponse)

  datatype VerifyAuthRequest = VerifyAuthRequest(
    userAttributes: UserAttributes,
    privateChallengeParameters: map<string, string>,
    challengeAnswer: ChallengeAnswer,
    userNotFound: bool,
    clientMetadata: map<string, string>)

  /** The arguments of `verifyAssertionResponse`; `authenticator` is `None` when it is `undefined`. */
  datatype AssertionCheck = AssertionCheck(
    credential: ChallengeAnswer,
    expectedChallenge: Option<string>,
    expectedOrigin: string,
    expectedRPID: string,
    authenticator: Option<Authenticator>)

  /** What `verifyAssertionResponse` does: resolve verified with a new counter, resolve unverified, or throw. */
  datatype AssertionVerdict = AssertionVerified(newCounter: nat) | AssertionRejected | AssertionThrew

  /** The arguments of `verifyAttestationResponse`. */
  datatype AttestationCheck = AttestationCheck(
    credential: ChallengeAnswer,
    expectedChallenge: Option<string>,
    expectedOrigin: string,
    expectedRPID: string)

  /** The `attestationInfo` of a verified registration; each field may be missing. */
  datatype AttestationInfo = AttestationInfo(credentialID: Option<Bytes>, credentialPublicKey: Option<Bytes>, counter: Option<nat>)

  /** What `verifyAttestationResponse` does: resolve verified, resolve unverified, or throw. */
  datatype AttestationVerdict = AttestationVerified(info: Option<AttestationInfo>) | AttestationRejected | AttestationThrew

  /**
   * The effect of one invocation: `answerCorrect` is `None` when the handler
   * never assigns it; `write` is the list sent to the directory, if any.
   */
  datatype VerifyResult = VerifyResult(answerCorrect: Option<bool>, write: Option<seq<Authenticator>>)

  function Lookup(m: map<string, string>, key: string): Option<string> {
    if key in m then Some(m[key]) else None
  }

  /** The origin at which ceremonies take place. */
  function Origin(rpID: string): string {
    "https://" + rpID
  }

  /** The structural discriminator: a truthy `response.authenticatorData` marks an assertion. */
  predicate IsAssertion(answer: ChallengeAnswer)
    ensures answer.response.authenticatorData.None? ==> !IsAssertion(answer)
    ensures answer.response.authenticatorData == Some("") ==> !IsAssertion(answer)
    ensures answer.response.authenticatorData.Some? && |answer.response.authenticatorData.value| > 0 ==> IsAssertion(answer)
  {
    answer.response.authenticatorData.Some? && answer.response.authenticatorData.value != ""
  }

  /** `Array.prototype.find` by credential ID: the index of the first record with that ID. */
  function FindCredential(auths: seq<Authenticator>, id: Bytes): (r: Option<nat>)
    ensures r.Some? ==> r.value < |auths| && auths[r.value].credentialID == id
    ensures r.Some? ==> forall j :: 0 <= j < r.value ==> auths[j].credentialID != id
    ensures r.None? ==> forall j :: 0 <= j < |auths| ==> auths[j].credentialID != id
    decreases |auths|
  {
    if auths == [] then None
    else if auths[0].credentialID == id then Some(0)
    else match FindCredential(auths[1..], id)
      case None => None
      case Some(k) => Some(k + 1)
  }

  /**
   * The authenticator handed to the library: the first record whose ID equals
   * `rawId`, or else the first record at all (the fail-open fallback), or none.
   */
  function SelectAuthenticator(auths: seq<Authenticator>, rawId: Bytes): (r: Option<nat>)
    ensures r.Some? <==> |auths| > 0
    ensures r.Some? ==> r.value < |auths|
    // a matching record is always preferred, and the first one is taken
    ensures (exists j :: 0 <= j < |auths| && auths[j].credentialID == rawId) ==>
      r.Some? && auths[r.value].credentialID == rawId && forall j :: 0 <= j < r.value ==> auths[j].credentialID != rawId
    // without a match, the first record is taken anyway
    ensures r.Some? && auths[r.value].credentialID != rawId ==>
      r.value == 0 && forall j :: 0 <= j < |auths| ==> auths[j].credentialID != rawId
  {
    match FindCredential(auths, rawId)
    case Some(k) => Some(k)
    case None => if |auths| > 0 then Some(0) else None
  }

  /** The element function of the write-back `map`: looks the record up in `[a]` by its own ID. */
  function MergeBack(a: Authenticator): (r: Authenticator)
    ensures r == a
  {
    match FindCredential([a], a.credentialID)
    case Some(k) => [a][k]
    case None => a
  }

  /** The write-back `map` returns its input unchanged: `[a].find` always finds `a`. */
  lemma MergeBackIsIdentity(auths: seq<Authenticator>)
    ensures Seqs.Map(MergeBack, auths) == auths
  {
    var w := Seqs.Map(MergeBack, auths);
    forall i | 0 <= i < |auths| ensures w[i] == auths[i] {
      assert [auths[i]][0].credentialID == auths[i].credentialID;
    }
  }

  /** The arguments the assertion path passes to `verifyAssertionResponse`. */
  function AssertionCheckFor(request: VerifyAuthRequest, rpID: string): (c: AssertionCheck)
    ensures c.expectedChallenge == Lookup(request.privateChallengeParameters, "assertionChallenge")
    ensures c.expectedOrigin == "https://" + rpID && c.expectedRPID == rpID
    ensures c.credential == request.challengeAnswer
    ensures c.authenticator.Some? <==> |StoredList(request.userAttributes.authCreds)| > 0
    // the record handed over is the first decoded record whose ID is `rawId` ...
    ensures var decoded := Decode(StoredList(request.userAttributes.authCreds));
      var rawId := request.challengeAnswer.rawId;
      (exists j :: 0 <= j < |decoded| && decoded[j].credentialID == rawId) ==>
        exists k :: 0 <= k < |decoded| && c.authenticator == Some(decoded[k])
          && decoded[k].credentialID == rawId && forall j :: 0 <= j < k ==> decoded[j].credentialID != rawId
    // ... or, when none is, the first decoded record
    ensures var decoded := Decode(StoredList(request.userAttributes.authCreds));
      var rawId := request.challengeAnswer.rawId;
      |decoded| > 0 && (forall j :: 0 <= j < |decoded| ==> decoded[j].credentialID != rawId) ==>
        c.authenticator == Some(decoded[0])
  {
    var decoded := Decode(StoredList(request.userAttributes.authCreds));
    var selected := SelectAuthenticator(decoded, request.challengeAnswer.rawId);
    AssertionCheck(
      request.challengeAnswer, Lookup(request.privateChallengeParameters, AssertionKey), Origin(rpID), rpID,
      if selected.Some? then Some(decoded[selected.value]) else None)
  }

  /** The arguments the attestation path passes to `verifyAttestationResponse`. */
  function AttestationCheckFor(request: VerifyAuthRequest, rpID: string): (c: AttestationCheck)
    ensures c.expectedChallenge == Lookup(request.privateChallengeParameters, "attestationChallenge")
    ensures c.expectedOrigin == "https://" + rpID && c.expectedRPID == rpID
    ensures c.credential == request.challengeAnswer
  {
    AttestationCheck(request.challengeAnswer, Lookup(request.privateChallengeParameters, AttestationKey), Origin(rpID), rpID)
  }

  /** The record built from a verified registration: missing bytes become empty, a missing counter 0, no transports. */
  function NewAuthenticator(info: Option<AttestationInfo>): (a: Authenticator)
    ensures info.None? ==> a == Authenticator([], [], 0, None)
    ensures info.Some? ==>
      && a.credentialID == info.value.credentialID.GetOr([])
      && a.credentialPublicKey == info.value.credentialPublicKey.GetOr([])
      && a.counter == info.value.counter.GetOr(0)
      && a.transports.None?
  {
    match info
    case None => Authenticator([], [], 0, None)
    case Some(i) => Authenticator(i.credentialID.GetOr([]), i.credentialPublicKey.GetOr([]), i.counter.GetOr(0), None)
  }

  /**
   * The effect of one invocation, given the library's verdicts and whether the
   * directory update call throws synchronously.
   */
  function Verify(
    request: VerifyAuthRequest, rpID: string,
    verifyAssertion: AssertionCheck -> AssertionVerdict,
    verifyAttestation: AttestationCheck -> AttestationVerdict,
    updateThrew: bool): (r: VerifyResult)
    // a write is issued exactly when the answer is reported correct
    ensures r.write.Some? <==> r.answerCorrect == Some(true)
  {
    var stored := StoredList(request.userAttributes.authCreds);
    var decoded := Decode(stored);
    if IsAssertion(request.challengeAnswer) then
      var selected := SelectAuthenticator(decoded, request.challengeAnswer.rawId);
      match verifyAssertion(AssertionCheckFor(request, rpID))
      case AssertionThrew => VerifyResult(None, None)
      case AssertionRejected => VerifyResult(Some(false), None)
      case AssertionVerified(newCounter) =>
        if selected.None? then VerifyResult(None, None)
        else if updateThrew then VerifyResult(Some(false), None)
        else
          var k := selected.value;
          VerifyResult(Some(true), Some(Seqs.Map(MergeBack, decoded[k := decoded[k].(counter := newCounter)])))
    else
      match verifyAttestation(AttestationCheckFor(request, rpID))
      case AttestationThrew => VerifyResult(None, None)
      case AttestationRejected => VerifyResult(None, None)
      case AttestationVerified(info) =>
        if updateThrew then VerifyResult(Some(false), None)
        else VerifyResult(Some(true), Some(stored + [NewAuthenticator(info)]))
  }

  /** `authenticator.counter = newCounter` on the selected element of the decoded array. */
  method SetCounter(auths: array<Authenticator>, k: nat, newCounter: nat)
    requires k < auths.Length
    modifies auths
    ensures auths[..] == old(auths[..])[k := old(auths[k]).(counter := newCounter)]
  {
    auths[k] := auths[k].(counter := newCounter);
  }

  /** The handler, step by step over an array of decoded authenticators. */
  method Handler(
    request: VerifyAuthRequest, rpID: string,
    verifyAssertion: AssertionCheck -> AssertionVerdict,
    verifyAttestation: AttestationCheck -> AttestationVerdict,
    updateThrew: bool) returns (result: VerifyResult)
    ensures result == Verify(request, rpID, verifyAssertion, verifyAttestation, updateThrew)
  {
    var cognitoAuthenticatorCreds := StoredList(request.userAttributes.authCreds);
    var decoded := Decode(cognitoAuthenticatorCreds);
    var userAuthenticators := new Authenticator[|decoded|](i requires 0 <= i < |decoded| => decoded[i]);
    assert userAuthenticators[..] == decoded;
    var challengeAnswer := request.challengeAnswer;
    var answerCorrect: Option<bool> := None;
    var write: Option<seq<Authenticator>> := None;

    if IsAssertion(challengeAnswer) {
      var selected := SelectAuthenticator(userAuthenticators[..], challengeAnswer.rawId);
      var authenticator := if selected.Some? then Some(userAuthenticators[selected.value]) else None;
      var verification := verifyAssertion(AssertionCheck(
        challengeAnswer, Lookup(request.privateChallengeParameters, AssertionKey), Origin(rpID), rpID, authenticator));
      match verification {
        case AssertionVerified(newCounter) =>
          // with no stored record `authenticator` is undefined and the assignment throws
          if selected.Some? {
            SetCounter(userAuthenticators, selected.value, newCounter);
            if updateThrew {
              answerCorrect := Some(false);
            } else {
              write := Some(Seqs.Map(MergeBack, userAuthenticators[..]));
              answerCorrect := Some(true);
            }
          }
        case AssertionRejected =>
          answerCorrect := Some(false);
        case AssertionThrew =>
      }
    } else {
      var verification := verifyAttestation(AttestationCheck(
        challengeAnswer, Lookup(request.privateChallengeParameters, AttestationKey), Origin(rpID), rpID));
      match verification {
        case AttestationVerified(info) =>
          var newAuthenticator := NewAuthenticator(info);
          if updateThrew {
            answerCorrect := Some(false);
          } else {
            write := Some(cognitoAuthenticatorCreds + [newAuthenticator]);
            answerCorrect := Some(true);
          }
        case AttestationRejected =>
        case AttestationThrew =>
      }
    }
    result := VerifyResult(answerCorrect, write);
  }

  /**
   * After a verified assertion the written list is the decoded list, in the
   * same order, with only the selected record's counter replaced.
   */
  lemma VerifiedAssertionUpdatesCounter(
    request: VerifyAuthRequest, rpID: string,
    verifyAssertion: AssertionCheck -> AssertionVerdict,
    verifyAttestation: AttestationCheck -> AttestationVerdict,
    newCounter: nat)
    requires IsAssertion(request.challengeAnswer)
    requires verifyAssertion(AssertionCheckFor(request, rpID)) == AssertionVerified(newCounter)
    requires |StoredList(request.userAttributes.authCreds)| > 0
    ensures var decoded := Decode(StoredList(request.userAttributes.authCreds));
      var k := SelectAuthenticator(decoded, request.challengeAnswer.rawId).value;
      var r := Verify(request, rpID, verifyAssertion, verifyAttestation, false);
      && AssertionCheckFor(request, rpID).authenticator == Some(decoded[k])
      && r.answerCorrect == Some(true)
      && r.write.Some? && |r.write.value| == |decoded|
      && r.write.value[k].counter == newCounter
      && r.write.value[k].credentialID == decoded[k].credentialID
      && r.write.value[k].credentialPublicKey == decoded[k].credentialPublicKey
      && r.write.value[k].transports == decoded[k].transports
      && forall j :: 0 <= j < |decoded| && j != k ==> r.write.value[j] == decoded[j]
  {
    var decoded := Decode(StoredList(request.userAttributes.authCreds));
    var k := SelectAuthenticator(decoded, request.challengeAnswer.rawId).value;
    MergeBackIsIdentity(decoded[k := decoded[k].(counter := newCounter)]);
  }

  /** A rejected assertion writes nothing and reports the answer incorrect. */
  lemma RejectedAssertion(
    request: VerifyAuthRequest, rpID: string,
    verifyAssertion: AssertionCheck -> AssertionVerdict,
    verifyAttestation: AttestationCheck -> AttestationVerdict,
    updateThrew: bool)
    requires IsAssertion(request.challengeAnswer)
    requires verifyAssertion(AssertionCheckFor(request, rpID)) == AssertionRejected
    ensures Verify(request, rpID, verifyAssertion, verifyAttestation, updateThrew) == VerifyResult(Some(false), None)
  {
  }

  /**
   * After a verified attestation the written list is the stored list as parsed
   * (not normalised) with the new record appended.
   */
  lemma VerifiedAttestationAppends(
    request: VerifyAuthRequest, rpID: string,
    verifyAssertion: AssertionCheck -> AssertionVerdict,
    verifyAttestation: AttestationCheck -> AttestationVerdict,
    info: Option<AttestationInfo>)
    requires !IsAssertion(request.challengeAnswer)
    requires verifyAttestation(AttestationCheckFor(request, rpID)) == AttestationVerified(info)
    ensures var stored := StoredList(request.userAttributes.authCreds);
      var r := Verify(request, rpID, verifyAssertion, verifyAttestation, false);
      && r.answerCorrect == Some(true)
      && r.write.Some? && |r.write.value| == |stored| + 1
      && r.write.value[..|stored|] == stored
      && r.write.value[|stored|] == NewAuthenticator(info)
      // without attestation info the appended record is all defaults
      && (info.None? ==> r.write.value[|stored|] == Authenticator([], [], 0, None))
  {
    var stored := StoredList(request.userAttributes.authCreds);
    assert (stored + [NewAuthenticator(info)])[..|stored|] == stored;
  }

  /**
   * A library call that throws escapes the handler on either path:
   * `answerCorrect` is never assigned and nothing is written.
   */
  lemma LibraryThrowLeavesUnassigned(
    request: VerifyAuthRequest, rpID: string,
    verifyAssertion: AssertionCheck -> AssertionVerdict,
    verifyAttestation: AttestationCheck -> AttestationVerdict,
    updateThrew: bool)
    requires IsAssertion(request.challengeAnswer) ==> verifyAssertion(AssertionCheckFor(request, rpID)) == AssertionThrew
    requires !IsAssertion(request.challengeAnswer) ==> verifyAttestation(AttestationCheckFor(request, rpID)) == AttestationThrew
    ensures Verify(request, rpID, verifyAssertion, verifyAttestation, updateThrew) == VerifyResult(None, None)
  {
  }

  /** A rejected attestation writes nothing and never assigns `answerCorrect`. */
  lemma RejectedAttestation(
    request: VerifyAuthRequest, rpID: string,
    verifyAssertion: AssertionCheck -> AssertionVerdict,
    verifyAttestation: AttestationCheck -> AttestationVerdict,
    updateThrew: bool)
    requires !IsAssertion(request.challengeAnswer)
    requires verifyAttestation(AttestationCheckFor(request, rpID)) == AttestationRejected
    ensures Verify(request, rpID, verifyAssertion, verifyAttestation, updateThrew) == VerifyResult(None, None)
  {
  }

  /** The ceremony is chosen by the answer's shape alone: each path consults only its own verifier. */
  lemma CeremonyByShape(
    request: VerifyAuthRequest, rpID: string,
    verifyAssertion: AssertionCheck -> AssertionVerdict, otherAssertion: AssertionCheck -> AssertionVerdict,
    verifyAttestation: AttestationCheck -> AttestationVerdict, otherAttestation: AttestationCheck -> AttestationVerdict,
    updateThrew: bool)
    ensures IsAssertion(request.challengeAnswer) ==>
      Verify(request, rpID, verifyAssertion, verifyAttestation, updateThrew)
        == Verify(request, rpID, verifyAssertion, otherAttestation, updateThrew)
    ensures !IsAssertion(request.challengeAnswer) ==>
      Verify(request, rpID, verifyAssertion, verifyAttestation, updateThrew)
        == Verify(request, rpID, otherAssertion, verifyAttestation, updateThrew)
  {
  }

  /**
   * The fail-open gap: when no stored record carries the answer's `rawId`, the
   * assertion is still checked, against the first stored record.
   */
  lemma FallbackToFirstRecord(request: VerifyAuthRequest, rpID: string)
    requires |StoredList(request.userAttributes.authCreds)| > 0
    requires forall j :: 0 <= j < |StoredList(request.userAttributes.authCreds)| ==>
      StoredList(request.userAttributes.authCreds)[j].credentialID != request.challengeAnswer.rawId
    ensures var c := AssertionCheckFor(request, rpID);
      && c.authenticator.Some?
      && c.authenticator.value == Decode(StoredList(request.userAttributes.authCreds))[0]
      && c.authenticator.value.credentialID != request.challengeAnswer.rawId
  {
    var decoded := Decode(StoredList(request.userAttributes.authCreds));
    assert forall j :: 0 <= j < |decoded| ==> decoded[j].credentialID != request.challengeAnswer.rawId;
  }

  /**
   * A concrete instance of the gap: one record with ID [1], an assertion naming
   * ID [2], and a library that accepts what it is given; the answer is reported
   * correct and record [1]'s counter is rewritten.
   */
  lemma FailOpenExample(verifyAttestation: AttestationCheck -> AttestationVerdict)
    ensures var a := Authenticator([1], [9], 5, None);
      var request := VerifyAuthRequest(
        UserAttributes("user@example.com", Some([a])), map["assertionChallenge" := "c"],
        ChallengeAnswer([2], AuthenticatorResponse(Some("data"), "{}")), false, map[]);
      var r := Verify(request, "example.com", (c: AssertionCheck) => AssertionVerified(6), verifyAttestation, false);
      && AssertionCheckFor(request, "example.com").authenticator == Some(Authenticator([1], [9], 5, Some([])))
      && r == VerifyResult(Some(true), Some([Authenticator([1], [9], 6, Some([]))]))
  {
    var a := Authenticator([1], [9], 5, None);
    var request := VerifyAuthRequest(
      UserAttributes("user@example.com", Some([a])), map["assertionChallenge" := "c"],
      ChallengeAnswer([2], AuthenticatorResponse(Some("data"), "{}")), false, map[]);
    var decoded := Decode([a]);
    assert decoded == [Authenticator([1], [9], 5, Some([]))];
    assert FindCredential(decoded, [2]) == None;
    MergeBackIsIdentity([Authenticator([1], [9], 6, Some([]))]);
  }

  /**
   * When the directory update call throws synchronously, the caught error
   * reports the answer incorrect and nothing is written, on either path.
   */
  lemma UpdateThrowReportsIncorrect(
    request: VerifyAuthRequest, rpID: string,
    verifyAssertion: AssertionCheck -> AssertionVerdict,
    verifyAttestation: AttestationCheck -> AttestationVerdict)
    requires IsAssertion(request.challengeAnswer) ==>
      verifyAssertion(AssertionCheckFor(request, rpID)).AssertionVerified?
      && |StoredList(request.userAttributes.authCreds)| > 0
    requires !IsAssertion(request.challengeAnswer) ==>
      verifyAttestation(AttestationCheckFor(request, rpID)).AttestationVerified?
    ensures Verify(request, rpID, verifyAssertion, verifyAttestation, true) == VerifyResult(Some(false), None)
  {
  }

  /**
   * With no stored record, the authenticator handed to the library is
   * `undefined`; should the library still report success, assigning the
   * counter throws: nothing is assigned and nothing is written.
   */
  lemma VerifiedAssertionWithoutRecord(
    request: VerifyAuthRequest, rpID: string,
    verifyAssertion: AssertionCheck -> AssertionVerdict,
    verifyAttestation: AttestationCheck -> AttestationVerdict,
    updateThrew: bool)
    requires IsAssertion(request.challengeAnswer)
    requires StoredList(request.userAttributes.authCreds) == []
    requires verifyAssertion(AssertionCheckFor(request, rpID)).AssertionVerified?
    ensures AssertionCheckFor(request, rpID).authenticator == None
    ensures Verify(request, rpID, verifyAssertion, verifyAttestation, updateThrew) == VerifyResult(None, None)
  {
  }
}
