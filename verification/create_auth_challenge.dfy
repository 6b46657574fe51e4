/**
 * The challenge generator (Cognito's "create auth challenge" trigger). It
 * always offers a registration (attestation) challenge and, when the
 * `custom:authCreds` attribute is a non-empty string, an authentication
 * (assertion) challenge as well; the options follow the PublicKeyCredentialCreationOptions
 * and PublicKeyCredentialRequestOptions dictionaries of W3C Web Authentication
 * Level 2, sections 5.4 and 5.5.
 */
module CreateAuthChallenge {
  import opened Wrappers
  import opened Credentials
  import Seqs

  const RpName := "SimpleWebAuthn Example"
  const ChallengeTimeout := 60000
  /** The fallback transport list: any transport. */
  const AnyTransport := [Usb, Ble, Nfc, Internal]
  /** COSE algorithm identifiers: ES256 (RFC 8152 section 8.1) and RS256 (RFC 8812 section 2). */
  const Es256 := -7
  const Rs256 := -257
  const AssertionKey := "assertionChallenge"
  const AttestationKey := "attestationChallenge"

  datatype CreateAuthRequest = CreateAuthRequest(
    userAttributes: UserAttributes,
    challengeName: string,
    userNotFound: bool,
    clientMetadata: map<string, string>)

  /** A PublicKeyCredentialDescriptor. */
  datatype CredentialDescriptor = CredentialDescriptor(id: Bytes, credentialType: string, transports: seq<Transport>)

  datatype AuthenticatorSelection = AuthenticatorSelection(userVerification: string, requireResidentKey: bool)

  /** Authentication options as returned by the library: the arguments given plus the nonce it drew. */
  datatype AuthenticationOptions = AuthenticationOptions(
    challenge: string,
    timeout: nat,
    allowCredentials: seq<CredentialDescriptor>,
    userVerification: string)

  /** Registration options as returned by the library: the arguments given plus the nonce it drew. */
  datatype RegistrationOptions = RegistrationOptions(
    challenge: string,
    rpName: string,
    rpID: string,
    userID: string,
    userName: string,
    timeout: nat,
    attestationType: string,
    authenticatorSelection: AuthenticatorSelection,
    supportedAlgorithmIDs: seq<int>,
    excludeCredentials: seq<CredentialDescriptor>)

  /** A value of the public challenge map: the options object that is JSON-encoded there. */
  datatype PublicChallenge = AssertionOptions(request: AuthenticationOptions) | AttestationOptions(creation: RegistrationOptions) {
    function Challenge(): string {
      match this
      case AssertionOptions(o) => o.challenge
      case AttestationOptions(o) => o.challenge
    }
  }

  /** The two maps written to `event.response`. */
  datatype ChallengeParameters = ChallengeParameters(
    publicParameters: map<string, PublicChallenge>,
    privateParameters: map<string, string>)

  function AllowDescriptor(a: Authenticator): CredentialDescriptor {
    CredentialDescriptor(a.credentialID, "public-key", a.transports.GetOr(AnyTransport))
  }

  /** The allow-list: one descriptor per stored authenticator, in stored order. */
  function AllowList(auths: seq<Authenticator>): (r: seq<CredentialDescriptor>)
    ensures |r| == |auths|
    ensures forall i :: 0 <= i < |auths| ==>
      && r[i].id == auths[i].credentialID
      && r[i].credentialType == "public-key"
      && r[i].transports == (if auths[i].transports.Some? then auths[i].transports.value else AnyTransport)
  {
    Seqs.Map(AllowDescriptor, auths)
  }

  function ExcludeDescriptor(a: Authenticator): CredentialDescriptor {
    CredentialDescriptor(a.credentialID, "public-key", AnyTransport)
  }

  /** The exclude-list: one descriptor per stored authenticator, in stored order, any transport. */
  function ExcludeList(auths: seq<Authenticator>): (r: seq<CredentialDescriptor>)
    ensures |r| == |auths|
    ensures forall i :: 0 <= i < |auths| ==>
      r[i] == CredentialDescriptor(auths[i].credentialID, "public-key", [Usb, Ble, Nfc, Internal])
  {
    Seqs.Map(ExcludeDescriptor, auths)
  }

  /** `generateAuthenticationOptions` with the arguments of the handler and the nonce `challenge`. */
  function AuthenticationOptionsFor(auths: seq<Authenticator>, challenge: string): (o: AuthenticationOptions)
    ensures o.challenge == challenge && o.allowCredentials == AllowList(auths)
    ensures o.timeout == 60000 && o.userVerification == "preferred"
  {
    AuthenticationOptions(challenge, ChallengeTimeout, AllowList(auths), "preferred")
  }

  /** `generateRegistrationOptions` with the arguments of the handler and the nonce `challenge`. */
  function RegistrationOptionsFor(email: string, rpID: string, auths: seq<Authenticator>, challenge: string): (o: RegistrationOptions)
    ensures o.challenge == challenge && o.excludeCredentials == ExcludeList(auths)
    ensures o.rpName == "SimpleWebAuthn Example" && o.rpID == rpID && o.userID == o.userName == email
    ensures o.timeout == 60000 && o.attestationType == "indirect"
    ensures o.authenticatorSelection == AuthenticatorSelection("preferred", false)
    ensures o.supportedAlgorithmIDs == [-7, -257]
  {
    RegistrationOptions(
      challenge, RpName, rpID, email, email, ChallengeTimeout, "indirect",
      AuthenticatorSelection("preferred", false), [Es256, Rs256], ExcludeList(auths))
  }

  /** The authenticators the handler works with: decoded when the attribute is truthy, else none. */
  function UserAuthenticators(attributes: UserAttributes): (r: seq<Authenticator>)
    ensures attributes.authCreds.None? ==> r == []
    ensures attributes.authCreds.Some? ==> r == Decode(attributes.authCreds.value)
  {
    match attributes.authCreds
    case None => []
    case Some(stored) => Decode(stored)
  }

  /**
   * The challenge maps the handler leaves in `event.response`, given the two
   * nonces the library draws.
   */
  function ChallengeParametersFor(request: CreateAuthRequest, rpID: string, assertionNonce: string, attestationNonce: string): (p: ChallengeParameters)
    // the two maps always share their key set, which is within the two known keys
    ensures p.publicParameters.Keys == p.privateParameters.Keys
    ensures p.publicParameters.Keys <= {AssertionKey, AttestationKey}
    // the registration challenge is always offered
    ensures AttestationKey in p.publicParameters
    ensures p.publicParameters[AttestationKey]
        == AttestationOptions(RegistrationOptionsFor(request.userAttributes.email, rpID, UserAuthenticators(request.userAttributes), attestationNonce))
    // the authentication challenge is offered exactly when the attribute is a non-empty string
    ensures AssertionKey in p.publicParameters <==> request.userAttributes.authCreds.Some?
    ensures AssertionKey in p.publicParameters ==>
      p.publicParameters[AssertionKey] == AssertionOptions(AuthenticationOptionsFor(UserAuthenticators(request.userAttributes), assertionNonce))
    // each private value is the nonce of the options published under the same key
    ensures forall k :: k in p.publicParameters ==> p.privateParameters[k] == p.publicParameters[k].Challenge()
  {
    var auths := UserAuthenticators(request.userAttributes);
    var first :=
      if request.userAttributes.authCreds.Some? then
        var options := AuthenticationOptionsFor(auths, assertionNonce);
        ChallengeParameters(map[AssertionKey := AssertionOptions(options)], map[AssertionKey := options.challenge])
      else
        ChallengeParameters(map[], map[]);
    var options := RegistrationOptionsFor(request.userAttributes.email, rpID, auths, attestationNonce);
    ChallengeParameters(
      first.publicParameters[AttestationKey := AttestationOptions(options)],
      first.privateParameters[AttestationKey := options.challenge])
  }

  /** The response record of the trigger; the handler replaces and extends its maps in place. */
  class CreateAuthResponse {
    var publicChallengeParameters: map<string, PublicChallenge>
    var privateChallengeParameters: map<string, string>
    var challengeMetadata: string
  }

  /**
   * The handler: clears both maps, fills them with the assertion challenge when
   * the attribute is a non-empty string, then adds the attestation challenge.
   */
  method Handler(request: CreateAuthRequest, rpID: string, assertionNonce: string, attestationNonce: string, response: CreateAuthResponse)
    modifies response
    ensures response.publicChallengeParameters == ChallengeParametersFor(request, rpID, assertionNonce, attestationNonce).publicParameters
    ensures response.privateChallengeParameters == ChallengeParametersFor(request, rpID, assertionNonce, attestationNonce).privateParameters
    ensures response.challengeMetadata == old(response.challengeMetadata)
  {
    response.publicChallengeParameters := map[];
    response.privateChallengeParameters := map[];
    var userAuthenticators: seq<Authenticator> := [];

    if request.userAttributes.authCreds.Some? {
      userAuthenticators := Decode(request.userAttributes.authCreds.value);
      var options := AuthenticationOptionsFor(userAuthenticators, assertionNonce);
      response.publicChallengeParameters := map[AssertionKey := AssertionOptions(options)];
      response.privateChallengeParameters := map[AssertionKey := options.challenge];
    }

    var options := RegistrationOptionsFor(request.userAttributes.email, rpID, userAuthenticators, attestationNonce);
    response.publicChallengeParameters := response.publicChallengeParameters[AttestationKey := AttestationOptions(options)];
    response.privateChallengeParameters := response.privateChallengeParameters[AttestationKey := options.challenge];
  }

  /** Adding the attestation entry keeps an assertion entry already present, unchanged. */
  lemma AttestationKeepsAssertion(request: CreateAuthRequest, rpID: string, assertionNonce: string, attestationNonce: string)
    requires request.userAttributes.authCreds.Some?
    ensures var p := ChallengeParametersFor(request, rpID, assertionNonce, attestationNonce);
      && AssertionKey in p.publicParameters && AttestationKey in p.publicParameters
      && p.privateParameters[AssertionKey] == assertionNonce
      && p.privateParameters[AttestationKey] == attestationNonce
      && p.publicParameters[AssertionKey].request.allowCredentials == AllowList(Decode(request.userAttributes.authCreds.value))
  {
  }

  /** Without stored authenticators only the attestation challenge is offered, with an empty exclude-list. */
  lemma NoStoredAuthenticators(request: CreateAuthRequest, rpID: string, assertionNonce: string, attestationNonce: string)
    requires request.userAttributes.authCreds.None?
    ensures var p := ChallengeParametersFor(request, rpID, assertionNonce, attestationNonce);
      && p.privateParameters == map[AttestationKey := attestationNonce]
      && p.publicParameters[AttestationKey].creation.excludeCredentials == []
  {
  }

  /** The registration options carry the fixed policy of the deployment. */
  lemma RegistrationPolicy(request: CreateAuthRequest, rpID: string, assertionNonce: string, attestationNonce: string)
    ensures var o := ChallengeParametersFor(request, rpID, assertionNonce, attestationNonce).publicParameters[AttestationKey].creation;
      && o.timeout == 60000
      && o.attestationType == "indirect"
      && o.authenticatorSelection.userVerification == "preferred"
      && !o.authenticatorSelection.requireResidentKey
      && o.supportedAlgorithmIDs == [-7, -257]
      && o.userID == o.userName == request.userAttributes.email
      && o.rpName == "SimpleWebAuthn Example" && o.rpID == rpID
      && |o.excludeCredentials| == |UserAuthenticators(request.userAttributes)|
  {
  }

  /** The authentication options carry the fixed policy of the deployment. */
  lemma AuthenticationPolicy(request: CreateAuthRequest, rpID: string, assertionNonce: string, attestationNonce: string)
    requires request.userAttributes.authCreds.Some?
    ensures var o := ChallengeParametersFor(request, rpID, assertionNonce, attestationNonce).publicParameters[AssertionKey].request;
      && o.timeout == 60000
      && o.userVerification == "preferred"
      && |o.allowCredentials| == |request.userAttributes.authCreds.value|
  {
  }

  /**
   * On decoded authenticators the any-transport fallback of the allow-list never
   * applies: each entry carries the stored transports, or `[]` when none were stored.
   */
  lemma AllowListFallbackUnused(stored: seq<Authenticator>)
    ensures var allow := AllowList(Decode(stored));
      forall i :: 0 <= i < |stored| ==>
        allow[i].id == stored[i].credentialID && allow[i].transports == stored[i].transports.GetOr([])
  {
    var decoded := Decode(stored);
    var allow := AllowList(decoded);
    forall i | 0 <= i < |stored|
      ensures allow[i].id == stored[i].credentialID && allow[i].transports == stored[i].transports.GetOr([])
    {
      assert decoded[i].transports == Some(stored[i].transports.GetOr([]));
    }
  }

  /** The offered lists depend on credential IDs and transports only, never on keys or counters. */
  lemma OffersIgnoreKeysAndCounters(a: seq<Authenticator>, b: seq<Authenticator>)
    requires |a| == |b|
    requires forall j :: 0 <= j < |a| ==> a[j].credentialID == b[j].credentialID && a[j].transports == b[j].transports
    ensures AllowList(a) == AllowList(b)
    ensures ExcludeList(a) == ExcludeList(b)
  {
    var allowA, allowB := AllowList(a), AllowList(b);
    forall j | 0 <= j < |a| ensures allowA[j] == allowB[j] {
    }
    var exA, exB := ExcludeList(a), ExcludeList(b);
    forall j | 0 <= j < |a| ensures exA[j] == exB[j] {
    }
  }
}
