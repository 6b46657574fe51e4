# WebAuthn sign-in over Cognito custom authentication — a Dafny model

The system signs users in with WebAuthn public-key credentials through the
three custom-authentication triggers of an Amazon Cognito user pool:

- **define auth challenge** (the session controller) decides from the session
  history whether to issue the one custom challenge, issue tokens or fail;
- **create auth challenge** (the challenge generator) always offers a
  registration (attestation) challenge and, when the `custom:authCreds`
  attribute is a non-empty string, an authentication (assertion)
  challenge too, with nonces in the private parameters under matching keys;
- **verify auth challenge response** (the response verifier) tells the two
  ceremonies apart by the answer's shape, checks the answer with the WebAuthn
  library, and rewrites the stored authenticator list: a new counter after an
  assertion, one more record after an attestation.

Modules: `Wrappers` and `Seqs` (basics.dfy: `Option` and the element-wise
`map`), `Credentials` (the authenticator record, the attribute and its decoding),
`DefineAuth`, `CreateAuthChallenge`, `VerifyAuthChallenge` (one per handler)
and `Protocol` (properties that span the handlers).

Modelling choices:

- The `custom:authCreds` attribute is `Option<seq<Authenticator>>`: `None` when
  absent or the empty string, `Some(list)` when it is a non-empty string
  holding the JSON array `list`. So `"[]"` is `Some([])`, and the generator
  then offers an assertion challenge with an empty allow-list.
- The session controller returns a `Decision` of the fields it assigns;
  `challengeName = None` means the field is left as the directory supplied it.
- The generator's public map holds the options records themselves. They stand
  for their JSON text. The nonces the library draws are parameters. The
  generator is a method on a `CreateAuthResponse` object whose two maps it
  clears, replaces and extends as the handler does, proved equal to the
  function `ChallengeParametersFor`.
- The verifier takes the library's two verification calls as function
  parameters from the arguments to a verdict: verified (with the new counter or
  the attestation info), not verified, or thrown. It also takes a flag saying
  whether the directory update call throws synchronously, the case its `catch`
  blocks handle. Its result is `(answerCorrect: Option<bool>, write:
  Option<seq<Authenticator>>)`, where `None` means never assigned or nothing
  written. The method `Handler` works on an array of decoded records, updates
  the counter in place, and is proved equal to the function `Verify`.
- When no stored record matches the answer's `rawId`, the verifier falls back
  to the first stored record. This fail-open behaviour is modelled as written:
  `FallbackToFirstRecord` and `FailOpenExample` exhibit it. With no stored
  record at all the authenticator is `undefined`; if the library still
  reports success, assigning its counter throws, and the model returns
  `(None, None)`.
- When no credential matches, the code falls back to record 0. When an
  attestation is not verified, it leaves `answerCorrect` unassigned. A relying
  party is expected to fail closed and report `false` in both cases. The model
  follows the code.
- `rpID` (`ORIGIN_DOMAIN_NAME || ''`) is a parameter. The expected origin is
  `"https://" + rpID`.

## Model

| member | source | states |
|---|---|---|
| `DefineAuth.Handler` | lambda/define-auth/index.ts:10-30 | empty history gives no tokens, no failure and challenge `CUSTOM_CHALLENGE`; a last entry that is a passed `CUSTOM_CHALLENGE` gives tokens and no failure; any other non-empty history gives failure and no tokens; tokens and failure are never both set; the challenge name is assigned exactly when the history is empty |
| `DefineAuth.ExactlyOnePhase` | lambda/define-auth/index.ts:10-30 | every history yields exactly one of challenge-issued, succeeded and failed, each characterised in both directions |
| `DefineAuth.OnlyLastEntryMatters` | lambda/define-auth/index.ts:10-18 | two requests that agree on history emptiness and on the last entry's name and result get the same decision, whatever earlier entries, metadata, user attributes, `userNotFound` and client metadata hold |
| `DefineAuth.SingleRoundTrip` | lambda/define-auth/index.ts:10-30 | once any entry is recorded the decision is terminal, and it succeeds exactly when that last entry is a passed `CUSTOM_CHALLENGE` |
| `Credentials.StoredList` | lambda/verify-auth-webauthn-verify/index.ts:22 | a falsy attribute reads as the empty list, any other as its parsed list |
| `Credentials.Decode` | lambda/verify-auth-webauthn-verify/index.ts:23-28 | decoding keeps length, order, credential IDs, public keys and counters, and replaces missing transports by `[]`, so every decoded record carries transports |
| `Credentials.DecodeNormalisedIsIdentity` | lambda/verify-auth-webauthn-verify/index.ts:61 | a list written back after an assertion (already decoded) decodes to itself on the next read |
| `Credentials.DecodeAppend` | lambda/verify-auth-webauthn-verify/index.ts:110 | decoding a list with a record appended is decoding the list with the decoded record appended |
| `CreateAuthChallenge.AllowList` | lambda/create-auth-webauthn-generate/index.ts:36-40 | one descriptor per authenticator in order, with its credential ID, type `public-key`, and its transports or else all four |
| `CreateAuthChallenge.ExcludeList` | lambda/create-auth-webauthn-generate/index.ts:66-70 | one descriptor per authenticator in order, with its credential ID, type `public-key` and transports usb, ble, nfc, internal |
| `CreateAuthChallenge.AuthenticationOptionsFor` | lambda/create-auth-webauthn-generate/index.ts:33-42 | the authentication options carry the drawn nonce, the allow-list of the authenticators, timeout 60000 and user verification `preferred` |
| `CreateAuthChallenge.RegistrationOptionsFor` | lambda/create-auth-webauthn-generate/index.ts:54-71 | the registration options carry the drawn nonce, the exclude-list of the authenticators, the RP name and ID, the email as user ID and name, timeout 60000, attestation `indirect`, user verification `preferred`, no resident key, algorithms [-7, -257] |
| `CreateAuthChallenge.UserAuthenticators` | lambda/create-auth-webauthn-generate/index.ts:19-31 | no authenticators when the attribute is falsy, the decoded list otherwise |
| `CreateAuthChallenge.ChallengeParametersFor` | lambda/create-auth-webauthn-generate/index.ts:17-74 | public and private maps have the same keys, within the two known ones; the attestation options are always present; the assertion options are present exactly when the attribute is a non-empty string; each private value is the nonce of the options under the same public key |
| `CreateAuthChallenge.Handler` | lambda/create-auth-webauthn-generate/index.ts:17-76 | after clearing, filling and extending the response maps in place, they equal `ChallengeParametersFor`, and the challenge metadata is untouched |
| `CreateAuthChallenge.AttestationKeepsAssertion` | lambda/create-auth-webauthn-generate/index.ts:44-74 | adding the attestation entry keeps the assertion entry, with its nonce and allow-list |
| `CreateAuthChallenge.NoStoredAuthenticators` | lambda/create-auth-webauthn-generate/index.ts:19-74 | with a falsy attribute the private map holds only the attestation nonce and the exclude-list is empty |
| `CreateAuthChallenge.RegistrationPolicy` | lambda/create-auth-webauthn-generate/index.ts:54-71 | registration options: timeout 60000, attestation `indirect`, user verification `preferred`, resident key not required, algorithms [-7, -257], user ID and name the email, RP name and ID, one excluded credential per authenticator |
| `CreateAuthChallenge.AuthenticationPolicy` | lambda/create-auth-webauthn-generate/index.ts:33-42 | authentication options: timeout 60000, user verification `preferred`, one allowed credential per stored record |
| `CreateAuthChallenge.AllowListFallbackUnused` | lambda/create-auth-webauthn-generate/index.ts:30-39 | on decoded records the any-transport fallback never applies: each allow-list entry has the stored transports, or `[]` |
| `CreateAuthChallenge.OffersIgnoreKeysAndCounters` | lambda/create-auth-webauthn-generate/index.ts:36-70 | both offered lists depend only on credential IDs and transports |
| `VerifyAuthChallenge.FindCredential` | lambda/verify-auth-webauthn-verify/index.ts:36 | the index found is the first record whose credential ID equals the given one; none is found exactly when no record has it |
| `VerifyAuthChallenge.SelectAuthenticator` | lambda/verify-auth-webauthn-verify/index.ts:36 | a record is selected exactly when the list is non-empty; a matching record, the first one, is always preferred; a non-matching selection is record 0 and happens only when nothing matches |
| `VerifyAuthChallenge.MergeBack` | lambda/verify-auth-webauthn-verify/index.ts:61 | looking a record up in the one-element list of itself returns that record |
| `VerifyAuthChallenge.MergeBackIsIdentity` | lambda/verify-auth-webauthn-verify/index.ts:61 | the write-back `map` returns the list unchanged |
| `VerifyAuthChallenge.IsAssertion` | lambda/verify-auth-webauthn-verify/index.ts:32 | an answer whose `authenticatorData` is absent or the empty string is not an assertion; one whose `authenticatorData` is a non-empty string is |
| `VerifyAuthChallenge.AssertionCheckFor` | lambda/verify-auth-webauthn-verify/index.ts:36-44 | the assertion is checked against the private `assertionChallenge`, origin `https://` + RP ID and the RP ID. An authenticator is passed exactly when records are stored. It is the first decoded record whose ID is `rawId`, or record 0 when no record has that ID |
| `VerifyAuthChallenge.AttestationCheckFor` | lambda/verify-auth-webauthn-verify/index.ts:87-92 | the attestation is checked against the private `attestationChallenge`, origin `https://` + RP ID and the RP ID |
| `VerifyAuthChallenge.NewAuthenticator` | lambda/verify-auth-webauthn-verify/index.ts:97-102 | the new record takes the reported ID, key and counter, defaulting to empty bytes and 0, and has no transports |
| `VerifyAuthChallenge.Verify` | lambda/verify-auth-webauthn-verify/index.ts:20-131 | a write is issued exactly when the answer is reported correct |
| `VerifyAuthChallenge.SetCounter` | lambda/verify-auth-webauthn-verify/index.ts:52 | the array is unchanged except that the selected record's counter is the new one |
| `VerifyAuthChallenge.Handler` | lambda/verify-auth-webauthn-verify/index.ts:15-133 | decoding into an array, selecting, updating in place and writing back gives exactly the result of `Verify` |
| `VerifyAuthChallenge.VerifiedAssertionUpdatesCounter` | lambda/verify-auth-webauthn-verify/index.ts:47-70 | after a verified assertion the record the library checked is the record whose counter is rewritten; the answer is correct and the write is the decoded list, same length and order, with only that record's counter replaced |
| `VerifyAuthChallenge.UpdateThrowReportsIncorrect` | lambda/verify-auth-webauthn-verify/index.ts:72-124 | when the directory update call throws after a verified answer, on either path, the answer is reported incorrect and nothing is written |
| `VerifyAuthChallenge.VerifiedAssertionWithoutRecord` | lambda/verify-auth-webauthn-verify/index.ts:36-52 | with no stored record the library gets no authenticator. If it still reports success, the counter assignment throws: `answerCorrect` stays unassigned and nothing is written |
| `VerifyAuthChallenge.RejectedAssertion` | lambda/verify-auth-webauthn-verify/index.ts:78-82 | a rejected assertion reports incorrect and writes nothing |
| `VerifyAuthChallenge.VerifiedAttestationAppends` | lambda/verify-auth-webauthn-verify/index.ts:95-119 | after a verified attestation, with or without attestation info, the answer is correct and the write is the stored list as parsed with the new record appended; without info that record is all defaults |
| `VerifyAuthChallenge.LibraryThrowLeavesUnassigned` | lambda/verify-auth-webauthn-verify/index.ts:38-92 | when the library call throws, on either path, `answerCorrect` is never assigned and nothing is written |
| `VerifyAuthChallenge.RejectedAttestation` | lambda/verify-auth-webauthn-verify/index.ts:95-128 | a rejected attestation writes nothing and leaves `answerCorrect` unassigned |
| `VerifyAuthChallenge.CeremonyByShape` | lambda/verify-auth-webauthn-verify/index.ts:32-85 | an answer with authenticator data consults only the assertion verifier, any other only the attestation verifier |
| `VerifyAuthChallenge.FallbackToFirstRecord` | lambda/verify-auth-webauthn-verify/index.ts:36 | when no stored record has the answer's `rawId`, the assertion is still checked, against the first record, whose ID differs |
| `VerifyAuthChallenge.FailOpenExample` | lambda/verify-auth-webauthn-verify/index.ts:36-70 | with record [1] stored and an answer naming [2], an accepting library leads to a correct answer and a rewritten counter on record [1] |
| `Protocol.VerifierReadsGeneratedNonces` | lambda/create-auth-webauthn-generate/index.ts:44-74 | the private map the generator writes gives the verifier the attestation nonce always, and the assertion nonce exactly when one was issued |
| `Protocol.RegisteredCredentialOfferedNextTime` | lambda/verify-auth-webauthn-verify/index.ts:104-119 | after a verified registration, with or without attestation info, the next challenge excludes and allows the new credential, behind the ones already stored |
| `Protocol.AuthenticationKeepsOffers` | lambda/verify-auth-webauthn-verify/index.ts:54-70 | after a verified authentication the next challenge offers the same allow-list and exclude-list |
| `Protocol.FirstRegistration` | lambda/verify-auth-webauthn-verify/index.ts:95-119 | a user with no stored credentials (attribute absent, empty or `[]`) who registers, with or without attestation info, ends with one stored record, offered for authentication next time |

## Left out

- The WebAuthn library (`generateAuthenticationOptions`, `generateRegistrationOptions`, `verifyAssertionResponse`, `verifyAttestationResponse`): nonces are parameters and verdicts are oracle functions. Signature and attestation checking, nonce randomness, and rejection of a non-increasing counter are the library's job and are not modelled.
- JSON and Buffer encoding (`JSON.parse`, `JSON.stringify`, Buffer's `{type, data}` form, base64url decoding of `rawId`): the attribute is a parsed list, `rawId` is given as bytes, and the public map holds options records rather than their JSON text. A malformed attribute or answer, which makes `JSON.parse` or a field access throw, is not modelled.
- `cognito.adminUpdateUserAttributes`: the write is returned as a value. Its asynchronous success or failure is not observed by the handler and is not modelled. Logging and the callback, including the second `callback` call on failure paths, are left out.
- Concurrent attempts for the same user can lose updates to `custom:authCreds`, because the handler rewrites the attribute blindly. Cross-invocation interleavings are not modelled.
- The CDK stack in index.ts: infrastructure with no decision logic. The attribute size limit appears there only as a comment and is never enforced.
- `CreateAuthChallenge.Handler`: both options calls (`generateAuthenticationOptions` at :33 and `generateRegistrationOptions` at :54) are assumed to return. Nothing catches a throw from either of them, so a throw fails the whole invocation and leaves the maps empty or holding only the assertion entry. That case is not represented.
- `VerifyAuthChallenge.Verify`: a throw fails the whole invocation, whether it comes from the library or from the counter assignment at verify :52. The result type shows that as `(None, None)`, the same value as the unassigned `answerCorrect` after a rejected attestation, so the model does not tell a failed invocation from an unassigned answer.
- `Credentials.Decode`: counters are natural numbers. JavaScript numbers (fractional, negative, or above 2^53) are not modelled.
