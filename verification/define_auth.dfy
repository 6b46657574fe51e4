/**
 * The session controller (Cognito's "define auth challenge" trigger): decides,
 * from the session history alone, whether to issue a custom challenge, issue
 * tokens or fail the authentication.
 */
module DefineAuth {
  import opened Wrappers

  const CustomChallenge := "CUSTOM_CHALLENGE"

  /** One entry of the session history supplied by the directory. */
  datatype SessionEntry = SessionEntry(challengeName: string, challengeResult: bool, challengeMetadata: string)

  datatype DefineAuthRequest = DefineAuthRequest(
    userAttributes: map<string, string>,
    session: seq<SessionEntry>,
    userNotFound: bool,
    clientMetadata: map<string, string>)

  /**
   * The fields the handler assigns on `event.response`; `challengeName` is
   * `None` when the handler leaves that field as the directory supplied it.
   */
  datatype Decision = Decision(issueTokens: bool, failAuthentication: bool, challengeName: Option<string>)

  /** The state the session moves to, read off a decision. */
  datatype Phase = ChallengeIssued | Succeeded | Failed

  /** The most recent history entry is a custom challenge that was answered correctly. */
  predicate LastChallengePassed(session: seq<SessionEntry>) {
    |session| > 0 && session[|session| - 1].challengeName == CustomChallenge && session[|session| - 1].challengeResult
  }

  /** The phase a decision signals to the directory. */
  function PhaseOf(d: Decision): Phase {
    if d.issueTokens then Succeeded else if d.failAuthentication then Failed else ChallengeIssued
  }

  /** The handler: one `if` / `else if` / `else` over the session history. */
  function Handler(request: DefineAuthRequest): (d: Decision)
    // empty history: start the one custom challenge
    ensures request.session == [] ==> d == Decision(false, false, Some(CustomChallenge))
    // last entry is a passed custom challenge: issue tokens
    ensures LastChallengePassed(request.session) ==> d.issueTokens && !d.failAuthentication
    // any other non-empty history: fail
    ensures request.session != [] && !LastChallengePassed(request.session) ==> !d.issueTokens && d.failAuthentication
    // tokens and failure are never both signalled
    ensures !(d.issueTokens && d.failAuthentication)
    // the challenge name is written only when the history is empty
    ensures d.challengeName.Some? <==> request.session == []
  {
    var session := request.session;
    if |session| > 0 && session[|session| - 1].challengeName == CustomChallenge && session[|session| - 1].challengeResult then
      Decision(true, false, None)
    else if |session| == 0 then
      Decision(false, false, Some(CustomChallenge))
    else
      Decision(false, true, None)
  }

  /** Every history lands in exactly one phase, determined by emptiness and the last entry. */
  lemma ExactlyOnePhase(request: DefineAuthRequest)
    ensures PhaseOf(Handler(request)) == ChallengeIssued <==> request.session == []
    ensures PhaseOf(Handler(request)) == Succeeded <==> LastChallengePassed(request.session)
    ensures PhaseOf(Handler(request)) == Failed <==> request.session != [] && !LastChallengePassed(request.session)
  {
  }

  /**
   * Only the history's emptiness and its last entry's name and result matter:
   * earlier entries, metadata, user attributes, `userNotFound` and client
   * metadata do not.
   */
  lemma OnlyLastEntryMatters(r1: DefineAuthRequest, r2: DefineAuthRequest)
    requires |r1.session| == 0 <==> |r2.session| == 0
    requires |r1.session| > 0 && |r2.session| > 0 ==>
      && r1.session[|r1.session| - 1].challengeName == r2.session[|r2.session| - 1].challengeName
      && r1.session[|r1.session| - 1].challengeResult == r2.session[|r2.session| - 1].challengeResult
    ensures Handler(r1) == Handler(r2)
  {
  }

  /**
   * The protocol is a single round trip: once any entry has been recorded the
   * decision is terminal, whatever was recorded and whatever came before.
   */
  lemma SingleRoundTrip(request: DefineAuthRequest, entry: SessionEntry)
    ensures PhaseOf(Handler(request.(session := request.session + [entry]))) != ChallengeIssued
    ensures PhaseOf(Handler(request.(session := request.session + [entry]))) == Succeeded
        <==> entry.challengeName == CustomChallenge && entry.challengeResult
  {
  }
}
