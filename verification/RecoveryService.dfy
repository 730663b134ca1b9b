/** The recovery service in front of the store: what it refuses before a transaction starts, and
    exactly when a guess and a reset go through it. */
module RecoveryService {
  import opened Text
  import opened Recovery
  import opened RecoveryInvariant
  import opened RecoveryAdmission
  import opened RecoveryTrace
  import opened ResetTokens

  const MIN_QUERY_CODE: nat := 6
  const MAX_QUERY_CODE: nat := 32

  predicate LetterOrDigit(c: char) {
    'a' <= c <= 'z' || 'A' <= c <= 'Z' || '0' <= c <= '9'
  }

  /** querycode.Validate. */
  predicate ValidQueryCode(code: string) {
    && MIN_QUERY_CODE <= |code| <= MAX_QUERY_CODE
    && (forall c :: c in code ==> LetterOrDigit(c) || c in "-_@#.")
    && (exists c :: c in code && LetterOrDigit(c))
  }

  /** Service.Verify; `raw` is what a token is made of, should one be needed. */
  function Verify(db: Db, cnInput: string, guess: string, row: Option<nat>, pick: Option<nat>, raw: Raw,
                  now: Instant): (Db, Reply) {
    if FoldCN(cnInput) == "" || !ValidCode(guess) then (db, Refused(InvalidCode))
    else VerifyCode(db, cnInput, guess, row, pick, Encode(raw), now)
  }

  /** Service.Reset. */
  function Reset(db: Db, token: string, newCode: string, confirmation: string, now: Instant): (Db, Reply) {
    if !ValidToken(token) then (db, Refused(InvalidToken))
    else if newCode == "" || newCode != confirmation || !ValidQueryCode(newCode) then (db, Refused(InvalidQueryCode))
    else ResetQueryCode(db, token, newCode, now)
  }

  /** The service accepts exactly the guesses the store accepts: it only answers sooner. */
  lemma VerifiedExactly(db: Db, cnInput: string, guess: string, row: Option<nat>, pick: Option<nat>, raw: Raw,
                        now: Instant)
    requires Inv(db, now) && Offered(db, Event(VerifyStep(cnInput, guess, row, pick, Encode(raw)), now))
    ensures var (next, reply) := Verify(db, cnInput, guess, row, pick, raw, now);
            && (reply.CodeVerified? <==>
                  && ValidCode(guess) && FreshToken(db, Encode(raw))
                  && exists c :: RightGuess(db, c, row, FoldCN(cnInput), guess, now))
            && (reply.CodeVerified? ==>
                  && RightGuess(db, reply.code, row, FoldCN(cnInput), guess, now)
                  && reply.session == |db.sessions| && Sole(next, row.value, SessionKey(reply.session)))
  {
    hide Inv, VerifyCode, FreshToken, Sole, Offered;
    RecoveryAdmission.VerifiedExactly(db, cnInput, guess, row, pick, Encode(raw), now);
  }

  // ---------- Tokens in circulation ----------

  /** Every token a session was opened with in this run came from the generator. */
  ghost predicate TokensGenerated(es: seq<Event>) {
    forall i :: 0 <= i < |es| && es[i].step.VerifyStep? ==> exists raw: Raw :: es[i].step.token == Encode(raw)
  }

  ghost predicate TokensValid(sessions: seq<Session>) {
    forall i :: 0 <= i < |sessions| ==> ValidToken(sessions[i].token)
  }

  lemma OpenedWithToken(db: Db, e: Event)
    requires ReplyTo(db, e).CodeVerified?
    ensures e.step.VerifyStep? && |Next(db, e).sessions| == |db.sessions| + 1
    ensures Next(db, e).sessions[|db.sessions|].token == e.step.token
  {
    if !e.step.VerifyStep? && !e.step.ResetStep? { OtherSessions(db, e); }
  }

  lemma {:induction false} RunKeepsTokensValid(es: seq<Event>)
    requires TokensGenerated(es)
    ensures TokensValid(Run(es).sessions)
  {
    hide ValidToken, Next, ReplyTo, Encode;
    if es != [] {
      var e := es[|es| - 1];
      var db := Run(es[..|es| - 1]);
      RunKeepsTokensValid(es[..|es| - 1]);
      StepSessions(db, e);
      forall i | 0 <= i < |db.sessions| ensures ValidToken(Next(db, e).sessions[i].token) { StepSessionAges(db, e, i); }
      if ReplyTo(db, e).CodeVerified? {
        OpenedWithToken(db, e);
        var raw: Raw :| e.step.token == Encode(raw);
        GeneratedIsValid(raw, raw);
      }
    }
  }

  /** After any run, a reset goes through the service exactly when an open session in time holds the
      token and the new code is well formed, confirmed and a change: the token's own shape is never
      what stands against it. The user then has the new code, and no secret in play. */
  lemma ResetExactly(es: seq<Event>, token: string, newCode: string, confirmation: string, now: Instant)
    requires Possible(es) && TokensGenerated(es) && LastTime(es) <= now
    ensures var db := Run(es);
            var (next, reply) := Reset(db, token, newCode, confirmation, now);
            && (reply.ResetDone? <==>
                  ValidQueryCode(newCode) && confirmation == newCode
                    && exists s :: MayReset(db, s, token, newCode, now))
            && (reply.ResetDone? ==>
                  && MayReset(db, reply.session, token, newCode, now)
                  && var u := db.sessions[reply.session].user;
                     && next.users == db.users[u := db.users[u].(queryCode := Some(newCode))]
                     && reply.cn == db.users[u].cn
                     && Silent(next, u))
  {
    hide Inv, Run, Possible, TokensGenerated, ValidToken, ResetQueryCode, Silent;
    var db := Run(es);
    RunKeepsInv(es);
    LaterKeepsInv(db, LastTime(es), now);
    RunKeepsTokensValid(es);
    RecoveryAdmission.ResetExactly(db, token, newCode, now);
  }
}
