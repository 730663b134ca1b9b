/** A recovery that nobody disturbs goes through: the code that was sent is accepted and its token
    resets the query code. */
module RecoveryRoundTrip {
  import opened Text
  import opened Recovery
  import opened RecoveryInvariant
  import opened RecoveryAdmission
  import opened ResetTokens
  import RecoveryService

  ghost predicate SameTokens(sessions: seq<Session>, after: seq<Session>) {
    |after| == |sessions| && forall i :: 0 <= i < |sessions| ==> after[i].token == sessions[i].token
  }

  lemma RequestPrepares(db: Db, u: nat, e: nat, ip: string, secret: Secret, now: Instant)
    requires Inv(db, now) && u < |db.users| && MayRequest(db, u, e, FoldCN(db.users[u].cn), Trim(ip), now)
    ensures var (next, reply) := Prepare(db, db.users[u].cn, ip, Some(u), secret, now);
            && reply == Prepared(|db.codes|) && Inv(next, now)
            && |next.codes| == |db.codes| + 1
            && next.codes[|db.codes|] == NewCode(u, e, FoldCN(db.users[u].cn), secret, now)
            && next.users == db.users && next.emails == db.emails && SameTokens(db.sessions, next.sessions)
  {
    hide Inv, Prepare, MayRequest;
    var cn := db.users[u].cn;
    PreparedExactly(db, cn, ip, Some(u), secret, now);
    PreparedRow(db, cn, ip, Some(u), secret, now);
    PrepareKeepsInv(db, cn, ip, Some(u), secret, now, now);
    OnlyCurrentEmail(db, u, e, FoldCN(cn), Trim(ip), now);
  }

  lemma ConfirmGoesLive(db: Db, c: nat, now: Instant)
    requires Inv(db, now) && c < |db.codes| && db.codes[c].status == Sending
    ensures var (next, reply) := ConfirmSent(db, c, db.codes[c].user, db.codes[c].email, now);
            && reply == Done && Inv(next, now)
            && next == db.(codes := db.codes[c := db.codes[c].(status := Live, sentAt := Some(now))])
  {
    hide Inv;
    ConfirmKeepsInv(db, c, db.codes[c].user, db.codes[c].email, now, now);
    ConfirmedExactly(db, c, db.codes[c].user, db.codes[c].email, now);
  }

  /** The right guess at a live, unexpired code is accepted, whichever row "latest" returns. */
  lemma RightGuessAccepted(db: Db, c: nat, cnInput: string, pick: Option<nat>, raw: Raw, now: Instant)
    requires Inv(db, now) && c < |db.codes| && db.codes[c].status == Live && now < db.codes[c].expires
    requires FoldCN(cnInput) == db.codes[c].cn && FreshToken(db, Encode(raw))
    requires PicksLatest(db.codes, db.codes[c].user, db.codes[c].email, pick)
    ensures var (next, reply) :=
              RecoveryService.Verify(db, cnInput, db.codes[c].secret, Some(db.codes[c].user), pick, raw, now);
            && reply == CodeVerified(c, |db.sessions|) && Inv(next, now) && |next.sessions| == |db.sessions| + 1
            && next.sessions[|db.sessions|] ==
                 Session(db.codes[c].user, db.codes[c].email, Encode(raw), now + TOKEN_TTL, Open, None, None)
            && next.users == db.users && next.emails == db.emails
  {
    hide Encode;
    var (u, e) := (db.codes[c].user, db.codes[c].email);
    assert InFlight(db.codes[c]) && Standing(db.users, db.emails, u, e) && Consistent(db.codes[c]);
    CurrentIs(db, now, u, e);
    OnlyPick(db, now, c, pick);
    FindTokenFinds(db.sessions, Encode(raw));
    assert IssuedFor(db.codes[c], u, e);
    AcceptKeepsInv(db, u, e, c, Encode(raw), now);
  }

  lemma OpenSessionResets(db: Db, s: nat, raw: Raw, newCode: string, now: Instant)
    requires Inv(db, now) && s < |db.sessions| && MayReset(db, s, Encode(raw), newCode, now)
    requires RecoveryService.ValidQueryCode(newCode)
    ensures var (next, reply) := RecoveryService.Reset(db, Encode(raw), newCode, newCode, now);
            && reply == ResetDone(s, db.users[db.sessions[s].user].cn)
            && next.users == db.users[db.sessions[s].user := db.users[db.sessions[s].user].(queryCode := Some(newCode))]
  {
    hide Inv, Encode, ValidToken, ResetQueryCode;
    GeneratedIsValid(raw, raw);
    ResetIf(db, Encode(raw), newCode, now, s);
  }

  /** Request, delivery, verification and reset, each in time and with nothing in between, succeed
      from any state the invariant allows, and the user ends up with the new code. */
  lemma RoundTrip(db: Db, u: nat, e: nat, ip: string, secret: Secret, raw: Raw, newCode: string, pick: Option<nat>,
                  t0: Instant, t1: Instant, t2: Instant, t3: Instant)
    requires Inv(db, t0) && u < |db.users| && MayRequest(db, u, e, FoldCN(db.users[u].cn), Trim(ip), t0)
    requires t0 <= t1 <= t2 < t0 + CODE_TTL && t2 <= t3 < t2 + TOKEN_TTL
    requires FreshToken(db, Encode(raw)) && db.users[u].queryCode != Some(newCode)
    requires RecoveryService.ValidQueryCode(newCode)
    requires var sent := ConfirmSent(Prepare(db, db.users[u].cn, ip, Some(u), secret, t0).0, |db.codes|, u, e, t1).0;
             PicksLatest(sent.codes, u, e, pick)
    ensures var (prepared, first) := Prepare(db, db.users[u].cn, ip, Some(u), secret, t0);
            var (sent, second) := ConfirmSent(prepared, |db.codes|, u, e, t1);
            var (verified, third) := RecoveryService.Verify(sent, db.users[u].cn, secret, Some(u), pick, raw, t2);
            var (reset, fourth) := RecoveryService.Reset(verified, Encode(raw), newCode, newCode, t3);
            && first == Prepared(|db.codes|) && second == Done && third == CodeVerified(|db.codes|, |sent.sessions|)
            && fourth == ResetDone(|sent.sessions|, db.users[u].cn)
            && reset.users == db.users[u := db.users[u].(queryCode := Some(newCode))]
  {
    hide Inv, Prepare, ConfirmSent, RecoveryService.Verify, RecoveryService.Reset, PicksLatest, Encode,
      RecoveryService.ValidQueryCode;
    RequestPrepares(db, u, e, ip, secret, t0);
    var prepared := Prepare(db, db.users[u].cn, ip, Some(u), secret, t0).0;
    LaterKeepsInv(prepared, t0, t1);
    ConfirmGoesLive(prepared, |db.codes|, t1);
    var sent := ConfirmSent(prepared, |db.codes|, u, e, t1).0;
    LaterKeepsInv(sent, t1, t2);
    RightGuessAccepted(sent, |db.codes|, db.users[u].cn, pick, raw, t2);
    var verified := RecoveryService.Verify(sent, db.users[u].cn, secret, Some(u), pick, raw, t2).0;
    LaterKeepsInv(verified, t2, t3);
    OpenSessionResets(verified, |sent.sessions|, raw, newCode, t3);
  }
}
