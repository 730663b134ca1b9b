/** Exactly when each step of a recovery goes through, said without the checks' own machinery, and
    which secrets the user is left with. Most of what the store checks is implied by the invariant:
    a code being sent always has an active user and a verified current email, and the latest code is
    always the live one. */
module RecoveryAdmission {
  import opened Text
  import opened Recovery
  import opened RecoveryInvariant
  import opened RecoveryWindows

  // ---------- What a user can still use ----------

  /** The one secret of the user's that is in play. */
  ghost predicate Sole(db: Db, u: nat, s: Key) {
    forall t: Key :: InPlay(db, u, t) <==> t == s
  }

  /** The user has no secret in play. */
  ghost predicate Silent(db: Db, u: nat) {
    forall t: Key :: !InPlay(db, u, t)
  }

  lemma InPlayIsSole(db: Db, last: int, u: nat, s: Key)
    requires Inv(db, last) && InPlay(db, u, s)
    ensures Sole(db, u, s)
  {}

  // ---------- Requests ----------

  /** Nothing stands against a request now: the user may recover by this email, and no limit is reached. */
  predicate MayRequest(db: Db, u: nat, e: nat, cn: string, ip: string, now: Instant) {
    && cn != "" && ip != "" && u < |db.users| && Eligible(db.users[u])
    && e < |db.emails| && db.emails[e].user == u && db.emails[e].current && db.emails[e].status == Verified
    && RequestsFor(db.requests, cn, now) < WINDOW_LIMIT && RequestsFrom(db.requests, ip, now) < IP_WINDOW_LIMIT
    && !CoolingDown(db.codes, u, e, now) && IssuedIn(db.codes, u, e, now - WINDOW + 1, now + 1) < WINDOW_LIMIT
  }

  /** The limits are read after overdue codes have lapsed, which they cannot see. */
  lemma LimitsKept(db: Db, u: nat, e: nat, now: Instant)
    ensures var lapsed := LapseCodes(db.codes, u, now);
            && CoolingDown(lapsed, u, e, now) == CoolingDown(db.codes, u, e, now)
            && IssuedIn(lapsed, u, e, now - WINDOW + 1, now + 1) == IssuedIn(db.codes, u, e, now - WINDOW + 1, now + 1)
  {
    hide LapseCodes, CoolingDown, IssuedIn;
    var lapsed := LapseCodes(db.codes, u, now);
    UpdatesRetire(db.codes, u, e, now);
    CoolingDownKept(db.codes, lapsed, u, e, now);
    IssuedInKept(db.codes, lapsed, u, e, now - WINDOW + 1, now + 1);
  }

  /** The user's current email is the only one a request can be granted for. */
  lemma OnlyCurrentEmail(db: Db, u: nat, e: nat, cn: string, ip: string, now: Instant)
    requires Inv(db, now) && MayRequest(db, u, e, cn, ip, now)
    ensures CurrentEmail(db.emails, u) == Some(e)
  {
    CurrentIs(db, now, u, e);
  }

  lemma PreparedIf(db: Db, cnInput: string, ipInput: string, u: nat, secret: Secret, now: Instant, e: nat)
    requires Inv(db, now) && MayRequest(db, u, e, FoldCN(cnInput), Trim(ipInput), now)
    ensures Prepare(db, cnInput, ipInput, Some(u), secret, now).1.Prepared?
  {
    hide Inv, CoolingDown, IssuedIn, LapseCodes, LapseSessions, RetireCodes, RetireSessions, RequestsFor, RequestsFrom;
    OnlyCurrentEmail(db, u, e, FoldCN(cnInput), Trim(ipInput), now);
    LimitsKept(db, u, e, now);
  }

  lemma PreparedOnlyIf(db: Db, cnInput: string, ipInput: string, row: Option<nat>, secret: Secret, now: Instant)
    requires Prepare(db, cnInput, ipInput, row, secret, now).1.Prepared?
    ensures row.Some? && CurrentEmail(db.emails, row.value).Some?
    ensures MayRequest(db, row.value, CurrentEmail(db.emails, row.value).value, FoldCN(cnInput), Trim(ipInput), now)
  {
    hide CoolingDown, IssuedIn, LapseCodes, LapseSessions, RetireCodes, RetireSessions, RequestsFor, RequestsFrom;
    CurrentEmailFinds(db.emails, row.value);
    LimitsKept(db, row.value, CurrentEmail(db.emails, row.value).value, now);
  }

  lemma PreparedRow(db: Db, cnInput: string, ipInput: string, row: Option<nat>, secret: Secret, now: Instant)
    requires Prepare(db, cnInput, ipInput, row, secret, now).1.Prepared?
    ensures var (next, reply) := Prepare(db, cnInput, ipInput, row, secret, now);
            && row.Some? && CurrentEmail(db.emails, row.value).Some? && reply == Prepared(|db.codes|)
            && |next.codes| == |db.codes| + 1 && next.users == db.users && next.emails == db.emails
            && next.codes[|db.codes|] ==
                 NewCode(row.value, CurrentEmail(db.emails, row.value).value, FoldCN(cnInput), secret, now)
            && |next.sessions| == |db.sessions|
            && (forall i :: 0 <= i < |db.sessions| ==> next.sessions[i].token == db.sessions[i].token)
  {}

  /** A request is granted exactly when nothing stands against it; the new code is then the only
      secret of the user's in play. */
  lemma PreparedExactly(db: Db, cnInput: string, ipInput: string, row: Option<nat>, secret: Secret, now: Instant)
    requires Inv(db, now)
    ensures var (next, reply) := Prepare(db, cnInput, ipInput, row, secret, now);
            && (reply.Prepared? <==>
                row.Some? && exists e: nat :: MayRequest(db, row.value, e, FoldCN(cnInput), Trim(ipInput), now))
            && (reply.Prepared? ==> reply.code == |db.codes| && Sole(next, row.value, CodeKey(reply.code)))
  {
    hide Inv, Prepare, MayRequest, Sole;
    var (next, reply) := Prepare(db, cnInput, ipInput, row, secret, now);
    if row.Some? {
      forall e: nat | MayRequest(db, row.value, e, FoldCN(cnInput), Trim(ipInput), now) ensures reply.Prepared? {
        PreparedIf(db, cnInput, ipInput, row.value, secret, now, e);
      }
    }
    if reply.Prepared? {
      PreparedOnlyIf(db, cnInput, ipInput, row, secret, now);
      PreparedRow(db, cnInput, ipInput, row, secret, now);
      PrepareKeepsInv(db, cnInput, ipInput, row, secret, now, now);
      InPlayIsSole(next, now, row.value, CodeKey(reply.code));
    }
  }

  // ---------- Deliveries ----------

  /** A delivery is confirmed exactly when the code is still being sent: whether its user is active
      and its email verified and current need not be asked, it always is. The code is then live, and
      the only secret of its user's in play. */
  lemma ConfirmedExactly(db: Db, c: nat, u: nat, e: nat, now: Instant)
    requires Inv(db, now)
    ensures var (next, reply) := ConfirmSent(db, c, u, e, now);
            && (reply == Done <==> c < |db.codes| && IssuedFor(db.codes[c], u, e) && db.codes[c].status == Sending)
            && (reply == Done ==>
                  next == db.(codes := db.codes[c := db.codes[c].(status := Live, sentAt := Some(now))])
                  && Sole(next, u, CodeKey(c)))
            && (reply != Done ==> next == db)
  {
    if c < |db.codes| && IssuedFor(db.codes[c], u, e) && db.codes[c].status == Sending {
      assert InFlight(db.codes[c]) && Standing(db.users, db.emails, u, e);
    }
    ConfirmKeepsInv(db, c, u, e, now, now);
    var (next, reply) := ConfirmSent(db, c, u, e, now);
    hide Inv;
    if reply == Done { InPlayIsSole(next, now, u, CodeKey(c)); }
  }

  lemma OtherKeys(db: Db, c: nat, d: Code, u: nat, t: Key)
    requires c < |db.codes| && !InFlight(d) && InPlay(db.(codes := db.codes[c := d]), u, t)
    ensures InPlay(db, u, t) && t != CodeKey(c)
  {}

  /** A failed delivery takes a code out of play exactly when it was still being sent, and leaves its
      user without a secret; otherwise it changes nothing. */
  lemma FailedExactly(db: Db, c: nat, u: nat, now: Instant)
    requires Inv(db, now)
    ensures var next := MarkDeliveryFailed(db, c, u, now);
            if c < |db.codes| && db.codes[c].user == u && db.codes[c].status == Sending
            then
              && next.codes[c].status == DeliveryFailed && next.codes[c].invalidatedAt == Some(now)
              && next == db.(codes := db.codes[c := next.codes[c]]) && Silent(next, u)
            else next == db
  {
    var next := MarkDeliveryFailed(db, c, u, now);
    if c < |db.codes| && db.codes[c].user == u && db.codes[c].status == Sending {
      InPlayIsSole(db, now, u, CodeKey(c));
      assert Consistent(db.codes[c]);
      forall t: Key ensures !InPlay(next, u, t) {
        if InPlay(next, u, t) { OtherKeys(db, c, Kill(db.codes[c], DeliveryFailed, now), u, t); }
      }
    }
  }

  // ---------- Guesses ----------

  /** The guess is the code that is live for this user and CN, in time. */
  predicate RightGuess(db: Db, c: nat, row: Option<nat>, cn: string, guess: string, now: Instant) {
    && c < |db.codes| && db.codes[c].status == Live && now < db.codes[c].expires
    && row == Some(db.codes[c].user) && cn != "" && db.codes[c].cn == cn && db.codes[c].secret == guess
  }

  ghost predicate FreshToken(db: Db, token: string) {
    forall i :: 0 <= i < |db.sessions| ==> db.sessions[i].token != token
  }

  lemma OnlyPick(db: Db, last: int, c: nat, pick: Option<nat>)
    requires Inv(db, last) && c < |db.codes| && InFlight(db.codes[c])
    requires PicksLatest(db.codes, db.codes[c].user, db.codes[c].email, pick)
    ensures pick == Some(c)
  {
    assert IssuedFor(db.codes[c], db.codes[c].user, db.codes[c].email);
  }

  /** A live code has a user and an email that pass every check, and is the row looked up. */
  lemma LiveIsReached(db: Db, c: nat, pick: Option<nat>, now: Instant)
    requires Inv(db, now) && c < |db.codes| && db.codes[c].status == Live
    requires CurrentEmail(db.emails, db.codes[c].user).Some? ==>
               PicksLatest(db.codes, db.codes[c].user, CurrentEmail(db.emails, db.codes[c].user).value, pick)
    ensures var (u, e) := (db.codes[c].user, db.codes[c].email);
            && u < |db.users| && db.users[u].status == Active && pick == Some(c)
            && CurrentEmail(db.emails, u) == Some(e) && e < |db.emails| && db.emails[e].status == Verified
  {
    var (u, e) := (db.codes[c].user, db.codes[c].email);
    assert InFlight(db.codes[c]) && Standing(db.users, db.emails, u, e);
    CurrentIs(db, now, u, e);
    OnlyPick(db, now, c, pick);
  }

  lemma VerifiedIf(db: Db, cnInput: string, guess: string, row: Option<nat>, pick: Option<nat>, token: string,
                   now: Instant, c: nat)
    requires Inv(db, now) && Offered(db, Event(VerifyStep(cnInput, guess, row, pick, token), now))
    requires ValidCode(guess) && FreshToken(db, token) && RightGuess(db, c, row, FoldCN(cnInput), guess, now)
    ensures VerifyCode(db, cnInput, guess, row, pick, token, now).1 == CodeVerified(c, |db.sessions|)
  {
    LiveIsReached(db, c, pick, now);
    FindTokenFinds(db.sessions, token);
    hide Inv;
  }

  lemma VerifiedOnlyIf(db: Db, cnInput: string, guess: string, row: Option<nat>, pick: Option<nat>, token: string,
                       now: Instant)
    requires Offered(db, Event(VerifyStep(cnInput, guess, row, pick, token), now))
    requires VerifyCode(db, cnInput, guess, row, pick, token, now).1.CodeVerified?
    ensures ValidCode(guess) && FreshToken(db, token) && row.Some? && pick.Some?
    ensures RightGuess(db, pick.value, row, FoldCN(cnInput), guess, now)
    ensures VerifyCode(db, cnInput, guess, row, pick, token, now).1 == CodeVerified(pick.value, |db.sessions|)
    ensures var next := VerifyCode(db, cnInput, guess, row, pick, token, now).0;
            var e := CurrentEmail(db.emails, row.value);
            && e.Some? && |next.sessions| == |db.sessions| + 1 && next.users == db.users && next.emails == db.emails
            && next.sessions[|db.sessions|] == Session(row.value, e.value, token, now + TOKEN_TTL, Open, None, None)
  {
    FindTokenFinds(db.sessions, token);
  }

  /** A guess is accepted exactly when it is right, whichever row "latest" returns and without a word
      about users and emails; it then leaves the user the new session and no other secret. */
  lemma VerifiedExactly(db: Db, cnInput: string, guess: string, row: Option<nat>, pick: Option<nat>, token: string,
                        now: Instant)
    requires Inv(db, now) && Offered(db, Event(VerifyStep(cnInput, guess, row, pick, token), now))
    ensures var (next, reply) := VerifyCode(db, cnInput, guess, row, pick, token, now);
            && (reply.CodeVerified? <==>
                  ValidCode(guess) && FreshToken(db, token)
                    && exists c :: RightGuess(db, c, row, FoldCN(cnInput), guess, now))
            && (reply.CodeVerified? ==>
                  && RightGuess(db, reply.code, row, FoldCN(cnInput), guess, now)
                  && reply.session == |db.sessions| && Sole(next, row.value, SessionKey(reply.session)))
  {
    hide Inv, VerifyCode, RightGuess, FreshToken, Sole, Offered;
    if ValidCode(guess) && FreshToken(db, token) && exists c :: RightGuess(db, c, row, FoldCN(cnInput), guess, now) {
      var c :| RightGuess(db, c, row, FoldCN(cnInput), guess, now);
      VerifiedIf(db, cnInput, guess, row, pick, token, now, c);
    }
    var (next, reply) := VerifyCode(db, cnInput, guess, row, pick, token, now);
    if reply.CodeVerified? {
      VerifiedOnlyIf(db, cnInput, guess, row, pick, token, now);
      VerifyKeepsInv(db, Event(VerifyStep(cnInput, guess, row, pick, token), now), now);
      assert next == Next(db, Event(VerifyStep(cnInput, guess, row, pick, token), now));
      InPlayIsSole(next, now, row.value, SessionKey(reply.session));
    }
  }

  /** A guess at a live code in time that is wrong counts exactly one attempt on exactly that code,
      and locks it with the last one. */
  lemma MissedExactly(db: Db, cnInput: string, guess: string, row: Option<nat>, pick: Option<nat>, token: string,
                      now: Instant, c: nat)
    requires Inv(db, now) && Offered(db, Event(VerifyStep(cnInput, guess, row, pick, token), now)) && ValidCode(guess)
    requires c < |db.codes| && db.codes[c].status == Live && now < db.codes[c].expires && row == Some(db.codes[c].user)
    requires db.codes[c].cn != FoldCN(cnInput) || db.codes[c].secret != guess
    ensures var (next, reply) := VerifyCode(db, cnInput, guess, row, pick, token, now);
            && next == db.(codes := db.codes[c := next.codes[c]]) && next.codes[c].attempts == db.codes[c].attempts + 1
            && (next.codes[c].status == if next.codes[c].attempts == MAX_ATTEMPTS then Locked else Live)
            && reply == Refused(if next.codes[c].attempts == MAX_ATTEMPTS then AttemptsExhausted else CodeMismatch)
  {
    LiveIsReached(db, c, pick, now);
    assert Consistent(db.codes[c]);
    hide Inv;
  }

  // ---------- Resets ----------

  /** Token s opens a reset to this code: the session is open and in time, and the code is a change. */
  predicate MayReset(db: Db, s: nat, token: string, newCode: string, now: Instant) {
    && s < |db.sessions| && db.sessions[s].token == token && db.sessions[s].status == Open
    && now < db.sessions[s].expires
    && db.sessions[s].user < |db.users|
    && db.users[db.sessions[s].user].queryCode.Some? && db.users[db.sessions[s].user].queryCode != Some(newCode)
  }

  lemma ResetIf(db: Db, token: string, newCode: string, now: Instant, s: nat)
    requires Inv(db, now) && MayReset(db, s, token, newCode, now)
    ensures ResetQueryCode(db, token, newCode, now) == Complete(db, s, newCode, now)
  {
    var session := db.sessions[s];
    assert Standing(db.users, db.emails, session.user, session.email) && db.emails[session.email].user == session.user;
    CurrentIs(db, now, session.user, session.email);
    FindTokenFinds(db.sessions, token);
    assert TokensDiffer(db.sessions);
    hide Inv, Complete;
  }

  lemma CompleteSilences(db: Db, s: nat, newCode: string, now: Instant)
    requires Inv(db, now) && s < |db.sessions| && db.sessions[s].user < |db.users| && db.sessions[s].status == Open
    ensures var next := Complete(db, s, newCode, now).0; Silent(next, db.sessions[s].user)
  {
    var u := db.sessions[s].user;
    InPlayIsSole(db, now, u, SessionKey(s));
    var next := Complete(db, s, newCode, now).0;
    assert SessionConsistent(db.sessions[s]);
    forall t: Key ensures !InPlay(next, u, t) {
      match t
      case CodeKey(c) => assert !InPlay(db, u, t);
      case SessionKey(i) => assert i != s ==> !InPlay(db, u, t);
    }
  }

  lemma ResetOnlyIf(db: Db, token: string, newCode: string, now: Instant)
    requires ResetQueryCode(db, token, newCode, now).1.ResetDone?
    ensures MayReset(db, ResetQueryCode(db, token, newCode, now).1.session, token, newCode, now)
  {
    FindTokenFinds(db.sessions, token);
  }

  /** A reset is done exactly when its token opens it: neither the user's status nor their email need
      be asked. It gives that user the new code and leaves them no secret in play. */
  lemma ResetExactly(db: Db, token: string, newCode: string, now: Instant)
    requires Inv(db, now)
    ensures var (next, reply) := ResetQueryCode(db, token, newCode, now);
            && (reply.ResetDone? <==> exists s :: MayReset(db, s, token, newCode, now))
            && (reply.ResetDone? ==>
                  && MayReset(db, reply.session, token, newCode, now)
                  && var u := db.sessions[reply.session].user;
                     && next.users == db.users[u := db.users[u].(queryCode := Some(newCode))]
                     && reply.cn == db.users[u].cn
                     && Silent(next, u))
  {
    hide Inv, ResetQueryCode, Silent;
    if s :| MayReset(db, s, token, newCode, now) { ResetIf(db, token, newCode, now, s); }
    var (next, reply) := ResetQueryCode(db, token, newCode, now);
    if reply.ResetDone? {
      ResetOnlyIf(db, token, newCode, now);
      ResetIf(db, token, newCode, now, reply.session);
      CompleteSilences(db, reply.session, newCode, now);
    }
  }
}
