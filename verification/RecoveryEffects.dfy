/** What each transaction of a recovery writes, row by row: every table after it is told from the
    table before it, whether the transaction was refused or not. */
module RecoveryEffects {
  import opened Text
  import opened Recovery
  import opened RecoveryInvariant
  import opened RecoveryAdmission

  // ---------- How secrets end ----------

  /** What a code in play becomes when a newer one takes its place: the sweep for overdue codes runs
      first, so a code out of time or a send out of patience says so. */
  function Fate(status: CodeStatus, created: int, expires: int, now: Instant): CodeStatus {
    if status == Live && expires <= now then Expired
    else if status == Sending && created + STALE_SEND <= now then DeliveryFailed
    else Invalidated
  }

  /** Every code of the user's in play has met its fate, no other code has changed, and more may follow. */
  ghost predicate CodesReplaced(codes: seq<Code>, after: seq<Code>, u: nat, now: Instant) {
    && |codes| <= |after|
    && forall i :: 0 <= i < |codes| ==>
      after[i] ==
        if codes[i].user == u && (codes[i].status == Sending || codes[i].status == Live)
        then codes[i].(status := Fate(codes[i].status, codes[i].created, codes[i].expires, now),
                       invalidatedAt := Some(now))
        else codes[i]
  }

  /** Likewise the user's open reset sessions. */
  ghost predicate SessionsReplaced(sessions: seq<Session>, after: seq<Session>, u: nat, now: Instant) {
    && |sessions| == |after|
    && forall i :: 0 <= i < |sessions| ==>
      after[i] ==
        if sessions[i].user == u && sessions[i].status == Open
        then sessions[i].(status := if sessions[i].expires <= now then Lapsed else Cancelled,
                          invalidatedAt := Some(now))
        else sessions[i]
  }

  /** Only the user's overdue secrets have ended. */
  ghost predicate OverdueEnded(db: Db, next: Db, u: nat, now: Instant) {
    && |next.codes| == |db.codes| && |next.sessions| == |db.sessions|
    && (forall i :: 0 <= i < |db.codes| ==>
          var c := db.codes[i];
          next.codes[i] ==
            if c.user == u && ((c.status == Live && c.expires <= now)
                               || (c.status == Sending && c.created + STALE_SEND <= now))
            then c.(status := Fate(c.status, c.created, c.expires, now), invalidatedAt := Some(now))
            else c)
    && (forall i :: 0 <= i < |db.sessions| ==>
          var s := db.sessions[i];
          next.sessions[i] ==
            if s.user == u && s.status == Open && s.expires <= now
            then s.(status := Lapsed, invalidatedAt := Some(now))
            else s)
  }

  /** Every secret of the user's in play has been withdrawn, and no other row has changed. */
  ghost predicate Withdrawn(db: Db, next: Db, u: nat, now: Instant) {
    && |next.codes| == |db.codes| && |next.sessions| == |db.sessions|
    && (forall i :: 0 <= i < |db.codes| ==>
          next.codes[i] ==
            if db.codes[i].user == u && (db.codes[i].status == Sending || db.codes[i].status == Live)
            then db.codes[i].(status := Invalidated, invalidatedAt := Some(now))
            else db.codes[i])
    && (forall i :: 0 <= i < |db.sessions| ==>
          next.sessions[i] ==
            if db.sessions[i].user == u && db.sessions[i].status == Open
            then db.sessions[i].(status := Cancelled, invalidatedAt := Some(now))
            else db.sessions[i])
  }

  lemma Stamps(db: Db, last: int)
    requires Inv(db, last)
    ensures forall i :: 0 <= i < |db.codes| && InFlight(db.codes[i]) ==> db.codes[i].invalidatedAt.None?
    ensures forall i :: 0 <= i < |db.sessions| && db.sessions[i].status == Open ==> db.sessions[i].invalidatedAt.None?
  {
    assert forall i :: 0 <= i < |db.codes| ==> Consistent(db.codes[i]);
    assert forall i :: 0 <= i < |db.sessions| ==> SessionConsistent(db.sessions[i]);
  }

  // ---------- Requests ----------

  /** A CN finds the user whose CN is the same words, however they are spaced or cased. */
  lemma UserPicked(users: seq<User>, cn: string, row: Option<nat>)
    ensures PicksUser(users, FoldCN(cn), row) <==>
              match row
              case Some(u) => u < |users| && SameWords(users[u].cn, cn)
              case None => forall u :: 0 <= u < |users| ==> !SameWords(users[u].cn, cn)
  {
    hide FoldCN, SameWords;
    forall u | 0 <= u < |users| ensures FoldCN(users[u].cn) == FoldCN(cn) <==> SameWords(users[u].cn, cn) {
      FoldCNSame(users[u].cn, cn);
    }
  }

  /** The user and email a request by this CN may recover. */
  predicate Recoverable(db: Db, u: nat, e: nat) {
    && u < |db.users| && db.users[u].status == Active && db.users[u].queryCode.Some?
    && e < |db.emails| && db.emails[e].user == u && db.emails[e].current && db.emails[e].status == Verified
  }

  predicate OverLimit(db: Db, cn: string, ip: string, now: Instant) {
    RequestsFor(db.requests, cn, now) >= WINDOW_LIMIT || RequestsFrom(db.requests, ip, now) >= IP_WINDOW_LIMIT
  }

  /** The code of the request follows the codes there were. */
  predicate Appended(db: Db, next: Db, u: nat, e: nat, cn: string, secret: Secret, now: Instant) {
    && |next.codes| == |db.codes| + 1
    && next.codes[|db.codes|] == Code(u, e, cn, secret, now, now + CODE_TTL, Sending, 0, MAX_ATTEMPTS, None, None, None)
  }

  ghost predicate Granted(db: Db, next: Db, u: nat, cn: string, secret: Secret, now: Instant) {
    exists e: nat :: Recoverable(db, u, e) && Appended(db, next, u, e, cn, secret, now)
  }

  lemma RecoverableIs(db: Db, last: int, u: nat)
    requires Inv(db, last) && u < |db.users|
    ensures (exists e: nat :: Recoverable(db, u, e)) <==>
              && Eligible(db.users[u]) && CurrentEmail(db.emails, u).Some?
              && CurrentEmail(db.emails, u).value < |db.emails|
              && db.emails[CurrentEmail(db.emails, u).value].status == Verified
    ensures forall e: nat :: Recoverable(db, u, e) ==> CurrentEmail(db.emails, u) == Some(e)
  {
    CurrentEmailFinds(db.emails, u);
    forall e: nat | Recoverable(db, u, e) ensures CurrentEmail(db.emails, u) == Some(e) { CurrentIs(db, last, u, e); }
    var current := CurrentEmail(db.emails, u);
    if current.Some? && Eligible(db.users[u]) && db.emails[current.value].status == Verified {
      assert Recoverable(db, u, current.value);
    }
  }

  // ---------- The limits, counted ----------

  /** Where in the list the elements with a property are. */
  function Places<T>(xs: seq<T>, p: T -> bool): set<nat> {
    set i: nat | i < |xs| && p(xs[i])
  }

  lemma PlacesSnoc<T>(xs: seq<T>, p: T -> bool)
    requires xs != []
    ensures var n := |xs| - 1; |Places(xs, p)| == |Places(xs[..n], p)| + if p(xs[n]) then 1 else 0
  {
    var n := |xs| - 1;
    assert Places(xs, p) == Places(xs[..n], p) + if p(xs[n]) then {n} else {};
  }

  lemma {:induction false} RequestsCounted(requests: seq<Request>, cn: string, ip: string, now: Instant)
    ensures RequestsFor(requests, cn, now) ==
              |Places(requests, (r: Request) => r.cn == cn && r.at > now - 3600 * SECOND)|
    ensures RequestsFrom(requests, ip, now) ==
              |Places(requests, (r: Request) => r.ip == ip && r.at > now - 3600 * SECOND)|
  {
    if requests != [] {
      RequestsCounted(requests[..|requests| - 1], cn, ip, now);
      PlacesSnoc(requests, (r: Request) => r.cn == cn && r.at > now - 3600 * SECOND);
      PlacesSnoc(requests, (r: Request) => r.ip == ip && r.at > now - 3600 * SECOND);
    }
  }

  lemma {:induction false} CodesCounted(codes: seq<Code>, u: nat, e: nat, now: Instant)
    ensures IssuedIn(codes, u, e, now - WINDOW + 1, now + 1) ==
              |Places(codes, (c: Code) => c.user == u && c.email == e && now - 3600 * SECOND < c.created <= now)|
  {
    if codes != [] {
      CodesCounted(codes[..|codes| - 1], u, e, now);
      PlacesSnoc(codes, (c: Code) => c.user == u && c.email == e && now - 3600 * SECOND < c.created <= now);
    }
  }

  /** What stands against no request: in the last hour fewer than 5 requests for this CN and fewer than
      20 from this address, fewer than 5 codes of this user and email, and none in the last minute. */
  lemma MayRequestMeans(db: Db, u: nat, e: nat, cn: string, ip: string, now: Instant)
    ensures MayRequest(db, u, e, cn, ip, now) <==>
              && cn != "" && ip != "" && Recoverable(db, u, e)
              && |Places(db.requests, (r: Request) => r.cn == cn && r.at > now - 3600 * SECOND)| < 5
              && |Places(db.requests, (r: Request) => r.ip == ip && r.at > now - 3600 * SECOND)| < 20
              && (forall i :: 0 <= i < |db.codes| && db.codes[i].user == u && db.codes[i].email == e ==>
                    db.codes[i].created + 60 * SECOND <= now)
              && |Places(db.codes, (c: Code) =>
                    c.user == u && c.email == e && now - 3600 * SECOND < c.created <= now)| < 5
  {
    hide Places, RequestsFor, RequestsFrom, IssuedIn;
    RequestsCounted(db.requests, cn, ip, now);
    CodesCounted(db.codes, u, e, now);
  }

  // ---------- What a request leaves ----------

  lemma OverdueEnds(db: Db, u: nat, now: Instant)
    requires Inv(db, now)
    ensures OverdueEnded(db, db.(codes := LapseCodes(db.codes, u, now), sessions := LapseSessions(db.sessions, u, now)),
                         u, now)
  {
    Stamps(db, now);
  }

  lemma IssueReplaces(db: Db, u: nat, e: nat, cn: string, secret: Secret, now: Instant)
    requires Inv(db, now) && Issue(db, u, e, cn, secret, now).1.Prepared?
    ensures var next := Issue(db, u, e, cn, secret, now).0;
            && CodesReplaced(db.codes, next.codes, u, now) && SessionsReplaced(db.sessions, next.sessions, u, now)
            && Appended(db, next, u, e, cn, secret, now)
            && next == db.(codes := next.codes, sessions := next.sessions)
  {
    Stamps(db, now);
    hide Inv, CoolingDown, IssuedIn;
  }

  lemma NobodyRecovers(db: Db, u: nat)
    requires u >= |db.users|
    ensures forall e: nat :: !Recoverable(db, u, e)
  {}

  lemma LogApart(db: Db, logged: Db, next: Db, u: nat, e: nat, cn: string, secret: Secret, now: Instant)
    requires logged == db.(requests := logged.requests)
    ensures OverdueEnded(logged, next, u, now) == OverdueEnded(db, next, u, now)
    ensures Appended(logged, next, u, e, cn, secret, now) == Appended(db, next, u, e, cn, secret, now)
  {}

  lemma IssuedExactly(db: Db, u: nat, e: nat, cn: string, secret: Secret, now: Instant)
    requires Inv(db, now)
    ensures var (next, reply) := Issue(db, u, e, cn, secret, now);
            && next == db.(codes := next.codes, sessions := next.sessions)
            && if reply == Refused(RateLimited) then OverdueEnded(db, next, u, now)
               else
                 && reply == Prepared(|db.codes|)
                 && CodesReplaced(db.codes, next.codes, u, now) && SessionsReplaced(db.sessions, next.sessions, u, now)
                 && Appended(db, next, u, e, cn, secret, now)
  {
    hide Inv, OverdueEnded, CodesReplaced, SessionsReplaced, Appended, LapseCodes, LapseSessions, RetireCodes,
      RetireSessions;
    if Issue(db, u, e, cn, secret, now).1.Prepared? {
      IssueReplaces(db, u, e, cn, secret, now);
    } else {
      OverdueEnds(db, u, now);
    }
  }

  /** A request with a CN and an address adds exactly its own row to the log, refused or not; one
      refused before the user's codes are looked at leaves nothing else behind, one refused for the
      codes the user already got leaves their overdue secrets closed, and one granted replaces
      whatever the user had in play by a code for this user, email and CN. */
  lemma RequestExactly(db: Db, cnInput: string, ipInput: string, row: Option<nat>, secret: Secret, now: Instant)
    requires Inv(db, now)
    ensures var (next, reply) := Prepare(db, cnInput, ipInput, row, secret, now);
            var (cn, ip) := (FoldCN(cnInput), Trim(ipInput));
            var logged := db.(requests := db.requests + [Request(cn, ip, now)]);
            if cn == "" || ip == "" then next == db && reply == Refused(Unavailable)
            else if OverLimit(db, cn, ip, now) then next == logged && reply == Refused(RateLimited)
            else if row.None? || !exists e: nat :: Recoverable(db, row.value, e)
              then next == logged && reply == Refused(NotEligible)
            else
              && next == logged.(codes := next.codes, sessions := next.sessions)
              && if reply == Refused(RateLimited) then OverdueEnded(db, next, row.value, now)
                 else
                   && reply == Prepared(|db.codes|)
                   && CodesReplaced(db.codes, next.codes, row.value, now)
                   && SessionsReplaced(db.sessions, next.sessions, row.value, now)
                   && Granted(db, next, row.value, cn, secret, now)
  {
    hide Inv, Issue, Recoverable, CodesReplaced, SessionsReplaced, OverdueEnded, Appended;
    var (cn, ip) := (FoldCN(cnInput), Trim(ipInput));
    if cn != "" && ip != "" && !OverLimit(db, cn, ip, now) && row.Some? {
      if row.value < |db.users| {
        RecoverableIs(db, now, row.value);
        if e: nat :| Recoverable(db, row.value, e) {
          var logged := db.(requests := db.requests + [Request(cn, ip, now)]);
          RequestsIrrelevant(db, logged.requests, now);
          IssuedExactly(logged, row.value, e, cn, secret, now);
          LogApart(db, logged, Issue(logged, row.value, e, cn, secret, now).0, row.value, e, cn, secret, now);
        }
      } else {
        assert forall e: nat :: !Recoverable(db, row.value, e) by { NobodyRecovers(db, row.value); }
      }
    }
  }

  // ---------- Guesses and resets ----------

  lemma AcceptedRow(db: Db, c: nat, row: Option<nat>, cn: string, guess: string, now: Instant)
    requires RightGuess(db, c, row, cn, guess, now)
    ensures c < |db.codes| && db.codes[c].status == Live && row == Some(db.codes[c].user)
  {}

  lemma NothingToRetire(codes: seq<Code>, sessions: seq<Session>, u: nat, now: Instant)
    requires Quiet(codes, sessions, u)
    ensures RetireCodes(codes, u, now) == codes && RetireSessions(sessions, u, now) == sessions
  {}

  lemma AcceptWrites(db: Db, u: nat, e: nat, c: nat, token: string, now: Instant)
    requires Inv(db, now) && c < |db.codes| && InFlight(db.codes[c]) && db.codes[c].user == u
    ensures Accept(db, u, e, c, token, now).0 ==
              db.(codes := db.codes[c := db.codes[c].(status := Used, usedAt := Some(now))],
                  sessions := db.sessions + [Session(u, e, token, now + TOKEN_TTL, Open, None, None)])
  {
    InPlayIsSole(db, now, u, CodeKey(c));
    hide Inv;
    var used := db.codes[c := db.codes[c].(status := Used, usedAt := Some(now))];
    NothingToRetire(used, db.sessions, u, now) by {
      forall i | 0 <= i < |used| ensures !(InFlight(used[i]) && used[i].user == u) {
        assert i != c ==> !InPlay(db, u, CodeKey(i));
      }
      assert forall i :: 0 <= i < |db.sessions| ==> !InPlay(db, u, SessionKey(i));
    }
  }

  /** An accepted guess uses up its code and opens a session: since a user has one secret in play at
      most, nothing else is left to withdraw. */
  lemma AcceptedWrites(db: Db, cnInput: string, guess: string, row: Option<nat>, pick: Option<nat>, token: string,
                       now: Instant)
    requires Inv(db, now) && Offered(db, Event(VerifyStep(cnInput, guess, row, pick, token), now))
    requires VerifyCode(db, cnInput, guess, row, pick, token, now).1.CodeVerified?
    ensures var (next, reply) := VerifyCode(db, cnInput, guess, row, pick, token, now);
            && reply.code < |db.codes|
            && next == db.(codes := db.codes[reply.code := db.codes[reply.code].(status := Used, usedAt := Some(now))],
                           sessions := db.sessions + [Session(db.codes[reply.code].user, db.codes[reply.code].email,
                                                              token, now + TOKEN_TTL, Open, None, None)])
  {
    var (next, reply) := VerifyCode(db, cnInput, guess, row, pick, token, now);
    hide Inv, Accept, Sole, RightGuess;
    VerifiedOnlyIf(db, cnInput, guess, row, pick, token, now);
    AcceptedRow(db, pick.value, row, FoldCN(cnInput), guess, now);
    LiveIsReached(db, pick.value, pick, now);
    AcceptWrites(db, row.value, db.codes[pick.value].email, pick.value, token, now);
  }

  /** A guess at a live code out of time closes that code and does nothing else. */
  lemma LateGuess(db: Db, cnInput: string, guess: string, row: Option<nat>, pick: Option<nat>, token: string,
                  now: Instant, c: nat)
    requires Inv(db, now) && Offered(db, Event(VerifyStep(cnInput, guess, row, pick, token), now)) && ValidCode(guess)
    requires c < |db.codes| && db.codes[c].status == Live && db.codes[c].expires <= now && row == Some(db.codes[c].user)
    ensures VerifyCode(db, cnInput, guess, row, pick, token, now) ==
              (db.(codes := db.codes[c := db.codes[c].(status := Expired, invalidatedAt := Some(now))]),
               Refused(Rejected))
  {
    LiveIsReached(db, c, pick, now);
    Stamps(db, now);
    hide Inv;
  }

  /** The code is one of the active user's for their verified current email, and locked. */
  predicate LockedFor(db: Db, u: nat, c: nat) {
    && c < |db.codes| && db.codes[c].status == Locked && db.codes[c].user == u
    && Standing(db.users, db.emails, u, db.codes[c].email) && db.emails[db.codes[c].email].user == u
  }

  /** A guess where the user has no live code, or that is not a code at all, changes nothing; only that
      the code looked up is locked is told apart. */
  lemma StrayGuess(db: Db, cnInput: string, guess: string, row: Option<nat>, pick: Option<nat>, token: string,
                   now: Instant)
    requires Inv(db, now) && Offered(db, Event(VerifyStep(cnInput, guess, row, pick, token), now))
    requires |guess| != 6 || (exists ch :: ch in guess && !('0' <= ch <= '9')) || row.None?
             || forall c :: 0 <= c < |db.codes| && db.codes[c].user == row.value ==> db.codes[c].status != Live
    ensures var (next, reply) := VerifyCode(db, cnInput, guess, row, pick, token, now);
            && next == db
            && reply == Refused(
                          if |guess| != 6 || exists ch :: ch in guess && !('0' <= ch <= '9') then InvalidCode
                          else if row.Some? && pick.Some? && LockedFor(db, row.value, pick.value) then AttemptsExhausted
                          else Rejected)
  {
    CurrentEmailFinds(db.emails, if row.Some? then row.value else 0);
    if row.Some? && pick.Some? && LockedFor(db, row.value, pick.value) {
      CurrentIs(db, now, row.value, db.codes[pick.value].email);
    }
    hide Inv;
  }

  lemma CompleteWrites(db: Db, s: nat, newCode: string, now: Instant)
    requires Inv(db, now) && s < |db.sessions| && db.sessions[s].user < |db.users| && db.sessions[s].status == Open
    ensures var u := db.sessions[s].user;
            Complete(db, s, newCode, now).0 ==
              db.(users := db.users[u := db.users[u].(queryCode := Some(newCode))],
                  sessions := db.sessions[s := db.sessions[s].(status := Spent, usedAt := Some(now))])
  {
    var u := db.sessions[s].user;
    InPlayIsSole(db, now, u, SessionKey(s));
    hide Inv;
    var spent := db.sessions[s := db.sessions[s].(status := Spent, usedAt := Some(now))];
    NothingToRetire(db.codes, spent, u, now) by {
      assert forall i :: 0 <= i < |db.codes| ==> !InPlay(db, u, CodeKey(i));
      forall i | 0 <= i < |spent| ensures !(spent[i].status == Open && spent[i].user == u) {
        assert i != s ==> !InPlay(db, u, SessionKey(i));
      }
    }
  }

  /** A completed reset changes its user's query code and its session, and nothing else: no other
      secret of the user's was in play. */
  lemma ResetWrites(db: Db, token: string, newCode: string, now: Instant)
    requires Inv(db, now) && ResetQueryCode(db, token, newCode, now).1.ResetDone?
    ensures var (next, reply) := ResetQueryCode(db, token, newCode, now);
            && reply.session < |db.sessions| && db.sessions[reply.session].user < |db.users|
            && var (s, u) := (db.sessions[reply.session], db.sessions[reply.session].user);
               next == db.(users := db.users[u := db.users[u].(queryCode := Some(newCode))],
                           sessions := db.sessions[reply.session := s.(status := Spent, usedAt := Some(now))])
  {
    ResetOnlyIf(db, token, newCode, now);
    var s := ResetQueryCode(db, token, newCode, now).1.session;
    ResetIf(db, token, newCode, now, s);
    CompleteWrites(db, s, newCode, now);
  }

  /** A token whose open session is out of time, of a user who has a query code to reset. */
  predicate TooLate(db: Db, s: nat, token: string, now: Instant) {
    && s < |db.sessions| && db.sessions[s].token == token && db.sessions[s].status == Open
    && db.sessions[s].expires <= now
    && db.sessions[s].user < |db.users| && db.users[db.sessions[s].user].queryCode.Some?
  }

  /** A reset that comes too late closes its session; any other refused reset changes nothing. */
  lemma ResetRefused(db: Db, token: string, newCode: string, now: Instant)
    requires Inv(db, now) && !ResetQueryCode(db, token, newCode, now).1.ResetDone?
    ensures var next := ResetQueryCode(db, token, newCode, now).0;
            && (forall s: nat :: TooLate(db, s, token, now) ==>
                  next == db.(sessions := db.sessions[s := db.sessions[s].(status := Lapsed,
                                                                           invalidatedAt := Some(now))]))
            && ((forall s: nat :: !TooLate(db, s, token, now)) ==> next == db)
  {
    FindTokenFinds(db.sessions, token);
    var found := FindToken(db.sessions, token);
    assert TokensDiffer(db.sessions);
    if found.Some? && db.sessions[found.value].status == Open {
      var s := db.sessions[found.value];
      assert Standing(db.users, db.emails, s.user, s.email) && db.emails[s.email].user == s.user;
      CurrentIs(db, now, s.user, s.email);
      Stamps(db, now);
      assert s.expires <= now && db.users[s.user].queryCode.Some? ==> TooLate(db, found.value, token, now);
    }
    hide Inv;
  }

  // ---------- What withdraws a user's secrets ----------

  /** The user is known and has not been merged into another. */
  predicate Manageable(db: Db, u: nat) {
    u < |db.users| && db.users[u].status != Merged
  }

  /** Secrets in play are those of the user's current email, so that dropping it withdraws them all. */
  lemma DropWithdraws(db: Db, u: nat, e: nat, now: Instant)
    requires Inv(db, now) && e < |db.emails| && db.emails[e].user == u && db.emails[e].current
    ensures Withdrawn(db, DropEmail(db, e, now), u, now)
  {
    Stamps(db, now);
    forall i | 0 <= i < |db.codes| && InFlight(db.codes[i]) ensures db.codes[i].user == u <==> db.codes[i].email == e {
      assert Standing(db.users, db.emails, db.codes[i].user, db.codes[i].email);
    }
    forall i | 0 <= i < |db.sessions| && db.sessions[i].status == Open
      ensures db.sessions[i].user == u <==> db.sessions[i].email == e
    {
      assert Standing(db.users, db.emails, db.sessions[i].user, db.sessions[i].email);
    }
    hide Inv;
  }

  /** The user has registered this address, and it has not been replaced or unbound. */
  predicate Registered(emails: seq<Email>, e: nat, u: nat, lookup: string) {
    e < |emails| && emails[e].user == u && emails[e].current && emails[e].lookup == lookup
  }

  /** The user's registered address is off. */
  ghost predicate AddressOff(emails: seq<Email>, after: seq<Email>, u: nat) {
    && |emails| <= |after|
    && forall i :: 0 <= i < |emails| ==>
      after[i] == if emails[i].user == u && emails[i].current then emails[i].(status := Off, current := false)
                  else emails[i]
  }

  lemma NoneToWithdraw(db: Db, u: nat, now: Instant)
    requires Inv(db, now) && forall i :: 0 <= i < |db.emails| ==> !(db.emails[i].user == u && db.emails[i].current)
    ensures Withdrawn(db, db, u, now)
  {
    assert forall i :: 0 <= i < |db.codes| && InFlight(db.codes[i]) ==>
        Standing(db.users, db.emails, db.codes[i].user, db.codes[i].email);
    assert forall i :: 0 <= i < |db.sessions| && db.sessions[i].status == Open ==>
        Standing(db.users, db.emails, db.sessions[i].user, db.sessions[i].email);
  }

  /** What remains after the user's address has been taken away. */
  lemma Dropped(db: Db, u: nat, now: Instant)
    requires Inv(db, now)
    ensures var current := CurrentEmail(db.emails, u);
            var next := if current.Some? then DropEmail(db, current.value, now) else db;
            && Withdrawn(db, next, u, now) && AddressOff(db.emails, next.emails, u) && |next.emails| == |db.emails|
            && next.users == db.users && next.requests == db.requests
  {
    CurrentEmailFinds(db.emails, u);
    var current := CurrentEmail(db.emails, u);
    assert OneEmail(db.emails);
    if current.Some? { DropWithdraws(db, u, current.value, now); } else { NoneToWithdraw(db, u, now); }
    hide Inv, Withdrawn;
  }

  lemma SameAddress(db: Db, last: int, u: nat, lookup: string)
    requires Inv(db, last)
    ensures var current := CurrentEmail(db.emails, u);
            (exists e: nat :: Registered(db.emails, e, u, lookup)) <==>
              current.Some? && current.value < |db.emails| && db.emails[current.value].lookup == lookup
  {
    CurrentEmailFinds(db.emails, u);
    var current := CurrentEmail(db.emails, u);
    forall e: nat | Registered(db.emails, e, u, lookup) ensures current == Some(e) { CurrentIs(db, last, u, e); }
    if current.Some? && db.emails[current.value].lookup == lookup {
      assert Registered(db.emails, current.value, u, lookup);
    }
  }

  /** A new address takes the place of the old one, waits for verification and leaves the user
      without a secret in play; the same address again changes nothing. */
  lemma PutExactly(db: Db, u: nat, lookup: string, now: Instant)
    requires Inv(db, now)
    ensures var (next, reply) := PutEmail(db, u, lookup, now);
            && (reply == Done <==> Manageable(db, u))
            && if !Manageable(db, u) || exists e: nat :: Registered(db.emails, e, u, lookup) then next == db
               else
                 && next == db.(emails := next.emails, codes := next.codes, sessions := next.sessions)
                 && Withdrawn(db, next, u, now) && AddressOff(db.emails, next.emails, u)
                 && next.emails[|db.emails|..] == [Email(u, lookup, Pending, true)]
  {
    hide Inv, DropEmail, Registered;
    SameAddress(db, now, u, lookup);
    Dropped(db, u, now);
  }

  lemma UnboundExactly(db: Db, u: nat, now: Instant)
    requires Inv(db, now)
    ensures var (next, reply) := UnbindEmail(db, u, now);
            && (reply == Done <==> Manageable(db, u))
            && if !Manageable(db, u) then next == db
               else
                 && next == db.(emails := next.emails, codes := next.codes, sessions := next.sessions)
                 && Withdrawn(db, next, u, now) && AddressOff(db.emails, next.emails, u) && |next.emails| == |db.emails|
  {
    hide Inv, DropEmail, Withdrawn, AddressOff;
    Dropped(db, u, now);
  }

  /** Disabling a user withdraws their secrets; enabling one touches nothing but the status. */
  lemma AccessExactly(db: Db, u: nat, enabled: bool, now: Instant)
    requires Inv(db, now)
    ensures var (next, reply) := SetAccess(db, u, enabled, now);
            && (reply == Done <==> Manageable(db, u))
            && if !Manageable(db, u) then next == db
               else
                 && next == db.(users := next.users, codes := next.codes, sessions := next.sessions)
                 && next.users == db.users[u := db.users[u].(status := if enabled then Active else Disabled)]
                 && if enabled then next.codes == db.codes && next.sessions == db.sessions
                    else Withdrawn(db, next, u, now)
  {
    Stamps(db, now);
    hide Inv;
  }

  /** A merge leaves the source without a query code and without a secret in play. */
  lemma MergedExactly(db: Db, source: nat, target: nat, now: Instant)
    requires Inv(db, now)
    ensures var (next, reply) := MergeUsers(db, source, target, now);
            && (reply == Done <==>
                  source != target && Manageable(db, source) && target < |db.users|
                    && db.users[target].status == Active)
            && if reply != Done then next == db
               else
                 && next == db.(users := next.users, codes := next.codes, sessions := next.sessions)
                 && next.users == db.users[source := db.users[source].(status := Merged, queryCode := None)]
                 && Withdrawn(db, next, source, now)
  {
    Stamps(db, now);
    hide Inv;
  }

  /** An email is marked verified exactly when the user's current one waits for it. */
  lemma MarkedExactly(db: Db, last: int, u: nat, e: nat)
    requires Inv(db, last) && e < |db.emails| && db.emails[e].user == u && db.emails[e].current
    ensures var (next, reply) := MarkEmailVerified(db, u);
            if db.emails[e].status == Pending
            then reply == Done && next == db.(emails := db.emails[e := db.emails[e].(status := Verified)])
            else reply == Refused(Rejected) && next == db
  {
    CurrentIs(db, last, u, e);
  }
}
