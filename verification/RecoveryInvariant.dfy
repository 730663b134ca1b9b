/** What every interleaving of recovery transactions keeps: a user has at most one secret in
    play, every live secret belongs to an active user with a verified current email, and the
    code that VerifyCode looks up is the live one. */
module RecoveryInvariant {
  import opened Text
  import opened Recovery

  // ---------- The invariant, table by table ----------

  ghost predicate Links(users: seq<User>, emails: seq<Email>, codes: seq<Code>, sessions: seq<Session>) {
    && (forall i :: 0 <= i < |emails| ==> emails[i].user < |users|)
    && (forall i :: 0 <= i < |codes| ==> codes[i].email < |emails| && emails[codes[i].email].user == codes[i].user)
    && (forall i :: 0 <= i < |sessions| ==>
        sessions[i].email < |emails| && emails[sessions[i].email].user == sessions[i].user)
  }

  predicate Consistent(c: Code) {
    && (InFlight(c) <==> c.usedAt.None? && c.invalidatedAt.None?)
    && (c.status == Used <==> c.usedAt.Some?)
    && (c.status == Sending ==> c.attempts == 0)
    && (c.status == Live ==> c.sentAt.Some? && c.attempts < c.maxAttempts)
    && (c.attempts > 0 || c.usedAt.Some? ==> c.sentAt.Some?)
    && c.attempts <= c.maxAttempts == MAX_ATTEMPTS && c.expires == c.created + CODE_TTL && c.cn != ""
  }

  ghost predicate CodesOk(codes: seq<Code>) {
    forall i :: 0 <= i < |codes| ==> Consistent(codes[i])
  }

  predicate SessionConsistent(s: Session) {
    && (s.status == Open <==> s.usedAt.None? && s.invalidatedAt.None?)
    && (s.status == Spent <==> s.usedAt.Some?)
  }

  ghost predicate SessionsOk(sessions: seq<Session>) {
    forall i :: 0 <= i < |sessions| ==> SessionConsistent(sessions[i])
  }

  /** A code in flight is the newest of its user's codes, so there is at most one. */
  ghost predicate Newest(codes: seq<Code>) {
    forall i, j :: 0 <= i < |codes| && 0 <= j < |codes| && InFlight(codes[i]) && codes[j].user == codes[i].user ==>
      j <= i
  }

  ghost predicate OneSession(sessions: seq<Session>) {
    forall i, j :: 0 <= i < j < |sessions| && sessions[i].status == Open && sessions[j].status == Open ==>
      sessions[i].user != sessions[j].user
  }

  ghost predicate Exclusive(codes: seq<Code>, sessions: seq<Session>) {
    forall i, j :: 0 <= i < |codes| && 0 <= j < |sessions| && InFlight(codes[i]) && sessions[j].status == Open ==>
      codes[i].user != sessions[j].user
  }

  ghost predicate TokensDiffer(sessions: seq<Session>) {
    forall i, j :: 0 <= i < j < |sessions| ==> sessions[i].token != sessions[j].token
  }

  ghost predicate OneEmail(emails: seq<Email>) {
    forall i, j :: 0 <= i < j < |emails| && emails[i].current && emails[j].current ==> emails[i].user != emails[j].user
  }

  predicate Standing(users: seq<User>, emails: seq<Email>, u: nat, e: nat) {
    && u < |users| && users[u].status == Active
    && e < |emails| && emails[e].current && emails[e].status == Verified
  }

  ghost predicate CodesStand(users: seq<User>, emails: seq<Email>, codes: seq<Code>) {
    forall i :: 0 <= i < |codes| && InFlight(codes[i]) ==> Standing(users, emails, codes[i].user, codes[i].email)
  }

  ghost predicate SessionsStand(users: seq<User>, emails: seq<Email>, sessions: seq<Session>) {
    forall i :: 0 <= i < |sessions| && sessions[i].status == Open ==>
      Standing(users, emails, sessions[i].user, sessions[i].email)
  }

  /** Codes are in order of creation, and one pair's codes are at least the cool-down apart. */
  ghost predicate Spaced(codes: seq<Code>, last: int) {
    && (forall i :: 0 <= i < |codes| ==> codes[i].created <= last)
    && (forall i, j :: 0 <= i < j < |codes| ==>
          codes[i].created + (if IssuedFor(codes[i], codes[j].user, codes[j].email) then COOLDOWN else 0)
            <= codes[j].created)
  }

  ghost predicate Inv(db: Db, last: int) {
    && Links(db.users, db.emails, db.codes, db.sessions)
    && CodesOk(db.codes) && SessionsOk(db.sessions)
    && Newest(db.codes) && OneSession(db.sessions) && Exclusive(db.codes, db.sessions) && TokensDiffer(db.sessions)
    && OneEmail(db.emails)
    && CodesStand(db.users, db.emails, db.codes) && SessionsStand(db.users, db.emails, db.sessions)
    && Spaced(db.codes, last)
  }

  // ---------- Retiring rows ----------

  /** The row is kept, or it was in flight and is now dead and stamped. */
  predicate RetiresTo(c: Code, d: Code) {
    || d == c
    || (InFlight(c) && !InFlight(d) && d.status != Used && d.invalidatedAt.Some?
        && d == c.(status := d.status, invalidatedAt := d.invalidatedAt))
  }

  ghost predicate Retires(codes: seq<Code>, after: seq<Code>) {
    |after| == |codes| && forall i :: 0 <= i < |codes| ==> RetiresTo(codes[i], after[i])
  }

  predicate SessionRetiresTo(s: Session, t: Session) {
    || t == s
    || (s.status == Open && t.status != Open && t.status != Spent && t.invalidatedAt.Some?
        && t == s.(status := t.status, invalidatedAt := t.invalidatedAt))
  }

  ghost predicate SessionsRetire(sessions: seq<Session>, after: seq<Session>) {
    |after| == |sessions| && forall i :: 0 <= i < |sessions| ==> SessionRetiresTo(sessions[i], after[i])
  }

  lemma UpdatesRetire(codes: seq<Code>, u: nat, e: nat, now: Instant)
    ensures Retires(codes, LapseCodes(codes, u, now)) && Retires(codes, RetireCodes(codes, u, now))
    ensures Retires(codes, RetireCodesOfEmail(codes, e, now))
  {}

  lemma SessionUpdatesRetire(sessions: seq<Session>, u: nat, e: nat, now: Instant)
    ensures SessionsRetire(sessions, LapseSessions(sessions, u, now))
    ensures SessionsRetire(sessions, RetireSessions(sessions, u, now))
    ensures SessionsRetire(sessions, RetireSessionsOfEmail(sessions, e, now))
  {}

  lemma RetiringKeepsRow(c: Code, d: Code)
    requires Consistent(c) && RetiresTo(c, d)
    ensures Consistent(d)
  {}

  lemma RetiringCodesKeeps(codes: seq<Code>, after: seq<Code>, last: int)
    requires Retires(codes, after) && CodesOk(codes) && Newest(codes) && Spaced(codes, last)
    ensures CodesOk(after) && Newest(after) && Spaced(after, last)
  {
    hide Consistent;
    forall i | 0 <= i < |after| ensures Consistent(after[i]) { RetiringKeepsRow(codes[i], after[i]); }
  }

  lemma RetiringSessionsKeeps(sessions: seq<Session>, after: seq<Session>)
    requires SessionsRetire(sessions, after) && SessionsOk(sessions) && OneSession(sessions) && TokensDiffer(sessions)
    ensures SessionsOk(after) && OneSession(after) && TokensDiffer(after)
  {}

  lemma RetiringKeepsLinks(db: Db, codes: seq<Code>, sessions: seq<Session>)
    requires Retires(db.codes, codes) && SessionsRetire(db.sessions, sessions)
    requires Links(db.users, db.emails, db.codes, db.sessions)
    ensures Links(db.users, db.emails, codes, sessions)
  {}

  lemma RetiringKeepsRest(db: Db, codes: seq<Code>, sessions: seq<Session>)
    requires Retires(db.codes, codes) && SessionsRetire(db.sessions, sessions)
    requires Exclusive(db.codes, db.sessions)
    requires CodesStand(db.users, db.emails, db.codes) && SessionsStand(db.users, db.emails, db.sessions)
    ensures Exclusive(codes, sessions)
    ensures CodesStand(db.users, db.emails, codes) && SessionsStand(db.users, db.emails, sessions)
  {
    hide Standing;
  }

  lemma RetiringKeepsInv(db: Db, last: int, codes: seq<Code>, sessions: seq<Session>)
    requires Inv(db, last) && Retires(db.codes, codes) && SessionsRetire(db.sessions, sessions)
    ensures Inv(db.(codes := codes, sessions := sessions), last)
  {
    RetiringCodesKeeps(db.codes, codes, last);
    RetiringSessionsKeeps(db.sessions, sessions);
    RetiringKeepsLinks(db, codes, sessions);
    RetiringKeepsRest(db, codes, sessions);
  }

  lemma KeepsSelf(codes: seq<Code>, sessions: seq<Session>)
    ensures Retires(codes, codes) && SessionsRetire(sessions, sessions)
  {}

  lemma LaterKeepsInv(db: Db, last: int, now: int)
    requires Inv(db, last) && last <= now
    ensures Inv(db, now)
  {}

  /** No secret of the user's is in play. */
  ghost predicate Quiet(codes: seq<Code>, sessions: seq<Session>, u: nat) {
    && (forall i :: 0 <= i < |codes| ==> codes[i].user == u ==> !InFlight(codes[i]))
    && (forall i :: 0 <= i < |sessions| ==> sessions[i].user == u ==> sessions[i].status != Open)
  }

  lemma RetiringQuiets(codes: seq<Code>, sessions: seq<Session>, u: nat, now: Instant)
    requires CodesOk(codes) && SessionsOk(sessions)
    ensures Quiet(RetireCodes(codes, u, now), RetireSessions(sessions, u, now), u)
  {
    forall i | 0 <= i < |codes| && codes[i].user == u
      ensures !InFlight(RetireCode(codes[i], u, now))
    {
      assert Consistent(codes[i]);
    }
  }

  // ---------- Looking rows up ----------

  lemma {:induction false} CurrentEmailFinds(emails: seq<Email>, u: nat)
    ensures match CurrentEmail(emails, u)
            case Some(e) => e < |emails| && emails[e].user == u && emails[e].current
            case None => forall i :: 0 <= i < |emails| ==> !(emails[i].user == u && emails[i].current)
  {
    if emails != [] {
      var n := |emails| - 1;
      CurrentEmailFinds(emails[..n], u);
      assert forall i :: 0 <= i < n ==> emails[..n][i] == emails[i];
    }
  }

  lemma {:induction false} FindTokenFinds(sessions: seq<Session>, token: string)
    ensures match FindToken(sessions, token)
            case Some(s) => s < |sessions| && sessions[s].token == token
            case None => forall i :: 0 <= i < |sessions| ==> sessions[i].token != token
  {
    if sessions != [] {
      var n := |sessions| - 1;
      FindTokenFinds(sessions[..n], token);
      assert forall i :: 0 <= i < n ==> sessions[..n][i] == sessions[i];
    }
  }

  // ---------- Issuing a code ----------

  lemma AppendSpaced(codes: seq<Code>, code: Code, now: Instant)
    requires Spaced(codes, now) && code.created == now && !CoolingDown(codes, code.user, code.email, now)
    ensures Spaced(codes + [code], now)
  {
    forall i | 0 <= i < |codes| && IssuedFor(codes[i], code.user, code.email)
      ensures codes[i].created + COOLDOWN <= now
    {
    }
  }

  lemma AppendAlone(db: Db, code: Code)
    requires Newest(db.codes) && Exclusive(db.codes, db.sessions) && CodesStand(db.users, db.emails, db.codes)
    requires Quiet(db.codes, db.sessions, code.user) && Standing(db.users, db.emails, code.user, code.email)
    ensures var codes := db.codes + [code];
            Newest(codes) && Exclusive(codes, db.sessions) && CodesStand(db.users, db.emails, codes)
  {
    hide Standing;
  }

  lemma AppendCodeKeepsInv(db: Db, u: nat, e: nat, cn: string, secret: Secret, now: Instant)
    requires Inv(db, now) && Quiet(db.codes, db.sessions, u) && cn != ""
    requires Standing(db.users, db.emails, u, e) && db.emails[e].user == u
    requires !CoolingDown(db.codes, u, e, now)
    ensures Inv(db.(codes := db.codes + [NewCode(u, e, cn, secret, now)]), now)
  {
    hide Newest, OneSession, Exclusive, TokensDiffer, OneEmail, CodesStand, SessionsStand, Spaced, Quiet, CoolingDown;
    var code := NewCode(u, e, cn, secret, now);
    assert Consistent(code);
    AppendSpaced(db.codes, code, now);
    AppendAlone(db, code);
  }

  lemma CoolingDownKept(codes: seq<Code>, after: seq<Code>, u: nat, e: nat, now: Instant)
    requires Retires(codes, after)
    ensures CoolingDown(after, u, e, now) == CoolingDown(codes, u, e, now)
  {
    if CoolingDown(codes, u, e, now) {
      var i :| 0 <= i < |codes| && IssuedFor(codes[i], u, e) && now < codes[i].created + COOLDOWN;
      assert IssuedFor(after[i], u, e);
    }
  }

  lemma InvParts(db: Db, last: int)
    requires Inv(db, last)
    ensures CodesOk(db.codes) && SessionsOk(db.sessions) && OneEmail(db.emails) && TokensDiffer(db.sessions)
    ensures Links(db.users, db.emails, db.codes, db.sessions)
  {}

  lemma IssueKeepsInv(db: Db, u: nat, e: nat, cn: string, secret: Secret, now: Instant)
    requires Inv(db, now) && cn != "" && Standing(db.users, db.emails, u, e) && db.emails[e].user == u
    ensures Inv(Issue(db, u, e, cn, secret, now).0, now)
  {
    hide Inv, LapseCodes, LapseSessions, RetireCodes, RetireSessions, CoolingDown, IssuedIn, Retires, SessionsRetire,
      Quiet;
    var (codes, sessions) := (LapseCodes(db.codes, u, now), LapseSessions(db.sessions, u, now));
    UpdatesRetire(db.codes, u, e, now);
    SessionUpdatesRetire(db.sessions, u, e, now);
    RetiringKeepsInv(db, now, codes, sessions);
    var lapsed := db.(codes := codes, sessions := sessions);
    UpdatesRetire(codes, u, e, now);
    SessionUpdatesRetire(sessions, u, e, now);
    RetiringKeepsInv(lapsed, now, RetireCodes(codes, u, now), RetireSessions(sessions, u, now));
    InvParts(lapsed, now);
    RetiringQuiets(codes, sessions, u, now);
    var cleared := lapsed.(codes := RetireCodes(codes, u, now), sessions := RetireSessions(sessions, u, now));
    CoolingDownKept(codes, cleared.codes, u, e, now);
    if !CoolingDown(codes, u, e, now) {
      AppendCodeKeepsInv(cleared, u, e, cn, secret, now);
    }
  }

  lemma RequestsIrrelevant(db: Db, requests: seq<Request>, last: int)
    requires Inv(db, last)
    ensures Inv(db.(requests := requests), last)
  {}

  lemma PrepareKeepsInv(db: Db, cnInput: string, ipInput: string, row: Option<nat>, secret: Secret, last: int,
                        now: Instant)
    requires Inv(db, last) && last <= now
    ensures Inv(Prepare(db, cnInput, ipInput, row, secret, now).0, now)
  {
    LaterKeepsInv(db, last, now);
    var cn, ip := FoldCN(cnInput), Trim(ipInput);
    var counted := db.(requests := db.requests + [Request(cn, ip, now)]);
    RequestsIrrelevant(db, counted.requests, now);
    if row.Some? && row.value < |db.users| && Eligible(db.users[row.value]) {
      hide Inv, Issue;
      CurrentEmailFinds(db.emails, row.value);
      var current := CurrentEmail(db.emails, row.value);
      if current.Some? && db.emails[current.value].status == Verified && cn != "" {
        IssueKeepsInv(counted, row.value, current.value, cn, secret, now);
      }
    }
  }

  // ---------- Confirming and failing a send ----------

  /** A row update that keeps the code in flight, or kills it, keeps everything. */
  lemma UpdateKeepsInv(db: Db, last: int, c: nat, d: Code)
    requires Inv(db, last) && c < |db.codes| && Consistent(d) && InFlight(db.codes[c])
    requires d.user == db.codes[c].user && d.email == db.codes[c].email && d.created == db.codes[c].created
    ensures Inv(db.(codes := db.codes[c := d]), last)
  {
    var codes := db.codes[c := d];
    assert CodesOk(codes);
    assert Newest(codes);
    assert Exclusive(codes, db.sessions);
    assert CodesStand(db.users, db.emails, codes);
    assert Spaced(codes, last);
    assert Links(db.users, db.emails, codes, db.sessions);
  }

  lemma ConfirmKeepsInv(db: Db, c: nat, u: nat, e: nat, last: int, now: Instant)
    requires Inv(db, last) && last <= now
    ensures Inv(ConfirmSent(db, c, u, e, now).0, now)
  {
    LaterKeepsInv(db, last, now);
    var after := ConfirmSent(db, c, u, e, now).0;
    if after != db {
      UpdateKeepsInv(db, now, c, after.codes[c]);
    }
  }

  lemma FailKeepsInv(db: Db, c: nat, u: nat, last: int, now: Instant)
    requires Inv(db, last) && last <= now
    ensures Inv(MarkDeliveryFailed(db, c, u, now), now)
  {
    LaterKeepsInv(db, last, now);
    var after := MarkDeliveryFailed(db, c, u, now);
    if after != db {
      assert Consistent(db.codes[c]);
      UpdateKeepsInv(db, now, c, after.codes[c]);
    }
  }

  // ---------- Checking a guess ----------

  lemma SameTokens(sessions: seq<Session>, after: seq<Session>, token: string)
    requires SessionsRetire(sessions, after)
    requires forall i :: 0 <= i < |sessions| ==> sessions[i].token != token
    ensures forall i :: 0 <= i < |after| ==> after[i].token != token
  {}

  lemma AppendSessionKeepsInv(db: Db, last: int, s: Session)
    requires Inv(db, last) && Quiet(db.codes, db.sessions, s.user)
    requires s.status == Open && s.usedAt.None? && s.invalidatedAt.None?
    requires Standing(db.users, db.emails, s.user, s.email) && db.emails[s.email].user == s.user
    requires forall i :: 0 <= i < |db.sessions| ==> db.sessions[i].token != s.token
    ensures Inv(db.(sessions := db.sessions + [s]), last)
  {
    var sessions := db.sessions + [s];
    assert SessionsOk(sessions);
    assert OneSession(sessions);
    assert Exclusive(db.codes, sessions);
    assert TokensDiffer(sessions);
    assert SessionsStand(db.users, db.emails, sessions);
    assert Links(db.users, db.emails, db.codes, sessions);
  }

  /** A used code, everything else of its user's retired, and the session it opened. */
  lemma AcceptKeepsInv(db: Db, u: nat, e: nat, c: nat, token: string, now: Instant)
    requires Inv(db, now) && c < |db.codes| && db.codes[c].status == Live && IssuedFor(db.codes[c], u, e)
    requires FindToken(db.sessions, token).None?
    ensures Inv(Accept(db, u, e, c, token, now).0, now)
  {
    var d := db.codes[c].(status := Used, usedAt := Some(now));
    var used := db.(codes := db.codes[c := d]);
    assert Consistent(db.codes[c]) && Standing(db.users, db.emails, u, e) && db.emails[e].user == u;
    UpdateKeepsInv(db, now, c, d);
    FindTokenFinds(db.sessions, token);
    hide Inv, RetireCodes, RetireSessions, Retires, SessionsRetire, Quiet;
    UpdatesRetire(used.codes, u, e, now);
    SessionUpdatesRetire(db.sessions, u, e, now);
    var cleared := used.(codes := RetireCodes(used.codes, u, now), sessions := RetireSessions(db.sessions, u, now));
    RetiringKeepsInv(used, now, cleared.codes, cleared.sessions);
    InvParts(used, now);
    RetiringQuiets(used.codes, db.sessions, u, now);
    SameTokens(db.sessions, cleared.sessions, token);
    AppendSessionKeepsInv(cleared, now, Session(u, e, token, now + TOKEN_TTL, Open, None, None));
  }

  lemma CheckGuessKeepsInv(db: Db, u: nat, e: nat, c: nat, cn: string, guess: string, token: string, now: Instant)
    requires Inv(db, now) && c < |db.codes| && IssuedFor(db.codes[c], u, e)
    ensures Inv(CheckGuess(db, u, e, c, cn, guess, token, now).0, now)
  {
    var code := db.codes[c];
    assert Consistent(code);
    if code.status == Live {
      if code.expires <= now {
        UpdateKeepsInv(db, now, c, Kill(code, Expired, now));
      } else if !Matches(code, cn, guess) {
        UpdateKeepsInv(db, now, c, Missed(code, now));
      } else if FindToken(db.sessions, token).None? {
        hide Inv, Accept;
        AcceptKeepsInv(db, u, e, c, token, now);
      }
    }
  }

  lemma VerifyKeepsInv(db: Db, e: Event, last: int)
    requires e.step.VerifyStep? && Inv(db, last) && last <= e.at && Offered(db, e)
    ensures Inv(Next(db, e), e.at)
  {
    LaterKeepsInv(db, last, e.at);
    var (row, pick) := (e.step.row, e.step.pick);
    if row.Some? && row.value < |db.users| && CurrentEmail(db.emails, row.value).Some? && pick.Some?
      && pick.value < |db.codes| {
      hide Inv, CheckGuess;
      CheckGuessKeepsInv(db, row.value, CurrentEmail(db.emails, row.value).value, pick.value, FoldCN(e.step.cn),
                         e.step.guess, e.step.token, e.at);
    }
  }

  // ---------- Resetting ----------

  lemma SessionUpdateKeepsInv(db: Db, last: int, s: nat, t: Session)
    requires Inv(db, last) && s < |db.sessions| && SessionConsistent(t) && db.sessions[s].status == Open
    requires t.user == db.sessions[s].user && t.email == db.sessions[s].email && t.token == db.sessions[s].token
    ensures Inv(db.(sessions := db.sessions[s := t]), last)
  {
    var sessions := db.sessions[s := t];
    assert SessionsOk(sessions);
    assert OneSession(sessions);
    assert Exclusive(db.codes, sessions);
    assert TokensDiffer(sessions);
    assert SessionsStand(db.users, db.emails, sessions);
    assert Links(db.users, db.emails, db.codes, sessions);
  }

  /** Users may change in any way that leaves their status alone. */
  lemma UsersKeepInv(db: Db, last: int, users: seq<User>)
    requires Inv(db, last) && |users| >= |db.users|
    requires forall i :: 0 <= i < |db.users| ==> users[i].status == db.users[i].status
    ensures Inv(db.(users := users), last)
  {
    assert CodesStand(users, db.emails, db.codes);
    assert SessionsStand(users, db.emails, db.sessions);
  }

  lemma CompleteKeepsInv(db: Db, s: nat, newCode: string, now: Instant)
    requires Inv(db, now) && s < |db.sessions| && db.sessions[s].user < |db.users| && db.sessions[s].status == Open
    ensures Inv(Complete(db, s, newCode, now).0, now)
  {
    var u := db.sessions[s].user;
    var t := db.sessions[s].(status := Spent, usedAt := Some(now));
    assert SessionConsistent(db.sessions[s]);
    hide Inv, RetireCodes, RetireSessions, Retires, SessionsRetire;
    SessionUpdateKeepsInv(db, now, s, t);
    var spent := db.(sessions := db.sessions[s := t]);
    UpdatesRetire(db.codes, u, 0, now);
    SessionUpdatesRetire(spent.sessions, u, 0, now);
    RetiringKeepsInv(spent, now, RetireCodes(db.codes, u, now), RetireSessions(spent.sessions, u, now));
    UsersKeepInv(spent.(codes := RetireCodes(db.codes, u, now), sessions := RetireSessions(spent.sessions, u, now)),
                 now,
                 db.users[u := db.users[u].(queryCode := Some(newCode))]);
  }

  lemma ResetKeepsInv(db: Db, token: string, newCode: string, last: int, now: Instant)
    requires Inv(db, last) && last <= now
    ensures Inv(ResetQueryCode(db, token, newCode, now).0, now)
  {
    LaterKeepsInv(db, last, now);
    var found := FindToken(db.sessions, token);
    if found.Some? && found.value < |db.sessions| && db.sessions[found.value].user < |db.users|
      && db.sessions[found.value].status == Open {
      var s := db.sessions[found.value];
      assert SessionConsistent(s);
      hide Inv, Complete;
      SessionUpdateKeepsInv(db, now, found.value, KillSession(s, Lapsed, now));
      CompleteKeepsInv(db, found.value, newCode, now);
    }
  }

  // ---------- The rest of the system ----------

  /** No secret of this email is in play. */
  ghost predicate EmailQuiet(codes: seq<Code>, sessions: seq<Session>, e: nat) {
    && (forall i :: 0 <= i < |codes| ==> codes[i].email == e ==> !InFlight(codes[i]))
    && (forall i :: 0 <= i < |sessions| ==> sessions[i].email == e ==> sessions[i].status != Open)
  }

  lemma EmailKeepsInv(db: Db, last: int, e: nat, m: Email)
    requires Inv(db, last) && e < |db.emails| && m.user == db.emails[e].user
    requires (!m.current && EmailQuiet(db.codes, db.sessions, e))
               || (m.current == db.emails[e].current && m.status == Verified)
    ensures Inv(db.(emails := db.emails[e := m]), last)
  {
    var emails := db.emails[e := m];
    assert CodesStand(db.users, emails, db.codes) by {
      forall i | 0 <= i < |db.codes| && InFlight(db.codes[i])
        ensures Standing(db.users, emails, db.codes[i].user, db.codes[i].email)
      {
        assert Standing(db.users, db.emails, db.codes[i].user, db.codes[i].email);
      }
    }
    assert SessionsStand(db.users, emails, db.sessions) by {
      forall i | 0 <= i < |db.sessions| && db.sessions[i].status == Open
        ensures Standing(db.users, emails, db.sessions[i].user, db.sessions[i].email)
      {
        assert Standing(db.users, db.emails, db.sessions[i].user, db.sessions[i].email);
      }
    }
    assert OneEmail(emails);
    assert Links(db.users, emails, db.codes, db.sessions);
  }

  lemma RetiringQuietsEmail(codes: seq<Code>, sessions: seq<Session>, e: nat, now: Instant)
    requires CodesOk(codes) && SessionsOk(sessions)
    ensures EmailQuiet(RetireCodesOfEmail(codes, e, now), RetireSessionsOfEmail(sessions, e, now), e)
  {
    forall i | 0 <= i < |codes| && codes[i].email == e
      ensures !InFlight(RetireCodeOfEmail(codes[i], e, now))
    {
      assert Consistent(codes[i]);
    }
  }

  lemma DropEmailKeepsInv(db: Db, e: nat, now: Instant)
    requires Inv(db, now) && e < |db.emails|
    ensures Inv(DropEmail(db, e, now), now)
  {
    hide Inv, RetireCodesOfEmail, RetireSessionsOfEmail, Retires, SessionsRetire, EmailQuiet;
    var cleared := db.(codes := RetireCodesOfEmail(db.codes, e, now),
                       sessions := RetireSessionsOfEmail(db.sessions, e, now));
    UpdatesRetire(db.codes, 0, e, now);
    SessionUpdatesRetire(db.sessions, 0, e, now);
    RetiringKeepsInv(db, now, cleared.codes, cleared.sessions);
    InvParts(db, now);
    RetiringQuietsEmail(db.codes, db.sessions, e, now);
    EmailKeepsInv(cleared, now, e, db.emails[e].(status := Off, current := false));
  }

  lemma NewEmailKeepsInv(db: Db, last: int, u: nat, lookup: string)
    requires Inv(db, last) && u < |db.users|
    requires forall i :: 0 <= i < |db.emails| ==> !(db.emails[i].user == u && db.emails[i].current)
    ensures Inv(db.(emails := db.emails + [Email(u, lookup, Pending, true)]), last)
  {
    var emails := db.emails + [Email(u, lookup, Pending, true)];
    assert CodesStand(db.users, emails, db.codes);
    assert SessionsStand(db.users, emails, db.sessions);
    assert OneEmail(emails);
  }

  lemma PutEmailKeepsInv(db: Db, u: nat, lookup: string, last: int, now: Instant)
    requires Inv(db, last) && last <= now
    ensures Inv(PutEmail(db, u, lookup, now).0, now)
  {
    LaterKeepsInv(db, last, now);
    InvParts(db, now);
    CurrentEmailFinds(db.emails, u);
    hide Inv;
    if u < |db.users| {
      var current := CurrentEmail(db.emails, u);
      if current.Some? {
        var dropped := DropEmail(db, current.value, now);
        DropEmailKeepsInv(db, current.value, now);
        NewEmailKeepsInv(dropped, now, u, lookup);
      } else {
        NewEmailKeepsInv(db, now, u, lookup);
      }
    }
  }

  lemma UnbindKeepsInv(db: Db, u: nat, last: int, now: Instant)
    requires Inv(db, last) && last <= now
    ensures Inv(UnbindEmail(db, u, now).0, now)
  {
    LaterKeepsInv(db, last, now);
    CurrentEmailFinds(db.emails, u);
    if CurrentEmail(db.emails, u).Some? {
      hide Inv, DropEmail;
      DropEmailKeepsInv(db, CurrentEmail(db.emails, u).value, now);
    }
  }

  lemma StatusKeepsInv(db: Db, last: int, u: nat, user: User)
    requires Inv(db, last) && u < |db.users|
    requires user.status == Active || Quiet(db.codes, db.sessions, u)
    ensures Inv(db.(users := db.users[u := user]), last)
  {
    var users := db.users[u := user];
    assert CodesStand(users, db.emails, db.codes) by {
      forall i | 0 <= i < |db.codes| && InFlight(db.codes[i])
        ensures Standing(users, db.emails, db.codes[i].user, db.codes[i].email)
      {
        assert Standing(db.users, db.emails, db.codes[i].user, db.codes[i].email);
      }
    }
    assert SessionsStand(users, db.emails, db.sessions) by {
      forall i | 0 <= i < |db.sessions| && db.sessions[i].status == Open
        ensures Standing(users, db.emails, db.sessions[i].user, db.sessions[i].email)
      {
        assert Standing(db.users, db.emails, db.sessions[i].user, db.sessions[i].email);
      }
    }
  }

  /** Taking a user out of service while retiring the user's secrets. */
  lemma SilenceKeepsInv(db: Db, u: nat, user: User, now: Instant)
    requires Inv(db, now) && u < |db.users|
    ensures Inv(db.(users := db.users[u := user], codes := RetireCodes(db.codes, u, now),
                    sessions := RetireSessions(db.sessions, u, now)), now)
  {
    hide Inv, RetireCodes, RetireSessions, Retires, SessionsRetire, Quiet;
    var cleared := db.(codes := RetireCodes(db.codes, u, now), sessions := RetireSessions(db.sessions, u, now));
    UpdatesRetire(db.codes, u, 0, now);
    SessionUpdatesRetire(db.sessions, u, 0, now);
    RetiringKeepsInv(db, now, cleared.codes, cleared.sessions);
    InvParts(db, now);
    RetiringQuiets(db.codes, db.sessions, u, now);
    StatusKeepsInv(cleared, now, u, user);
  }

  lemma AccessKeepsInv(db: Db, u: nat, enabled: bool, last: int, now: Instant)
    requires Inv(db, last) && last <= now
    ensures Inv(SetAccess(db, u, enabled, now).0, now)
  {
    LaterKeepsInv(db, last, now);
    hide Inv;
    if u < |db.users| {
      if enabled { StatusKeepsInv(db, now, u, db.users[u].(status := Active)); }
      else { SilenceKeepsInv(db, u, db.users[u].(status := Disabled), now); }
    }
  }

  lemma MergeKeepsInv(db: Db, source: nat, target: nat, last: int, now: Instant)
    requires Inv(db, last) && last <= now
    ensures Inv(MergeUsers(db, source, target, now).0, now)
  {
    LaterKeepsInv(db, last, now);
    hide Inv;
    if source < |db.users| {
      SilenceKeepsInv(db, source, db.users[source].(status := Merged, queryCode := None), now);
    }
  }

  lemma EmailVerifiedKeepsInv(db: Db, u: nat, last: int)
    requires Inv(db, last)
    ensures Inv(MarkEmailVerified(db, u).0, last)
  {
    var current := CurrentEmail(db.emails, u);
    if current.Some? && current.value < |db.emails| {
      EmailKeepsInv(db, last, current.value, db.emails[current.value].(status := Verified));
    }
  }

  lemma OthersKeepInv(db: Db, e: Event, last: int)
    requires Inv(db, last) && last <= e.at && (e.step.SetCodeStep? || e.step.AddUserStep?)
    ensures Inv(Next(db, e), e.at)
  {
    LaterKeepsInv(db, last, e.at);
    UsersKeepInv(db, e.at, Next(db, e).users);
  }

  // ---------- Runs ----------

  lemma StepKeepsInv(db: Db, e: Event, last: int)
    requires Inv(db, last) && last <= e.at && Offered(db, e)
    ensures Inv(Next(db, e), e.at)
  {
    hide Inv, Prepare, ConfirmSent, MarkDeliveryFailed, VerifyCode, ResetQueryCode, PutEmail, UnbindEmail,
      MarkEmailVerified, SetAccess, MergeUsers;
    match e.step
    case PrepareStep(cn, ip, row, secret) => PrepareKeepsInv(db, cn, ip, row, secret, last, e.at);
    case ConfirmStep(c, u, m) => ConfirmKeepsInv(db, c, u, m, last, e.at);
    case FailStep(c, u) => FailKeepsInv(db, c, u, last, e.at);
    case VerifyStep(_, _, _, _, _) => VerifyKeepsInv(db, e, last);
    case ResetStep(token, newCode) => ResetKeepsInv(db, token, newCode, last, e.at);
    case PutEmailStep(u, lookup) => PutEmailKeepsInv(db, u, lookup, last, e.at);
    case UnbindStep(u) => UnbindKeepsInv(db, u, last, e.at);
    case EmailVerifiedStep(u) => EmailVerifiedKeepsInv(db, u, last); LaterKeepsInv(Next(db, e), last, e.at);
    case AccessStep(u, enabled) => AccessKeepsInv(db, u, enabled, last, e.at);
    case MergeStep(source, target) => MergeKeepsInv(db, source, target, last, e.at);
    case SetCodeStep(_, _) => OthersKeepInv(db, e, last);
    case AddUserStep(_) => OthersKeepInv(db, e, last);
  }

  lemma {:induction false} RunKeepsInv(es: seq<Event>)
    requires Possible(es)
    ensures Inv(Run(es), LastTime(es))
  {
    if es != [] {
      hide Inv, Next, Offered;
      PossibleInit(es);
      RunKeepsInv(es[..|es| - 1]);
      StepKeepsInv(Run(es[..|es| - 1]), es[|es| - 1], LastTime(es[..|es| - 1]));
    }
  }

  // ---------- What it means ----------

  datatype Key = CodeKey(code: nat) | SessionKey(session: nat)

  /** A secret the user could still use: a code in flight or an open reset session. */
  predicate InPlay(db: Db, u: nat, s: Key) {
    match s
    case CodeKey(c) => c < |db.codes| && InFlight(db.codes[c]) && db.codes[c].user == u
    case SessionKey(i) => i < |db.sessions| && db.sessions[i].status == Open && db.sessions[i].user == u
  }

  lemma CurrentIs(db: Db, last: int, u: nat, e: nat)
    requires Inv(db, last) && e < |db.emails| && db.emails[e].user == u && db.emails[e].current
    ensures CurrentEmail(db.emails, u) == Some(e)
  {
    CurrentEmailFinds(db.emails, u);
  }

  /** In every interleaving a user has at most one secret in play, be it a code or a session,
      and only an active user with a verified, current recovery email has one. */
  lemma OneSecretInPlay(es: seq<Event>, u: nat, s: Key, t: Key)
    requires Possible(es) && InPlay(Run(es), u, s) && InPlay(Run(es), u, t)
    ensures s == t
    ensures u < |Run(es).users| && Run(es).users[u].status == Active
    ensures exists e :: CurrentEmail(Run(es).emails, u) == Some(e) && e < |Run(es).emails|
              && Run(es).emails[e].status == Verified
  {
    RunKeepsInv(es);
    var db := Run(es);
    var e := match s case CodeKey(c) => db.codes[c].email case SessionKey(i) => db.sessions[i].email;
    assert Standing(db.users, db.emails, u, e);
    CurrentIs(db, LastTime(es), u, e);
  }

  /** A code's status says it is in flight exactly when neither used_at nor invalidated_at is
      set, and likewise a session's. */
  lemma StatusMatchesStamps(es: seq<Event>)
    requires Possible(es)
    ensures forall c :: c in Run(es).codes ==> (InFlight(c) <==> c.usedAt.None? && c.invalidatedAt.None?)
    ensures forall s :: s in Run(es).sessions ==> (s.status == Open <==> s.usedAt.None? && s.invalidatedAt.None?)
  {
    RunKeepsInv(es);
    var db := Run(es);
    assert forall i :: 0 <= i < |db.codes| ==> Consistent(db.codes[i]);
    assert forall i :: 0 <= i < |db.sessions| ==> SessionConsistent(db.sessions[i]);
  }

  /** VerifyCode reads the live code if there is one: the user's current email is the one it was
      sent to, and "latest created" can only be that row. */
  lemma LiveCodeIsLatest(es: seq<Event>, c: nat, pick: Option<nat>)
    requires Possible(es) && c < |Run(es).codes| && InFlight(Run(es).codes[c])
    ensures CurrentEmail(Run(es).emails, Run(es).codes[c].user) == Some(Run(es).codes[c].email)
    ensures PicksLatest(Run(es).codes, Run(es).codes[c].user, Run(es).codes[c].email, pick) <==> pick == Some(c)
  {
    RunKeepsInv(es);
    var db := Run(es);
    var code := db.codes[c];
    assert Standing(db.users, db.emails, code.user, code.email);
    CurrentIs(db, LastTime(es), code.user, code.email);
    assert IssuedFor(code, code.user, code.email);
    forall i | 0 <= i < |db.codes| && IssuedFor(db.codes[i], code.user, code.email)
      ensures i == c || db.codes[i].created < code.created
    {
      assert i <= c;
    }
  }
}
