/** Where a completed reset comes from: one reset session, opened by one verified code, that one
    confirmed send delivered, that one request prepared, in that order, whatever interleaves. */
module RecoveryTrace {
  import opened Text
  import opened Recovery
  import opened RecoveryInvariant
  import opened RecoveryWindows

  // ---------- What one transaction does to one session row ----------

  ghost predicate SessionChanges(db: Db, e: Event, i: nat, s: Session, t: Session) {
    || SessionRetiresTo(s, t)
    || (s.status == Open && ReplyTo(db, e).ResetDone? && ReplyTo(db, e).session == i && e.at < s.expires
        && t == s.(status := Spent, usedAt := Some(e.at)))
  }

  ghost predicate SessionsChange(db: Db, e: Event, after: seq<Session>) {
    |after| >= |db.sessions| && forall i :: 0 <= i < |db.sessions| ==>
      SessionChanges(db, e, i, db.sessions[i], after[i])
  }

  /** The session a right guess opens: for the code's user and email, for TOKEN_TTL. */
  predicate Opens(db: Db, e: Event, s: Session) {
    && ReplyTo(db, e).CodeVerified? && ReplyTo(db, e).session == |db.sessions|
    && var c := ReplyTo(db, e).code;
       && c < |db.codes| && db.codes[c].status == Live && e.at < db.codes[c].expires
       && s.expires == e.at + TOKEN_TTL && s.status == Open
       && Standing(db.users, db.emails, s.user, s.email)
  }

  lemma SessionRetiringChanges(db: Db, e: Event, after: seq<Session>)
    requires SessionsRetire(db.sessions, after)
    ensures SessionsChange(db, e, after)
  {}

  lemma SessionsRetireTwice(a: seq<Session>, b: seq<Session>, c: seq<Session>)
    requires SessionsRetire(a, b) && SessionsRetire(b, c)
    ensures SessionsRetire(a, c)
  {}

  lemma VerifySessions(db: Db, e: Event)
    requires e.step.VerifyStep?
    ensures var after := Next(db, e).sessions;
            || (after == db.sessions && !ReplyTo(db, e).CodeVerified?)
            || (|after| == |db.sessions| + 1 && SessionsRetire(db.sessions, after[..|db.sessions|])
                && Opens(db, e, after[|db.sessions|]))
  {
    var after := Next(db, e).sessions;
    if ReplyTo(db, e).CodeVerified? {
      var u := e.step.row.value;
      CurrentEmailFinds(db.emails, u);
      SessionUpdatesRetire(db.sessions, u, 0, e.at);
      assert after[..|db.sessions|] == RetireSessions(db.sessions, u, e.at);
    }
  }

  lemma ResetSessions(db: Db, e: Event)
    requires e.step.ResetStep?
    ensures |Next(db, e).sessions| == |db.sessions| && SessionsChange(db, e, Next(db, e).sessions)
  {
    KeepsSelf(db.codes, db.sessions);
    var after := Next(db, e).sessions;
    if ReplyTo(db, e).ResetDone? {
      var s := FindToken(db.sessions, e.step.token).value;
      var spent := db.sessions[s := db.sessions[s].(status := Spent, usedAt := Some(e.at))];
      SessionUpdatesRetire(spent, db.sessions[s].user, 0, e.at);
      assert after == RetireSessions(spent, db.sessions[s].user, e.at);
    }
  }

  lemma OtherSessions(db: Db, e: Event)
    requires !e.step.VerifyStep? && !e.step.ResetStep?
    ensures SessionsRetire(db.sessions, Next(db, e).sessions) && !ReplyTo(db, e).CodeVerified?
    ensures !ReplyTo(db, e).ResetDone?
  {
    KeepsSelf(db.codes, db.sessions);
    hide RetireCodes, RetireSessions, LapseSessions, LapseCodes, RetireCodesOfEmail, RetireSessionsOfEmail, Retires,
      SessionsRetire, CoolingDown, IssuedIn;
    match e.step
    case PrepareStep(_, _, row, _) =>
      if row.Some? {
        var lapsed := LapseSessions(db.sessions, row.value, e.at);
        SessionUpdatesRetire(db.sessions, row.value, 0, e.at);
        SessionUpdatesRetire(lapsed, row.value, 0, e.at);
        SessionsRetireTwice(db.sessions, lapsed, RetireSessions(lapsed, row.value, e.at));
      }
    case PutEmailStep(u, _) =>
      if CurrentEmail(db.emails, u).Some? {
        SessionUpdatesRetire(db.sessions, 0, CurrentEmail(db.emails, u).value, e.at);
      }
    case UnbindStep(u) =>
      if CurrentEmail(db.emails, u).Some? {
        SessionUpdatesRetire(db.sessions, 0, CurrentEmail(db.emails, u).value, e.at);
      }
    case AccessStep(u, _) => SessionUpdatesRetire(db.sessions, u, 0, e.at);
    case MergeStep(source, _) => SessionUpdatesRetire(db.sessions, source, 0, e.at);
    case _ =>
  }

  lemma StepSessions(db: Db, e: Event)
    ensures var after := Next(db, e).sessions;
            && SessionsChange(db, e, after)
            && (|after| == |db.sessions| || (|after| == |db.sessions| + 1 && Opens(db, e, after[|db.sessions|])))
            && (ReplyTo(db, e).CodeVerified? <==> |after| == |db.sessions| + 1)
  {
    var after := Next(db, e).sessions;
    if e.step.VerifyStep? {
      VerifySessions(db, e);
      KeepsSelf(db.codes, db.sessions);
      hide Next, ReplyTo;
      SessionRetiringChanges(db, e, after[..|db.sessions|]);
      assert forall i :: 0 <= i < |db.sessions| ==> after[..|db.sessions|][i] == after[i];
    } else if e.step.ResetStep? {
      ResetSessions(db, e);
    } else {
      OtherSessions(db, e);
      SessionRetiringChanges(db, e, after);
    }
  }

  /** What never changes in a session: whose it is and when it expires; and one that is not open never changes again. */
  predicate SessionAges(s: Session, t: Session) {
    t.user == s.user && t.email == s.email && t.token == s.token && t.expires == s.expires
      && (s.status != Open ==> t == s)
  }

  lemma SessionChangesAge(db: Db, e: Event, i: nat, s: Session, t: Session)
    requires SessionChanges(db, e, i, s, t)
    ensures SessionAges(s, t)
  {}

  lemma StepSessionAges(db: Db, e: Event, s: nat)
    requires s < |db.sessions|
    ensures s < |Next(db, e).sessions| && SessionAges(db.sessions[s], Next(db, e).sessions[s])
  {
    StepSessions(db, e);
    hide Next;
    SessionChangesAge(db, e, s, db.sessions[s], Next(db, e).sessions[s]);
  }

  // ---------- Along a run ----------

  /** The tables before event i. */
  function At(es: seq<Event>, i: nat): Db
    requires i <= |es|
  {
    Run(es[..i])
  }

  lemma RunStep(es: seq<Event>, i: nat)
    requires i < |es|
    ensures At(es, i + 1) == Next(At(es, i), es[i])
  {
    assert es[..i + 1][..i] == es[..i];
  }

  lemma RunStart(es: seq<Event>)
    ensures At(es, 0) == EMPTY
  {
    assert es[..0] == [];
  }

  lemma RowsOk(es: seq<Event>, i: nat)
    requires Possible(es) && i <= |es|
    ensures CodesOk(At(es, i).codes) && SessionsOk(At(es, i).sessions)
  {
    PossiblePrefix(es, i);
    RunKeepsInv(es[..i]);
    InvParts(At(es, i), LastTime(es[..i]));
  }

  lemma StepAges(db: Db, e: Event, c: nat)
    requires CodesOk(db.codes) && SessionsOk(db.sessions) && c < |db.codes|
    ensures c < |Next(db, e).codes| && Ages(db.codes[c], Next(db, e).codes[c])
  {
    StepChanges(db, e);
    hide Next;
    ChangesAge(db, e, c, db.codes[c], Next(db, e).codes[c]);
  }

  lemma AgesSelf(a: Code)
    ensures Ages(a, a)
  {}

  lemma AgesOn(a: Code, b: Code, c: Code)
    requires Ages(a, b) && Ages(b, c)
    ensures Ages(a, c)
  {}

  lemma {:induction false} CodeAges(es: seq<Event>, i: nat, k: nat, c: nat)
    requires Possible(es) && i <= k <= |es| && c < |At(es, i).codes|
    ensures c < |At(es, k).codes| && Ages(At(es, i).codes[c], At(es, k).codes[c])
    decreases k
  {
    hide Next, At, Possible, CodesOk, SessionsOk, Ages;
    if i == k {
      AgesSelf(At(es, i).codes[c]);
    } else {
      CodeAges(es, i, k - 1, c);
      RowsOk(es, k - 1);
      RunStep(es, k - 1);
      StepAges(At(es, k - 1), es[k - 1], c);
      AgesOn(At(es, i).codes[c], At(es, k - 1).codes[c], At(es, k).codes[c]);
    }
  }

  lemma {:induction false} SessionAge(es: seq<Event>, i: nat, k: nat, s: nat)
    requires i <= k <= |es| && s < |At(es, i).sessions|
    ensures s < |At(es, k).sessions| && SessionAges(At(es, i).sessions[s], At(es, k).sessions[s])
    decreases k
  {
    hide Next, At, SessionChanges, SessionsChange, Opens;
    if i < k {
      SessionAge(es, i, k - 1, s);
      RunStep(es, k - 1);
      var db := At(es, k - 1);
      StepSessionAges(db, es[k - 1], s);
    }
  }

  // ---------- Origins ----------

  function ReplyAt(es: seq<Event>, i: nat): Reply
    requires i < |es|
  {
    ReplyTo(At(es, i), es[i])
  }

  /** Event i is the request that prepared code c. */
  predicate PreparedAt(es: seq<Event>, i: nat, c: nat) {
    i < |es| && ReplyAt(es, i) == Prepared(c)
  }

  /** Event j confirmed that code c was sent. */
  predicate ConfirmedAt(es: seq<Event>, j: nat, c: nat) {
    j < |es| && es[j].step.ConfirmStep? && es[j].step.code == c && ReplyAt(es, j) == Done
  }

  /** Event m verified code c and opened session s. */
  predicate VerifiedAt(es: seq<Event>, m: nat, c: nat, s: nat) {
    m < |es| && ReplyAt(es, m) == CodeVerified(c, s)
  }

  /** Event k completed a reset with session s. */
  predicate ResetAt(es: seq<Event>, k: nat, s: nat) {
    k < |es| && ReplyAt(es, k).ResetDone? && ReplyAt(es, k).session == s
  }

  lemma {:induction false} CodeOrigin(es: seq<Event>, n: nat, c: nat) returns (i: nat)
    requires Possible(es) && n <= |es| && c < |At(es, n).codes|
    ensures i < n && PreparedAt(es, i, c)
  {
    hide Next, At, Possible, CodesOk, SessionsOk, CodesChange, ReplyTo;
    RunStart(es);
    if n > 0 {
      var db := At(es, n - 1);
      RowsOk(es, n - 1);
      RunStep(es, n - 1);
      StepChanges(db, es[n - 1]);
      if c < |db.codes| { i := CodeOrigin(es, n - 1, c); } else { i := n - 1; }
    }
  }

  lemma NewCodeUnsent(db: Db, e: Event, code: Code)
    requires Appends(db, e, code)
    ensures code.sentAt.None?
  {}

  lemma {:induction false} SendOrigin(es: seq<Event>, n: nat, c: nat) returns (j: nat)
    requires Possible(es) && n <= |es| && c < |At(es, n).codes| && At(es, n).codes[c].sentAt.Some?
    ensures j < n && ConfirmedAt(es, j, c)
  {
    hide Next, At, Possible, CodesOk, SessionsOk, ReplyTo, Appends;
    RunStart(es);
    if n > 0 {
      var db := At(es, n - 1);
      RowsOk(es, n - 1);
      RunStep(es, n - 1);
      StepChanges(db, es[n - 1]);
      if c == |db.codes| { NewCodeUnsent(db, es[n - 1], At(es, n).codes[c]); }
      assert CodeChanges(db, es[n - 1], c, db.codes[c], At(es, n).codes[c]);
      if db.codes[c].sentAt.Some? { j := SendOrigin(es, n - 1, c); } else {
        assert Consistent(db.codes[c]);
        j := n - 1;
      }
    }
  }

  lemma {:induction false} SessionOrigin(es: seq<Event>, n: nat, s: nat) returns (m: nat, c: nat)
    requires n <= |es| && s < |At(es, n).sessions|
    ensures m < n && VerifiedAt(es, m, c, s)
  {
    hide Next, At, SessionsChange, ReplyTo, Standing;
    RunStart(es);
    if n > 0 {
      var db := At(es, n - 1);
      RunStep(es, n - 1);
      StepSessions(db, es[n - 1]);
      if s < |db.sessions| {
        m, c := SessionOrigin(es, n - 1, s);
      } else {
        m, c := n - 1, ReplyTo(db, es[n - 1]).code;
      }
    }
  }

  // ---------- The facts at each of the four events ----------

  lemma AtPrepare(es: seq<Event>, i: nat, c: nat)
    requires Possible(es) && PreparedAt(es, i, c)
    ensures c == |At(es, i).codes| && c < |At(es, i + 1).codes|
    ensures At(es, i + 1).codes[c].expires == es[i].at + CODE_TTL
    ensures es[i].step.PrepareStep? && At(es, i + 1).codes[c].secret == es[i].step.secret
    ensures At(es, i + 1).codes[c].cn == FoldCN(es[i].step.cn)
    ensures Quiet(At(es, i + 1).codes[..c], At(es, i + 1).sessions, At(es, i + 1).codes[c].user)
  {
    hide Next, Possible, Retires, At, Consistent, Quiet;
    var db := At(es, i);
    RowsOk(es, i);
    RunStep(es, i);
    StepChanges(db, es[i]);
    IssueChanges(db, es[i]);
  }

  lemma AtConfirm(es: seq<Event>, j: nat, c: nat)
    requires ConfirmedAt(es, j, c)
    ensures c < |At(es, j).codes|
  {}

  lemma VerifyEffect(db: Db, e: Event)
    requires Offered(db, e) && ReplyTo(db, e).CodeVerified?
    ensures var (c, s, after) := (ReplyTo(db, e).code, ReplyTo(db, e).session, Next(db, e));
            && c < |db.codes| && db.codes[c].status == Live && e.at < db.codes[c].expires
            && s == |db.sessions| && s < |after.sessions| && after.sessions[s].expires == e.at + TOKEN_TTL
            && after.sessions[s].user == db.codes[c].user && after.sessions[s].email == db.codes[c].email
            && Standing(db.users, db.emails, db.codes[c].user, db.codes[c].email)
            && c < |after.codes| && after.codes[c].status == Used
            && e.step.VerifyStep? && Matches(db.codes[c], FoldCN(e.step.cn), e.step.guess)
            && after.sessions[s].token == e.step.token
  {
    assert e.step.VerifyStep?;
    CurrentEmailFinds(db.emails, e.step.row.value);
  }

  lemma AtVerify(es: seq<Event>, m: nat, c: nat, s: nat)
    requires Possible(es) && VerifiedAt(es, m, c, s)
    ensures var db, after := At(es, m), At(es, m + 1);
            && c < |db.codes| && db.codes[c].status == Live && es[m].at < db.codes[c].expires
            && s == |db.sessions| && s < |after.sessions| && after.sessions[s].expires == es[m].at + TOKEN_TTL
            && after.sessions[s].user == db.codes[c].user && after.sessions[s].email == db.codes[c].email
            && Standing(db.users, db.emails, db.codes[c].user, db.codes[c].email)
            && c < |after.codes| && after.codes[c].status == Used
            && es[m].step.VerifyStep? && Matches(db.codes[c], FoldCN(es[m].step.cn), es[m].step.guess)
            && after.sessions[s].token == es[m].step.token
  {
    RunStep(es, m);
    var db := At(es, m);
    assert Offered(db, es[m]);
    VerifyEffect(db, es[m]);
  }

  lemma ResetEffect(db: Db, e: Event)
    requires ReplyTo(db, e).ResetDone?
    ensures var (s, after) := (ReplyTo(db, e).session, Next(db, e));
            && s < |db.sessions| && db.sessions[s].status == Open && e.at < db.sessions[s].expires
            && Standing(db.users, db.emails, db.sessions[s].user, db.sessions[s].email)
            && CurrentEmail(db.emails, db.sessions[s].user) == Some(db.sessions[s].email)
            && s < |after.sessions| && after.sessions[s].status == Spent
            && e.step.ResetStep? && db.sessions[s].token == e.step.token
  {
    assert e.step.ResetStep?;
    FindTokenFinds(db.sessions, e.step.token);
    CurrentEmailFinds(db.emails, db.sessions[ReplyTo(db, e).session].user);
  }

  lemma AtReset(es: seq<Event>, k: nat, s: nat)
    requires ResetAt(es, k, s)
    ensures var db, after := At(es, k), At(es, k + 1);
            && s < |db.sessions| && db.sessions[s].status == Open && es[k].at < db.sessions[s].expires
            && Standing(db.users, db.emails, db.sessions[s].user, db.sessions[s].email)
            && CurrentEmail(db.emails, db.sessions[s].user) == Some(db.sessions[s].email)
            && s < |after.sessions| && after.sessions[s].status == Spent
            && es[k].step.ResetStep? && db.sessions[s].token == es[k].step.token
  {
    RunStep(es, k);
    ResetEffect(At(es, k), es[k]);
  }

  // ---------- The theorem ----------

  /** Event x prepared a code for user u. */
  predicate IssuesTo(es: seq<Event>, x: nat, u: nat) {
    && x < |es| && ReplyAt(es, x).Prepared?
    && ReplyAt(es, x).code < |At(es, x + 1).codes| && At(es, x + 1).codes[ReplyAt(es, x).code].user == u
  }

  datatype Trail = Trail(prepare: nat, confirm: nat, verify: nat, code: nat, session: nat)

  /** The guess is the code that was made for the same CN, and the reset bears the token the guess earned. */
  predicate SecretsAgree(prepare: Step, verify: Step, reset: Step) {
    && prepare.PrepareStep? && verify.VerifyStep? && reset.ResetStep?
    && verify.guess == prepare.secret && FoldCN(verify.cn) == FoldCN(prepare.cn)
    && reset.token == verify.token
  }

  /** The reset at event k comes from this trail: request, delivery, verification and reset in that
      order, close in time, with the same verified current email at verification and reset, and no
      newer code for the user in between. */
  ghost predicate ComesFrom(es: seq<Event>, k: nat, t: Trail) {
    && t.prepare < t.confirm < t.verify < k < |es|
    && PreparedAt(es, t.prepare, t.code) && ConfirmedAt(es, t.confirm, t.code)
    && VerifiedAt(es, t.verify, t.code, t.session) && ResetAt(es, k, t.session)
    && es[k].at - es[t.prepare].at < CODE_TTL + TOKEN_TTL
    && SecretsAgree(es[t.prepare].step, es[t.verify].step, es[k].step)
    && t.session < |At(es, k).sessions|
    && var s := At(es, k).sessions[t.session];
       && Standing(At(es, t.verify).users, At(es, t.verify).emails, s.user, s.email)
       && Standing(At(es, k).users, At(es, k).emails, s.user, s.email)
       && CurrentEmail(At(es, k).emails, s.user) == Some(s.email)
       && forall x :: t.prepare < x < k ==> !IssuesTo(es, x, s.user)
  }

  /** A newer code for the user kills the older one for good. */
  lemma NewerKillsCode(es: seq<Event>, x: nat, m: nat, c: nat)
    requires Possible(es) && x < m <= |es| && c < |At(es, x).codes| && IssuesTo(es, x, At(es, x).codes[c].user)
    ensures c < |At(es, m).codes| && !InFlight(At(es, m).codes[c])
  {
    hide Possible, At, ReplyTo;
    AtPrepare(es, x, ReplyAt(es, x).code);
    CodeAges(es, x, x + 1, c);
    assert At(es, x + 1).codes[..ReplyAt(es, x).code][c] == At(es, x + 1).codes[c];
    CodeAges(es, x + 1, m, c);
  }

  lemma NewerKillsSession(es: seq<Event>, x: nat, k: nat, s: nat)
    requires Possible(es) && x < k <= |es| && s < |At(es, x).sessions| && IssuesTo(es, x, At(es, x).sessions[s].user)
    ensures s < |At(es, k).sessions| && At(es, k).sessions[s].status != Open
  {
    hide Possible, At, ReplyTo;
    AtPrepare(es, x, ReplyAt(es, x).code);
    SessionAge(es, x, x + 1, s);
    SessionAge(es, x + 1, k, s);
  }

  lemma VerifiedReply(es: seq<Event>, m: nat, c: nat, s: nat)
    requires VerifiedAt(es, m, c, s)
    ensures m < |es| && ReplyAt(es, m) == CodeVerified(c, s)
  {}

  lemma NoNewerCode(es: seq<Event>, i: nat, m: nat, k: nat, c: nat, s: nat, x: nat)
    requires Possible(es) && i < m < k < |es| && PreparedAt(es, i, c) && VerifiedAt(es, m, c, s) && ResetAt(es, k, s)
    requires i < x < k && s < |At(es, k).sessions|
    ensures !IssuesTo(es, x, At(es, k).sessions[s].user)
  {
    hide Possible, At, ReplyTo, PreparedAt, VerifiedAt, ResetAt, Standing;
    if IssuesTo(es, x, At(es, k).sessions[s].user) {
      AtVerify(es, m, c, s);
      AtReset(es, k, s);
      SessionAge(es, m + 1, k, s);
      if x < m {
        AtPrepare(es, i, c);
        CodeAges(es, i + 1, x, c);
        CodeAges(es, x, m, c);
        NewerKillsCode(es, x, m, c);
      } else if x == m {
        assert ReplyAt(es, x) == CodeVerified(c, s) by { VerifiedReply(es, m, c, s); }
      } else {
        SessionAge(es, m + 1, x, s);
        SessionAge(es, x, k, s);
        NewerKillsSession(es, x, k, s);
      }
    }
  }

  lemma TimesOrdered(es: seq<Event>, i: nat, j: nat)
    requires Possible(es) && i <= j < |es|
    ensures es[i].at <= es[j].at
  {}

  /** The code behind a session: prepared, sent and verified in that order. */
  lemma CodeTrail(es: seq<Event>, m: nat, c: nat, s: nat) returns (i: nat, j: nat)
    requires Possible(es) && VerifiedAt(es, m, c, s)
    ensures i < j < m && PreparedAt(es, i, c) && ConfirmedAt(es, j, c)
    ensures es[m].at < es[i].at + CODE_TTL
    ensures es[i].step.PrepareStep? && es[m].step.VerifyStep?
    ensures es[m].step.guess == es[i].step.secret && FoldCN(es[m].step.cn) == FoldCN(es[i].step.cn)
  {
    AtVerify(es, m, c, s);
    RowsOk(es, m);
    assert Consistent(At(es, m).codes[c]);
    hide At, Possible, ReplyTo, VerifiedAt, PreparedAt, Standing, CodesOk, SessionsOk;
    j := SendOrigin(es, m, c);
    AtConfirm(es, j, c);
    i := CodeOrigin(es, j, c);
    AtPrepare(es, i, c);
    CodeAges(es, i + 1, m, c);
  }

  /** Every completed reset has such a trail. */
  lemma ResetComesFrom(es: seq<Event>, k: nat, s: nat) returns (t: Trail)
    requires Possible(es) && k < |es| && ResetAt(es, k, s)
    ensures t.session == s && ComesFrom(es, k, t)
  {
    hide Possible, At, ReplyTo, PreparedAt, ConfirmedAt, VerifiedAt, ResetAt, Standing, IssuesTo;
    AtReset(es, k, s);
    var m, c := SessionOrigin(es, k, s);
    AtVerify(es, m, c, s);
    var i, j := CodeTrail(es, m, c, s);
    TimesOrdered(es, m, k);
    SessionAge(es, m + 1, k, s);
    forall x | i < x < k
      ensures !IssuesTo(es, x, At(es, k).sessions[s].user)
    {
      NoNewerCode(es, i, m, k, c, s, x);
    }
    t := Trail(i, j, m, c, s);
  }

  lemma SessionResetsOnce(es: seq<Event>, k: nat, l: nat, s: nat)
    requires Possible(es) && k < |es| && l < |es| && ResetAt(es, k, s) && ResetAt(es, l, s)
    ensures k == l
  {
    hide Possible, At, ResetAt, Standing;
    AtReset(es, k, s);
    AtReset(es, l, s);
    if k < l {
      SessionAge(es, k + 1, l, s);
    } else if l < k {
      SessionAge(es, l + 1, k, s);
    }
  }

  lemma CodeVerifiesOnce(es: seq<Event>, m: nat, n: nat, c: nat, s: nat, r: nat)
    requires Possible(es) && m < |es| && n < |es| && VerifiedAt(es, m, c, s) && VerifiedAt(es, n, c, r)
    ensures m == n
  {
    hide Possible, At, VerifiedAt, Standing;
    if m < n {
      AtVerify(es, m, c, s);
      AtVerify(es, n, c, r);
      CodeAges(es, m + 1, n, c);
    } else if n < m {
      AtVerify(es, m, c, s);
      AtVerify(es, n, c, r);
      CodeAges(es, n + 1, m, c);
    }
  }

  /** Trails are never shared: two different resets have different sessions, codes, requests,
      confirmations and verifications. */
  lemma TrailsAreDisjoint(es: seq<Event>, k: nat, t: Trail, l: nat, r: Trail)
    requires Possible(es) && ComesFrom(es, k, t) && ComesFrom(es, l, r) && k != l
    ensures t.session != r.session && t.code != r.code
    ensures t.prepare != r.prepare && t.confirm != r.confirm && t.verify != r.verify
  {
    if t.session == r.session { SessionResetsOnce(es, k, l, t.session); }
    if t.code == r.code { CodeVerifiesOnce(es, t.verify, r.verify, t.code, t.session, r.session); }
  }

  lemma ResetWrites(db: Db, e: Event)
    requires ReplyTo(db, e).ResetDone? && CodesOk(db.codes) && SessionsOk(db.sessions)
    ensures var (s, after) := (ReplyTo(db, e).session, Next(db, e));
            && s < |db.sessions| && e.step.ResetStep? && db.sessions[s].user < |db.users|
            && var u := db.sessions[s].user;
               && db.users[u].queryCode.Some? && db.users[u].queryCode != Some(e.step.newCode)
               && after.users == db.users[u := db.users[u].(queryCode := Some(e.step.newCode))]
               && ReplyTo(db, e) == ResetDone(s, db.users[u].cn)
               && Quiet(after.codes, after.sessions, u)
  {
    assert e.step.ResetStep?;
    var s := ReplyTo(db, e).session;
    var spent := db.sessions[s := db.sessions[s].(status := Spent, usedAt := Some(e.at))];
    assert SessionsOk(spent);
    RetiringQuiets(db.codes, spent, db.sessions[s].user, e.at);
  }

  /** What a completed reset does: the session's user, and nobody else, gets the new query code,
      which differs from the old one; the session is spent and no secret of the user is left in play. */
  lemma ResetSetsCode(es: seq<Event>, k: nat, s: nat)
    requires Possible(es) && k < |es| && ResetAt(es, k, s)
    ensures var db, after := At(es, k), At(es, k + 1);
            && s < |db.sessions| && es[k].step.ResetStep? && db.sessions[s].user < |db.users|
            && var u := db.sessions[s].user;
               && db.users[u].queryCode.Some? && db.users[u].queryCode != Some(es[k].step.newCode)
               && after.users == db.users[u := db.users[u].(queryCode := Some(es[k].step.newCode))]
               && ReplyAt(es, k) == ResetDone(s, db.users[u].cn)
               && Quiet(after.codes, after.sessions, u)
  {
    RunStep(es, k);
    RowsOk(es, k);
    ResetWrites(At(es, k), es[k]);
  }
}
