/** How many codes, guesses and sends any hour can see, over every interleaving. */
module RecoveryWindows {
  import opened Text
  import opened Recovery
  import opened RecoveryInvariant

  // ---------- What one transaction does to one code row ----------

  /** The wrong guess that VerifyCode compared with code c and counted. */
  predicate WrongGuess(db: Db, e: Event, c: nat) {
    && e.step.VerifyStep? && e.step.pick == Some(c) && c < |db.codes| && db.codes[c].status == Live
    && (ReplyTo(db, e) == Refused(CodeMismatch) || ReplyTo(db, e) == Refused(AttemptsExhausted))
  }

  /** Every way a transaction can change a code row: it retires it, confirms its sending, counts
      a wrong guess on it, or uses it up. */
  ghost predicate CodeChanges(db: Db, e: Event, i: nat, c: Code, d: Code) {
    || RetiresTo(c, d)
    || (c.status == Sending && e.step.ConfirmStep? && e.step.code == i && ReplyTo(db, e) == Done
        && d == c.(status := Live, sentAt := Some(e.at)))
    || (c.status == Live && WrongGuess(db, e, i) && e.at < c.expires && d == Missed(c, e.at))
    || (c.status == Live && e.step.VerifyStep? && ReplyTo(db, e) == CodeVerified(i, |db.sessions|) && e.at < c.expires
        && d == c.(status := Used, usedAt := Some(e.at)))
  }

  ghost predicate CodesChange(db: Db, e: Event, after: seq<Code>) {
    |after| >= |db.codes| && forall i :: 0 <= i < |db.codes| ==> CodeChanges(db, e, i, db.codes[i], after[i])
  }

  lemma RetiringChanges(db: Db, e: Event, after: seq<Code>)
    requires Retires(db.codes, after)
    ensures CodesChange(db, e, after)
  {}

  lemma RetiresTwice(a: seq<Code>, b: seq<Code>, c: seq<Code>)
    requires Retires(a, b) && Retires(b, c)
    ensures Retires(a, c)
  {}

  /** The code a successful PrepareRequest appends. */
  predicate Appends(db: Db, e: Event, code: Code) {
    && e.step.PrepareStep? && ReplyTo(db, e) == Prepared(|db.codes|)
    && code == NewCode(code.user, code.email, FoldCN(e.step.cn), e.step.secret, e.at)
    && !CoolingDown(db.codes, code.user, code.email, e.at)
    && IssuedIn(db.codes, code.user, code.email, e.at - WINDOW + 1, e.at + 1) < WINDOW_LIMIT
  }

  lemma SameLength(codes: seq<Code>, after: seq<Code>)
    requires Retires(codes, after)
    ensures |codes| == |after|
  {}

  lemma RetiringRowsOk(codes: seq<Code>, after: seq<Code>, sessions: seq<Session>, later: seq<Session>)
    requires Retires(codes, after) && SessionsRetire(sessions, later) && CodesOk(codes) && SessionsOk(sessions)
    ensures CodesOk(after) && SessionsOk(later)
  {
    forall i | 0 <= i < |after| ensures Consistent(after[i]) { RetiringKeepsRow(codes[i], after[i]); }
  }

  predicate SameIssue(c: Code, d: Code) {
    c.user == d.user && c.email == d.email && c.created == d.created
  }

  ghost predicate SameIssues(codes: seq<Code>, after: seq<Code>) {
    |after| == |codes| && forall i :: 0 <= i < |codes| ==> SameIssue(codes[i], after[i])
  }

  lemma {:induction false} IssuedInSame(codes: seq<Code>, after: seq<Code>, u: nat, e: nat, from: int, to: int)
    requires SameIssues(codes, after)
    ensures IssuedIn(after, u, e, from, to) == IssuedIn(codes, u, e, from, to)
  {
    if codes != [] {
      var n := |codes| - 1;
      assert SameIssue(codes[n], after[n]);
      IssuedInSame(codes[..n], after[..n], u, e, from, to);
    }
  }

  lemma IssuedInKept(codes: seq<Code>, after: seq<Code>, u: nat, e: nat, from: int, to: int)
    requires Retires(codes, after)
    ensures IssuedIn(after, u, e, from, to) == IssuedIn(codes, u, e, from, to)
  {
    IssuedInSame(codes, after, u, e, from, to);
  }

  lemma IssueChanges(db: Db, e: Event)
    requires e.step.PrepareStep?
    ensures var codes := Next(db, e).codes;
            || (|codes| == |db.codes| && Retires(db.codes, codes) && !ReplyTo(db, e).Prepared?)
            || (|codes| == |db.codes| + 1 && Retires(db.codes, codes[..|db.codes|]) && Appends(db, e, codes[|db.codes|])
                && codes[|db.codes|].user < |db.users|
                && Quiet(codes[..|db.codes|], Next(db, e).sessions, codes[|db.codes|].user))
            || !CodesOk(db.codes) || !SessionsOk(db.sessions)
  {
    var codes := Next(db, e).codes;
    KeepsSelf(db.codes, db.sessions);
    if codes != db.codes && CodesOk(db.codes) && SessionsOk(db.sessions) {
      var u := e.step.row.value;
      var m := CurrentEmail(db.emails, u).value;
      var (lapsed, sessions) := (LapseCodes(db.codes, u, e.at), LapseSessions(db.sessions, u, e.at));
      hide LapseCodes, LapseSessions, RetireCodes, RetireSessions, CoolingDown, Retires, SessionsRetire, Quiet,
        IssuedIn;
      UpdatesRetire(db.codes, u, m, e.at);
      UpdatesRetire(lapsed, u, m, e.at);
      SessionUpdatesRetire(db.sessions, u, m, e.at);
      RetiresTwice(db.codes, lapsed, RetireCodes(lapsed, u, e.at));
      RetiringRowsOk(db.codes, lapsed, db.sessions, sessions);
      RetiringQuiets(lapsed, sessions, u, e.at);
      CoolingDownKept(db.codes, lapsed, u, m, e.at);
      IssuedInKept(db.codes, lapsed, u, m, e.at - WINDOW + 1, e.at + 1);
      if ReplyTo(db, e).Prepared? {
        assert codes == RetireCodes(lapsed, u, e.at) + [NewCode(u, m, FoldCN(e.step.cn), e.step.secret, e.at)];
        SameLength(db.codes, RetireCodes(lapsed, u, e.at));
        assert codes[..|db.codes|] == RetireCodes(lapsed, u, e.at);
      } else {
        SameLength(db.codes, lapsed);
      }
    }
  }

  lemma ConfirmChanges(db: Db, e: Event)
    requires e.step.ConfirmStep?
    ensures CodesChange(db, e, Next(db, e).codes) && |Next(db, e).codes| == |db.codes|
  {}

  lemma FailChanges(db: Db, e: Event)
    requires e.step.FailStep?
    ensures CodesChange(db, e, Next(db, e).codes) && |Next(db, e).codes| == |db.codes|
  {
    var after := Next(db, e).codes;
    assert Retires(db.codes, after);
    RetiringChanges(db, e, after);
  }

  lemma VerifyChanges(db: Db, e: Event)
    requires e.step.VerifyStep?
    ensures CodesChange(db, e, Next(db, e).codes) && |Next(db, e).codes| == |db.codes|
  {
    var after := Next(db, e).codes;
    KeepsSelf(db.codes, db.sessions);
    if after == db.codes {
      RetiringChanges(db, e, after);
    } else {
      var c := e.step.pick.value;
      var code := db.codes[c];
      if code.expires <= e.at {
        assert Retires(db.codes, after);
        RetiringChanges(db, e, after);
      } else if !Matches(code, FoldCN(e.step.cn), e.step.guess) {
        assert after == db.codes[c := Missed(code, e.at)];
      } else {
        assert ReplyTo(db, e) == CodeVerified(c, |db.sessions|);
      }
    }
  }

  lemma OthersChange(db: Db, e: Event)
    requires !e.step.PrepareStep? && !e.step.ConfirmStep? && !e.step.FailStep? && !e.step.VerifyStep?
    ensures Retires(db.codes, Next(db, e).codes)
  {
    KeepsSelf(db.codes, db.sessions);
    hide RetireCodes, RetireSessions, RetireCodesOfEmail, RetireSessionsOfEmail, Retires, SessionsRetire;
    match e.step
    case ResetStep(token, _) =>
      var found := FindToken(db.sessions, token);
      if found.Some? && found.value < |db.sessions| { UpdatesRetire(db.codes, db.sessions[found.value].user, 0, e.at); }
    case PutEmailStep(u, _) =>
      if CurrentEmail(db.emails, u).Some? { UpdatesRetire(db.codes, 0, CurrentEmail(db.emails, u).value, e.at); }
    case UnbindStep(u) =>
      if CurrentEmail(db.emails, u).Some? { UpdatesRetire(db.codes, 0, CurrentEmail(db.emails, u).value, e.at); }
    case AccessStep(u, _) => UpdatesRetire(db.codes, u, 0, e.at);
    case MergeStep(source, _) => UpdatesRetire(db.codes, source, 0, e.at);
    case _ =>
  }

  /** Rows change only in the listed ways, and only a successful PrepareRequest appends one. */
  lemma StepChanges(db: Db, e: Event)
    requires CodesOk(db.codes) && SessionsOk(db.sessions)
    ensures CodesChange(db, e, Next(db, e).codes)
    ensures |Next(db, e).codes| == |db.codes| ||
            (|Next(db, e).codes| == |db.codes| + 1 && Appends(db, e, Next(db, e).codes[|db.codes|]))
    ensures ReplyTo(db, e).Prepared? <==> |Next(db, e).codes| == |db.codes| + 1
  {
    if e.step.PrepareStep? {
      IssueChanges(db, e);
      var codes := Next(db, e).codes;
      hide Next, ReplyTo;
      RetiringChanges(db, e, codes[..|db.codes|]);
      assert forall i :: 0 <= i < |db.codes| ==> codes[..|db.codes|][i] == codes[i];
    } else if e.step.ConfirmStep? {
      ConfirmChanges(db, e);
    } else if e.step.FailStep? {
      FailChanges(db, e);
    } else if e.step.VerifyStep? {
      VerifyChanges(db, e);
    } else {
      OthersChange(db, e);
      RetiringChanges(db, e, Next(db, e).codes);
    }
  }

  /** What never changes: whose a code is, when it was made and when it expires; wrong guesses
      only add up; and a code that is out of play never changes again. */
  predicate Ages(c: Code, d: Code) {
    && d == c.(status := d.status, attempts := d.attempts, sentAt := d.sentAt, usedAt := d.usedAt,
               invalidatedAt := d.invalidatedAt)
    && c.attempts <= d.attempts
    && (!InFlight(c) ==> d == c)
    && (d.status == Sending ==> c.status == Sending)
  }

  lemma ChangesAge(db: Db, e: Event, i: nat, c: Code, d: Code)
    requires CodeChanges(db, e, i, c, d)
    ensures Ages(c, d) && SameIssue(c, d)
  {}

  // ---------- Codes per hour ----------

  function IssuedFrom(codes: seq<Code>, u: nat, e: nat, t: int): nat {
    IssuedIn(codes, u, e, t, t + WINDOW)
  }

  ghost predicate Windows(codes: seq<Code>) {
    forall u: nat, e: nat, t: int :: IssuedFrom(codes, u, e, t) <= WINDOW_LIMIT
  }

  lemma {:induction false} IssuedInWithin(codes: seq<Code>, u: nat, e: nat, from: int, to: int, last: int, wide: int)
    requires Spaced(codes, last) && from >= wide && last < to
    ensures IssuedIn(codes, u, e, from, to) <= IssuedIn(codes, u, e, wide, last + 1)
  {
    if codes != [] {
      var n := |codes| - 1;
      assert Spaced(codes[..n], last);
      IssuedInWithin(codes[..n], u, e, from, to, last, wide);
    }
  }

  lemma IssuedInSnoc(codes: seq<Code>, after: seq<Code>, u: nat, e: nat, from: int, to: int)
    requires |after| == |codes| + 1 && SameIssues(codes, after[..|codes|])
    ensures IssuedIn(after, u, e, from, to) ==
            IssuedIn(codes, u, e, from, to) +
              if IssuedFor(after[|codes|], u, e) && from <= after[|codes|].created < to then 1 else 0
  {
    IssuedInSame(codes, after[..|codes|], u, e, from, to);
  }

  /** One more code made at `now`, when fewer than the limit were made in the hour before. */
  lemma WindowStep(codes: seq<Code>, after: seq<Code>, u: nat, e: nat, t: int, now: Instant)
    requires Spaced(codes, now) && IssuedFrom(codes, u, e, t) <= WINDOW_LIMIT
    requires |after| == |codes| + 1 && SameIssues(codes, after[..|codes|]) && after[|codes|].created == now
    requires IssuedFor(after[|codes|], u, e) ==> IssuedIn(codes, u, e, now - WINDOW + 1, now + 1) < WINDOW_LIMIT
    ensures IssuedFrom(after, u, e, t) <= WINDOW_LIMIT
  {
    hide Spaced, SameIssues;
    IssuedInSnoc(codes, after, u, e, t, t + WINDOW);
    if IssuedFor(after[|codes|], u, e) && t <= now < t + WINDOW {
      IssuedInWithin(codes, u, e, t, t + WINDOW, now, now - WINDOW + 1);
    }
  }

  /** After any transaction the codes are the old ones, with at most one new one appended. */
  lemma StepKeepsIssues(db: Db, e: Event)
    requires CodesOk(db.codes) && SessionsOk(db.sessions)
    ensures |Next(db, e).codes| >= |db.codes| && SameIssues(db.codes, Next(db, e).codes[..|db.codes|])
  {
    StepChanges(db, e);
    var after := Next(db, e).codes;
    hide Next;
    forall i | 0 <= i < |db.codes|
      ensures SameIssue(db.codes[i], after[..|db.codes|][i])
    {
      ChangesAge(db, e, i, db.codes[i], after[i]);
    }
  }

  lemma SpacedOf(db: Db, last: int)
    requires Inv(db, last)
    ensures Spaced(db.codes, last) && CodesOk(db.codes) && SessionsOk(db.sessions)
  {}

  /** The windows stay within the limit when the codes keep their issue and at most one is appended. */
  lemma WindowsGrow(codes: seq<Code>, after: seq<Code>, now: Instant)
    requires Windows(codes) && Spaced(codes, now) && |codes| <= |after| <= |codes| + 1
    requires SameIssues(codes, after[..|codes|])
    requires |after| == |codes| + 1 ==>
               && after[|codes|].created == now
               && IssuedIn(codes, after[|codes|].user, after[|codes|].email, now - WINDOW + 1, now + 1) < WINDOW_LIMIT
    ensures Windows(after)
  {
    hide Spaced, SameIssues, IssuedIn;
    forall u: nat, m: nat, t: int
      ensures IssuedFrom(after, u, m, t) <= WINDOW_LIMIT
    {
      assert IssuedFrom(codes, u, m, t) <= WINDOW_LIMIT;
      if |after| == |codes| {
        assert after[..|codes|] == after;
        IssuedInSame(codes, after, u, m, t, t + WINDOW);
      } else {
        WindowStep(codes, after, u, m, t, now);
      }
    }
  }

  lemma WindowsStep(db: Db, e: Event)
    requires Inv(db, e.at) && Windows(db.codes)
    ensures Windows(Next(db, e).codes)
  {
    hide Next, Inv, CodesChange, Spaced, SameIssues, IssuedIn, CodesOk, SessionsOk, CoolingDown, Windows, ReplyTo;
    SpacedOf(db, e.at);
    StepChanges(db, e);
    StepKeepsIssues(db, e);
    WindowsGrow(db.codes, Next(db, e).codes, e.at);
  }

  lemma NothingIssued()
    ensures Windows([])
  {}

  lemma {:induction false} RunKeepsWindows(es: seq<Event>)
    requires Possible(es)
    ensures Windows(Run(es).codes)
  {
    if es != [] {
      hide Inv, Next, Offered, Windows;
      PossibleInit(es);
      var db := Run(es[..|es| - 1]);
      RunKeepsWindows(es[..|es| - 1]);
      RunKeepsInv(es[..|es| - 1]);
      LaterKeepsInv(db, LastTime(es[..|es| - 1]), es[|es| - 1].at);
      WindowsStep(db, es[|es| - 1]);
    } else {
      NothingIssued();
    }
  }

  /** Any hour sees at most WINDOW_LIMIT codes of one user and email, COOLDOWN apart. */
  lemma CodesPerHour(es: seq<Event>, u: nat, e: nat, t: int)
    requires Possible(es)
    ensures IssuedIn(Run(es).codes, u, e, t, t + WINDOW) <= WINDOW_LIMIT
    ensures forall i, j ::
              0 <= i < j < |Run(es).codes| && IssuedFor(Run(es).codes[i], u, e) && IssuedFor(Run(es).codes[j], u, e) ==>
              Run(es).codes[i].created + COOLDOWN <= Run(es).codes[j].created
  {
    RunKeepsWindows(es);
    assert IssuedFrom(Run(es).codes, u, e, t) <= WINDOW_LIMIT;
    RunKeepsInv(es);
    SpacedOf(Run(es), LastTime(es));
  }

  // ---------- Wrong guesses per hour ----------

  /** The wrong guesses at one user's and email's codes that the run evaluates in [t, t + WINDOW). */
  function WrongGuesses(es: seq<Event>, u: nat, e: nat, t: int): nat {
    if es == [] then 0
    else
      var n := |es| - 1;
      WrongGuesses(es[..n], u, e, t) + if GuessesWrong(Run(es[..n]), es[n], u, e, t) then 1 else 0
  }

  predicate GuessesWrong(db: Db, ev: Event, u: nat, e: nat, t: int) {
    && ev.step.VerifyStep? && ev.step.pick.Some? && WrongGuess(db, ev, ev.step.pick.value)
    && ev.step.pick.value < |db.codes| && IssuedFor(db.codes[ev.step.pick.value], u, e) && t <= ev.at < t + WINDOW
  }

  /** The wrong guesses counted on the pair's codes created in [from, to). */
  function AttemptsIn(codes: seq<Code>, u: nat, e: nat, from: int, to: int): nat {
    if codes == [] then 0
    else
      var n := |codes| - 1;
      AttemptsIn(codes[..n], u, e, from, to) +
        if IssuedFor(codes[n], u, e) && from <= codes[n].created < to then codes[n].attempts else 0
  }

  ghost predicate AttemptsKept(codes: seq<Code>, after: seq<Code>) {
    |after| == |codes| && forall i :: 0 <= i < |codes| ==>
      SameIssue(codes[i], after[i]) && codes[i].attempts <= after[i].attempts
  }

  lemma {:induction false} AttemptsGrow(codes: seq<Code>, after: seq<Code>, u: nat, e: nat, from: int, to: int, c: nat,
                                        more: nat)
    requires AttemptsKept(codes, after)
    requires more == 0 || (c < |codes| && IssuedFor(codes[c], u, e) && from <= codes[c].created < to
                           && after[c].attempts >= codes[c].attempts + more)
    ensures AttemptsIn(after, u, e, from, to) >= AttemptsIn(codes, u, e, from, to) + more
  {
    if codes != [] {
      var n := |codes| - 1;
      assert SameIssue(codes[n], after[n]);
      AttemptsGrow(codes[..n], after[..n], u, e, from, to, c, if c < n then more else 0);
    }
  }

  lemma {:induction false} AttemptsBounded(codes: seq<Code>, u: nat, e: nat, from: int, to: int)
    requires CodesOk(codes)
    ensures AttemptsIn(codes, u, e, from, to) <= MAX_ATTEMPTS * IssuedIn(codes, u, e, from, to)
  {
    if codes != [] {
      var n := |codes| - 1;
      assert Consistent(codes[n]);
      AttemptsBounded(codes[..n], u, e, from, to);
    }
  }

  /** A wrong guess is counted on the code it was compared with, while that code had not expired. */
  lemma WrongGuessCounts(db: Db, e: Event, c: nat)
    requires c < |db.codes| && WrongGuess(db, e, c)
    ensures e.at < db.codes[c].expires && Next(db, e).codes == db.codes[c := Missed(db.codes[c], e.at)]
  {}

  lemma StepKeepsAttempts(db: Db, e: Event)
    requires CodesOk(db.codes) && SessionsOk(db.sessions)
    ensures |Next(db, e).codes| >= |db.codes| && AttemptsKept(db.codes, Next(db, e).codes[..|db.codes|])
  {
    StepChanges(db, e);
    var after := Next(db, e).codes;
    hide Next;
    forall i | 0 <= i < |db.codes|
      ensures SameIssue(db.codes[i], after[..|db.codes|][i]) && db.codes[i].attempts <= after[..|db.codes|][i].attempts
    {
      ChangesAge(db, e, i, db.codes[i], after[i]);
    }
  }

  lemma {:induction false} AttemptsInPrefix(codes: seq<Code>, n: nat, u: nat, e: nat, from: int, to: int)
    requires n <= |codes|
    ensures AttemptsIn(codes, u, e, from, to) >= AttemptsIn(codes[..n], u, e, from, to)
  {
    if n == |codes| {
      assert codes[..n] == codes;
    } else {
      assert codes[..|codes| - 1][..n] == codes[..n];
      AttemptsInPrefix(codes[..|codes| - 1], n, u, e, from, to);
    }
  }

  lemma AttemptsCover(codes: seq<Code>, after: seq<Code>, u: nat, e: nat, from: int, to: int, c: nat, more: nat)
    requires |after| >= |codes| && AttemptsKept(codes, after[..|codes|])
    requires more == 0 || (c < |codes| && IssuedFor(codes[c], u, e) && from <= codes[c].created < to
                           && after[c].attempts >= codes[c].attempts + more)
    ensures AttemptsIn(after, u, e, from, to) >= AttemptsIn(codes, u, e, from, to) + more
  {
    AttemptsInPrefix(after, |codes|, u, e, from, to);
    AttemptsGrow(codes, after[..|codes|], u, e, from, to, c, more);
  }

  /** The attempts of the pair's last code before t, if it can still be guessed at t. */
  function Carried(codes: seq<Code>, u: nat, e: nat, t: int): nat {
    if codes == [] then 0
    else
      var n := |codes| - 1;
      if !IssuedFor(codes[n], u, e) || codes[n].created >= t then Carried(codes[..n], u, e, t)
      else if t < codes[n].created + CODE_TTL then codes[n].attempts else 0
  }

  predicate LastBefore(codes: seq<Code>, u: nat, e: nat, t: int, c: nat) {
    && c < |codes| && IssuedFor(codes[c], u, e) && codes[c].created < t < codes[c].created + CODE_TTL
    && forall j :: c < j < |codes| ==> !IssuedFor(codes[j], u, e) || codes[j].created >= t
  }

  lemma {:induction false} CarriedGrows(codes: seq<Code>, after: seq<Code>, u: nat, e: nat, t: int, c: nat, more: nat)
    requires AttemptsKept(codes, after)
    requires more == 0 || (LastBefore(codes, u, e, t, c) && after[c].attempts >= codes[c].attempts + more)
    ensures Carried(after, u, e, t) >= Carried(codes, u, e, t) + more
  {
    if codes != [] {
      var n := |codes| - 1;
      assert SameIssue(codes[n], after[n]) && codes[n].attempts <= after[n].attempts;
      if !IssuedFor(codes[n], u, e) || codes[n].created >= t {
        assert forall j :: 0 <= j < n ==> codes[..n][j] == codes[j];
        CarriedGrows(codes[..n], after[..n], u, e, t, c, more);
      }
    }
  }

  lemma CarriedBounded(codes: seq<Code>, u: nat, e: nat, t: int)
    requires CodesOk(codes)
    ensures Carried(codes, u, e, t) <= MAX_ATTEMPTS
  {
    if codes != [] {
      var n := |codes| - 1;
      assert Consistent(codes[n]);
      CarriedBounded(codes[..n], u, e, t);
    }
  }

  lemma CarriedCover(codes: seq<Code>, after: seq<Code>, u: nat, e: nat, t: int, c: nat, more: nat)
    requires |codes| <= |after| <= |codes| + 1 && AttemptsKept(codes, after[..|codes|])
    requires |after| == |codes| + 1 ==> after[|codes|].created >= t
    requires more == 0 || (LastBefore(codes, u, e, t, c) && after[c].attempts >= codes[c].attempts + more)
    ensures Carried(after, u, e, t) >= Carried(codes, u, e, t) + more
  {
    assert |after| == |codes| ==> after[..|codes|] == after;
    CarriedGrows(codes, after[..|codes|], u, e, t, c, more);
  }

  /** The wrong guesses the hour from t on can still account for. */
  function Tally(codes: seq<Code>, u: nat, e: nat, t: int): nat {
    AttemptsIn(codes, u, e, t, t + WINDOW) + Carried(codes, u, e, t)
  }

  /** A wrong guess of the hour is at a code made in that hour, or at the last one before it. */
  lemma GuessedCode(db: Db, e: Event, u: nat, m: nat, c: nat, t: int)
    requires Inv(db, e.at) && WrongGuess(db, e, c) && IssuedFor(db.codes[c], u, m) && t <= e.at < t + WINDOW
    ensures c < |Next(db, e).codes| && Next(db, e).codes[c].attempts == db.codes[c].attempts + 1
    ensures t <= db.codes[c].created < t + WINDOW || LastBefore(db.codes, u, m, t, c)
  {
    WrongGuessCounts(db, e, c);
    assert Consistent(db.codes[c]);
    hide Next;
  }

  lemma GuessStep(db: Db, ev: Event, u: nat, e: nat, t: int, guesses: nat)
    requires Inv(db, ev.at) && guesses <= Tally(db.codes, u, e, t) && (ev.at < t ==> guesses == 0)
    ensures guesses + (if GuessesWrong(db, ev, u, e, t) then 1 else 0) <= Tally(Next(db, ev).codes, u, e, t)
  {
    hide Next, Inv, AttemptsIn, Carried, LastBefore, WrongGuess, AttemptsKept, Spaced, CodesOk, SessionsOk, CodesChange;
    SpacedOf(db, ev.at);
    if ev.at >= t {
      var after := Next(db, ev).codes;
      StepChanges(db, ev);
      StepKeepsAttempts(db, ev);
      var c := if GuessesWrong(db, ev, u, e, t) then ev.step.pick.value else 0;
      if GuessesWrong(db, ev, u, e, t) { GuessedCode(db, ev, u, e, c, t); }
      var inHour := GuessesWrong(db, ev, u, e, t) && t <= db.codes[c].created < t + WINDOW;
      var carried := GuessesWrong(db, ev, u, e, t) && !inHour;
      AttemptsCover(db.codes, after, u, e, t, t + WINDOW, c, if inHour then 1 else 0);
      CarriedCover(db.codes, after, u, e, t, c, if carried then 1 else 0);
    }
  }

  lemma {:induction false} NoGuessesYet(es: seq<Event>, u: nat, e: nat, t: int)
    requires forall i :: 0 <= i < |es| ==> es[i].at < t
    ensures WrongGuesses(es, u, e, t) == 0
  {
    if es != [] { NoGuessesYet(es[..|es| - 1], u, e, t); }
  }

  /** Every wrong guess of an hour is one counted attempt on a code made in that hour, or on the one
      code made before it that can still be guessed. */
  lemma {:induction false} GuessesAreCounted(es: seq<Event>, u: nat, e: nat, t: int)
    requires Possible(es)
    ensures WrongGuesses(es, u, e, t) <= Tally(Run(es).codes, u, e, t)
  {
    if es != [] {
      hide Inv, Next, Offered, GuessesWrong, Tally;
      PossibleInit(es);
      var before, last := es[..|es| - 1], es[|es| - 1];
      var db := Run(before);
      GuessesAreCounted(before, u, e, t);
      if last.at < t { NoGuessesYet(before, u, e, t); }
      RunKeepsInv(before);
      LaterKeepsInv(db, LastTime(before), last.at);
      GuessStep(db, last, u, e, t, WrongGuesses(before, u, e, t));
    }
  }

  /** In any hour at most (WINDOW_LIMIT + 1) * MAX_ATTEMPTS wrong guesses at one user's and email's
      codes are ever evaluated: of the codes made before it only one can still be guessed. */
  lemma GuessesPerHour(es: seq<Event>, u: nat, e: nat, t: int)
    requires Possible(es)
    ensures WrongGuesses(es, u, e, t) <= (WINDOW_LIMIT + 1) * MAX_ATTEMPTS
  {
    var codes := Run(es).codes;
    GuessesAreCounted(es, u, e, t);
    RunKeepsInv(es);
    SpacedOf(Run(es), LastTime(es));
    AttemptsBounded(codes, u, e, t, t + WINDOW);
    CarriedBounded(codes, u, e, t);
    CodesPerHour(es, u, e, t);
  }

  // ---------- Sends per address ----------

  function RequestsIn(requests: seq<Request>, ip: string, from: int, to: int): nat {
    if requests == [] then 0
    else
      var n := |requests| - 1;
      RequestsIn(requests[..n], ip, from, to) + if requests[n].ip == ip && from <= requests[n].at < to then 1 else 0
  }

  /** The sends that requests from one address start in [t, t + WINDOW). */
  function SendsFrom(es: seq<Event>, ip: string, t: int): nat {
    if es == [] then 0
    else
      var n := |es| - 1;
      SendsFrom(es[..n], ip, t) + if StartsSend(Run(es[..n]), es[n], ip, t) then 1 else 0
  }

  predicate StartsSend(db: Db, e: Event, ip: string, t: int) {
    e.step.PrepareStep? && Trim(e.step.ip) == ip && t <= e.at < t + WINDOW && ReplyTo(db, e).Prepared?
  }

  lemma {:induction false} RecentCoversWindow(requests: seq<Request>, ip: string, t: int, now: Instant)
    requires t <= now < t + WINDOW
    ensures RequestsIn(requests, ip, t, t + WINDOW) <= RequestsFrom(requests, ip, now)
  {
    if requests != [] {
      RecentCoversWindow(requests[..|requests| - 1], ip, t, now);
    }
  }

  lemma RequestsGrow(db: Db, e: Event)
    ensures Next(db, e).requests == db.requests ||
            (e.step.PrepareStep?
             && Next(db, e).requests == db.requests + [Request(FoldCN(e.step.cn), Trim(e.step.ip), e.at)])
    ensures e.step.PrepareStep? && ReplyTo(db, e).Prepared? ==>
              Next(db, e).requests != db.requests && RequestsFrom(db.requests, Trim(e.step.ip), e.at) < IP_WINDOW_LIMIT
  {
    assert |db.requests + [Request("", "", e.at)]| > |db.requests|;
  }

  lemma SendStep(db: Db, e: Event, ip: string, t: int, sends: nat)
    requires sends <= RequestsIn(db.requests, ip, t, t + WINDOW) && sends <= IP_WINDOW_LIMIT
    ensures var more := if StartsSend(db, e, ip, t) then 1 else 0;
            sends + more <= RequestsIn(Next(db, e).requests, ip, t, t + WINDOW) && sends + more <= IP_WINDOW_LIMIT
  {
    RequestsGrow(db, e);
    var after := Next(db, e).requests;
    if after != db.requests {
      assert after[..|db.requests|] == db.requests;
    }
    if StartsSend(db, e, ip, t) {
      RecentCoversWindow(db.requests, ip, t, e.at);
    }
  }

  lemma {:induction false} SendsAreLogged(es: seq<Event>, ip: string, t: int)
    ensures SendsFrom(es, ip, t) <= RequestsIn(Run(es).requests, ip, t, t + WINDOW)
    ensures SendsFrom(es, ip, t) <= IP_WINDOW_LIMIT
  {
    if es != [] {
      hide Next, StartsSend, RequestsIn;
      var n := |es| - 1;
      SendsAreLogged(es[..n], ip, t);
      SendStep(Run(es[..n]), es[n], ip, t, SendsFrom(es[..n], ip, t));
    }
  }

  /** Requests from one address start at most IP_WINDOW_LIMIT sends in any hour, to whatever users. */
  lemma SendsPerHour(es: seq<Event>, ip: string, t: int)
    ensures SendsFrom(es, ip, t) <= IP_WINDOW_LIMIT
  {
    SendsAreLogged(es, ip, t);
  }
}
