/** What the admin limiter's refusals rest on: which logins, failures and audits of the run. */
module AdminLimiterOrigins {
  import opened LimiterKeys
  import opened AdminLimiter

  // ---------- Logins ----------

  predicate LoginOf(e: Event, ip: string) {
    e.op.AllowOp? && e.op.ip == ip
  }

  /** How often the address has tried to log in from t on. */
  function LoginsSince(es: seq<Event>, ip: string, t: int): nat {
    if es == [] then 0
    else
      var n := |es| - 1;
      LoginsSince(es[..n], ip, t) + if LoginOf(es[n], ip) && es[n].at >= t then 1 else 0
  }

  lemma {:induction false} LoginsSinceMore(es: seq<Event>, ip: string, t: int, from: int)
    requires from <= t
    ensures LoginsSince(es, ip, t) <= LoginsSince(es, ip, from)
  {
    if es != [] { LoginsSinceMore(es[..|es| - 1], ip, t, from); }
  }

  /** The counter's count is of logins since its window opened. */
  ghost predicate LoginsCounted(s: State, es: seq<Event>, ip: string) {
    ip in s.attempts ==>
      s.attempts[ip].start <= LastTime(es) && s.attempts[ip].count <= LoginsSince(es, ip, s.attempts[ip].start)
  }

  lemma AllowStep(p: Policy, s: State, i: string, user: string, now: Instant, ip: string)
    requires ip in Allow(p, s, i, user, now).0.attempts
    ensures var d := Allow(p, s, i, user, now).0.attempts[ip];
            if i == ip then var c := CounterFor(p, s, ip, now); d == c.(count := d.count) && d.count <= c.count + 1
            else ip in s.attempts && d == s.attempts[ip]
  {
    hide FailureKey, Blocked, FailuresExpired, AuditExpired;
  }

  lemma AttemptStep(p: Policy, s: State, e: Event, ip: string)
    requires ip in Apply(p, s, e).0.attempts
    ensures var (c, d) := (CounterFor(p, s, ip, e.at), Apply(p, s, e).0.attempts[ip]);
            if LoginOf(e, ip) then d == c.(count := d.count) && d.count <= c.count + 1
            else ip in s.attempts && d == s.attempts[ip]
  {
    hide FailureKey, CountFailure, FailuresFor, Allow;
    match e.op
    case AllowOp(i, user) => AllowStep(p, s, i, user, e.at, ip);
    case _ =>
  }

  lemma LoginsCountedStep(p: Policy, s: State, es: seq<Event>, e: Event, ip: string)
    requires LoginsCounted(s, es, ip) && LastTime(es) <= e.at
    ensures LoginsCounted(Apply(p, s, e).0, es + [e], ip)
  {
    hide Apply;
    assert (es + [e])[..|es|] == es;
    if ip in Apply(p, s, e).0.attempts { AttemptStep(p, s, e, ip); }
  }

  lemma NoneCounted(ip: string)
    ensures LoginsCounted(EMPTY, [], ip)
  {}

  lemma {:induction false} RunLoginsCounted(p: Policy, es: seq<Event>, ip: string)
    requires Ordered(es)
    ensures LoginsCounted(Run(p, EMPTY, es), es, ip)
  {
    hide Apply, LoginsCounted;
    if es == [] {
      NoneCounted(ip);
    } else {
      var n := |es| - 1;
      OrderedInit(es);
      RunLoginsCounted(p, es[..n], ip);
      LoginsCountedStep(p, Run(p, EMPTY, es[..n]), es[..n], es[n], ip);
      assert es == es[..n] + [es[n]];
    }
  }

  lemma AttemptsEarned(p: Policy, s: State, es: seq<Event>, ip: string, now: Instant)
    requires LoginsCounted(s, es, ip) && CounterFor(p, s, ip, now).count >= p.maxAttempts
    ensures LoginsSince(es, ip, now - p.attemptWindow + 1) >= p.maxAttempts
  {
    if p.maxAttempts > 0 { LoginsSinceMore(es, ip, s.attempts[ip].start, now - p.attemptWindow + 1); }
  }

  // ---------- Failures ----------

  /** The pair's failures from t on. */
  function FailuresSince(es: seq<Event>, key: string, t: int): nat {
    if es == [] then 0
    else
      var n := |es| - 1;
      FailuresSince(es[..n], key, t) + if FailsPair(es[n], key) && es[n].at >= t then 1 else 0
  }

  lemma {:induction false} FailuresSinceMore(es: seq<Event>, key: string, t: int, from: int)
    requires from <= t
    ensures FailuresSince(es, key, t) <= FailuresSince(es, key, from)
  {
    if es != [] { FailuresSinceMore(es[..|es| - 1], key, t, from); }
  }

  /** The first instant of the window that ends at this one. */
  function WindowStart(p: Policy, at: int): int {
    if p.failureWindow == 0 then at else at - p.failureWindow + 1
  }

  /** Event i is a failure of the pair, at least the maxFailures-th one of the window that ends with it. */
  ghost predicate TooMany(p: Policy, es: seq<Event>, key: string, i: int) {
    && 0 <= i < |es| && FailsPair(es[i], key)
    && FailuresSince(es[..i + 1], key, WindowStart(p, es[i].at)) >= p.maxFailures
  }

  ghost predicate BlockEarned(p: Policy, es: seq<Event>, key: string, until: int) {
    exists i :: TooMany(p, es, key, i) && until == es[i].at + p.blockDuration
  }

  lemma BlockStaysEarned(p: Policy, es: seq<Event>, e: Event, key: string, until: int)
    requires BlockEarned(p, es, key, until)
    ensures BlockEarned(p, es + [e], key, until)
  {
    var i :| TooMany(p, es, key, i) && until == es[i].at + p.blockDuration;
    assert (es + [e])[..i + 1] == es[..i + 1] && (es + [e])[i] == es[i];
    assert TooMany(p, es + [e], key, i);
  }

  lemma EarnedNow(p: Policy, es: seq<Event>, key: string, i: int)
    requires TooMany(p, es, key, i)
    ensures BlockEarned(p, es, key, es[i].at + p.blockDuration)
  {}

  /** The record's count is of failures since its window opened, and its block was earned. */
  ghost predicate RecordEarned(p: Policy, s: State, es: seq<Event>, key: string) {
    key in s.failures ==>
      && s.failures[key].start <= LastTime(es)
      && s.failures[key].count <= FailuresSince(es, key, s.failures[key].start)
      && (s.failures[key].blockedUntil > ZERO ==> BlockEarned(p, es, key, s.failures[key].blockedUntil))
  }

  lemma RecordStep(p: Policy, s: State, e: Event, key: string)
    ensures key in Apply(p, s, e).0.failures ==>
              if FailsPair(e, key)
              then Apply(p, s, e).0.failures[key] == CountFailure(p, FailuresFor(p, s, key, e.at), e.at)
              else key in s.failures && Apply(p, s, e).0.failures[key] == s.failures[key]
  {
    hide CountFailure, FailuresFor, CounterFor, AttemptExpired, AuditExpired;
  }

  lemma CountEarned(p: Policy, s: State, es: seq<Event>, e: Event, key: string)
    requires RecordEarned(p, s, es, key) && LastTime(es) <= e.at && FailsPair(e, key)
    requires key in Apply(p, s, e).0.failures
    ensures RecordEarned(p, Apply(p, s, e).0, es + [e], key)
  {
    hide Apply, FailureKey, BlockEarned;
    var all := es + [e];
    RecordStep(p, s, e, key);
    assert all[..|es|] == es && all[..|es| + 1] == all;
    var f := FailuresFor(p, s, key, e.at);
    assert WindowStart(p, e.at) <= f.start <= e.at && f.count <= FailuresSince(es, key, f.start);
    if f.count + 1 >= p.maxFailures {
      FailuresSinceMore(all, key, f.start, WindowStart(p, e.at));
      assert BlockEarned(p, all, key, e.at + p.blockDuration) by { EarnedNow(p, all, key, |es|); }
    } else if f.blockedUntil > ZERO {
      BlockStaysEarned(p, es, e, key, f.blockedUntil);
    }
  }

  lemma RecordEarnedStep(p: Policy, s: State, es: seq<Event>, e: Event, key: string)
    requires RecordEarned(p, s, es, key) && LastTime(es) <= e.at
    ensures RecordEarned(p, Apply(p, s, e).0, es + [e], key)
  {
    hide Apply, FailureKey, BlockEarned;
    if key in Apply(p, s, e).0.failures {
      if FailsPair(e, key) {
        CountEarned(p, s, es, e, key);
      } else {
        RecordStep(p, s, e, key);
        assert (es + [e])[..|es|] == es;
        if s.failures[key].blockedUntil > ZERO { BlockStaysEarned(p, es, e, key, s.failures[key].blockedUntil); }
      }
    }
  }

  lemma NoneEarned(p: Policy, key: string)
    ensures RecordEarned(p, EMPTY, [], key)
  {}

  lemma {:induction false} RunRecordEarned(p: Policy, es: seq<Event>, key: string)
    requires Ordered(es)
    ensures RecordEarned(p, Run(p, EMPTY, es), es, key)
  {
    hide Apply, RecordEarned;
    if es == [] {
      NoneEarned(p, key);
    } else {
      var n := |es| - 1;
      OrderedInit(es);
      RunRecordEarned(p, es[..n], key);
      RecordEarnedStep(p, Run(p, EMPTY, es[..n]), es[..n], es[n], key);
      assert es == es[..n] + [es[n]];
    }
  }

  lemma BlockedEarned(p: Policy, s: State, es: seq<Event>, key: string, now: Instant)
    requires RecordEarned(p, s, es, key) && Blocked(s, key, now)
    ensures exists i :: TooMany(p, es, key, i) && now < es[i].at + p.blockDuration
  {
    hide TooMany, FailuresSince;
  }

  // ---------- Refused logins ----------

  lemma RefusedMeans(p: Policy, s: State, e: Event)
    requires e.op.AllowOp? && !Apply(p, s, e).1
    ensures || AttemptsFull(p, Cleanup(p, s, e.at), e.op.ip)
            || CounterFor(p, s, e.op.ip, e.at).count >= p.maxAttempts
            || Blocked(s, FailureKey(e.op.ip, e.op.user), e.at)
  {
    hide FailureKey;
  }

  /** The addresses that tried to log in from t on. */
  function ActiveSince(es: seq<Event>, t: int): set<string> {
    if es == [] then {}
    else
      var e := es[|es| - 1];
      ActiveSince(es[..|es| - 1], t) + if e.op.AllowOp? && e.at >= t then {e.op.ip} else {}
  }

  /** A window that opened from t on was opened by its address. */
  lemma {:induction false} WindowIsActive(p: Policy, es: seq<Event>, k: string, t: int)
    requires k in Run(p, EMPTY, es).attempts && Run(p, EMPTY, es).attempts[k].start >= t
    ensures k in ActiveSince(es, t)
  {
    hide Apply;
    var n := |es| - 1;
    AttemptStep(p, Run(p, EMPTY, es[..n]), es[n], k);
    if k in Run(p, EMPTY, es[..n]).attempts && Run(p, EMPTY, es[..n]).attempts[k].start >= t {
      WindowIsActive(p, es[..n], k, t);
    }
  }

  lemma FullEarned(p: Policy, es: seq<Event>, ip: string, now: Instant)
    requires AttemptsFull(p, Cleanup(p, Run(p, EMPTY, es), now), ip)
    ensures |ActiveSince(es, now - p.attemptWindow + 1)| >= p.maxKeys
  {
    hide Run, ActiveSince;
    var c := Cleanup(p, Run(p, EMPTY, es), now);
    forall k | k in c.attempts.Keys ensures k in ActiveSince(es, now - p.attemptWindow + 1) {
      WindowIsActive(p, es, k, now - p.attemptWindow + 1);
    }
    SubsetSize(c.attempts.Keys, ActiveSince(es, now - p.attemptWindow + 1));
    assert |c.attempts.Keys| == |c.attempts|;
  }

  /** Nobody is refused for nothing: either at least maxKeys addresses have tried to log in within the last
      attemptWindow, or this address has tried to log in at least maxAttempts times within the last attemptWindow, or
      the pair
      failed at least maxFailures times within a failureWindow that ended less than blockDuration ago. */
  lemma RefusalEarned(p: Policy, es: seq<Event>, e: Event)
    requires Ordered(es + [e]) && e.op.AllowOp? && !Apply(p, Run(p, EMPTY, es), e).1
    ensures var key := FailureKey(e.op.ip, e.op.user);
            || |ActiveSince(es, e.at - p.attemptWindow + 1)| >= p.maxKeys
            || LoginsSince(es, e.op.ip, e.at - p.attemptWindow + 1) >= p.maxAttempts
            || exists i :: TooMany(p, es, key, i) && e.at < es[i].at + p.blockDuration
  {
    hide Run, Apply, FailureKey, TooMany, LoginsCounted, RecordEarned, CounterFor, Blocked, LoginsSince, AttemptsFull,
      Cleanup, ActiveSince;
    var (ip, key, s) := (e.op.ip, FailureKey(e.op.ip, e.op.user), Run(p, EMPTY, es));
    OrderedInit(es + [e]);
    assert (es + [e])[..|es + [e]| - 1] == es;
    RefusedMeans(p, s, e);
    RunLoginsCounted(p, es, ip);
    RunRecordEarned(p, es, key);
    if AttemptsFull(p, Cleanup(p, s, e.at), ip) {
      FullEarned(p, es, ip, e.at);
    } else if CounterFor(p, s, ip, e.at).count >= p.maxAttempts {
      AttemptsEarned(p, s, es, ip, e.at);
    } else if Blocked(s, key, e.at) {
      BlockedEarned(p, s, es, key, e.at);
    }
  }

  // ---------- Unrecorded failures ----------

  /** The keys of the pairs that failed from t on. */
  function FailedSince(es: seq<Event>, t: int): set<string> {
    if es == [] then {}
    else
      var e := es[|es| - 1];
      FailedSince(es[..|es| - 1], t) + if e.op.FailOp? && e.at >= t then {FailureKey(e.op.ip, e.op.user)} else {}
  }

  /** The record's window opened, or its block began, from t on. */
  predicate Since(p: Policy, f: Failures, t: int) {
    f.start >= t || (f.blockedUntil > ZERO && f.blockedUntil >= t + p.blockDuration)
  }

  lemma {:induction false} RecordIsRecent(p: Policy, es: seq<Event>, k: string, t: int)
    requires k in Run(p, EMPTY, es).failures && Since(p, Run(p, EMPTY, es).failures[k], t)
    ensures k in FailedSince(es, t)
  {
    hide Apply, FailureKey;
    var n := |es| - 1;
    RecordStep(p, Run(p, EMPTY, es[..n]), es[n], k);
    if k in Run(p, EMPTY, es[..n]).failures && Since(p, Run(p, EMPTY, es[..n]).failures[k], t) {
      RecordIsRecent(p, es[..n], k, t);
    }
  }

  /** The longest that a record is kept after its pair's last failure. */
  function Memory(p: Policy): nat {
    if p.failureWindow > p.blockDuration then p.failureWindow else p.blockDuration
  }

  lemma LoginSweeps(p: Policy, s: State, e: Event, k: string)
    requires e.op.AllowOp? && k in Apply(p, s, e).0.failures
    ensures k in s.failures && Since(p, s.failures[k], e.at - Memory(p))
  {
    hide FailureKey, CounterFor, Blocked;
  }

  lemma KeysStep(p: Policy, es: seq<Event>, e: Event, t: int)
    requires Run(p, EMPTY, es).failures.Keys <= FailedSince(es, t) && t <= e.at
    ensures Run(p, EMPTY, es + [e]).failures.Keys <= FailedSince(es + [e], t)
  {
    hide Apply, FailureKey;
    assert (es + [e])[..|es|] == es;
    forall k | k in Run(p, EMPTY, es + [e]).failures ensures k in FailedSince(es + [e], t) {
      RecordStep(p, Run(p, EMPTY, es), e, k);
    }
  }

  lemma {:induction false} KeysStayRecent(p: Policy, before: seq<Event>, rest: seq<Event>, t: int)
    requires Run(p, EMPTY, before).failures.Keys <= FailedSince(before, t) && forall e :: e in rest ==> t <= e.at
    ensures Run(p, EMPTY, before + rest).failures.Keys <= FailedSince(before + rest, t)
  {
    hide Run, FailedSince;
    if rest == [] {
      assert before + rest == before;
    } else {
      var n := |rest| - 1;
      KeysStayRecent(p, before, rest[..n], t);
      KeysStep(p, before + rest[..n], rest[n], t);
      assert before + rest == before + rest[..n] + [rest[n]];
    }
  }

  lemma LoginLeaves(p: Policy, before: seq<Event>, login: Event)
    requires login.op.AllowOp?
    ensures Run(p, EMPTY, before + [login]).failures.Keys <= FailedSince(before + [login], login.at - Memory(p))
  {
    hide Apply;
    assert (before + [login])[..|before|] == before;
    forall k | k in Run(p, EMPTY, before + [login]).failures
      ensures k in FailedSince(before + [login], login.at - Memory(p))
    {
      LoginSweeps(p, Run(p, EMPTY, before), login, k);
      RecordIsRecent(p, before, k, login.at - Memory(p));
    }
  }

  /** A failure that follows a login goes unrecorded only where at least maxKeys pairs have failed within
      the time that a record is kept before that login, or since. */
  lemma UnrecordedEarned(p: Policy, before: seq<Event>, login: Event, rest: seq<Event>, e: Event)
    requires login.op.AllowOp? && e.op.FailOp? && forall x :: x in rest ==> login.at <= x.at
    requires FailureKey(e.op.ip, e.op.user) !in Apply(p, Run(p, EMPTY, before + [login] + rest), e).0.failures
    ensures |FailedSince(before + [login] + rest, login.at - Memory(p))| >= p.maxKeys
  {
    hide Run, FailedSince, FailureKey;
    LoginLeaves(p, before, login);
    KeysStayRecent(p, before + [login], rest, login.at - Memory(p));
    var s := Run(p, EMPTY, before + [login] + rest);
    SubsetSize(s.failures.Keys, FailedSince(before + [login] + rest, login.at - Memory(p)));
    assert |s.failures.Keys| == |s.failures|;
  }

  // ---------- A clean slate ----------

  /** The pair has no failures that count, and none of its window lies before t. */
  predicate Clean(s: State, key: string, t: int) {
    key in s.failures ==> s.failures[key].start >= t && s.failures[key].count == 0
  }

  /** All the failures from t on count, and they are too few for a block. */
  ghost predicate AllCount(p: Policy, s: State, key: string, t: int, failures: nat) {
    if key !in s.failures then failures == 0
    else s.failures[key].start >= t && failures <= s.failures[key].count < p.maxFailures
  }

  lemma AllCountStep(p: Policy, s: State, e: Event, key: string, t: int, failures: nat)
    requires AllCount(p, s, key, t, failures) && t <= e.at < t + p.failureWindow && !ClearsPair(e, key)
    requires FailsPair(e, key) ==>
               !FailuresFull(p, s, key) && !BlockedUntil(Apply(p, s, e).0, key, e.at + p.blockDuration)
    ensures AllCount(p, Apply(p, s, e).0, key, t, failures + if FailsPair(e, key) then 1 else 0)
  {}

  lemma CleanCounts(p: Policy, s: State, key: string, t: int)
    requires Clean(s, key, t) && p.maxFailures >= 1
    ensures AllCount(p, s, key, t, 0)
  {}

  lemma {:induction false} UnblockedCount(p: Policy, s: State, es: seq<Event>, key: string, t: int)
    requires Clean(s, key, t) && p.maxFailures >= 1
    requires Stretch(p, es, key, t) && Tracked(p, s, es, key) && !SetsBlock(p, s, es, key)
    ensures AllCount(p, Run(p, s, es), key, t, PairFailures(es, key))
  {
    hide Apply, AllCount, FailuresFull, Clean;
    if es == [] {
      CleanCounts(p, s, key, t);
    } else {
      var n := |es| - 1;
      assert Tracked(p, s, es[..n], key) by { assert forall i :: 0 <= i < n ==> es[..n][..i] == es[..i]; }
      assert !SetsBlock(p, s, es[..n], key) by {
        if SetsBlock(p, s, es[..n], key) { PrefixSetsBlock(p, s, es, key, n); }
      }
      UnblockedCount(p, s, es[..n], key, t);
      assert !BlocksAt(p, s, es, key, n) && es[..n + 1] == es;
      AllCountStep(p, Run(p, s, es[..n]), es[n], key, t, PairFailures(es[..n], key));
    }
  }

  lemma BlockCleans(p: Policy, s: State, e: Event, key: string)
    requires FailsPair(e, key) && !BlockedUntil(s, key, e.at + p.blockDuration)
    requires BlockedUntil(Apply(p, s, e).0, key, e.at + p.blockDuration)
    ensures Clean(Apply(p, s, e).0, key, e.at)
  {}

  /** A block wipes the slate: the maxFailures-th failure of a tracked pair within one window after the
      failure that blocked it blocks it anew. */
  lemma BlocksAgain(p: Policy, s: State, e: Event, es: seq<Event>, key: string)
    requires FailsPair(e, key) && !BlockedUntil(s, key, e.at + p.blockDuration)
    requires BlockedUntil(Apply(p, s, e).0, key, e.at + p.blockDuration) && Tracked(p, Apply(p, s, e).0, es, key)
    requires Stretch(p, es, key, e.at) && PairFailures(es, key) >= p.maxFailures >= 1
    ensures SetsBlock(p, Apply(p, s, e).0, es, key)
  {
    hide Apply, Tracked, Stretch, SetsBlock, PairFailures, Clean, BlockedUntil;
    BlockCleans(p, s, e, key);
    if !SetsBlock(p, Apply(p, s, e).0, es, key) { UnblockedCount(p, Apply(p, s, e).0, es, key, e.at); }
  }

  // ---------- Refused audits ----------

  /** Event i audited the pair. */
  ghost predicate Audited(p: Policy, es: seq<Event>, key: string, i: int) {
    && 0 <= i < |es| && es[i].op.AuditOp? && FailureKey(es[i].op.ip, es[i].op.user) == key
    && Apply(p, Run(p, EMPTY, es[..i]), es[i]).1
  }

  lemma AuditEntryStep(p: Policy, s: State, e: Event, key: string)
    requires key in Apply(p, s, e).0.audits
    ensures || (key in s.audits && Apply(p, s, e).0.audits[key] == s.audits[key])
            || (e.op.AuditOp? && FailureKey(e.op.ip, e.op.user) == key && Apply(p, s, e).1
                && Apply(p, s, e).0.audits[key] == e.at)
  {
    hide CountFailure, FailuresFor, CounterFor, AttemptExpired, FailuresExpired;
  }

  /** Event i audited the pair, and the pair has not succeeded since. */
  ghost predicate LastAudited(p: Policy, es: seq<Event>, key: string, i: int) {
    Audited(p, es, key, i) && forall j :: i < j < |es| ==> !ClearsPair(es[j], key)
  }

  lemma SuccessDrops(p: Policy, s: State, e: Event, key: string)
    requires ClearsPair(e, key)
    ensures key !in Apply(p, s, e).0.audits
  {}

  /** The gate's entry is the time at which the pair was audited, after its last success. */
  lemma {:induction false} AuditsAreOfRun(p: Policy, es: seq<Event>, key: string)
    requires key in Run(p, EMPTY, es).audits
    ensures exists i :: LastAudited(p, es, key, i) && es[i].at == Run(p, EMPTY, es).audits[key]
  {
    hide Apply, FailureKey, ClearsPair;
    var n := |es| - 1;
    var s := Run(p, EMPTY, es[..n]);
    AuditEntryStep(p, s, es[n], key);
    if ClearsPair(es[n], key) { SuccessDrops(p, s, es[n], key); }
    if key in s.audits && Run(p, EMPTY, es).audits[key] == s.audits[key] {
      AuditsAreOfRun(p, es[..n], key);
      var i :| LastAudited(p, es[..n], key, i) && es[..n][i].at == s.audits[key];
      assert es[..n][..i] == es[..i] && es[..n][i] == es[i];
      assert forall j :: i < j < n ==> es[..n][j] == es[j];
      assert LastAudited(p, es, key, i);
    } else {
      assert LastAudited(p, es, key, n);
    }
  }

  lemma AuditRefusedMeans(p: Policy, s: State, e: Event)
    requires e.op.AuditOp? && !Apply(p, s, e).1
    ensures var key := FailureKey(e.op.ip, e.op.user);
            || AuditsFull(p, Cleanup(p, s, e.at), key)
            || (key in s.audits && e.at - s.audits[key] < p.auditWindow)
  {
    hide FailureKey;
  }

  /** The keys of the pairs whose refused logins asked for an audit from t on. */
  function AskedSince(es: seq<Event>, t: int): set<string> {
    if es == [] then {}
    else
      var e := es[|es| - 1];
      AskedSince(es[..|es| - 1], t) + if e.op.AuditOp? && e.at >= t then {FailureKey(e.op.ip, e.op.user)} else {}
  }

  lemma {:induction false} AuditIsRecent(p: Policy, es: seq<Event>, k: string, t: int)
    requires k in Run(p, EMPTY, es).audits && Run(p, EMPTY, es).audits[k] >= t
    ensures k in AskedSince(es, t)
  {
    hide Apply, FailureKey;
    var n := |es| - 1;
    AuditEntryStep(p, Run(p, EMPTY, es[..n]), es[n], k);
    if k in Run(p, EMPTY, es[..n]).audits && Run(p, EMPTY, es[..n]).audits[k] >= t { AuditIsRecent(p, es[..n], k, t); }
  }

  lemma AuditsFullEarned(p: Policy, es: seq<Event>, key: string, now: Instant)
    requires AuditsFull(p, Cleanup(p, Run(p, EMPTY, es), now), key)
    ensures |AskedSince(es, now - p.auditWindow + 1)| >= p.maxKeys
  {
    hide Run, AskedSince;
    var c := Cleanup(p, Run(p, EMPTY, es), now);
    forall k | k in c.audits.Keys ensures k in AskedSince(es, now - p.auditWindow + 1) {
      AuditIsRecent(p, es, k, now - p.auditWindow + 1);
    }
    SubsetSize(c.audits.Keys, AskedSince(es, now - p.auditWindow + 1));
    assert |c.audits.Keys| == |c.audits|;
  }

  /** A refused login goes unaudited only if at least maxKeys pairs have asked within the last auditWindow,
      or this pair was audited less than auditWindow ago and has not succeeded since. */
  lemma SkippedAuditEarned(p: Policy, es: seq<Event>, e: Event)
    requires e.op.AuditOp? && !Apply(p, Run(p, EMPTY, es), e).1
    ensures var key := FailureKey(e.op.ip, e.op.user);
            || |AskedSince(es, e.at - p.auditWindow + 1)| >= p.maxKeys
            || exists i :: LastAudited(p, es, key, i) && e.at < es[i].at + p.auditWindow
  {
    hide Run, Apply, FailureKey, LastAudited, AuditsFull, Cleanup, AskedSince;
    var (key, s) := (FailureKey(e.op.ip, e.op.user), Run(p, EMPTY, es));
    AuditRefusedMeans(p, s, e);
    if AuditsFull(p, Cleanup(p, s, e.at), key) { AuditsFullEarned(p, es, key, e.at); }
    if key in s.audits { AuditsAreOfRun(p, es, key); }
  }
}
