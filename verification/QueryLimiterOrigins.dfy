/** Where the query limiter's entries and refusals come from: what the CN and seen fields hold after any
    run, whom an eviction hits, and which logins and failures a refused login rests on. */
module QueryLimiterOrigins {
  import opened LimiterKeys
  import opened QueryLimiter

  // ---------- Whose a record is ----------

  /** Every record is kept under the key of a pair with the record's own CN. */
  ghost predicate OwnKeys(s: State) {
    forall k :: k in s.failures ==> exists ip: Address :: k == FailureKey(ip, s.failures[k].cn)
  }

  lemma OwnKeysStep(p: Policy, s: State, e: Event)
    requires OwnKeys(s)
    ensures OwnKeys(Apply(p, s, e).0)
  {
    hide Apply, FailureKey;
    forall k | k in Apply(p, s, e).0.failures
      ensures exists ip: Address :: k == FailureKey(ip, Apply(p, s, e).0.failures[k].cn)
    {
      RecordStep(p, s, e, k);
      if k in s.failures {
        var ip: Address :| k == FailureKey(ip, s.failures[k].cn);
        assert k == FailureKey(ip, Apply(p, s, e).0.failures[k].cn);
      } else {
        assert k == FailureKey(e.op.ip, e.op.cn);
      }
    }
  }

  lemma NoKeys()
    ensures OwnKeys(EMPTY)
  {}

  lemma {:induction false} RunOwnKeys(p: Policy, es: seq<Event>)
    ensures OwnKeys(Run(p, EMPTY, es))
  {
    hide Apply, OwnKeys;
    if es == [] {
      NoKeys();
    } else {
      RunOwnKeys(p, es[..|es| - 1]);
      OwnKeysStep(p, Run(p, EMPTY, es[..|es| - 1]), es[|es| - 1]);
    }
  }

  lemma OwnedByKey(s: State, ip: Address, cn: string)
    requires OwnKeys(s)
    ensures Owned(s, ip, cn)
  {
    var key := FailureKey(ip, cn);
    if key in s.failures {
      var i: Address :| key == FailureKey(i, s.failures[key].cn);
      KeyInjective(i, s.failures[key].cn, ip, cn);
    }
  }

  /** What a release by CN leaves: of that CN nothing, so that none of its pairs is blocked before it has
      failed maxFailures times again; of every other CN, and of all logins, everything. */
  lemma ReleasedForCN(p: Policy, s: State, cn: string)
    requires OwnKeys(s)
    ensures var r := ReleaseForCN(s, cn);
            && r.attempts == s.attempts
            && (forall ip: Address :: FailureKey(ip, cn) !in r.failures && Forgiven(p, r, ip, cn))
            && (forall ip: Address, c: string :: c != cn ==>
                  MapAt(r.failures, FailureKey(ip, c)) == MapAt(s.failures, FailureKey(ip, c)))
  {
    hide FailureKey, Forgiven;
    var r := ReleaseForCN(s, cn);
    forall ip: Address
      ensures FailureKey(ip, cn) !in r.failures && Forgiven(p, r, ip, cn)
    {
      OwnedByKey(s, ip, cn);
      ClearForgiven(p, r, ip, cn);
    }
    forall ip: Address, c: string | c != cn
      ensures MapAt(r.failures, FailureKey(ip, c)) == MapAt(s.failures, FailureKey(ip, c))
    {
      OwnedByKey(s, ip, c);
    }
  }

  /** In every reachable state a release by CN does exactly that. */
  lemma ReleaseForCNExactly(p: Policy, es: seq<Event>, cn: string)
    ensures var s := Run(p, EMPTY, es);
            var r := ReleaseForCN(s, cn);
            && r.attempts == s.attempts
            && (forall ip: Address :: FailureKey(ip, cn) !in r.failures && Forgiven(p, r, ip, cn))
            && (forall ip: Address, c: string :: c != cn ==>
                  MapAt(r.failures, FailureKey(ip, c)) == MapAt(s.failures, FailureKey(ip, c)))
  {
    hide OwnKeys, ReleaseForCN, FailureKey, Forgiven, MapAt;
    RunOwnKeys(p, es);
    ReleasedForCN(p, Run(p, EMPTY, es), cn);
  }

  // ---------- When an entry was last seen ----------

  /** The last time the address tried to log in. */
  function LastLogin(es: seq<Event>, ip: Address): int {
    if es == [] then ZERO
    else if AllowFor(es[|es| - 1], ip) then es[|es| - 1].at
    else LastLogin(es[..|es| - 1], ip)
  }

  lemma OthersKeepSeen(p: Policy, s: State, e: Event, ip: Address)
    requires !AllowFor(e, ip) && ip in Apply(p, s, e).0.attempts
    ensures ip in s.attempts && Apply(p, s, e).0.attempts[ip].seen == s.attempts[ip].seen
  {
    hide Allow, RecordFailure;
    if !(e.op.ReleaseOp? && e.op.ip == ip) { OthersKeepCounter(p, s, e, ip); }
  }

  /** A counter was last seen when its address last tried to log in. */
  lemma {:induction false} SeenIsLastLogin(p: Policy, es: seq<Event>, ip: Address)
    ensures var s := Run(p, EMPTY, es); ip in s.attempts ==> s.attempts[ip].seen == LastLogin(es, ip)
  {
    hide Apply;
    if es != [] {
      var n := |es| - 1;
      var s := Run(p, EMPTY, es[..n]);
      SeenIsLastLogin(p, es[..n], ip);
      if AllowFor(es[n], ip) {
        OwnAllowCounts(p, s, es[n], ip);
      } else if ip in Apply(p, s, es[n]).0.attempts {
        OthersKeepSeen(p, s, es[n], ip);
      }
    }
  }

  /** Every counter is that of an address. */
  ghost predicate Addresses(s: State) {
    forall k :: k in s.attempts ==> '|' !in k
  }

  lemma AddressesStep(p: Policy, s: State, e: Event)
    requires Addresses(s)
    ensures Addresses(Apply(p, s, e).0)
  {
    hide Allow, RecordFailure;
    forall k | k in Apply(p, s, e).0.attempts
      ensures '|' !in k
    {
      match e.op
      case AllowOp(ip, cn, victim) => if k != ip { AllowAttempts(p, s, ip, cn, e.at, victim, k); }
      case FailOp(ip, cn, victim) => FailAttempts(p, s, ip, cn, e.at, victim, k);
      case _ =>
    }
  }

  lemma {:induction false} RunAddresses(p: Policy, es: seq<Event>)
    ensures Addresses(Run(p, EMPTY, es))
  {
    hide Apply;
    if es != [] {
      RunAddresses(p, es[..|es| - 1]);
      AddressesStep(p, Run(p, EMPTY, es[..|es| - 1]), es[|es| - 1]);
    }
  }

  /** A login takes somebody else's place only when the map is full of open windows, and then that of an
      address that has tried to log in no later than any other with an open window. */
  lemma EvictedIsOldest(p: Policy, es: seq<Event>, e: Event, other: Address)
    requires e.op.AllowOp? && Fair(p, Run(p, EMPTY, es), e)
    requires var c := Cleanup(p, Run(p, EMPTY, es), e.at);
             e.op.ip !in c.attempts && |c.attempts| >= MaxKeys(p) && other in c.attempts
    ensures var c := Cleanup(p, Run(p, EMPTY, es), e.at);
            && e.op.victim in c.attempts && '|' !in e.op.victim
            && LastLogin(es, e.op.victim) <= LastLogin(es, other)
            && Apply(p, Run(p, EMPTY, es), e).0.attempts.Keys == c.attempts.Keys - {e.op.victim} + {e.op.ip}
  {
    hide LastLogin, Run;
    RunAddresses(p, es);
    SeenIsLastLogin(p, es, e.op.victim);
    SeenIsLastLogin(p, es, other);
    hide FailureKey, Blocked;
    var c := Cleanup(p, Run(p, EMPTY, es), e.at);
    assert Cleanup(p, c, e.at) == c;
  }

  /** The event marks the pair's record as seen: a failure of it, or a login of it that its address has
      attempts left for. */
  predicate Touches(p: Policy, s: State, e: Event, ip: Address, cn: string) {
    || FailureOf(e, ip, cn)
    || (e.op.AllowOp? && e.op.ip == ip && e.op.cn == cn && CounterFor(p, s, ip, e.at).count < p.maxAttempts)
  }

  function LastTouch(p: Policy, es: seq<Event>, ip: Address, cn: string): int {
    if es == [] then ZERO
    else
      var n := |es| - 1;
      if Touches(p, Run(p, EMPTY, es[..n]), es[n], ip, cn) then es[n].at else LastTouch(p, es[..n], ip, cn)
  }

  /** A login's own record is marked if its address has attempts left, and no other is. */
  lemma AllowSeen(p: Policy, s: State, ip: Address, cn: string, now: Instant, victim: string, k: string)
    requires k in Allow(p, s, ip, cn, now, victim).0.failures
    ensures k in s.failures
    ensures Allow(p, s, ip, cn, now, victim).0.failures[k].seen ==
              if k == FailureKey(ip, cn) && CounterFor(p, s, ip, now).count < p.maxAttempts
              then now else s.failures[k].seen
  {
    hide FailureKey, Blocked, MaxKeys;
    MaxKeysPositive(p);
    var c := Cleanup(p, s, now);
    assert Cleanup(p, c, now) == c;
    if |c.attempts| >= MaxKeys(p) { assert c.attempts != map[]; }
  }

  lemma RecordSeen(p: Policy, s: State, e: Event, ip: Address, cn: string)
    requires FailureKey(ip, cn) in Apply(p, s, e).0.failures
    ensures var key := FailureKey(ip, cn);
            var seen := Apply(p, s, e).0.failures[key].seen;
            if Touches(p, s, e, ip, cn) then seen == e.at else key in s.failures && seen == s.failures[key].seen
  {
    hide Allow, RecordFailure, FailureKey;
    var key := FailureKey(ip, cn);
    match e.op
    case AllowOp(i, c, victim) =>
      AllowSeen(p, s, i, c, e.at, victim, key);
      if FailureKey(i, c) == key { KeyInjective(i, c, ip, cn); }
    case FailOp(i, c, victim) =>
      if FailureKey(i, c) == key {
        KeyInjective(i, c, ip, cn);
        FailOwn(p, s, i, c, e.at, victim);
      } else {
        FailFailures(p, s, i, c, e.at, victim, key);
      }
    case _ =>
  }

  /** A record was last seen at the last failure of its pair, or login of it that its address had
      attempts left for. */
  lemma {:induction false} SeenIsLastTouch(p: Policy, es: seq<Event>, ip: Address, cn: string)
    ensures var s := Run(p, EMPTY, es);
            FailureKey(ip, cn) in s.failures ==> s.failures[FailureKey(ip, cn)].seen == LastTouch(p, es, ip, cn)
  {
    hide Apply, FailureKey, Touches;
    if es != [] {
      var n := |es| - 1;
      var s := Run(p, EMPTY, es[..n]);
      SeenIsLastTouch(p, es[..n], ip, cn);
      if FailureKey(ip, cn) in Apply(p, s, es[n]).0.failures { RecordSeen(p, s, es[n], ip, cn); }
    }
  }

  // ---------- Who loses a place ----------

  /** The addresses that tried to log in, or were released, from t on. */
  function ActiveSince(es: seq<Event>, t: int): set<string> {
    if es == [] then {}
    else
      var e := es[|es| - 1];
      ActiveSince(es[..|es| - 1], t) +
      if (e.op.AllowOp? || e.op.ReleaseOp?) && e.at >= t then {e.op.ip} else {}
  }

  lemma WindowStep(p: Policy, s: State, e: Event, k: string)
    requires k in Apply(p, s, e).0.attempts
    ensures || (k in s.attempts && Apply(p, s, e).0.attempts[k].start == s.attempts[k].start)
            || ((e.op.AllowOp? || e.op.ReleaseOp?) && e.op.ip == k && Apply(p, s, e).0.attempts[k].start == e.at)
  {
    hide Allow, RecordFailure;
    match e.op
    case AllowOp(ip, cn, victim) =>
      if k == ip { OwnAllowCounts(p, s, e, ip); } else { AllowAttempts(p, s, ip, cn, e.at, victim, k); }
    case FailOp(ip, cn, victim) => FailAttempts(p, s, ip, cn, e.at, victim, k);
    case _ =>
  }

  /** A window that opened from t on was opened by its address. */
  lemma {:induction false} WindowIsActive(p: Policy, es: seq<Event>, k: string, t: int)
    requires k in Run(p, EMPTY, es).attempts && Run(p, EMPTY, es).attempts[k].start >= t
    ensures k in ActiveSince(es, t)
  {
    hide Apply;
    var n := |es| - 1;
    WindowStep(p, Run(p, EMPTY, es[..n]), es[n], k);
    if k in Run(p, EMPTY, es[..n]).attempts && Run(p, EMPTY, es[..n]).attempts[k].start >= t {
      WindowIsActive(p, es[..n], k, t);
    }
  }

  lemma LoginRoom(p: Policy, s: State, ip: string, cn: string, now: Instant, victim: string, k: string)
    requires k in s.attempts && !AttemptExpired(p, s.attempts[k], now)
    requires |Cleanup(p, s, now).attempts| < MaxKeys(p)
    ensures k in Allow(p, s, ip, cn, now, victim).0.attempts
  {
    hide FailureKey, MaxKeys, FailuresExpired, Blocked, AttemptExpired, CounterFor;
    var c := Cleanup(p, s, now);
    assert k in c.attempts;
  }

  lemma CountersRoom(p: Policy, s: State, e: Event, k: string)
    requires k in s.attempts && e.at - s.attempts[k].start < p.attemptWindow && k !in Apply(p, s, e).0.attempts
    ensures |Cleanup(p, s, e.at).attempts| >= MaxKeys(p)
  {
    hide Allow, RecordFailure, Cleanup, MaxKeys;
    match e.op
    case AllowOp(ip, cn, victim) =>
      if |Cleanup(p, s, e.at).attempts| < MaxKeys(p) { LoginRoom(p, s, ip, cn, e.at, victim, k); }
    case FailOp(ip, cn, victim) => FailAttempts(p, s, ip, cn, e.at, victim, k);
    case _ =>
  }

  /** An address loses an open window only where a whole map of addresses has been active within one
      attemptWindow. */
  lemma EvictionEarned(p: Policy, es: seq<Event>, e: Event, ip: string)
    requires var s := Run(p, EMPTY, es);
             && ip in s.attempts && e.at - s.attempts[ip].start < p.attemptWindow
             && ip !in Apply(p, s, e).0.attempts
    ensures |ActiveSince(es, e.at - p.attemptWindow + 1)| >= MaxKeys(p)
  {
    hide Apply, Run, ActiveSince, MaxKeys;
    var s := Run(p, EMPTY, es);
    CountersRoom(p, s, e, ip);
    var c := Cleanup(p, s, e.at);
    forall k | k in c.attempts.Keys ensures k in ActiveSince(es, e.at - p.attemptWindow + 1) {
      WindowIsActive(p, es, k, e.at - p.attemptWindow + 1);
    }
    SubsetSize(c.attempts.Keys, ActiveSince(es, e.at - p.attemptWindow + 1));
    assert |c.attempts.Keys| == |c.attempts|;
  }

  /** The keys of the pairs that failed from t on. */
  function FailedSince(es: seq<Event>, t: int): set<string> {
    if es == [] then {}
    else
      var e := es[|es| - 1];
      FailedSince(es[..|es| - 1], t) + if e.op.FailOp? && e.at >= t then {FailureKey(e.op.ip, e.op.cn)} else {}
  }

  /** The record's window opened, or its block began, from t on. */
  predicate Since(p: Policy, f: Failures, t: int) {
    f.start >= t || (f.blockedUntil > ZERO && f.blockedUntil >= t + p.blockDuration)
  }

  lemma {:induction false} RecordIsRecent(p: Policy, es: seq<Event>, k: string, t: int)
    requires k in Run(p, EMPTY, es).failures && Since(p, Run(p, EMPTY, es).failures[k], t)
    ensures k in FailedSince(es, t)
  {
    hide Apply, FailureKey;
    var n := |es| - 1;
    RecordStep(p, Run(p, EMPTY, es[..n]), es[n], k);
    if k in Run(p, EMPTY, es[..n]).failures && Since(p, Run(p, EMPTY, es[..n]).failures[k], t) {
      RecordIsRecent(p, es[..n], k, t);
    }
  }

  /** The longest that a record is kept after its pair's last failure. */
  function Memory(p: Policy): nat {
    if p.failureWindow > p.blockDuration then p.failureWindow else p.blockDuration
  }

  /** The event ends neither this record's window nor its block. */
  predicate Lasting(p: Policy, f: Failures, now: Instant) {
    now - f.start < p.failureWindow || now < f.blockedUntil
  }

  lemma RecordsRoom(p: Policy, s: State, e: Event, ip: Address, cn: string)
    requires Owned(s, ip, cn)
    requires var k := FailureKey(ip, cn);
             k in s.failures && Lasting(p, s.failures[k], e.at) && k !in Apply(p, s, e).0.failures && !Lifts(e, ip, cn)
    ensures |Cleanup(p, s, e.at).failures| >= MaxKeys(p)
  {
    hide Allow, RecordFailure, FailureKey, MaxKeys, AllBlocked;
    var k := FailureKey(ip, cn);
    match e.op
    case AllowOp(i, c, victim) => AllowFailures(p, s, i, c, e.at, victim, k);
    case FailOp(i, c, victim) =>
      if k == FailureKey(i, c) { FailOwn(p, s, i, c, e.at, victim); }
      else { FailFailures(p, s, i, c, e.at, victim, k); }
    case SuccessOp(i, c) => if FailureKey(i, c) == k { KeyInjective(i, c, ip, cn); }
    case ReleaseOp(i, c) => if FailureKey(i, c) == k { KeyInjective(i, c, ip, cn); }
    case ReleaseForCNOp(_) =>
  }

  /** A pair loses a record that still counts, or still blocks, only by a success or release of it, or
      where a whole map of pairs has failed within the time that a record is kept. */
  lemma RecordLossEarned(p: Policy, es: seq<Event>, e: Event, ip: Address, cn: string)
    requires var (s, k) := (Run(p, EMPTY, es), FailureKey(ip, cn));
             && k in s.failures && Lasting(p, s.failures[k], e.at)
             && k !in Apply(p, s, e).0.failures && !Lifts(e, ip, cn)
    ensures |FailedSince(es, e.at - Memory(p))| >= MaxKeys(p)
  {
    hide Apply, Run, FailedSince, MaxKeys, FailureKey, Lifts, OwnKeys;
    var s := Run(p, EMPTY, es);
    RunOwnKeys(p, es);
    OwnedByKey(s, ip, cn);
    RecordsRoom(p, s, e, ip, cn);
    var c := Cleanup(p, s, e.at);
    forall k | k in c.failures.Keys ensures k in FailedSince(es, e.at - Memory(p)) {
      RecordIsRecent(p, es, k, e.at - Memory(p));
    }
    SubsetSize(c.failures.Keys, FailedSince(es, e.at - Memory(p)));
    assert |c.failures.Keys| == |c.failures|;
  }

  lemma UnrecordedMeans(p: Policy, s: State, e: Event)
    requires e.op.FailOp? && FailureKey(e.op.ip, e.op.cn) !in Apply(p, s, e).0.failures
    ensures var c := Cleanup(p, s, e.at);
            |c.failures| >= MaxKeys(p) && forall k :: k in c.failures ==> e.at < c.failures[k].blockedUntil
  {
    hide FailureKey, MaxKeys, FailuresExpired, AttemptExpired;
  }

  /** A failure goes unrecorded only where a whole map of pairs has failed, each within the last blockDuration. */
  lemma UnrecordedEarned(p: Policy, es: seq<Event>, e: Event)
    requires e.op.FailOp? && FailureKey(e.op.ip, e.op.cn) !in Apply(p, Run(p, EMPTY, es), e).0.failures
    ensures |FailedSince(es, e.at - p.blockDuration)| >= MaxKeys(p)
  {
    hide Apply, Run, FailedSince, MaxKeys, FailureKey;
    UnrecordedMeans(p, Run(p, EMPTY, es), e);
    var c := Cleanup(p, Run(p, EMPTY, es), e.at);
    forall k | k in c.failures.Keys ensures k in FailedSince(es, e.at - p.blockDuration) {
      RecordIsRecent(p, es, k, e.at - p.blockDuration);
    }
    SubsetSize(c.failures.Keys, FailedSince(es, e.at - p.blockDuration));
    assert |c.failures.Keys| == |c.failures|;
  }

  // ---------- A clean slate ----------

  /** The pair has no failures that count, and none of its window lies before t. */
  predicate Clean(s: State, key: string, t: int) {
    key in s.failures ==> s.failures[key].start >= t && s.failures[key].count == 0
  }

  /** All the failures from t on count, and they are too few for a block. */
  ghost predicate AllCount(p: Policy, s: State, key: string, t: int, failures: nat) {
    if key !in s.failures then failures == 0
    else s.failures[key].start >= t && failures <= s.failures[key].count < p.maxFailures
  }

  lemma AllCountStep(p: Policy, s: State, e: Event, ip: Address, cn: string, t: int, failures: nat)
    requires AllCount(p, s, FailureKey(ip, cn), t, failures)
    requires t <= e.at < t + p.failureWindow && Tracks(p, s, e, ip, cn) && !Lifts(e, ip, cn) && Owned(s, ip, cn)
    requires FailureOf(e, ip, cn) ==> !Blocking(Apply(p, s, e).0, FailureKey(ip, cn), e.at + p.blockDuration)
    ensures AllCount(p, Apply(p, s, e).0, FailureKey(ip, cn), t, failures + if FailureOf(e, ip, cn) then 1 else 0)
  {
    hide Apply, Tracks, Lifts;
    TrackedKeeps(p, s, e, ip, cn);
    if FailureOf(e, ip, cn) {
      RecordStep(p, s, e, FailureKey(ip, cn));
    } else {
      OthersKeep(p, s, e, ip, cn);
    }
  }

  lemma CleanCounts(p: Policy, s: State, key: string, t: int)
    requires Clean(s, key, t) && p.maxFailures >= 1
    ensures AllCount(p, s, key, t, 0)
  {}

  lemma {:induction false} UnblockedCount(p: Policy, s: State, es: seq<Event>, ip: Address, cn: string, t: int)
    requires Clean(s, FailureKey(ip, cn), t) && p.maxFailures >= 1 && Owned(s, ip, cn)
    requires Stretch(p, es, ip, cn, t) && Tracked(p, s, es, ip, cn) && !SetsBlock(p, s, es, ip, cn)
    ensures AllCount(p, Run(p, s, es), FailureKey(ip, cn), t, FailureCount(es, ip, cn))
  {
    hide Apply, AllCount, Tracks, Tracked, FailureKey, Owned, Lifts, Clean;
    if es == [] {
      CleanCounts(p, s, FailureKey(ip, cn), t);
    } else {
      var n := |es| - 1;
      PrefixTracked(p, s, es, ip, cn);
      assert !SetsBlock(p, s, es[..n], ip, cn) by {
        if SetsBlock(p, s, es[..n], ip, cn) { PrefixSetsBlock(p, s, es, ip, cn, n); }
      }
      UnblockedCount(p, s, es[..n], ip, cn, t);
      RunOwned(p, s, es[..n], ip, cn);
      assert !BlocksAt(p, s, es, ip, cn, n) && es[..n + 1] == es;
      AllCountStep(p, Run(p, s, es[..n]), es[n], ip, cn, t, FailureCount(es[..n], ip, cn));
    }
  }

  /** From a clean slate the maxFailures-th failure blocks, whenever they come within one window. */
  lemma CleanFailuresBlock(p: Policy, s: State, es: seq<Event>, ip: Address, cn: string, t: int)
    requires Clean(s, FailureKey(ip, cn), t) && p.maxFailures >= 1 && Owned(s, ip, cn)
    requires Stretch(p, es, ip, cn, t) && Tracked(p, s, es, ip, cn) && FailureCount(es, ip, cn) >= p.maxFailures
    ensures SetsBlock(p, s, es, ip, cn)
  {
    hide Tracked, Stretch, SetsBlock, FailureCount, Run, FailureKey;
    if !SetsBlock(p, s, es, ip, cn) { UnblockedCount(p, s, es, ip, cn, t); }
  }

  lemma BlockCleans(p: Policy, s: State, e: Event, ip: Address, cn: string)
    requires FailureOf(e, ip, cn) && !Blocking(s, FailureKey(ip, cn), e.at + p.blockDuration)
    requires Blocking(Apply(p, s, e).0, FailureKey(ip, cn), e.at + p.blockDuration)
    ensures Clean(Apply(p, s, e).0, FailureKey(ip, cn), e.at)
  {
    hide Apply, FailureKey;
    RecordStep(p, s, e, FailureKey(ip, cn));
  }

  lemma NoneOwned(ip: Address, cn: string)
    ensures Owned(EMPTY, ip, cn)
  {}

  /** A block wipes the slate: the maxFailures-th failure of a tracked pair within one window after the
      failure that blocked it blocks it anew. */
  lemma BlocksAgain(p: Policy, before: seq<Event>, e: Event, es: seq<Event>, ip: Address, cn: string)
    requires var (s, key) := (Run(p, EMPTY, before), FailureKey(ip, cn));
             && FailureOf(e, ip, cn) && !Blocking(s, key, e.at + p.blockDuration)
             && Blocking(Apply(p, s, e).0, key, e.at + p.blockDuration)
             && Tracked(p, Apply(p, s, e).0, es, ip, cn)
    requires Stretch(p, es, ip, cn, e.at) && FailureCount(es, ip, cn) >= p.maxFailures >= 1
    ensures SetsBlock(p, Apply(p, Run(p, EMPTY, before), e).0, es, ip, cn)
  {
    hide Apply, Tracked, Stretch, SetsBlock, FailureCount, FailureKey, Clean, Owned, Blocking;
    var s := Run(p, EMPTY, before);
    BlockCleans(p, s, e, ip, cn);
    RunOwned(p, EMPTY, before + [e], ip, cn) by { NoneOwned(ip, cn); }
    assert (before + [e])[..|before|] == before;
    CleanFailuresBlock(p, Apply(p, s, e).0, es, ip, cn, e.at);
  }

  // ---------- What a refusal rests on ----------

  /** How often the address has tried to log in from t on. */
  function LoginsSince(es: seq<Event>, ip: Address, t: int): nat {
    if es == [] then 0
    else
      var n := |es| - 1;
      LoginsSince(es[..n], ip, t) + if AllowFor(es[n], ip) && es[n].at >= t then 1 else 0
  }

  lemma {:induction false} LoginsSinceMore(es: seq<Event>, ip: Address, t: int, from: int)
    requires from <= t
    ensures LoginsSince(es, ip, t) <= LoginsSince(es, ip, from)
  {
    if es != [] { LoginsSinceMore(es[..|es| - 1], ip, t, from); }
  }

  /** The counter's count is of logins since its window opened. */
  ghost predicate LoginsCounted(s: State, es: seq<Event>, ip: Address) {
    ip in s.attempts ==>
      s.attempts[ip].start <= LastTime(es) && s.attempts[ip].count <= LoginsSince(es, ip, s.attempts[ip].start)
  }

  lemma LoginsCountedStep(p: Policy, s: State, es: seq<Event>, e: Event, ip: Address)
    requires LoginsCounted(s, es, ip) && LastTime(es) <= e.at
    ensures LoginsCounted(Apply(p, s, e).0, es + [e], ip)
  {
    hide Allow, RecordFailure;
    assert (es + [e])[..|es|] == es;
    if AllowFor(e, ip) {
      OwnAllowCounts(p, s, e, ip);
    } else if !(e.op.ReleaseOp? && e.op.ip == ip) {
      OthersKeepCounter(p, s, e, ip);
    }
  }

  lemma NoneCounted(ip: Address)
    ensures LoginsCounted(EMPTY, [], ip)
  {}

  lemma {:induction false} RunLoginsCounted(p: Policy, es: seq<Event>, ip: Address)
    requires Ordered(es)
    ensures LoginsCounted(Run(p, EMPTY, es), es, ip)
  {
    hide Apply, LoginsCounted;
    if es == [] {
      NoneCounted(ip);
    } else {
      var n := |es| - 1;
      OrderedInit(es);
      RunLoginsCounted(p, es[..n], ip);
      LoginsCountedStep(p, Run(p, EMPTY, es[..n]), es[..n], es[n], ip);
      assert es == es[..n] + [es[n]];
    }
  }

  /** The pair's failures from t on. */
  function FailuresSince(es: seq<Event>, ip: Address, cn: string, t: int): nat {
    if es == [] then 0
    else
      var n := |es| - 1;
      FailuresSince(es[..n], ip, cn, t) + if FailureOf(es[n], ip, cn) && es[n].at >= t then 1 else 0
  }

  lemma {:induction false} FailuresSinceMore(es: seq<Event>, ip: Address, cn: string, t: int, from: int)
    requires from <= t
    ensures FailuresSince(es, ip, cn, t) <= FailuresSince(es, ip, cn, from)
  {
    if es != [] { FailuresSinceMore(es[..|es| - 1], ip, cn, t, from); }
  }

  /** The first instant of the window that ends at this one. */
  function WindowStart(p: Policy, at: int): int {
    if p.failureWindow == 0 then at else at - p.failureWindow + 1
  }

  /** Event i is a failure of the pair, at least the maxFailures-th one of the window that ends with it. */
  ghost predicate TooMany(p: Policy, es: seq<Event>, ip: Address, cn: string, i: int) {
    && 0 <= i < |es| && FailureOf(es[i], ip, cn)
    && FailuresSince(es[..i + 1], ip, cn, WindowStart(p, es[i].at)) >= p.maxFailures
  }

  ghost predicate BlockEarned(p: Policy, es: seq<Event>, ip: Address, cn: string, until: int) {
    exists i :: TooMany(p, es, ip, cn, i) && until == es[i].at + p.blockDuration
  }

  lemma BlockStaysEarned(p: Policy, es: seq<Event>, e: Event, ip: Address, cn: string, until: int)
    requires BlockEarned(p, es, ip, cn, until)
    ensures BlockEarned(p, es + [e], ip, cn, until)
  {
    var i :| TooMany(p, es, ip, cn, i) && until == es[i].at + p.blockDuration;
    assert (es + [e])[..i + 1] == es[..i + 1] && (es + [e])[i] == es[i];
    assert TooMany(p, es + [e], ip, cn, i);
  }

  /** The record's count is of failures since its window opened, and its block was earned. */
  ghost predicate RecordEarned(p: Policy, s: State, es: seq<Event>, ip: Address, cn: string) {
    var key := FailureKey(ip, cn);
    key in s.failures ==>
      && s.failures[key].start <= LastTime(es)
      && s.failures[key].count <= FailuresSince(es, ip, cn, s.failures[key].start)
      && (s.failures[key].blockedUntil > ZERO ==> BlockEarned(p, es, ip, cn, s.failures[key].blockedUntil))
  }

  lemma EarnedNow(p: Policy, es: seq<Event>, ip: Address, cn: string, i: int)
    requires TooMany(p, es, ip, cn, i)
    ensures BlockEarned(p, es, ip, cn, es[i].at + p.blockDuration)
  {}

  lemma CountEarned(p: Policy, s: State, es: seq<Event>, e: Event, ip: Address, cn: string)
    requires RecordEarned(p, s, es, ip, cn) && LastTime(es) <= e.at && FailureOf(e, ip, cn)
    requires FailureKey(ip, cn) in Apply(p, s, e).0.failures
    ensures RecordEarned(p, Apply(p, s, e).0, es + [e], ip, cn)
  {
    hide Apply, FailureKey, BlockEarned;
    var key, all := FailureKey(ip, cn), es + [e];
    RecordStep(p, s, e, key);
    assert all[..|es|] == es && all[..|es| + 1] == all;
    var f := FailuresFor(p, s, key, cn, e.at);
    assert WindowStart(p, e.at) <= f.start <= e.at && f.count <= FailuresSince(es, ip, cn, f.start);
    if f.count + 1 >= p.maxFailures {
      FailuresSinceMore(all, ip, cn, f.start, WindowStart(p, e.at));
      assert TooMany(p, all, ip, cn, |es|);
      assert BlockEarned(p, all, ip, cn, e.at + p.blockDuration) by { EarnedNow(p, all, ip, cn, |es|); }
    } else if f.blockedUntil > ZERO {
      BlockStaysEarned(p, es, e, ip, cn, f.blockedUntil);
    }
  }

  lemma RecordEarnedStep(p: Policy, s: State, es: seq<Event>, e: Event, ip: Address, cn: string)
    requires RecordEarned(p, s, es, ip, cn) && LastTime(es) <= e.at
    ensures RecordEarned(p, Apply(p, s, e).0, es + [e], ip, cn)
  {
    hide Apply, FailureKey, BlockEarned;
    var key := FailureKey(ip, cn);
    if key in Apply(p, s, e).0.failures {
      if FailureOf(e, ip, cn) {
        CountEarned(p, s, es, e, ip, cn);
      } else {
        OthersKeep(p, s, e, ip, cn);
        assert (es + [e])[..|es|] == es;
        if s.failures[key].blockedUntil > ZERO { BlockStaysEarned(p, es, e, ip, cn, s.failures[key].blockedUntil); }
      }
    }
  }

  lemma NoneEarned(p: Policy, ip: Address, cn: string)
    ensures RecordEarned(p, EMPTY, [], ip, cn)
  {}

  lemma {:induction false} RunRecordEarned(p: Policy, es: seq<Event>, ip: Address, cn: string)
    requires Ordered(es)
    ensures RecordEarned(p, Run(p, EMPTY, es), es, ip, cn)
  {
    hide Apply, RecordEarned, FailureKey;
    if es == [] {
      NoneEarned(p, ip, cn);
    } else {
      var n := |es| - 1;
      OrderedInit(es);
      RunRecordEarned(p, es[..n], ip, cn);
      RecordEarnedStep(p, Run(p, EMPTY, es[..n]), es[..n], es[n], ip, cn);
      assert es == es[..n] + [es[n]];
    }
  }

  lemma RefusedMeans(p: Policy, s: State, e: Event)
    requires e.op.AllowOp? && !Apply(p, s, e).1
    ensures CounterFor(p, s, e.op.ip, e.at).count >= p.maxAttempts || Blocked(s, FailureKey(e.op.ip, e.op.cn), e.at)
  {
    hide FailureKey, MaxKeys;
    MaxKeysPositive(p);
    var c := Cleanup(p, s, e.at);
    assert Cleanup(p, c, e.at) == c;
    if |c.attempts| >= MaxKeys(p) { assert c.attempts != map[]; }
  }

  lemma AttemptsEarned(p: Policy, s: State, es: seq<Event>, ip: Address, now: Instant)
    requires LoginsCounted(s, es, ip) && CounterFor(p, s, ip, now).count >= p.maxAttempts
    ensures LoginsSince(es, ip, now - p.attemptWindow + 1) >= p.maxAttempts
  {
    if p.maxAttempts > 0 { LoginsSinceMore(es, ip, s.attempts[ip].start, now - p.attemptWindow + 1); }
  }

  lemma BlockedEarned(p: Policy, s: State, es: seq<Event>, ip: Address, cn: string, now: Instant)
    requires RecordEarned(p, s, es, ip, cn) && Blocked(s, FailureKey(ip, cn), now)
    ensures exists i :: TooMany(p, es, ip, cn, i) && now < es[i].at + p.blockDuration
  {
    hide FailureKey, TooMany, FailuresSince;
  }

  /** Nobody is refused for nothing: either the address has tried to log in at least maxAttempts times
      within the last attemptWindow, or the pair failed at least maxFailures times within a
      failureWindow that ended less than blockDuration ago. */
  lemma RefusalEarned(p: Policy, es: seq<Event>, e: Event)
    requires Ordered(es + [e]) && e.op.AllowOp? && !Apply(p, Run(p, EMPTY, es), e).1
    ensures || LoginsSince(es, e.op.ip, e.at - p.attemptWindow + 1) >= p.maxAttempts
            || exists i :: TooMany(p, es, e.op.ip, e.op.cn, i) && e.at < es[i].at + p.blockDuration
  {
    hide Run, Apply, FailureKey, TooMany, LoginsCounted, RecordEarned, CounterFor, Blocked, LoginsSince;
    var (ip, cn, s) := (e.op.ip, e.op.cn, Run(p, EMPTY, es));
    OrderedInit(es + [e]);
    assert (es + [e])[..|es + [e]| - 1] == es;
    RefusedMeans(p, s, e);
    RunLoginsCounted(p, es, ip);
    RunRecordEarned(p, es, ip, cn);
    if CounterFor(p, s, ip, e.at).count >= p.maxAttempts {
      AttemptsEarned(p, s, es, ip, e.at);
    } else {
      BlockedEarned(p, s, es, ip, cn, e.at);
    }
  }
}
