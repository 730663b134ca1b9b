/** When failures block a pair in the query limiter. As in the handlers, a failure or a success is
    only recorded for a login of the pair that was let in. With at most as many pairs as the map has
    places, enough failures inside a window set a block over every run; with one pair more, eviction
    or a map full of blocks lets a pair fail and never be blocked. */
module QueryLimiterBlocks {
  import opened LimiterKeys
  import opened QueryLimiter
  import opened QueryLimiterBounds

  // ---------- As many pairs as places ----------

  /** The keys of the pairs that fail during a run. */
  function PairsOf(es: seq<Event>): set<string> {
    set i | 0 <= i < |es| && es[i].op.FailOp? :: FailureKey(es[i].op.ip, es[i].op.cn)
  }

  function KeyOfEvent(e: Event): set<string> {
    if e.op.FailOp? then {FailureKey(e.op.ip, e.op.cn)} else {}
  }

  lemma PairsSnoc(es: seq<Event>, e: Event)
    ensures PairsOf(es + [e]) == PairsOf(es) + KeyOfEvent(e)
  {
    hide FailureKey;
    var all := es + [e];
    assert all[|es|] == e && forall i :: 0 <= i < |es| ==> all[i] == es[i];
  }

  lemma {:induction false} RecordsAreOf(p: Policy, es: seq<Event>)
    ensures Run(p, EMPTY, es).failures.Keys <= PairsOf(es)
  {
    hide Apply, FailureKey;
    if es != [] {
      var n := |es| - 1;
      var s := Run(p, EMPTY, es[..n]);
      RecordsAreOf(p, es[..n]);
      PairsSnoc(es[..n], es[n]);
      assert es == es[..n] + [es[n]];
      forall k | k in Apply(p, s, es[n]).0.failures
        ensures k in PairsOf(es)
      {
        RecordStep(p, s, es[n], k);
      }
    }
  }

  lemma {:induction false} RunFrom(p: Policy, before: seq<Event>, es: seq<Event>)
    ensures Run(p, EMPTY, before + es) == Run(p, Run(p, EMPTY, before), es)
  {
    hide Apply;
    if es == [] {
      assert before + es == before;
    } else {
      var n := |es| - 1;
      RunFrom(p, before, es[..n]);
      assert (before + es)[..|before + es| - 1] == before + es[..n];
    }
  }

  /** With no more pairs than places, a pair without a record always finds a free one. */
  lemma FewArePlaced(p: Policy, all: seq<Event>, i: nat)
    requires |PairsOf(all)| <= MaxKeys(p) && i < |all| && all[i].op.FailOp?
    ensures var s := Run(p, EMPTY, all[..i]);
              FailureKey(all[i].op.ip, all[i].op.cn) in s.failures || |s.failures| < MaxKeys(p)
  {
    hide FailureKey;
    var s, key := Run(p, EMPTY, all[..i]), FailureKey(all[i].op.ip, all[i].op.cn);
    RecordsAreOf(p, all[..i]);
    assert forall j :: 0 <= j < i ==> all[..i][j] == all[j];
    if key !in s.failures {
      assert s.failures.Keys <= PairsOf(all) - {key};
      SubsetSize(s.failures.Keys, PairsOf(all) - {key});
      assert |s.failures.Keys| == |s.failures|;
    }
  }

  lemma FewAreTracked(p: Policy, before: seq<Event>, es: seq<Event>, ip: Address, cn: string)
    requires |PairsOf(before + es)| <= MaxKeys(p)
    ensures Tracked(p, Run(p, EMPTY, before), es, ip, cn)
  {
    hide Run, Cleanup, FailureKey;
    var all := before + es;
    forall i | 0 <= i < |es|
      ensures Tracks(p, Run(p, Run(p, EMPTY, before), es[..i]), es[i], ip, cn)
    {
      var j := |before| + i;
      assert all[j] == es[i] && all[..j] == before + es[..i];
      RunFrom(p, before, es[..i]);
      if es[i].op.FailOp? { FewArePlaced(p, all, j); }
    }
  }

  /** How many failures inside one window are sure to block. */
  function EnoughFailures(p: Policy): nat {
    if p.maxFailures == 0 then 1 else 2 * p.maxFailures - 1
  }

  lemma {:induction false} SomeFailure(es: seq<Event>, ip: Address, cn: string) returns (i: nat)
    requires FailureCount(es, ip, cn) > 0
    ensures i < |es| && FailureOf(es[i], ip, cn)
  {
    var n := |es| - 1;
    if FailureOf(es[n], ip, cn) { i := n; } else { i := SomeFailure(es[..n], ip, cn); }
  }

  /** Where one failure is too many, any that finds a place blocks at once. */
  lemma OneFailureBlocks(p: Policy, s: State, es: seq<Event>, ip: Address, cn: string, i: nat)
    requires p.maxFailures <= 1 && i < |es| && FailureOf(es[i], ip, cn)
    requires HasPlace(p, Run(p, s, es[..i]), ip, cn, es[i].at)
    ensures SetsBlock(p, s, es, ip, cn)
  {
    hide Cleanup, FailureKey;
    var r := Run(p, s, es[..i]);
    assert es[..i + 1][..i] == es[..i];
    FailOwn(p, r, ip, cn, es[i].at, es[i].op.victim);
    assert BlocksAt(p, s, es, ip, cn, i);
  }

  /** With at most as many pairs as places, enough failures of a pair inside one window that nothing
      lifts set a block. */
  lemma FewPairsBlock(p: Policy, before: seq<Event>, es: seq<Event>, ip: Address, cn: string, t: int)
    requires Stretch(p, es, ip, cn, t) && |PairsOf(before + es)| <= MaxKeys(p)
    requires FailureCount(es, ip, cn) >= EnoughFailures(p)
    ensures SetsBlock(p, Run(p, EMPTY, before), es, ip, cn)
  {
    hide Run, HasPlace, Stretch, SetsBlock, MaxKeys;
    FewAreTracked(p, before, es, ip, cn);
    if p.maxFailures >= 1 {
      FailuresBlock(p, before, es, ip, cn, t);
    } else {
      var i := SomeFailure(es, ip, cn);
      OneFailureBlocks(p, Run(p, EMPTY, before), es, ip, cn, i);
    }
  }

  // ---------- What the handlers record ----------

  predicate AdmittedLogin(p: Policy, s: State, e: Event, ip: Address, cn: string) {
    e.op.AllowOp? && e.op.ip == ip && e.op.cn == cn && Apply(p, s, e).1
  }

  /** The logins of the pair that the run lets in. */
  function Logins(p: Policy, es: seq<Event>, ip: Address, cn: string): nat {
    if es == [] then 0
    else
      var n := |es| - 1;
      Logins(p, es[..n], ip, cn) + if AdmittedLogin(p, Run(p, EMPTY, es[..n]), es[n], ip, cn) then 1 else 0
  }

  predicate OutcomeOf(e: Event, ip: Address, cn: string) {
    (e.op.FailOp? || e.op.SuccessOp?) && e.op.ip == ip && e.op.cn == cn
  }

  /** The failures and successes recorded for the pair. */
  function Outcomes(es: seq<Event>, ip: Address, cn: string): nat {
    if es == [] then 0
    else Outcomes(es[..|es| - 1], ip, cn) + if OutcomeOf(es[|es| - 1], ip, cn) then 1 else 0
  }

  predicate Balanced(p: Policy, es: seq<Event>, ip: Address, cn: string) {
    Outcomes(es, ip, cn) <= Logins(p, es, ip, cn)
  }

  /** Each failure and each success is recorded for a login of its own that was let in before. */
  ghost predicate Handled(p: Policy, es: seq<Event>) {
    forall n, ip: Address, cn: string :: 0 <= n <= |es| ==> Balanced(p, es[..n], ip, cn)
  }

  lemma CountsSnoc(p: Policy, es: seq<Event>, e: Event, ip: Address, cn: string)
    ensures Outcomes(es + [e], ip, cn) == Outcomes(es, ip, cn) + if OutcomeOf(e, ip, cn) then 1 else 0
    ensures Logins(p, es + [e], ip, cn) ==
              Logins(p, es, ip, cn) + if AdmittedLogin(p, Run(p, EMPTY, es), e, ip, cn) then 1 else 0
  {
    assert (es + [e])[..|es|] == es;
  }

  lemma BalancedNow(p: Policy, es: seq<Event>, ip: Address, cn: string)
    requires Handled(p, es)
    ensures Balanced(p, es, ip, cn)
  {
    hide Balanced;
    assert es[..|es|] == es;
  }

  lemma HandledSnoc(p: Policy, es: seq<Event>, e: Event)
    requires Handled(p, es)
    requires forall ip: Address, cn: string :: Balanced(p, es + [e], ip, cn)
    ensures Handled(p, es + [e])
  {
    hide Balanced;
    var all := es + [e];
    forall n, ip: Address, cn: string | 0 <= n <= |all|
      ensures Balanced(p, all[..n], ip, cn)
    {
      assert all[..n] == if n <= |es| then es[..n] else all;
    }
  }

  /** A request: a login of the pair that is let in, and its outcome. */
  lemma HandledRequest(p: Policy, es: seq<Event>, login: Event, outcome: Event, ip: Address, cn: string)
    requires Handled(p, es) && AdmittedLogin(p, Run(p, EMPTY, es), login, ip, cn) && OutcomeOf(outcome, ip, cn)
    ensures Handled(p, es + [login]) && Handled(p, es + [login] + [outcome])
  {
    hide Apply, Run, Handled, Logins, Outcomes;
    forall i: Address, c: string
      ensures Balanced(p, es + [login], i, c)
      ensures Balanced(p, es + [login] + [outcome], i, c)
    {
      BalancedNow(p, es, i, c);
      CountsSnoc(p, es, login, i, c);
      CountsSnoc(p, es + [login], outcome, i, c);
    }
    HandledSnoc(p, es, login);
    HandledSnoc(p, es + [login], outcome);
  }

  lemma {:induction false} NobodyLogsIn(p: Policy, es: seq<Event>, ip: Address, cn: string)
    requires p.maxAttempts == 0
    ensures Logins(p, es, ip, cn) == 0
  {
    hide Apply;
    if es != [] {
      var n := |es| - 1;
      NobodyLogsIn(p, es[..n], ip, cn);
      if AllowFor(es[n], ip) { OwnAllowCounts(p, Run(p, EMPTY, es[..n]), es[n], ip); }
    }
  }

  /** So under a policy that lets nobody in no failure is ever recorded. */
  lemma NothingFails(p: Policy, before: seq<Event>, es: seq<Event>, ip: Address, cn: string)
    requires p.maxAttempts == 0 && Handled(p, before + es)
    ensures FailureCount(es, ip, cn) == 0
  {
    hide Logins;
    if FailureCount(es, ip, cn) > 0 {
      var i := SomeFailure(es, ip, cn);
      var n := |before| + i;
      var all := before + es;
      assert all[..n + 1][..n] == all[..n] && all[n] == es[i];
      assert Balanced(p, all[..n + 1], ip, cn);
      NobodyLogsIn(p, all[..n + 1], ip, cn);
    }
  }

  // ---------- Blocks that do not last ----------

  /** Without a block duration no record is ever blocked, so every failure finds a place. */
  lemma UnblockedHasPlace(p: Policy, es: seq<Event>, ip: string, cn: string, now: Instant)
    requires p.blockDuration == 0 && Ordered(es) && LastTime(es) <= now
    ensures HasPlace(p, Run(p, EMPTY, es), ip, cn, now)
  {
    RunBlocksBounded(p, es);
    var s := Run(p, EMPTY, es);
    var c := Cleanup(p, s, now);
    if |c.failures| >= MaxKeys(p) {
      assert c.failures != map[];
      var k :| k in c.failures;
      assert now >= c.failures[k].blockedUntil;
    }
  }

  lemma OrderedAt(es: seq<Event>, n: nat)
    requires Ordered(es) && n < |es|
    ensures Ordered(es[..n]) && LastTime(es[..n]) <= es[n].at
  {}

  lemma BriefBlocks(p: Policy, before: seq<Event>, es: seq<Event>, ip: Address, cn: string)
    requires p.maxFailures <= 1 && p.blockDuration == 0 && Ordered(before + es) && FailureCount(es, ip, cn) > 0
    ensures SetsBlock(p, Run(p, EMPTY, before), es, ip, cn)
  {
    hide HasPlace, SetsBlock, Run, Ordered, LastTime;
    var i := SomeFailure(es, ip, cn);
    var all, n := before + es, |before| + i;
    OrderedAt(all, n);
    assert all[..n] == before + es[..i] && all[n] == es[i];
    RunFrom(p, before, es[..i]);
    UnblockedHasPlace(p, all[..n], ip, cn, es[i].at);
    OneFailureBlocks(p, Run(p, EMPTY, before), es, ip, cn, i);
  }

  // ---------- One pair more ----------

  function Pair(k: nat): string {
    FailureKey(Addr(k), "x")
  }

  function Pairs(n: nat): set<string> {
    if n == 0 then {} else Pairs(n - 1) + {Pair(n - 1)}
  }

  lemma PairDiffer(j: nat, k: nat)
    ensures Pair(j) == Pair(k) <==> j == k
  {
    if Pair(j) == Pair(k) {
      KeyInjective(Addr(j), "x", Addr(k), "x");
      AddrDiffer(j, k);
    }
  }

  lemma {:induction false} PairsSize(n: nat, k: nat)
    ensures |Pairs(n)| == n && (Pair(k) in Pairs(n) <==> k < n)
  {
    hide Pair;
    if n > 0 {
      PairsSize(n - 1, n - 1);
      PairsSize(n - 1, k);
      PairDiffer(n - 1, k);
    }
  }

  /** What a pair's first failure, at instant 1, leaves of it. */
  function FirstFailure(p: Policy): Failures {
    CountFailure(p, Failures("x", 1, 0, ZERO, 1), 1)
  }

  function Records(p: Policy, keys: set<string>): map<string, Failures> {
    map k | k in keys :: FirstFailure(p)
  }

  /** Each of these addresses has logged in once, and each of these pairs failed once, at instant 1. */
  function Crowded(p: Policy, ips: set<string>, keys: set<string>): State {
    State(Seated(ips).attempts, Records(p, keys))
  }

  function Failing(k: nat, victim: string): Event {
    Event(FailOp(Addr(k), "x", victim), 1)
  }

  /** Logins are let in and failures remembered for a while. */
  predicate Remembers(p: Policy) {
    p.maxAttempts > 0 && p.failureWindow > 0
  }

  /** The counters still there at instant 1. */
  function Lasting(p: Policy, ips: set<string>): set<string> {
    if p.attemptWindow > 0 then ips else {}
  }

  lemma CrowdedStays(p: Policy, ips: set<string>, keys: set<string>)
    requires p.failureWindow > 0
    ensures Cleanup(p, Crowded(p, ips, keys), 1) == Crowded(p, Lasting(p, ips), keys)
    ensures |Crowded(p, ips, keys).attempts| == |ips| && |Crowded(p, ips, keys).failures| == |keys|
    ensures Crowded(p, ips, keys).failures.Keys == keys
  {
    var s := Crowded(p, ips, keys);
    assert s.attempts.Keys == ips && |s.attempts.Keys| == |s.attempts|;
    assert s.failures.Keys == keys && |s.failures.Keys| == |s.failures|;
    var c := Cleanup(p, s, 1);
    assert c.attempts == Seated(Lasting(p, ips)).attempts && c.failures == s.failures;
  }

  /** The address finds a free seat, or one that may be taken. */
  predicate Seatable(p: Policy, ips: set<string>, k: nat, seat: string) {
    Addr(k) !in Lasting(p, ips) && |Lasting(p, ips)| <= MaxKeys(p)
    && (|Lasting(p, ips)| == MaxKeys(p) ==> seat in Lasting(p, ips))
  }

  /** Who is seated then. */
  function Taken(p: Policy, ips: set<string>, k: nat, seat: string): set<string> {
    Seat(p, Lasting(p, ips), Addr(k), seat)
  }

  lemma CrowdRoom(p: Policy, ips: set<string>, keys: set<string>, victim: string)
    requires |ips| <= MaxKeys(p) && (|ips| == MaxKeys(p) ==> victim in ips) && p.failureWindow > 0
    requires Lasting(p, ips) == ips
    ensures AttemptsRoom(p, Crowded(p, ips, keys), 1, victim) ==
              (Crowded(p, if |ips| < MaxKeys(p) then ips else ips - {victim}, keys), true)
  {
    hide Cleanup, MaxKeys;
    CrowdedStays(p, ips, keys);
    if |ips| == MaxKeys(p) {
      assert victim in Crowded(p, ips, keys).attempts;
      assert Crowded(p, ips, keys).attempts - {victim} == Seated(ips - {victim}).attempts;
    }
  }

  lemma CrowdAdmits(p: Policy, ips: set<string>, keys: set<string>, k: nat)
    requires p.maxAttempts > 0 && Addr(k) !in ips && Pair(k) !in keys
    ensures Admit(p, Crowded(p, ips, keys), Addr(k), "x", 1) == (Crowded(p, ips + {Addr(k)}, keys), true)
  {
    hide Addr, FailureKey;
    assert Seated(ips).attempts[Addr(k) := Counter(1, 1, 1)] == Seated(ips + {Addr(k)}).attempts;
  }

  lemma CrowdLogin(p: Policy, ips: set<string>, keys: set<string>, k: nat, seat: string)
    requires Remembers(p) && Seatable(p, ips, k, seat) && Pair(k) !in keys
    ensures Fair(p, Crowded(p, ips, keys), Login(Addr(k), seat))
    ensures Apply(p, Crowded(p, ips, keys), Login(Addr(k), seat)) ==
              (Crowded(p, Taken(p, ips, k, seat), keys), true)
  {
    hide Cleanup, Addr, MaxKeys, FirstFailure, AttemptsRoom, Admit, FailureKey;
    var lasting := Lasting(p, ips);
    CrowdedStays(p, ips, keys);
    CrowdedStays(p, lasting, keys);
    CrowdRoom(p, lasting, keys, seat);
    CrowdAdmits(p, if |lasting| < MaxKeys(p) then lasting else lasting - {seat}, keys, k);
  }

  /** A record finds a free place, or takes one that is not blocked. */
  lemma RecordRoom(p: Policy, ips: set<string>, keys: set<string>, victim: string)
    requires p.failureWindow > 0 && |keys| <= MaxKeys(p)
    requires |keys| == MaxKeys(p) ==> victim in keys && p.maxFailures >= 2
    ensures FailuresRoom(p, Crowded(p, ips, keys), 1, victim) ==
              if |keys| < MaxKeys(p) then (Crowded(p, ips, keys), true)
              else (Crowded(p, Lasting(p, ips), keys - {victim}), true)
    ensures |keys| == MaxKeys(p) ==> FailuresVictim(Crowded(p, Lasting(p, ips), keys), 1, victim)
  {
    hide Cleanup, MaxKeys, Seated;
    CrowdedStays(p, ips, keys);
    CrowdedStays(p, Lasting(p, ips), keys);
    if |keys| == MaxKeys(p) {
      assert victim in Crowded(p, Lasting(p, ips), keys).failures;
      assert Records(p, keys) - {victim} == Records(p, keys - {victim});
    }
  }

  lemma CrowdRecords(p: Policy, ips: set<string>, keys: set<string>, k: nat)
    requires Pair(k) !in keys
    ensures NoteFailure(p, Crowded(p, ips, keys), Pair(k), "x", 1) == Crowded(p, ips, keys + {Pair(k)})
  {
    hide FailureKey, Addr, Seated;
    assert Records(p, keys)[Pair(k) := FirstFailure(p)] == Records(p, keys + {Pair(k)});
  }

  lemma CrowdFailure(p: Policy, ips: set<string>, keys: set<string>, k: nat, victim: string)
    requires Remembers(p) && Pair(k) !in keys
    requires |keys| <= MaxKeys(p) && (|keys| == MaxKeys(p) ==> victim in keys && p.maxFailures >= 2)
    ensures Fair(p, Crowded(p, ips, keys), Failing(k, victim))
    ensures Apply(p, Crowded(p, ips, keys), Failing(k, victim)).0 ==
              Crowded(p, if |keys| < MaxKeys(p) then ips else Lasting(p, ips), Seat(p, keys, Pair(k), victim))
  {
    hide Cleanup, Addr, MaxKeys, FailureKey, Crowded, FailuresRoom, NoteFailure, AllBlocked, FailuresVictim;
    CrowdedStays(p, ips, keys);
    RecordRoom(p, ips, keys, victim);
    CrowdRecords(p, if |keys| < MaxKeys(p) then ips else Lasting(p, ips),
                 if |keys| < MaxKeys(p) then keys else keys - {victim}, k);
  }

  /** Where one failure is too many, a full map is full of blocks, and a newcomer's failure is dropped. */
  lemma CrowdRefuses(p: Policy, ips: set<string>, keys: set<string>, k: nat)
    requires Remembers(p) && p.maxFailures <= 1 && p.blockDuration > 0
    requires Pair(k) !in keys && |keys| == MaxKeys(p)
    ensures Fair(p, Crowded(p, ips, keys), Failing(k, ""))
    ensures Apply(p, Crowded(p, ips, keys), Failing(k, "")).0 == Crowded(p, Lasting(p, ips), keys)
  {
    hide Cleanup, Addr, MaxKeys, FailureKey, Seated;
    CrowdedStays(p, ips, keys);
    CrowdedStays(p, Lasting(p, ips), keys);
    assert AllBlocked(Crowded(p, Lasting(p, ips), keys), 1);
  }

  /** A run of requests at instant 1, each a login let in and then a failure, that leaves these
      addresses and pairs and counts n failures of the first pair. */
  ghost predicate Crowds(p: Policy, es: seq<Event>, ips: set<string>, keys: set<string>, n: nat) {
    && (forall e :: e in es ==> e.at == 1 && (e.op.AllowOp? || e.op.FailOp?))
    && Run(p, EMPTY, es) == Crowded(p, ips, keys) && FairRun(p, EMPTY, es) && Handled(p, es)
    && FailureCount(es, Addr(0), "x") == n && PairsOf(es) <= Pairs(MaxKeys(p) + 1)
    && (p.maxFailures >= 2 ==> !SetsBlock(p, EMPTY, es, Addr(0), "x"))
  }

  lemma NeverBlocks(p: Policy, es: seq<Event>, e: Event, ips: set<string>, keys: set<string>)
    requires p.maxFailures >= 2 && !SetsBlock(p, EMPTY, es, Addr(0), "x")
    requires Run(p, EMPTY, es + [e]) == Crowded(p, ips, keys)
    ensures !SetsBlock(p, EMPTY, es + [e], Addr(0), "x")
  {
    hide Run, Addr, FailureKey;
    var all := es + [e];
    forall i
      ensures !BlocksAt(p, EMPTY, all, Addr(0), "x", i)
    {
      if 0 <= i < |es| {
        assert all[..i + 1] == es[..i + 1] && all[i] == es[i];
        assert !BlocksAt(p, EMPTY, es, Addr(0), "x", i);
      } else if i == |es| {
        assert all[..i + 1] == all;
      }
    }
  }

  lemma FailureSnoc(es: seq<Event>, e: Event, ip: Address, cn: string)
    ensures FailureCount(es + [e], ip, cn) == FailureCount(es, ip, cn) + if FailureOf(e, ip, cn) then 1 else 0
  {
    assert (es + [e])[..|es|] == es;
  }

  /** A run and one more request of the k-th pair, which may have to take somebody's seat and somebody's record. */
  function Request(es: seq<Event>, k: nat, seat: string, record: string): seq<Event> {
    es + [Login(Addr(k), seat)] + [Failing(k, record)]
  }

  lemma RequestCounts(p: Policy, es: seq<Event>, k: nat, seat: string, record: string)
    requires Handled(p, es) && Apply(p, Run(p, EMPTY, es), Login(Addr(k), seat)).1 && k <= MaxKeys(p)
    requires PairsOf(es) <= Pairs(MaxKeys(p) + 1)
    ensures var all := Request(es, k, seat, record);
            && Handled(p, all) && PairsOf(all) <= Pairs(MaxKeys(p) + 1)
            && FailureCount(all, Addr(0), "x") == FailureCount(es, Addr(0), "x") + if k == 0 then 1 else 0
  {
    hide Apply, Handled, MaxKeys, Addr, FailureKey, PairsOf, Pairs, FailureCount;
    var login, failure := Login(Addr(k), seat), Failing(k, record);
    HandledRequest(p, es, login, failure, Addr(k), "x");
    PairsSnoc(es, login);
    PairsSnoc(es + [login], failure);
    PairsSize(MaxKeys(p) + 1, k);
    FailureSnoc(es, login, Addr(0), "x");
    FailureSnoc(es + [login], failure, Addr(0), "x");
    AddrDiffer(k, 0);
  }

  lemma CrowdSnoc(p: Policy, es: seq<Event>, ips: set<string>, keys: set<string>, n: nat, k: nat, seat: string,
                  record: string)
    returns (seated: set<string>)
    requires Remembers(p) && Crowds(p, es, ips, keys, n) && k <= MaxKeys(p) && Seatable(p, ips, k, seat)
    requires Pair(k) !in keys && |keys| <= MaxKeys(p) && (|keys| == MaxKeys(p) ==> record in keys && p.maxFailures >= 2)
    ensures Crowds(p, Request(es, k, seat, record), seated, Seat(p, keys, Pair(k), record), n + if k == 0 then 1 else 0)
    ensures p.attemptWindow > 0 ==> seated == Seat(p, ips, Addr(k), seat)
  {
    hide Apply, Fair, FairRun, Run, Handled, FailureCount, PairsOf, SetsBlock, Crowded, Seat, Addr, Pairs, Pair,
      MaxKeys;
    hide Seatable;
    var login, failure := Login(Addr(k), seat), Failing(k, record);
    var taken := Taken(p, ips, k, seat);
    seated := if |keys| < MaxKeys(p) then taken else Lasting(p, taken);
    CrowdLogin(p, ips, keys, k, seat);
    Snoc(p, EMPTY, es, login);
    RequestCounts(p, es, k, seat, record);
    CrowdFailure(p, taken, keys, k, record);
    Snoc(p, EMPTY, es + [login], failure);
    if p.maxFailures >= 2 {
      NeverBlocks(p, es, login, taken, keys);
      NeverBlocks(p, es + [login], failure, seated, Seat(p, keys, Pair(k), record));
    }
  }

  lemma HasSeat(p: Policy, ips: set<string>, k: nat, seat: string)
    requires p.attemptWindow > 0 ==> Addr(k) !in ips && |ips| <= MaxKeys(p) && (|ips| == MaxKeys(p) ==> seat in ips)
    ensures Seatable(p, ips, k, seat)
  {}

  lemma NothingCrowded(p: Policy)
    ensures Crowds(p, [], Crowd(0), Pairs(0), 0)
  {
    assert Run(p, EMPTY, []) == EMPTY;
    assert EMPTY == Crowded(p, {}, {});
  }

  lemma {:induction false} FillCrowd(p: Policy, k: nat) returns (es: seq<Event>, ips: set<string>)
    requires Remembers(p) && k <= MaxKeys(p)
    ensures Crowds(p, es, ips, Pairs(k), if k == 0 then 0 else 1) && (p.attemptWindow > 0 ==> ips == Crowd(k))
  {
    hide Crowds, Remembers, Seatable, Addr, Pair, MaxKeys;
    if k == 0 {
      es, ips := [], Crowd(0);
      NothingCrowded(p);
    } else {
      es, ips := FillCrowd(p, k - 1);
      CrowdSize(k - 1, k - 1);
      PairsSize(k - 1, k - 1);
      HasSeat(p, ips, k - 1, "");
      ips := CrowdSnoc(p, es, ips, Pairs(k - 1), if k == 1 then 0 else 1, k - 1, "", "");
      es := Request(es, k - 1, "", "");
    }
  }

  /** The pair outside takes the first one's seat and record, which takes them back. */
  lemma OneFailureEach(p: Policy, before: seq<Event>, ips: set<string>, keys: set<string>, n: nat)
    returns (es: seq<Event>, seated: set<string>)
    requires Remembers(p) && p.maxFailures >= 2 && Crowds(p, before, ips, keys, n)
    requires p.attemptWindow > 0 ==> |ips| == MaxKeys(p) && Addr(0) in ips && Addr(MaxKeys(p)) !in ips
    requires |keys| == MaxKeys(p) && Pair(0) in keys && Pair(MaxKeys(p)) !in keys
    ensures Crowds(p, es, seated, keys, n + 1) && (p.attemptWindow > 0 ==> seated == ips)
  {
    hide Crowds, Remembers, Seatable, Pair, Seat, MaxKeys, Addr;
    var outside := MaxKeys(p);
    MaxKeysPositive(p);
    if p.attemptWindow > 0 { Swapped(p, ips, Addr(0), Addr(outside)); }
    Swapped(p, keys, Pair(0), Pair(outside));
    HasSeat(p, ips, outside, Addr(0));
    seated := CrowdSnoc(p, before, ips, keys, n, outside, Addr(0), Pair(0));
    es := Request(before, outside, Addr(0), Pair(0));
    HasSeat(p, seated, 0, Addr(outside));
    seated := CrowdSnoc(p, es, seated, Seat(p, keys, Pair(outside), Pair(0)), n, 0, Addr(outside), Pair(outside));
    es := Request(es, 0, Addr(outside), Pair(outside));
  }

  lemma {:induction false} FailInTurns(p: Policy, n: nat) returns (es: seq<Event>, ips: set<string>)
    requires Remembers(p) && p.maxFailures >= 2 && n >= 1
    ensures Crowds(p, es, ips, Pairs(MaxKeys(p)), n) && (p.attemptWindow > 0 ==> ips == Crowd(MaxKeys(p)))
  {
    hide Crowds, Remembers, Crowd, Pairs, Addr, Pair, MaxKeys;
    MaxKeysPositive(p);
    if n == 1 {
      es, ips := FillCrowd(p, MaxKeys(p));
    } else {
      es, ips := FailInTurns(p, n - 1);
      CrowdSize(MaxKeys(p), 0);
      CrowdSize(MaxKeys(p), MaxKeys(p));
      PairsSize(MaxKeys(p), 0);
      PairsSize(MaxKeys(p), MaxKeys(p));
      es, ips := OneFailureEach(p, es, ips, Pairs(MaxKeys(p)), n - 1);
    }
  }

  /** A run that requests can produce: in order, with fair evictions, every outcome after its login. */
  ghost predicate Real(p: Policy, es: seq<Event>) {
    Ordered(es) && FairRun(p, EMPTY, es) && Handled(p, es)
  }

  /** With one pair more than there are places, a pair can fail n times at one instant, for every n,
      and never be blocked: its record is evicted each time before the next failure. */
  lemma EvictionForgetsFailures(p: Policy, n: nat) returns (es: seq<Event>)
    requires Remembers(p) && p.maxFailures >= 2 && n >= 1
    ensures Real(p, es) && |PairsOf(es)| <= MaxKeys(p) + 1 && Stretch(p, es, Addr(0), "x", 1)
    ensures forall e :: e in es ==> e.at == 1
    ensures FailureCount(es, Addr(0), "x") == n && !SetsBlock(p, EMPTY, es, Addr(0), "x")
  {
    hide SetsBlock, FailureCount, Handled, FairRun;
    var ips;
    es, ips := FailInTurns(p, n);
    PairsSize(MaxKeys(p) + 1, 0);
    SubsetSize(PairsOf(es), Pairs(MaxKeys(p) + 1));
  }

  lemma UnrecordedSetsNone(p: Policy, before: seq<Event>, es: seq<Event>, k: nat)
    requires |es| == 2 && es[0].op.AllowOp? && es[1] == Failing(k, "")
    requires Pair(k) !in Run(p, EMPTY, before + es).failures
    ensures FailureCount(es, Addr(k), "x") == 1 && !SetsBlock(p, Run(p, EMPTY, before), es, Addr(k), "x")
  {
    hide Apply, Addr, FailureKey;
    assert es[..1] == [es[0]] && es[..2] == es;
    FailureSnoc([], es[0], Addr(k), "x");
    FailureSnoc([es[0]], es[1], Addr(k), "x");
    assert [] + [es[0]] == [es[0]] && es == [es[0]] + [es[1]];
    RunFrom(p, before, es);
  }

  /** Where one failure is too many, so many pairs fill the map with blocks, and the failure of the
      one more is never recorded. */
  lemma BlocksCrowdOut(p: Policy) returns (before: seq<Event>, es: seq<Event>)
    requires Remembers(p) && p.maxFailures <= 1 && p.blockDuration > 0
    ensures Real(p, before + es) && |PairsOf(before + es)| <= MaxKeys(p) + 1
    ensures (forall e :: e in before + es ==> e.at == 1) && Stretch(p, es, Addr(MaxKeys(p)), "x", 1)
    ensures FailureCount(es, Addr(MaxKeys(p)), "x") == 1
    ensures !SetsBlock(p, Run(p, EMPTY, before), es, Addr(MaxKeys(p)), "x")
  {
    hide Apply, Fair, FairRun, Handled, PairsOf, MaxKeys, Addr, Pairs, Crowd, Crowded, FailureKey, Pair, Seatable;
    hide FailureCount, SetsBlock;
    var k := MaxKeys(p);
    var ips;
    MaxKeysPositive(p);
    before, ips := FillCrowd(p, k);
    CrowdSize(k, 0);
    CrowdSize(k, k);
    PairsSize(k, k);
    PairsSize(k + 1, 0);
    var login, failure := Login(Addr(k), Addr(0)), Failing(k, "");
    es := [login, failure];
    assert before + es == Request(before, k, Addr(0), "");
    HasSeat(p, ips, k, Addr(0));
    CrowdLogin(p, ips, Pairs(k), k, Addr(0));
    Snoc(p, EMPTY, before, login);
    RequestCounts(p, before, k, Addr(0), "");
    var taken := Taken(p, ips, k, Addr(0));
    CrowdRefuses(p, taken, Pairs(k), k);
    Snoc(p, EMPTY, before + [login], failure);
    CrowdedStays(p, Lasting(p, taken), Pairs(k));
    SubsetSize(PairsOf(before + es), Pairs(k + 1));
    UnrecordedSetsNone(p, before, es, k);
  }

  /** Enough failures inside a window block a pair in every real run in which at most m pairs fail. */
  ghost predicate BlockHolds(p: Policy, m: nat) {
    forall before: seq<Event>, es: seq<Event>, ip: Address, cn: string, t: int ::
      && Real(p, before + es) && |PairsOf(before + es)| <= m
      && Stretch(p, es, ip, cn, t) && FailureCount(es, ip, cn) >= EnoughFailures(p)
      ==> SetsBlock(p, Run(p, EMPTY, before), es, ip, cn)
  }

  /** The policy takes no notice of failures, or blocks at the first one without ever running out of places. */
  predicate Unaffected(p: Policy) {
    !Remembers(p) || (p.maxFailures <= 1 && p.blockDuration == 0)
  }

  lemma UnaffectedBlocks(p: Policy, before: seq<Event>, es: seq<Event>, ip: Address, cn: string, t: int)
    requires Unaffected(p) && Real(p, before + es)
    requires Stretch(p, es, ip, cn, t) && FailureCount(es, ip, cn) >= EnoughFailures(p)
    ensures SetsBlock(p, Run(p, EMPTY, before), es, ip, cn)
  {
    hide SetsBlock, Handled, FairRun, Run;
    if p.maxAttempts == 0 {
      NothingFails(p, before, es, ip, cn);
    } else if p.failureWindow == 0 {
      var i := SomeFailure(es, ip, cn);
    } else {
      BriefBlocks(p, before, es, ip, cn);
    }
  }

  lemma TooManyPairs(p: Policy, m: nat)
    requires !Unaffected(p) && m > MaxKeys(p)
    ensures !BlockHolds(p, m)
  {
    hide SetsBlock, Stretch, Real, PairsOf, FailureCount, MaxKeys;
    if p.maxFailures >= 2 {
      var es := EvictionForgetsFailures(p, EnoughFailures(p));
      assert [] + es == es;
      assert Run(p, EMPTY, []) == EMPTY;
    } else {
      var before, es := BlocksCrowdOut(p);
    }
  }

  /** They do exactly when the map has a place for each of the pairs, or the policy is one that the
      places do not matter to. */
  lemma BlockIffPlaces(p: Policy, m: nat)
    ensures BlockHolds(p, m) <==> m <= MaxKeys(p) || Unaffected(p)
  {
    hide SetsBlock, Stretch, Real, PairsOf, FailureCount, Unaffected, MaxKeys;
    if m <= MaxKeys(p) || Unaffected(p) {
      forall before: seq<Event>, es: seq<Event>, ip: Address, cn: string, t: int |
        && Real(p, before + es) && |PairsOf(before + es)| <= m
        && Stretch(p, es, ip, cn, t) && FailureCount(es, ip, cn) >= EnoughFailures(p)
        ensures SetsBlock(p, Run(p, EMPTY, before), es, ip, cn)
      {
        if m <= MaxKeys(p) {
          FewPairsBlock(p, before, es, ip, cn, t);
        } else {
          UnaffectedBlocks(p, before, es, ip, cn, t);
        }
      }
    } else {
      TooManyPairs(p, m);
    }
  }
}
