/** When failures block a pair in the admin limiter. As in the handlers, a failure or a success is
    only recorded for a login of the pair that was let in. With at most as many pairs as the map has
    places, enough failures inside a window set a block over every run. With one pair more, a full
    map of addresses does not keep the newcomer out if its address is already known, and a full map
    of pairs never records its failures. */
module AdminLimiterBlocks {
  import opened LimiterKeys
  import opened AdminLimiter

  // ---------- As many pairs as places ----------

  function KeyOfEvent(e: Event): set<string> {
    if e.op.FailOp? then {FailureKey(e.op.ip, e.op.user)} else {}
  }

  /** The keys of the pairs that fail during a run. */
  function PairsOf(es: seq<Event>): set<string> {
    set i | 0 <= i < |es| && es[i].op.FailOp? :: FailureKey(es[i].op.ip, es[i].op.user)
  }

  lemma PairsSnoc(es: seq<Event>, e: Event)
    ensures PairsOf(es + [e]) == PairsOf(es) + KeyOfEvent(e)
  {
    hide FailureKey;
    var all := es + [e];
    assert all[|es|] == e && forall i :: 0 <= i < |es| ==> all[i] == es[i];
  }

  lemma AnswersKeepRecords(p: Policy, s: State, ip: string, user: string, now: Instant)
    ensures Admit(p, s, ip, user, now).0.failures == s.failures && Audit(p, s, ip, user, now).0.failures == s.failures
  {
    hide CounterFor, AuditExpired, FailureKey;
  }

  /** A record comes from the state before, or is that of the pair that fails now. */
  lemma RecordOrigin(p: Policy, s: State, e: Event)
    ensures Apply(p, s, e).0.failures.Keys <= s.failures.Keys + KeyOfEvent(e)
  {
    hide FailureKey, Admit, Audit, CountFailure, FailuresFor, AttemptExpired, AuditExpired, FailuresExpired;
    var c := Cleanup(p, s, e.at);
    assert c.failures.Keys <= s.failures.Keys;
    AnswersKeepRecords(p, c, e.op.ip, e.op.user, e.at);
  }

  lemma {:induction false} RecordsAreOf(p: Policy, es: seq<Event>)
    ensures Run(p, EMPTY, es).failures.Keys <= PairsOf(es)
  {
    hide Apply, PairsOf;
    if es != [] {
      var n := |es| - 1;
      RecordsAreOf(p, es[..n]);
      PairsSnoc(es[..n], es[n]);
      assert es == es[..n] + [es[n]];
      RecordOrigin(p, Run(p, EMPTY, es[..n]), es[n]);
    }
  }

  lemma {:induction false} RunFrom(p: Policy, before: seq<Event>, es: seq<Event>)
    ensures Run(p, EMPTY, before + es) == Run(p, Run(p, EMPTY, before), es)
  {
    hide Apply;
    if es == [] {
      assert before + es == before;
    } else {
      var n := |es| - 1;
      RunFrom(p, before, es[..n]);
      assert (before + es)[..|before + es| - 1] == before + es[..n];
    }
  }

  /** With no more pairs than places, a pair without a record always finds a free one. */
  lemma FewArePlaced(p: Policy, all: seq<Event>, i: nat)
    requires |PairsOf(all)| <= p.maxKeys && i < |all| && all[i].op.FailOp?
    ensures !FailuresFull(p, Run(p, EMPTY, all[..i]), FailureKey(all[i].op.ip, all[i].op.user))
  {
    hide FailureKey;
    var s, key := Run(p, EMPTY, all[..i]), FailureKey(all[i].op.ip, all[i].op.user);
    RecordsAreOf(p, all[..i]);
    assert forall j :: 0 <= j < i ==> all[..i][j] == all[j];
    if key !in s.failures {
      assert s.failures.Keys <= PairsOf(all) - {key};
      SubsetSize(s.failures.Keys, PairsOf(all) - {key});
      assert |s.failures.Keys| == |s.failures|;
    }
  }

  lemma FewAreTracked(p: Policy, before: seq<Event>, es: seq<Event>, key: string)
    requires |PairsOf(before + es)| <= p.maxKeys
    ensures Tracked(p, Run(p, EMPTY, before), es, key)
  {
    hide Run, FailureKey, FailuresFull, PairsOf;
    var all := before + es;
    forall i | 0 <= i < |es| && FailsPair(es[i], key)
      ensures !FailuresFull(p, Run(p, Run(p, EMPTY, before), es[..i]), key)
    {
      var j := |before| + i;
      assert all[j] == es[i] && all[..j] == before + es[..i];
      RunFrom(p, before, es[..i]);
      FewArePlaced(p, all, j);
    }
  }

  /** How many failures inside one window are sure to block. */
  function EnoughFailures(p: Policy): nat {
    if p.maxFailures == 0 then 1 else 2 * p.maxFailures - 1
  }

  lemma {:induction false} SomeFailure(es: seq<Event>, key: string) returns (i: nat)
    requires PairFailures(es, key) > 0
    ensures i < |es| && FailsPair(es[i], key)
  {
    var n := |es| - 1;
    if FailsPair(es[n], key) { i := n; } else { i := SomeFailure(es[..n], key); }
  }

  /** Where no failure is allowed, any that is tracked blocks at once. */
  lemma OneFailureBlocks(p: Policy, s: State, es: seq<Event>, key: string, i: nat)
    requires p.maxFailures == 0 && i < |es| && FailsPair(es[i], key) && Tracked(p, s, es, key)
    ensures SetsBlock(p, s, es, key)
  {
    hide FailureKey;
    assert es[..i + 1][..i] == es[..i];
    assert BlocksAt(p, s, es, key, i);
  }

  /** With at most as many pairs as places, enough failures of a pair inside one window without a
      success set a block. */
  lemma FewPairsBlock(p: Policy, before: seq<Event>, es: seq<Event>, key: string, t: int)
    requires Stretch(p, es, key, t) && |PairsOf(before + es)| <= p.maxKeys
    requires PairFailures(es, key) >= EnoughFailures(p)
    ensures SetsBlock(p, Run(p, EMPTY, before), es, key)
  {
    hide Run, Tracked, Stretch, SetsBlock;
    FewAreTracked(p, before, es, key);
    if p.maxFailures >= 1 {
      FailuresBlock(p, before, es, key, t);
    } else {
      var i := SomeFailure(es, key);
      OneFailureBlocks(p, Run(p, EMPTY, before), es, key, i);
    }
  }

  // ---------- What the handlers record ----------

  predicate AdmittedLogin(p: Policy, s: State, e: Event, ip: string, user: string) {
    e.op == AllowOp(ip, user) && Apply(p, s, e).1
  }

  /** The logins of the pair that the run lets in. */
  function Logins(p: Policy, es: seq<Event>, ip: string, user: string): nat {
    if es == [] then 0
    else
      var n := |es| - 1;
      Logins(p, es[..n], ip, user) + if AdmittedLogin(p, Run(p, EMPTY, es[..n]), es[n], ip, user) then 1 else 0
  }

  predicate OutcomeOf(e: Event, ip: string, user: string) {
    e.op == FailOp(ip, user) || e.op == SuccessOp(ip, user)
  }

  /** The failures and successes recorded for the pair. */
  function Outcomes(es: seq<Event>, ip: string, user: string): nat {
    if es == [] then 0
    else Outcomes(es[..|es| - 1], ip, user) + if OutcomeOf(es[|es| - 1], ip, user) then 1 else 0
  }

  predicate Balanced(p: Policy, es: seq<Event>, ip: string, user: string) {
    Outcomes(es, ip, user) <= Logins(p, es, ip, user)
  }

  /** Each failure and each success is recorded for a login of its own that was let in before. */
  ghost predicate Handled(p: Policy, es: seq<Event>) {
    forall n, ip: string, user: string :: 0 <= n <= |es| ==> Balanced(p, es[..n], ip, user)
  }

  /** A run that requests can produce: in order, every outcome after its login. */
  ghost predicate Real(p: Policy, es: seq<Event>) {
    Ordered(es) && Handled(p, es)
  }

  lemma CountsSnoc(p: Policy, es: seq<Event>, e: Event, ip: string, user: string)
    ensures Outcomes(es + [e], ip, user) == Outcomes(es, ip, user) + if OutcomeOf(e, ip, user) then 1 else 0
    ensures Logins(p, es + [e], ip, user) ==
              Logins(p, es, ip, user) + if AdmittedLogin(p, Run(p, EMPTY, es), e, ip, user) then 1 else 0
  {
    assert (es + [e])[..|es|] == es;
  }

  lemma BalancedNow(p: Policy, es: seq<Event>, ip: string, user: string)
    requires Handled(p, es)
    ensures Balanced(p, es, ip, user)
  {
    hide Balanced;
    assert es[..|es|] == es;
  }

  lemma HandledSnoc(p: Policy, es: seq<Event>, e: Event)
    requires Handled(p, es)
    requires forall ip: string, user: string :: Balanced(p, es + [e], ip, user)
    ensures Handled(p, es + [e])
  {
    hide Balanced;
    var all := es + [e];
    forall n, ip: string, user: string | 0 <= n <= |all|
      ensures Balanced(p, all[..n], ip, user)
    {
      assert all[..n] == if n <= |es| then es[..n] else all;
    }
  }

  /** A request: a login of the pair that is let in, and its outcome. */
  lemma HandledRequest(p: Policy, es: seq<Event>, login: Event, outcome: Event, ip: string, user: string)
    requires Handled(p, es) && AdmittedLogin(p, Run(p, EMPTY, es), login, ip, user) && OutcomeOf(outcome, ip, user)
    ensures Handled(p, es + [login] + [outcome])
  {
    hide Apply, Run, Handled, Logins, Outcomes;
    forall i: string, u: string
      ensures Balanced(p, es + [login], i, u)
      ensures Balanced(p, es + [login] + [outcome], i, u)
    {
      BalancedNow(p, es, i, u);
      CountsSnoc(p, es, login, i, u);
      CountsSnoc(p, es + [login], outcome, i, u);
    }
    HandledSnoc(p, es, login);
    HandledSnoc(p, es + [login], outcome);
  }

  // ---------- One pair more ----------

  const KNOWN: string := "x"
  const NEWCOMER: string := "y"

  function Pair(k: nat): string {
    FailureKey(Addr(k), KNOWN)
  }

  function Pairs(n: nat): set<string> {
    if n == 0 then {} else Pairs(n - 1) + {Pair(n - 1)}
  }

  /** The pair that shares the first address and comes when all places are taken. */
  function Outside(): string {
    FailureKey(Addr(0), NEWCOMER)
  }

  lemma PairDiffer(j: nat, k: nat)
    ensures Pair(j) == Pair(k) <==> j == k
    ensures Pair(k) != Outside()
  {
    assert |Pair(j)| == j + 2 && |Pair(k)| == k + 2;
    assert Pair(k)[k + 1] == 'x' && Outside()[1] == 'y';
  }

  lemma {:induction false} PairsSize(n: nat, k: nat)
    ensures |Pairs(n)| == n && (Pair(k) in Pairs(n) <==> k < n) && Outside() !in Pairs(n)
  {
    hide Pair, Outside;
    if n > 0 {
      PairsSize(n - 1, n - 1);
      PairsSize(n - 1, k);
      PairDiffer(k, n - 1);
    }
  }

  /** There are places, failures are remembered for a while, and one address may log in often enough. */
  predicate Presses(p: Policy) {
    p.maxKeys > 0 && p.attemptWindow > 0 && p.failureWindow > 0 && EnoughFailures(p) < p.maxAttempts
  }

  function Counters(k: nat, extra: nat): map<string, Counter> {
    map ip | ip in Crowd(k) :: Counter(1, if ip == Addr(0) then 1 + extra else 1)
  }

  function Records(p: Policy, k: nat): map<string, Failures> {
    map key | key in Pairs(k) :: CountFailure(p, Failures(1, 0, ZERO), 1)
  }

  /** The first k addresses have logged in once and their pairs failed once, and the first address
      has logged in `extra` times more. */
  function Packed(p: Policy, k: nat, extra: nat): State {
    State(Counters(k, extra), Records(p, k), map[])
  }

  function Login(ip: string, user: string): Event {
    Event(AllowOp(ip, user), 1)
  }

  function Failing(ip: string, user: string): Event {
    Event(FailOp(ip, user), 1)
  }

  function Request(es: seq<Event>, ip: string, user: string): seq<Event> {
    es + [Login(ip, user)] + [Failing(ip, user)]
  }

  lemma PackedStays(p: Policy, k: nat, extra: nat)
    requires Presses(p)
    ensures Cleanup(p, Packed(p, k, extra), 1) == Packed(p, k, extra)
    ensures |Packed(p, k, extra).attempts| == k && |Packed(p, k, extra).failures| == k
    ensures Packed(p, k, extra).failures.Keys == Pairs(k) && Packed(p, k, extra).attempts.Keys == Crowd(k)
  {
    var s := Packed(p, k, extra);
    CrowdSize(k, 0);
    PairsSize(k, 0);
    assert s.attempts.Keys == Crowd(k) && |s.attempts.Keys| == |s.attempts|;
    assert s.failures.Keys == Pairs(k) && |s.failures.Keys| == |s.failures|;
    var c := Cleanup(p, s, 1);
    assert c.attempts == s.attempts && c.failures == s.failures && c.audits == s.audits;
  }

  lemma FreshEntries(p: Policy, s: State, k: nat)
    ensures Addr(k) !in s.attempts ==> CounterFor(p, s, Addr(k), 1) == Counter(1, 0)
    ensures Pair(k) !in s.failures ==> FailuresFor(p, s, Pair(k), 1) == Failures(1, 0, ZERO)
    ensures forall t: map<string, Counter> :: Pair(k) !in s.failures ==>
              FailuresFor(p, s.(attempts := t), Pair(k), 1) == Failures(1, 0, ZERO)
  {
    hide Addr, FailureKey;
  }

  lemma PackCounters(k: nat)
    ensures Counters(k, 0)[Addr(k) := Counter(1, 1)] == Counters(k + 1, 0)
  {
    hide Addr;
  }

  lemma PackRecords(p: Policy, k: nat)
    ensures Records(p, k)[Pair(k) := CountFailure(p, Failures(1, 0, ZERO), 1)] == Records(p, k + 1)
  {
    hide Pair, CountFailure;
  }

  /** The k-th address logs in and its pair fails while there is room. */
  lemma PackOne(p: Policy, k: nat)
    requires Presses(p) && k < p.maxKeys
    ensures var (seated, ok) := Apply(p, Packed(p, k, 0), Login(Addr(k), KNOWN));
            ok && Apply(p, seated, Failing(Addr(k), KNOWN)).0 == Packed(p, k + 1, 0)
  {
    hide Cleanup, Addr, FailureKey, CounterFor, FailuresFor, CountFailure;
    PackedStays(p, k, 0);
    CrowdSize(k, k);
    PairsSize(k, k);
    if k > 0 { AddrDiffer(k, 0); }
    PackCounters(k);
    PackRecords(p, k);
    FreshEntries(p, Packed(p, k, 0), k);
  }

  /** At full maps the newcomer logs in from the first address, and its failure is not recorded. */
  lemma PressOne(p: Policy, extra: nat)
    requires Presses(p) && extra + 1 < p.maxAttempts
    ensures Apply(p, Packed(p, p.maxKeys, extra), Login(Addr(0), NEWCOMER)) == (Packed(p, p.maxKeys, extra + 1), true)
    ensures Apply(p, Packed(p, p.maxKeys, extra + 1), Failing(Addr(0), NEWCOMER)).0 == Packed(p, p.maxKeys, extra + 1)
  {
    hide Cleanup, Addr, FailureKey;
    PackedStays(p, p.maxKeys, extra);
    PackedStays(p, p.maxKeys, extra + 1);
    CrowdSize(p.maxKeys, 0);
    PairsSize(p.maxKeys, 0);
    assert Counters(p.maxKeys, extra)[Addr(0) := Counter(1, 2 + extra)] == Counters(p.maxKeys, extra + 1);
  }

  /** The run so far: all at instant 1, as requests produce it, ending in this state. */
  ghost predicate Packs(p: Policy, es: seq<Event>, k: nat, extra: nat) {
    && (forall e :: e in es ==> e.at == 1) && Run(p, EMPTY, es) == Packed(p, k, extra) && Handled(p, es)
    && (forall e :: e in es ==> !e.op.SuccessOp?) && PairsOf(es) <= Pairs(p.maxKeys) + {Outside()}
  }

  lemma RunSnoc(p: Policy, s: State, es: seq<Event>, e: Event)
    ensures Run(p, s, es + [e]) == Apply(p, Run(p, s, es), e).0
  {
    assert (es + [e])[..|es|] == es;
  }

  lemma PacksRequest(p: Policy, es: seq<Event>, k: nat, extra: nat, ip: string, user: string, k2: nat, extra2: nat)
    requires Packs(p, es, k, extra) && FailureKey(ip, user) in Pairs(p.maxKeys) + {Outside()}
    requires var (seated, ok) := Apply(p, Packed(p, k, extra), Login(ip, user));
             ok && Apply(p, seated, Failing(ip, user)).0 == Packed(p, k2, extra2)
    ensures Packs(p, Request(es, ip, user), k2, extra2)
  {
    hide Apply, Run, Handled, PairsOf, Pairs, Outside, FailureKey, Packed;
    var login, failure := Login(ip, user), Failing(ip, user);
    RunSnoc(p, EMPTY, es, login);
    RunSnoc(p, EMPTY, es + [login], failure);
    HandledRequest(p, es, login, failure, ip, user);
    PairsSnoc(es, login);
    PairsSnoc(es + [login], failure);
  }

  lemma NothingPacked(p: Policy)
    ensures Packs(p, [], 0, 0)
  {
    assert Run(p, EMPTY, []) == EMPTY;
    assert Counters(0, 0) == map[] && Records(p, 0) == map[];
  }

  lemma PairIs(k: nat)
    ensures Pair(k) == FailureKey(Addr(k), KNOWN)
  {}

  lemma {:induction false} Pack(p: Policy, k: nat) returns (es: seq<Event>)
    requires Presses(p) && k <= p.maxKeys
    ensures Packs(p, es, k, 0)
  {
    hide Packs, Presses, Apply, Packed, Pair;
    if k == 0 {
      es := [];
      NothingPacked(p);
    } else {
      es := Pack(p, k - 1);
      PackOne(p, k - 1);
      PairsSize(p.maxKeys, k - 1);
      assert Pair(k - 1) == FailureKey(Addr(k - 1), KNOWN) by { PairIs(k - 1); }
      PacksRequest(p, es, k - 1, 0, Addr(k - 1), KNOWN, k, 0);
      es := Request(es, Addr(k - 1), KNOWN);
    }
  }

  /** After the map has filled up the newcomer has failed n times, and no block was set. */
  ghost predicate Pressed(p: Policy, before: seq<Event>, es: seq<Event>, n: nat) {
    && Packs(p, before + es, p.maxKeys, n) && PairFailures(es, Outside()) == n
    && !SetsBlock(p, Run(p, EMPTY, before), es, Outside())
  }

  /** A step that leaves the pair without a record sets no block. */
  lemma NoBlockSnoc(p: Policy, s: State, es: seq<Event>, e: Event, key: string)
    requires !SetsBlock(p, s, es, key) && key !in Run(p, s, es + [e]).failures
    ensures !SetsBlock(p, s, es + [e], key)
  {
    hide Run;
    var all := es + [e];
    forall i
      ensures !BlocksAt(p, s, all, key, i)
    {
      if 0 <= i < |es| {
        assert all[..i + 1] == es[..i + 1] && all[i] == es[i];
        assert !BlocksAt(p, s, es, key, i);
      } else if i == |es| {
        assert all[..i + 1] == all;
      }
    }
  }

  lemma FailuresSnoc(es: seq<Event>, e: Event, key: string)
    ensures PairFailures(es + [e], key) == PairFailures(es, key) + if FailsPair(e, key) then 1 else 0
  {
    assert (es + [e])[..|es|] == es;
  }

  lemma PressedRequest(p: Policy, before: seq<Event>, es: seq<Event>, n: nat)
    requires Presses(p) && Pressed(p, before, es, n) && n + 1 < p.maxAttempts
    ensures Pressed(p, before, Request(es, Addr(0), NEWCOMER), n + 1)
  {
    hide Apply, Run, Presses, SetsBlock, PairFailures, Packed, Addr, FailureKey, PairsOf, Handled;
    var login, failure := Login(Addr(0), NEWCOMER), Failing(Addr(0), NEWCOMER);
    PressOne(p, n);
    PacksRequest(p, before + es, p.maxKeys, n, Addr(0), NEWCOMER, p.maxKeys, n + 1);
    assert before + Request(es, Addr(0), NEWCOMER) == Request(before + es, Addr(0), NEWCOMER);
    RunSnoc(p, EMPTY, before + es, login);
    assert before + (es + [login]) == before + es + [login];
    RunFrom(p, before, es + [login]);
    RunFrom(p, before, Request(es, Addr(0), NEWCOMER));
    PackedStays(p, p.maxKeys, n + 1);
    PairsSize(p.maxKeys, 0);
    NoBlockSnoc(p, Run(p, EMPTY, before), es, login, Outside());
    NoBlockSnoc(p, Run(p, EMPTY, before), es + [login], failure, Outside());
    FailuresSnoc(es, login, Outside());
    FailuresSnoc(es + [login], failure, Outside());
  }

  lemma {:induction false} Press(p: Policy, before: seq<Event>, n: nat) returns (es: seq<Event>)
    requires Presses(p) && Packs(p, before, p.maxKeys, 0) && n < p.maxAttempts
    ensures Pressed(p, before, es, n)
  {
    hide Presses, Packs, Addr;
    if n == 0 {
      es := [];
      assert before + es == before;
      assert !SetsBlock(p, Run(p, EMPTY, before), es, Outside());
    } else {
      es := Press(p, before, n - 1);
      PressedRequest(p, before, es, n - 1);
      es := Request(es, Addr(0), NEWCOMER);
    }
  }

  /** With one pair more than there are places, a pair can fail n times at one instant, for every n
      its address may log in once more than, and never be blocked: its failures find no place. */
  lemma FullMapForgets(p: Policy, n: nat) returns (before: seq<Event>, es: seq<Event>)
    requires Presses(p) && n < p.maxAttempts
    ensures Real(p, before + es) && |PairsOf(before + es)| <= p.maxKeys + 1
    ensures (forall e :: e in before + es ==> e.at == 1) && Stretch(p, es, Outside(), 1)
    ensures PairFailures(es, Outside()) == n && !SetsBlock(p, Run(p, EMPTY, before), es, Outside())
  {
    hide Run, Handled, SetsBlock, PairFailures, PairsOf, Pairs, Outside, Packed;
    before := Pack(p, p.maxKeys);
    es := Press(p, before, n);
    var all := before + es;
    assert forall e :: e in es ==> e in all;
    PairsSize(p.maxKeys, 0);
    SubsetSize(PairsOf(all), Pairs(p.maxKeys) + {Outside()});
  }

  /** Enough failures inside a window block a pair in every real run in which at most m pairs fail. */
  ghost predicate BlockHolds(p: Policy, m: nat) {
    forall before: seq<Event>, es: seq<Event>, key: string, t: int ::
      && Real(p, before + es) && |PairsOf(before + es)| <= m
      && Stretch(p, es, key, t) && PairFailures(es, key) >= EnoughFailures(p)
      ==> SetsBlock(p, Run(p, EMPTY, before), es, key)
  }

  lemma PressesEnough(p: Policy)
    requires Presses(p)
    ensures EnoughFailures(p) < p.maxAttempts
  {}

  /** They do exactly when the map has a place for each of the pairs. */
  lemma BlockIffPlaces(p: Policy, m: nat)
    requires Presses(p)
    ensures BlockHolds(p, m) <==> m <= p.maxKeys
  {
    hide SetsBlock, Stretch, Real, PairsOf, PairFailures, Presses;
    if m <= p.maxKeys {
      forall before: seq<Event>, es: seq<Event>, key: string, t: int |
        && Real(p, before + es) && |PairsOf(before + es)| <= m
        && Stretch(p, es, key, t) && PairFailures(es, key) >= EnoughFailures(p)
        ensures SetsBlock(p, Run(p, EMPTY, before), es, key)
      {
        FewPairsBlock(p, before, es, key, t);
      }
    } else {
      assert EnoughFailures(p) < p.maxAttempts by { PressesEnough(p); }
      var before, es := FullMapForgets(p, EnoughFailures(p));
    }
  }
}
