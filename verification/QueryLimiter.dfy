/** The query-code login limiter (backend/internal/query/ratelimit.go): like the admin one, but
    at capacity it evicts the least recently seen key that is not blocked, and a written query
    code releases its owner. Ties between equally old keys are broken by map iteration order,
    which the model leaves to the environment: operations carry the `victim` it would pick. */
module QueryLimiter {
  import opened LimiterKeys

  type Instant = t: int | 0 < t witness 1
  const ZERO := 0

  /** A client address; it never contains the separator of the composite keys. */
  type Address = s: string | '|' !in s witness ""

  datatype Policy = Policy(
    attemptWindow: nat, maxAttempts: nat,
    failureWindow: nat, maxFailures: nat, blockDuration: nat,
    maxTrackedKeys: int)

  const SECOND := 1_000_000_000
  const DEFAULT_MAX_KEYS: nat := 10000
  const RELEASE_GRACE_ATTEMPTS: nat := 3
  const DEFAULT_POLICY := Policy(60 * SECOND, 20, 300 * SECOND, 10, 300 * SECOND, 10000)

  datatype Counter = Counter(start: int, count: nat, seen: int)
  datatype Failures = Failures(cn: string, start: int, count: nat, blockedUntil: int, seen: int)
  datatype State = State(attempts: map<string, Counter>, failures: map<string, Failures>)

  const EMPTY := State(map[], map[])

  function FailureKey(ip: string, cn: string): string {
    ip + "|" + cn
  }

  /** Addresses have no separator, so a composite key belongs to one pair, whatever the CN contains. */
  lemma KeyInjective(ip: Address, cn: string, other: Address, otherCN: string)
    requires FailureKey(ip, cn) == FailureKey(other, otherCN)
    ensures ip == other && cn == otherCN
  {
    var key, again := FailureKey(ip, cn), FailureKey(other, otherCN);
    assert key[|ip|] == '|' && again[|other|] == '|';
    assert forall i :: 0 <= i < |ip| ==> key[i] == ip[i];
    assert forall i :: 0 <= i < |other| ==> again[i] == other[i];
    assert |ip| == |other|;
    assert key[..|ip|] == ip && again[..|ip|] == other && key[|ip| + 1..] == cn && again[|ip| + 1..] == otherCN;
  }

  /** A cap that is not positive means the default one, never "unbounded". */
  function MaxKeys(p: Policy): nat {
    if p.maxTrackedKeys > 0 then p.maxTrackedKeys else DEFAULT_MAX_KEYS
  }

  // ---------- The operations ----------

  predicate AttemptExpired(p: Policy, c: Counter, now: Instant) {
    now - c.start >= p.attemptWindow
  }

  predicate FailuresExpired(p: Policy, f: Failures, now: Instant) {
    now - f.start >= p.failureWindow && now > f.blockedUntil
  }

  function Cleanup(p: Policy, s: State, now: Instant): State {
    State(
      map k | k in s.attempts && !AttemptExpired(p, s.attempts[k], now) :: s.attempts[k],
      map k | k in s.failures && !FailuresExpired(p, s.failures[k], now) :: s.failures[k])
  }

  /** Room for one new attempts key; false only for a full map without keys, so never. */
  function AttemptsRoom(p: Policy, s: State, now: Instant, victim: string): (State, bool) {
    if |s.attempts| < MaxKeys(p) then (s, true)
    else
      var c := Cleanup(p, s, now);
      if |c.attempts| < MaxKeys(p) then (c, true)
      else if c.attempts == map[] then (c, false)
      else (c.(attempts := c.attempts - {victim}), true)
  }

  /** Room for one new failure key; false when every key is blocked. */
  function FailuresRoom(p: Policy, s: State, now: Instant, victim: string): (State, bool) {
    if |s.failures| < MaxKeys(p) then (s, true)
    else
      var c := Cleanup(p, s, now);
      if |c.failures| < MaxKeys(p) then (c, true)
      else if AllBlocked(c, now) then (c, false)
      else (c.(failures := c.failures - {victim}), true)
  }

  predicate AllBlocked(s: State, now: Instant) {
    forall k :: k in s.failures ==> now < s.failures[k].blockedUntil
  }

  /** The keys the capacity eviction may pick. */
  predicate AttemptsVictim(s: State, victim: string) {
    victim in s.attempts && forall k :: k in s.attempts ==> s.attempts[victim].seen <= s.attempts[k].seen
  }

  predicate FailuresVictim(s: State, now: Instant, victim: string) {
    && victim in s.failures && now >= s.failures[victim].blockedUntil
    && forall k :: k in s.failures && now >= s.failures[k].blockedUntil ==>
      s.failures[victim].seen <= s.failures[k].seen
  }

  function CounterFor(p: Policy, s: State, ip: string, now: Instant): Counter {
    if ip in s.attempts && !AttemptExpired(p, s.attempts[ip], now) then s.attempts[ip].(seen := now)
    else Counter(now, 0, now)
  }

  predicate Blocked(s: State, key: string, now: Instant) {
    key in s.failures && now < s.failures[key].blockedUntil
  }

  function Touch(s: State, key: string, now: Instant): State {
    if key in s.failures then s.(failures := s.failures[key := s.failures[key].(seen := now)]) else s
  }

  /** allow, once there is room for the address's counter. */
  function Admit(p: Policy, s: State, ip: string, cn: string, now: Instant): (State, bool) {
    var c := CounterFor(p, s, ip, now);
    if c.count >= p.maxAttempts then (s.(attempts := s.attempts[ip := c]), false)
    else
      var key := FailureKey(ip, cn);
      (Touch(s.(attempts := s.attempts[ip := c.(count := c.count + 1)]), key, now), !Blocked(s, key, now))
  }

  function Allow(p: Policy, s: State, ip: string, cn: string, now: Instant, victim: string): (State, bool) {
    var c := Cleanup(p, s, now);
    if ip in c.attempts then Admit(p, c, ip, cn, now)
    else
      var (roomy, ok) := AttemptsRoom(p, c, now, victim);
      if ok then Admit(p, roomy, ip, cn, now) else (roomy, false)
  }

  function FailuresFor(p: Policy, s: State, key: string, cn: string, now: Instant): Failures {
    if key !in s.failures then Failures(cn, now, 0, ZERO, now)
    else if now - s.failures[key].start >= p.failureWindow then s.failures[key].(start := now, count := 0, seen := now)
    else s.failures[key].(seen := now)
  }

  function CountFailure(p: Policy, f: Failures, now: Instant): Failures {
    if f.count + 1 >= p.maxFailures then f.(start := now, count := 0, blockedUntil := now + p.blockDuration)
    else f.(count := f.count + 1)
  }

  function NoteFailure(p: Policy, s: State, key: string, cn: string, now: Instant): State {
    s.(failures := s.failures[key := CountFailure(p, FailuresFor(p, s, key, cn, now), now)])
  }

  function RecordFailure(p: Policy, s: State, ip: string, cn: string, now: Instant, victim: string): State {
    var key := FailureKey(ip, cn);
    if key in s.failures then NoteFailure(p, s, key, cn, now)
    else
      var (roomy, ok) := FailuresRoom(p, s, now, victim);
      if ok then NoteFailure(p, roomy, key, cn, now) else roomy
  }

  function RecordSuccess(s: State, ip: string, cn: string): State {
    s.(failures := s.failures - {FailureKey(ip, cn)})
  }

  /** The relieved counter keeps at least RELEASE_GRACE_ATTEMPTS slots free, or all of them if there are fewer. */
  function Relieved(p: Policy, c: Counter, now: Instant): Counter {
    if AttemptExpired(p, c, now) then c.(start := now, count := 0)
    else if c.count > p.maxAttempts - RELEASE_GRACE_ATTEMPTS then
      c.(count := if p.maxAttempts < RELEASE_GRACE_ATTEMPTS then 0 else p.maxAttempts - RELEASE_GRACE_ATTEMPTS)
    else c
  }

  function Release(p: Policy, s: State, ip: string, cn: string, now: Instant): State {
    State(
      if ip in s.attempts then s.attempts[ip := Relieved(p, s.attempts[ip], now)] else s.attempts,
      s.failures - {FailureKey(ip, cn)})
  }

  function ReleaseForCN(s: State, cn: string): State {
    s.(failures := map k | k in s.failures && s.failures[k].cn != cn :: s.failures[k])
  }

  // ---------- Runs ----------

  datatype Op =
    | AllowOp(ip: Address, cn: string, victim: string)
    | FailOp(ip: Address, cn: string, victim: string)
    | SuccessOp(ip: Address, cn: string)
    | ReleaseOp(ip: Address, cn: string)
    | ReleaseForCNOp(cn: string)

  datatype Event = Event(op: Op, at: Instant)

  function Apply(p: Policy, s: State, e: Event): (State, bool) {
    match e.op
    case AllowOp(ip, cn, victim) => Allow(p, s, ip, cn, e.at, victim)
    case FailOp(ip, cn, victim) => (RecordFailure(p, s, ip, cn, e.at, victim), true)
    case SuccessOp(ip, cn) => (RecordSuccess(s, ip, cn), true)
    case ReleaseOp(ip, cn) => (Release(p, s, ip, cn, e.at), true)
    case ReleaseForCNOp(cn) => (ReleaseForCN(s, cn), true)
  }

  /** The victim the event carries is one the limiter could pick, if it has to pick. */
  predicate Fair(p: Policy, s: State, e: Event) {
    match e.op
    case AllowOp(ip, cn, victim) =>
      var c := Cleanup(p, s, e.at);
      ip !in c.attempts && |c.attempts| >= MaxKeys(p) ==> AttemptsVictim(c, victim)
    case FailOp(ip, cn, victim) =>
      MayEvict(p, s, ip, cn, e.at) ==> FailuresVictim(Cleanup(p, s, e.at), e.at, victim)
    case _ => true
  }

  function Run(p: Policy, s: State, es: seq<Event>): State {
    if es == [] then s else Apply(p, Run(p, s, es[..|es| - 1]), es[|es| - 1]).0
  }

  ghost predicate FairRun(p: Policy, s: State, es: seq<Event>) {
    forall i :: 0 <= i < |es| ==> Fair(p, Run(p, s, es[..i]), es[i])
  }

  predicate Ordered(es: seq<Event>) {
    forall i, j :: 0 <= i < j < |es| ==> es[i].at <= es[j].at
  }

  function LastTime(es: seq<Event>): int {
    if es == [] then ZERO else es[|es| - 1].at
  }

  lemma RunInit(p: Policy, s: State, es: seq<Event>)
    requires es != [] && FairRun(p, s, es)
    ensures FairRun(p, s, es[..|es| - 1]) && Fair(p, Run(p, s, es[..|es| - 1]), es[|es| - 1])
  {
    assert forall i :: 0 <= i < |es| - 1 ==> es[..|es| - 1][..i] == es[..i];
  }

  lemma OrderedInit(es: seq<Event>)
    requires Ordered(es) && es != []
    ensures Ordered(es[..|es| - 1]) && LastTime(es[..|es| - 1]) <= es[|es| - 1].at
  {}

  // ---------- What the two larger operations do to a single entry ----------

  /** A login touches no failure record except to drop the expired ones and mark its own seen. */
  lemma AllowFailures(p: Policy, s: State, ip: string, cn: string, now: Instant, victim: string, k: string)
    ensures var next := Allow(p, s, ip, cn, now, victim).0;
            && (k in next.failures <==> k in s.failures && !FailuresExpired(p, s.failures[k], now))
            && (k in next.failures ==> next.failures[k] == s.failures[k].(seen := next.failures[k].seen))
  {
    var c := Cleanup(p, s, now);
    var r := if ip in c.attempts then c else AttemptsRoom(p, c, now, victim).0;
    assert r.failures == c.failures;
  }

  /** A login touches no counter but its own address's, except to drop some. */
  lemma AllowAttempts(p: Policy, s: State, ip: string, cn: string, now: Instant, victim: string, k: string)
    requires k != ip
    ensures var next := Allow(p, s, ip, cn, now, victim).0;
            k in next.attempts ==> k in s.attempts && next.attempts[k] == s.attempts[k]
  {
    var c := Cleanup(p, s, now);
    var r := if ip in c.attempts then c else AttemptsRoom(p, c, now, victim).0;
    assert k in r.attempts ==> k in s.attempts && r.attempts[k] == s.attempts[k];
  }

  /** The failure needs room and finds neither a free place nor only blocked keys. */
  predicate MayEvict(p: Policy, s: State, ip: string, cn: string, now: Instant) {
    var c := Cleanup(p, s, now);
    FailureKey(ip, cn) !in s.failures && |s.failures| >= MaxKeys(p) && |c.failures| >= MaxKeys(p) && !AllBlocked(c, now)
  }

  /** A failure touches no other pair's record, except to drop expired ones and the victim's. */
  lemma FailFailures(p: Policy, s: State, ip: string, cn: string, now: Instant, victim: string, k: string)
    requires k != FailureKey(ip, cn)
    ensures var next := RecordFailure(p, s, ip, cn, now, victim);
            && (k in next.failures ==> k in s.failures && next.failures[k] == s.failures[k])
            && (k in s.failures && k !in next.failures ==>
                FailuresExpired(p, s.failures[k], now) || (MayEvict(p, s, ip, cn, now) && k == victim))
  {}

  /** The pair's own record after a failure: none, a first failure, or its record with one more. */
  lemma FailOwn(p: Policy, s: State, ip: string, cn: string, now: Instant, victim: string)
    ensures var key := FailureKey(ip, cn);
            var next := RecordFailure(p, s, ip, cn, now, victim);
            && (key in s.failures ==> key in next.failures)
            && (key in next.failures ==> next.failures[key] == CountFailure(p, FailuresFor(p, s, key, cn, now), now))
  {}

  lemma FailAttempts(p: Policy, s: State, ip: string, cn: string, now: Instant, victim: string, k: string)
    ensures var next := RecordFailure(p, s, ip, cn, now, victim);
            && (k in next.attempts ==> k in s.attempts && next.attempts[k] == s.attempts[k])
            && (k in s.attempts && k !in next.attempts ==> AttemptExpired(p, s.attempts[k], now))
  {}

  // ---------- The maps stay bounded ----------

  predicate Bounded(p: Policy, s: State) {
    |s.attempts| <= MaxKeys(p) && |s.failures| <= MaxKeys(p)
  }

  lemma CleanupShrinks(p: Policy, s: State, now: Instant)
    ensures |Cleanup(p, s, now).attempts| <= |s.attempts| && |Cleanup(p, s, now).failures| <= |s.failures|
  {
    SubmapSize(Cleanup(p, s, now).attempts, s.attempts);
    SubmapSize(Cleanup(p, s, now).failures, s.failures);
  }

  lemma AdmitBounded(p: Policy, s: State, ip: string, cn: string, now: Instant)
    requires Bounded(p, s) && (ip in s.attempts || |s.attempts| < MaxKeys(p))
    ensures Bounded(p, Admit(p, s, ip, cn, now).0)
  {
    var counter := CounterFor(p, s, ip, now);
    PutSize(s.attempts, ip, counter);
    PutSize(s.attempts, ip, counter.(count := counter.count + 1));
    var key := FailureKey(ip, cn);
    if key in s.failures {
      PutSize(s.failures, key, s.failures[key].(seen := now));
    }
  }

  /** Room made by evicting a key of the map is room for one more. */
  lemma RoomMade(p: Policy, s: State, now: Instant, victim: string)
    requires Bounded(p, s) && Cleanup(p, s, now) == s
    requires |s.attempts| >= MaxKeys(p) ==> victim in s.attempts
    ensures var (roomy, ok) := AttemptsRoom(p, s, now, victim);
            Bounded(p, roomy) && (ok ==> |roomy.attempts| < MaxKeys(p))
  {
    DropSize(s.attempts, victim);
  }

  lemma AllowBounded(p: Policy, s: State, e: Event)
    requires Bounded(p, s) && e.op.AllowOp? && Fair(p, s, e)
    ensures Bounded(p, Apply(p, s, e).0)
  {
    hide Admit, AttemptsRoom;
    var c := Cleanup(p, s, e.at);
    CleanupShrinks(p, s, e.at);
    if e.op.ip in c.attempts {
      AdmitBounded(p, c, e.op.ip, e.op.cn, e.at);
    } else {
      assert Cleanup(p, c, e.at) == c;
      RoomMade(p, c, e.at, e.op.victim);
      var (roomy, ok) := AttemptsRoom(p, c, e.at, e.op.victim);
      if ok { AdmitBounded(p, roomy, e.op.ip, e.op.cn, e.at); }
    }
  }

  /** Room for a record, likewise. */
  lemma RecordRoomMade(p: Policy, s: State, key: string, now: Instant, victim: string)
    requires Bounded(p, s) && key !in s.failures
    requires var c := Cleanup(p, s, now);
             |s.failures| >= MaxKeys(p) && |c.failures| >= MaxKeys(p) && !AllBlocked(c, now) ==> victim in c.failures
    ensures var (roomy, ok) := FailuresRoom(p, s, now, victim);
            Bounded(p, roomy) && (ok ==> |roomy.failures| < MaxKeys(p))
  {
    hide Cleanup, AllBlocked, MaxKeys;
    CleanupShrinks(p, s, now);
    DropSize(Cleanup(p, s, now).failures, victim);
  }

  lemma NoteBounded(p: Policy, s: State, key: string, cn: string, now: Instant)
    requires Bounded(p, s) && (key in s.failures || |s.failures| < MaxKeys(p))
    ensures Bounded(p, NoteFailure(p, s, key, cn, now))
  {
    hide CountFailure, FailuresFor, MaxKeys;
    PutSize(s.failures, key, CountFailure(p, FailuresFor(p, s, key, cn, now), now));
  }

  lemma FailBounded(p: Policy, s: State, e: Event)
    requires Bounded(p, s) && e.op.FailOp? && Fair(p, s, e)
    ensures Bounded(p, Apply(p, s, e).0)
  {
    hide FailuresRoom, NoteFailure, FailureKey, Cleanup, MaxKeys, AllBlocked, Bounded;
    var key := FailureKey(e.op.ip, e.op.cn);
    if key in s.failures {
      NoteBounded(p, s, key, e.op.cn, e.at);
    } else {
      RecordRoomMade(p, s, key, e.at, e.op.victim);
      var (roomy, ok) := FailuresRoom(p, s, e.at, e.op.victim);
      if ok { NoteBounded(p, roomy, key, e.op.cn, e.at); }
    }
  }

  lemma ReleaseBounded(p: Policy, s: State, ip: string, cn: string, now: Instant)
    requires Bounded(p, s)
    ensures Bounded(p, Release(p, s, ip, cn, now))
  {
    hide Relieved, FailureKey, MaxKeys;
    DropSize(s.failures, FailureKey(ip, cn));
    if ip in s.attempts { PutSize(s.attempts, ip, Relieved(p, s.attempts[ip], now)); }
  }

  lemma ReleaseForBounded(p: Policy, s: State, cn: string)
    requires Bounded(p, s)
    ensures Bounded(p, ReleaseForCN(s, cn))
  {
    SubmapSize(ReleaseForCN(s, cn).failures, s.failures);
  }

  lemma StepBounded(p: Policy, s: State, e: Event)
    requires Bounded(p, s) && Fair(p, s, e)
    ensures Bounded(p, Apply(p, s, e).0)
  {
    hide Allow, RecordFailure, Release, ReleaseForCN, Fair, MaxKeys, FailureKey;
    match e.op
    case AllowOp(_, _, _) => AllowBounded(p, s, e);
    case FailOp(_, _, _) => FailBounded(p, s, e);
    case SuccessOp(ip, cn) => DropSize(s.failures, FailureKey(ip, cn));
    case ReleaseOp(ip, cn) => ReleaseBounded(p, s, ip, cn, e.at);
    case ReleaseForCNOp(cn) => ReleaseForBounded(p, s, cn);
  }

  /** Neither map ever holds more keys than the cap. */
  lemma {:induction false} RunBounded(p: Policy, es: seq<Event>)
    requires FairRun(p, EMPTY, es)
    ensures Bounded(p, Run(p, EMPTY, es))
  {
    if es != [] {
      hide Apply;
      RunInit(p, EMPTY, es);
      RunBounded(p, es[..|es| - 1]);
      StepBounded(p, Run(p, EMPTY, es[..|es| - 1]), es[|es| - 1]);
    }
  }

  // ---------- A block holds ----------

  /** What one event does to one failure record it does not drop: mark it seen or count a failure on it. */
  lemma RecordStep(p: Policy, s: State, e: Event, k: string)
    ensures var next := Apply(p, s, e).0;
            k in next.failures ==>
              if e.op.FailOp? && k == FailureKey(e.op.ip, e.op.cn)
              then next.failures[k] == CountFailure(p, FailuresFor(p, s, k, e.op.cn, e.at), e.at)
              else k in s.failures && next.failures[k] == s.failures[k].(seen := next.failures[k].seen)
  {
    hide Allow, RecordFailure;
    match e.op
    case AllowOp(i, c, victim) => AllowFailures(p, s, i, c, e.at, victim, k);
    case FailOp(i, c, victim) =>
      if k == FailureKey(i, c) {
        FailOwn(p, s, i, c, e.at, victim);
      } else {
        FailFailures(p, s, i, c, e.at, victim, k);
      }
    case _ =>
  }

  /** The event lifts the pair's block: a success or a release of exactly this pair, or of its CN. */
  predicate Lifts(e: Event, ip: Address, cn: string) {
    match e.op
    case SuccessOp(i, c) => i == ip && c == cn
    case ReleaseOp(i, c) => i == ip && c == cn
    case ReleaseForCNOp(c) => c == cn
    case _ => false
  }

  predicate Blocking(s: State, key: string, until: int) {
    key in s.failures && s.failures[key].blockedUntil >= until
  }

  /** The pair's record carries the pair's CN. */
  predicate Owned(s: State, ip: Address, cn: string) {
    FailureKey(ip, cn) in s.failures ==> s.failures[FailureKey(ip, cn)].cn == cn
  }

  lemma OwnedStep(p: Policy, s: State, e: Event, ip: Address, cn: string)
    requires Owned(s, ip, cn)
    ensures Owned(Apply(p, s, e).0, ip, cn)
  {
    hide Apply;
    RecordStep(p, s, e, FailureKey(ip, cn));
    if e.op.FailOp? && FailureKey(e.op.ip, e.op.cn) == FailureKey(ip, cn) { KeyInjective(e.op.ip, e.op.cn, ip, cn); }
  }

  lemma {:induction false} RunOwned(p: Policy, s: State, es: seq<Event>, ip: Address, cn: string)
    requires Owned(s, ip, cn)
    ensures Owned(Run(p, s, es), ip, cn)
  {
    hide Apply;
    if es != [] {
      RunOwned(p, s, es[..|es| - 1], ip, cn);
      OwnedStep(p, Run(p, s, es[..|es| - 1]), es[|es| - 1], ip, cn);
    }
  }

  predicate BlockedUntil(s: State, ip: Address, cn: string, until: int) {
    Blocking(s, FailureKey(ip, cn), until) && Owned(s, ip, cn)
  }

  ghost predicate BlocksBounded(p: Policy, s: State, last: int) {
    forall k :: k in s.failures ==> s.failures[k].blockedUntil <= last + p.blockDuration
  }

  lemma BlocksBoundedStep(p: Policy, s: State, last: int, e: Event)
    requires BlocksBounded(p, s, last) && last <= e.at
    ensures BlocksBounded(p, Apply(p, s, e).0, e.at)
  {
    hide Allow, RecordFailure;
    forall k | k in Apply(p, s, e).0.failures
      ensures Apply(p, s, e).0.failures[k].blockedUntil <= e.at + p.blockDuration
    {
      RecordStep(p, s, e, k);
    }
  }

  lemma {:induction false} RunBlocksBounded(p: Policy, es: seq<Event>)
    requires Ordered(es)
    ensures BlocksBounded(p, Run(p, EMPTY, es), LastTime(es))
  {
    hide Apply;
    if es != [] {
      OrderedInit(es);
      var n := |es| - 1;
      RunBlocksBounded(p, es[..n]);
      BlocksBoundedStep(p, Run(p, EMPTY, es[..n]), LastTime(es[..n]), es[n]);
    }
  }

  lemma BlockStep(p: Policy, s: State, e: Event, ip: Address, cn: string, until: int)
    requires BlockedUntil(s, ip, cn, until) && e.at < until && !Lifts(e, ip, cn) && Fair(p, s, e)
    requires BlocksBounded(p, s, e.at)
    ensures BlockedUntil(Apply(p, s, e).0, ip, cn, until)
  {
    hide Allow, RecordFailure;
    var key := FailureKey(ip, cn);
    match e.op
    case AllowOp(i, c, victim) => AllowFailures(p, s, i, c, e.at, victim, key);
    case FailOp(i, c, victim) =>
      if FailureKey(i, c) == key {
        KeyInjective(i, c, ip, cn);
        FailOwn(p, s, i, c, e.at, victim);
      } else {
        FailFailures(p, s, i, c, e.at, victim, key);
      }
    case SuccessOp(i, c) =>
      if FailureKey(i, c) == key { KeyInjective(i, c, ip, cn); }
    case ReleaseOp(i, c) =>
      if FailureKey(i, c) == key { KeyInjective(i, c, ip, cn); }
    case ReleaseForCNOp(c) =>
  }

  lemma {:induction false} BlockLasts(p: Policy, before: seq<Event>, es: seq<Event>, ip: Address, cn: string,
                                      until: int)
    requires Ordered(before + es) && FairRun(p, EMPTY, before + es)
    requires BlockedUntil(Run(p, EMPTY, before), ip, cn, until)
    requires forall e :: e in es ==> e.at < until && !Lifts(e, ip, cn)
    ensures BlockedUntil(Run(p, EMPTY, before + es), ip, cn, until)
  {
    hide Apply, Fair, FairRun, BlockedUntil;
    if es == [] {
      assert before + es == before;
    } else {
      var n := |es| - 1;
      var all := before + es;
      assert all[..|all| - 1] == before + es[..n];
      OrderedInit(all);
      RunInit(p, EMPTY, all);
      var s := Run(p, EMPTY, before + es[..n]);
      BlockLasts(p, before, es[..n], ip, cn, until);
      RunBlocksBounded(p, before + es[..n]);
      BlockStep(p, s, es[n], ip, cn, until);
    }
  }

  lemma RefusedWhenBlocked(p: Policy, s: State, e: Event, until: int)
    requires e.op.AllowOp? && e.at < until && BlockedUntil(s, e.op.ip, e.op.cn, until)
    ensures !Apply(p, s, e).1
  {}

  /** A blocked pair is refused until its block ends, whatever traffic, clean-up or capacity
      eviction comes in between, unless its own login or a release of it lifts the block. */
  lemma BlockedIsRefused(p: Policy, before: seq<Event>, es: seq<Event>, e: Event, until: int)
    requires Ordered(before + es + [e]) && FairRun(p, EMPTY, before + es) && e.op.AllowOp? && e.at < until
    requires Blocking(Run(p, EMPTY, before), FailureKey(e.op.ip, e.op.cn), until)
    requires forall x :: x in es ==> !Lifts(x, e.op.ip, e.op.cn)
    ensures !Apply(p, Run(p, EMPTY, before + es), e).1
  {
    RunOwned(p, EMPTY, before, e.op.ip, e.op.cn);
    var all := before + es + [e];
    OrderedInit(all);
    assert all[..|all| - 1] == before + es;
    forall x | x in es
      ensures x.at < until
    {
      var i :| 0 <= i < |es| && es[i] == x;
      assert all[|before| + i] == x && all[|all| - 1] == e;
    }
    BlockLasts(p, before, es, e.op.ip, e.op.cn, until);
    RefusedWhenBlocked(p, Run(p, EMPTY, before + es), e, until);
  }

  // ---------- When failures block a pair ----------

  predicate FailureOf(e: Event, ip: Address, cn: string) {
    e.op.FailOp? && e.op.ip == ip && e.op.cn == cn
  }

  function FailureCount(es: seq<Event>, ip: Address, cn: string): nat {
    if es == [] then 0 else FailureCount(es[..|es| - 1], ip, cn) + if FailureOf(es[|es| - 1], ip, cn) then 1 else 0
  }

  /** A failure of this pair has a place: the pair has a record, or there is room for one, or some record may go. */
  predicate HasPlace(p: Policy, s: State, ip: string, cn: string, now: Instant) {
    var c := Cleanup(p, s, now);
    || FailureKey(ip, cn) in s.failures
    || |s.failures| < MaxKeys(p) || |c.failures| < MaxKeys(p) || !AllBlocked(c, now)
  }

  /** Before the event: the pair's failure has a place, and nobody else's needs the pair's. */
  predicate Tracks(p: Policy, s: State, e: Event, ip: Address, cn: string) {
    e.op.FailOp? ==>
      if e.op.ip == ip && e.op.cn == cn then HasPlace(p, s, ip, cn, e.at)
      else !(MayEvict(p, s, e.op.ip, e.op.cn, e.at) && e.op.victim == FailureKey(ip, cn))
  }

  /** Then a failure of the pair is recorded, and its record is dropped only once it has expired. */
  lemma TrackedKeeps(p: Policy, s: State, e: Event, ip: Address, cn: string)
    requires Tracks(p, s, e, ip, cn) && !Lifts(e, ip, cn) && Owned(s, ip, cn)
    ensures var key := FailureKey(ip, cn);
            var next := Apply(p, s, e).0;
            && (FailureOf(e, ip, cn) ==> key in next.failures)
            && (key in s.failures && key !in next.failures ==> FailuresExpired(p, s.failures[key], e.at))
  {
    hide Allow;
    var key := FailureKey(ip, cn);
    match e.op
    case AllowOp(i, c, victim) => AllowFailures(p, s, i, c, e.at, victim, key);
    case FailOp(i, c, victim) =>
      if i != ip || c != cn {
        if FailureKey(i, c) == key { KeyInjective(i, c, ip, cn); }
        FailFailures(p, s, i, c, e.at, victim, key);
      }
    case SuccessOp(i, c) => if FailureKey(i, c) == key { KeyInjective(i, c, ip, cn); }
    case ReleaseOp(i, c) => if FailureKey(i, c) == key { KeyInjective(i, c, ip, cn); }
    case ReleaseForCNOp(c) =>
  }

  ghost predicate Tracked(p: Policy, s: State, es: seq<Event>, ip: Address, cn: string) {
    forall i :: 0 <= i < |es| ==> Tracks(p, Run(p, s, es[..i]), es[i], ip, cn)
  }

  /** A stretch of events inside [t, t + failureWindow), none of which lifts the pair's block. */
  predicate Stretch(p: Policy, es: seq<Event>, ip: Address, cn: string, t: int) {
    forall e :: e in es ==> t <= e.at < t + p.failureWindow && !Lifts(e, ip, cn)
  }

  ghost predicate BlocksAt(p: Policy, s: State, es: seq<Event>, ip: Address, cn: string, i: int) {
    && 0 <= i < |es| && FailureOf(es[i], ip, cn)
    && Blocking(Run(p, s, es[..i + 1]), FailureKey(ip, cn), es[i].at + p.blockDuration)
  }

  ghost predicate SetsBlock(p: Policy, s: State, es: seq<Event>, ip: Address, cn: string) {
    exists i :: BlocksAt(p, s, es, ip, cn, i)
  }

  lemma PrefixSetsBlock(p: Policy, s: State, es: seq<Event>, ip: Address, cn: string, n: nat)
    requires n <= |es| && SetsBlock(p, s, es[..n], ip, cn)
    ensures SetsBlock(p, s, es, ip, cn)
  {
    var i :| BlocksAt(p, s, es[..n], ip, cn, i);
    assert es[..n][..i + 1] == es[..i + 1];
    assert BlocksAt(p, s, es, ip, cn, i);
  }

  ghost predicate FailuresSpread(p: Policy, s: State, key: string, t: int, failures: nat) {
    if key !in s.failures then failures < p.maxFailures || failures == 0
    else if s.failures[key].start < t then failures <= s.failures[key].count < p.maxFailures || failures == 0
    else s.failures[key].count < p.maxFailures && failures <= p.maxFailures - 1 + s.failures[key].count
  }

  /** What an event that is not the pair's own failure does to the pair's record: nothing but
      marking it seen, or dropping it. */
  lemma OthersKeep(p: Policy, s: State, e: Event, ip: Address, cn: string)
    requires !FailureOf(e, ip, cn)
    ensures var key := FailureKey(ip, cn);
            key in Apply(p, s, e).0.failures ==>
              && key in s.failures
              && Apply(p, s, e).0.failures[key] == s.failures[key].(seen := Apply(p, s, e).0.failures[key].seen)
  {
    hide Apply;
    RecordStep(p, s, e, FailureKey(ip, cn));
    if e.op.FailOp? && FailureKey(e.op.ip, e.op.cn) == FailureKey(ip, cn) { KeyInjective(e.op.ip, e.op.cn, ip, cn); }
  }

  lemma FailuresSpreadStep(p: Policy, s: State, ip: Address, cn: string, t: int, e: Event, failures: nat)
    requires var key := FailureKey(ip, cn); key in s.failures ==> s.failures[key].count < p.maxFailures
    requires FailuresSpread(p, s, FailureKey(ip, cn), t, failures) && p.maxFailures >= 1
    requires t <= e.at < t + p.failureWindow && Tracks(p, s, e, ip, cn) && !Lifts(e, ip, cn) && Owned(s, ip, cn)
    requires FailureOf(e, ip, cn) ==> !Blocking(Apply(p, s, e).0, FailureKey(ip, cn), e.at + p.blockDuration)
    ensures FailuresSpread(p, Apply(p, s, e).0, FailureKey(ip, cn), t, failures + if FailureOf(e, ip, cn) then 1 else 0)
  {
    hide Apply, Tracks, Lifts;
    TrackedKeeps(p, s, e, ip, cn);
    if FailureOf(e, ip, cn) {
      RecordStep(p, s, e, FailureKey(ip, cn));
    } else {
      OthersKeep(p, s, e, ip, cn);
    }
  }

  ghost predicate CountsBelow(p: Policy, s: State) {
    forall k :: k in s.failures ==> s.failures[k].count < p.maxFailures || s.failures[k].count == 0
  }

  lemma CountsBelowStep(p: Policy, s: State, e: Event)
    requires CountsBelow(p, s)
    ensures CountsBelow(p, Apply(p, s, e).0)
  {
    hide Apply;
    forall k | k in Apply(p, s, e).0.failures
      ensures Apply(p, s, e).0.failures[k].count < p.maxFailures || Apply(p, s, e).0.failures[k].count == 0
    {
      RecordStep(p, s, e, k);
    }
  }

  lemma {:induction false} RunCountsBelow(p: Policy, s: State, es: seq<Event>)
    requires CountsBelow(p, s)
    ensures CountsBelow(p, Run(p, s, es))
  {
    hide Apply;
    if es != [] {
      RunCountsBelow(p, s, es[..|es| - 1]);
      CountsBelowStep(p, Run(p, s, es[..|es| - 1]), es[|es| - 1]);
    }
  }

  lemma SpreadStart(p: Policy, s: State, key: string, t: int)
    requires CountsBelow(p, s) && p.maxFailures >= 1
    ensures FailuresSpread(p, s, key, t, 0)
  {}

  lemma PrefixTracked(p: Policy, s: State, es: seq<Event>, ip: Address, cn: string)
    requires es != [] && Tracked(p, s, es, ip, cn)
    ensures Tracked(p, s, es[..|es| - 1], ip, cn) && Tracks(p, Run(p, s, es[..|es| - 1]), es[|es| - 1], ip, cn)
  {
    hide Tracks, Run;
    assert forall i :: 0 <= i < |es| - 1 ==> es[..|es| - 1][..i] == es[..i];
  }

  lemma {:induction false} UnblockedSpread(p: Policy, s: State, es: seq<Event>, ip: Address, cn: string, t: int)
    requires CountsBelow(p, s) && p.maxFailures >= 1 && Owned(s, ip, cn)
    requires Stretch(p, es, ip, cn, t) && Tracked(p, s, es, ip, cn) && !SetsBlock(p, s, es, ip, cn)
    ensures FailuresSpread(p, Run(p, s, es), FailureKey(ip, cn), t, FailureCount(es, ip, cn))
  {
    hide Apply, FailuresSpread, Tracks, Tracked, FailureKey, Owned, Lifts;
    if es == [] {
      SpreadStart(p, s, FailureKey(ip, cn), t);
    } else {
      var n := |es| - 1;
      var r := Run(p, s, es[..n]);
      PrefixTracked(p, s, es, ip, cn);
      assert !SetsBlock(p, s, es[..n], ip, cn) by {
        if SetsBlock(p, s, es[..n], ip, cn) { PrefixSetsBlock(p, s, es, ip, cn, n); }
      }
      UnblockedSpread(p, s, es[..n], ip, cn, t);
      RunCountsBelow(p, s, es[..n]);
      RunOwned(p, s, es[..n], ip, cn);
      assert !BlocksAt(p, s, es, ip, cn, n) && es[..n + 1] == es;
      FailuresSpreadStep(p, r, ip, cn, t, es[n], FailureCount(es[..n], ip, cn));
    }
  }

  /** Whatever came before, 2 * maxFailures - 1 failures of a tracked pair inside one
      window-long stretch that does not lift its block set a block. */
  lemma FailuresBlock(p: Policy, before: seq<Event>, es: seq<Event>, ip: Address, cn: string, t: int)
    requires p.maxFailures >= 1 && Stretch(p, es, ip, cn, t) && Tracked(p, Run(p, EMPTY, before), es, ip, cn)
    requires FailureCount(es, ip, cn) >= 2 * p.maxFailures - 1
    ensures SetsBlock(p, Run(p, EMPTY, before), es, ip, cn)
  {
    var s := Run(p, EMPTY, before);
    RunCountsBelow(p, EMPTY, before);
    RunOwned(p, EMPTY, before, ip, cn);
    if !SetsBlock(p, s, es, ip, cn) {
      UnblockedSpread(p, s, es, ip, cn, t);
    }
  }

  // ---------- What an event does to one counter ----------

  predicate AllowFor(e: Event, ip: Address) {
    e.op.AllowOp? && e.op.ip == ip
  }

  /** What an event that is neither the address's own login nor its release does to its counter: keep it or drop it. */
  lemma OthersKeepCounter(p: Policy, s: State, e: Event, ip: Address)
    requires !AllowFor(e, ip) && !(e.op.ReleaseOp? && e.op.ip == ip)
    ensures ip in Apply(p, s, e).0.attempts ==> ip in s.attempts && Apply(p, s, e).0.attempts[ip] == s.attempts[ip]
  {
    hide Allow, RecordFailure;
    match e.op
    case AllowOp(i, c, victim) => AllowAttempts(p, s, i, c, e.at, victim, ip);
    case FailOp(i, c, victim) => FailAttempts(p, s, i, c, e.at, victim, ip);
    case _ =>
  }

  lemma MaxKeysPositive(p: Policy)
    ensures MaxKeys(p) > 0
  {}

  /** What the address's own login leaves: its counter one up if admitted, the whole map otherwise unhelped. */
  lemma OwnAllowCounts(p: Policy, s: State, e: Event, ip: Address)
    requires AllowFor(e, ip)
    ensures var c := CounterFor(p, s, ip, e.at);
            var (next, ok) := Apply(p, s, e);
            && ip in next.attempts
            && next.attempts[ip] == (if c.count < p.maxAttempts then c.(count := c.count + 1) else c)
            && (ok ==> c.count < p.maxAttempts)
  {
    hide Blocked, FailureKey, FailuresExpired, MaxKeys;
    MaxKeysPositive(p);
    var c := Cleanup(p, s, e.at);
    assert Cleanup(p, c, e.at) == c;
    if |c.attempts| >= MaxKeys(p) { assert c.attempts != map[]; }
  }

  // ---------- A success and a release hold ----------

  function AllowCount(es: seq<Event>, ip: Address): nat {
    if es == [] then 0 else AllowCount(es[..|es| - 1], ip) + if AllowFor(es[|es| - 1], ip) then 1 else 0
  }

  function Ceiling(p: Policy): nat {
    if p.maxAttempts < RELEASE_GRACE_ATTEMPTS then 0 else p.maxAttempts - RELEASE_GRACE_ATTEMPTS
  }

  /** The pair has at most so many failures and no block. */
  predicate Clear(s: State, key: string, failures: nat) {
    key in s.failures ==> s.failures[key].count <= failures && s.failures[key].blockedUntil <= ZERO
  }

  predicate FewFailures(p: Policy, es: seq<Event>, ip: Address, cn: string) {
    FailureCount(es, ip, cn) == 0 || FailureCount(es, ip, cn) < p.maxFailures
  }

  lemma ClearStep(p: Policy, s: State, e: Event, ip: Address, cn: string, failures: nat)
    requires Clear(s, FailureKey(ip, cn), failures) && (FailureOf(e, ip, cn) ==> failures + 1 < p.maxFailures)
    ensures Clear(Apply(p, s, e).0, FailureKey(ip, cn), failures + if FailureOf(e, ip, cn) then 1 else 0)
  {
    hide Apply;
    RecordStep(p, s, e, FailureKey(ip, cn));
    if e.op.FailOp? && FailureKey(e.op.ip, e.op.cn) == FailureKey(ip, cn) { KeyInjective(e.op.ip, e.op.cn, ip, cn); }
  }

  lemma {:induction false} RunClear(p: Policy, s: State, es: seq<Event>, ip: Address, cn: string)
    requires Clear(s, FailureKey(ip, cn), 0) && FewFailures(p, es, ip, cn)
    ensures Clear(Run(p, s, es), FailureKey(ip, cn), FailureCount(es, ip, cn))
  {
    hide Apply, Clear, FailureKey;
    if es != [] {
      var n := |es| - 1;
      RunClear(p, s, es[..n], ip, cn);
      ClearStep(p, Run(p, s, es[..n]), es[n], ip, cn, FailureCount(es[..n], ip, cn));
    }
  }

  /** Whatever follows, the pair is not blocked before it has failed maxFailures times again. */
  ghost predicate Forgiven(p: Policy, s: State, ip: Address, cn: string) {
    forall es: seq<Event> :: FewFailures(p, es, ip, cn) ==>
      forall now: Instant :: !Blocked(Run(p, s, es), FailureKey(ip, cn), now)
  }

  lemma ClearForgiven(p: Policy, s: State, ip: Address, cn: string)
    requires Clear(s, FailureKey(ip, cn), 0)
    ensures Forgiven(p, s, ip, cn)
  {
    forall es: seq<Event> | FewFailures(p, es, ip, cn)
      ensures forall now: Instant :: !Blocked(Run(p, s, es), FailureKey(ip, cn), now)
    {
      RunClear(p, s, es, ip, cn);
    }
  }

  /** An address with attempts left is let in unless the pair is blocked. */
  lemma AnswerWhenClear(p: Policy, s: State, e: Event, failures: nat)
    requires e.op.AllowOp? && Clear(s, FailureKey(e.op.ip, e.op.cn), failures)
    ensures Apply(p, s, e).1 <==> CounterFor(p, s, e.op.ip, e.at).count < p.maxAttempts
  {
    var c := Cleanup(p, s, e.at);
    assert Cleanup(p, c, e.at) == c;
    if |c.attempts| >= MaxKeys(p) { assert c.attempts != map[]; }
  }

  /** After a success, until the pair has failed maxFailures times again, a login of it is refused
      only because its address has used up its attempts. */
  lemma SuccessForgives(p: Policy, s: State, es: seq<Event>, e: Event)
    requires e.op.AllowOp? && FewFailures(p, es, e.op.ip, e.op.cn)
    ensures var later := Run(p, RecordSuccess(s, e.op.ip, e.op.cn), es);
            Apply(p, later, e).1 <==> CounterFor(p, later, e.op.ip, e.at).count < p.maxAttempts
  {
    RunClear(p, RecordSuccess(s, e.op.ip, e.op.cn), es, e.op.ip, e.op.cn);
    AnswerWhenClear(p, Run(p, RecordSuccess(s, e.op.ip, e.op.cn), es), e, FailureCount(es, e.op.ip, e.op.cn));
  }

  /** A released address's counter has used at most `allows` of its grace slots. */
  predicate Relaxed(p: Policy, s: State, ip: Address, allows: nat) {
    ip in s.attempts ==> s.attempts[ip].count <= Ceiling(p) + allows
  }

  lemma ReleaseRelaxes(p: Policy, s: State, ip: Address, cn: string, now: Instant)
    ensures Relaxed(p, Release(p, s, ip, cn, now), ip, 0) && Clear(Release(p, s, ip, cn, now), FailureKey(ip, cn), 0)
  {}

  lemma RelaxedStep(p: Policy, s: State, e: Event, ip: Address, allows: nat)
    requires Relaxed(p, s, ip, allows)
    ensures Relaxed(p, Apply(p, s, e).0, ip, allows + if AllowFor(e, ip) then 1 else 0)
  {
    hide Allow, RecordFailure;
    if AllowFor(e, ip) {
      OwnAllowCounts(p, s, e, ip);
    } else if !e.op.ReleaseOp? {
      OthersKeepCounter(p, s, e, ip);
    }
  }

  lemma {:induction false} RunRelaxed(p: Policy, s: State, es: seq<Event>, ip: Address)
    requires Relaxed(p, s, ip, 0)
    ensures Relaxed(p, Run(p, s, es), ip, AllowCount(es, ip))
  {
    hide Apply, Relaxed;
    if es != [] {
      var n := |es| - 1;
      RunRelaxed(p, s, es[..n], ip);
      RelaxedStep(p, Run(p, s, es[..n]), es[n], ip, AllowCount(es[..n], ip));
    }
  }

  /** After a release, the owner's next RELEASE_GRACE_ATTEMPTS logins get through, whatever other
      addresses do to the counters, as long as the pair stays under maxFailures failures. */
  lemma ReleaseAdmits(p: Policy, s: State, now: Instant, es: seq<Event>, e: Event)
    requires e.op.AllowOp?
    requires AllowCount(es, e.op.ip) < RELEASE_GRACE_ATTEMPTS && AllowCount(es, e.op.ip) < p.maxAttempts
    requires FewFailures(p, es, e.op.ip, e.op.cn)
    ensures Apply(p, Run(p, Release(p, s, e.op.ip, e.op.cn, now), es), e).1
  {
    var (ip, cn) := (e.op.ip, e.op.cn);
    var released := Release(p, s, ip, cn, now);
    ReleaseRelaxes(p, s, ip, cn, now);
    RunRelaxed(p, released, es, ip);
    RunClear(p, released, es, ip, cn);
    AnswerWhenClear(p, Run(p, released, es), e, FailureCount(es, ip, cn));
  }

  function MapAt<V>(m: map<string, V>, k: string): seq<V> {
    if k in m then [m[k]] else []
  }

  /** A release is for one pair: other addresses' counters and other pairs' records are untouched. */
  lemma ReleaseIsExact(p: Policy, s: State, ip: Address, cn: string, now: Instant, other: Address, otherCN: string)
    ensures other != ip ==> MapAt(Release(p, s, ip, cn, now).attempts, other) == MapAt(s.attempts, other)
    ensures (other, otherCN) != (ip, cn) ==>
              MapAt(Release(p, s, ip, cn, now).failures, FailureKey(other, otherCN)) ==
                MapAt(s.failures, FailureKey(other, otherCN))
  {
    if FailureKey(other, otherCN) == FailureKey(ip, cn) { KeyInjective(other, otherCN, ip, cn); }
  }
}
