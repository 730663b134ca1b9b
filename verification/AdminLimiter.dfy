/** The admin login limiter (backend/internal/admin/ratelimit.go): per-address attempt
    counters, per-pair failure counters with a block, and a gate for audit rows, all with
    lazy clean-up and a cap on the number of tracked keys. */
module AdminLimiter {
  import opened LimiterKeys

  /** An instant on the server's clock; 0 stands for Go's zero time, before every instant. */
  type Instant = t: int | 0 < t witness 1
  const ZERO := 0

  datatype Policy = Policy(
    attemptWindow: nat, maxAttempts: nat,
    failureWindow: nat, maxFailures: nat, blockDuration: nat,
    auditWindow: nat, maxKeys: nat)

  const SECOND := 1_000_000_000
  const DEFAULT_POLICY := Policy(60 * SECOND, 20, 600 * SECOND, 5, 600 * SECOND, 60 * SECOND, 10000)

  datatype Counter = Counter(start: int, count: nat)
  datatype Failures = Failures(start: int, count: nat, blockedUntil: int)
  datatype State = State(attempts: map<string, Counter>, failures: map<string, Failures>, audits: map<string, int>)

  const EMPTY := State(map[], map[], map[])

  function FailureKey(ip: string, user: string): string {
    ip + "|" + user
  }

  // ---------- The operations ----------

  predicate AttemptExpired(p: Policy, c: Counter, now: Instant) {
    now - c.start >= p.attemptWindow
  }

  predicate FailuresExpired(p: Policy, f: Failures, now: Instant) {
    now - f.start >= p.failureWindow && now > f.blockedUntil
  }

  predicate AuditExpired(p: Policy, last: int, now: Instant) {
    now - last >= p.auditWindow
  }

  function Cleanup(p: Policy, s: State, now: Instant): State {
    State(
      map k | k in s.attempts && !AttemptExpired(p, s.attempts[k], now) :: s.attempts[k],
      map k | k in s.failures && !FailuresExpired(p, s.failures[k], now) :: s.failures[k],
      map k | k in s.audits && !AuditExpired(p, s.audits[k], now) :: s.audits[k])
  }

  /** The counter an attempt at `now` uses: the address's own while its window is open, else a new one. */
  function CounterFor(p: Policy, s: State, ip: string, now: Instant): Counter {
    if ip in s.attempts && !AttemptExpired(p, s.attempts[ip], now) then s.attempts[ip] else Counter(now, 0)
  }

  predicate Blocked(s: State, key: string, now: Instant) {
    key in s.failures && now < s.failures[key].blockedUntil
  }

  predicate AttemptsFull(p: Policy, s: State, ip: string) {
    ip !in s.attempts && |s.attempts| >= p.maxKeys
  }

  /** allow, once the maps have been cleaned up. */
  function Admit(p: Policy, s: State, ip: string, user: string, now: Instant): (State, bool) {
    if AttemptsFull(p, s, ip) then (s, false)
    else
      var c := CounterFor(p, s, ip, now);
      if c.count >= p.maxAttempts then (s.(attempts := s.attempts[ip := c]), false)
      else (s.(attempts := s.attempts[ip := c.(count := c.count + 1)]), !Blocked(s, FailureKey(ip, user), now))
  }

  function Allow(p: Policy, s: State, ip: string, user: string, now: Instant): (State, bool) {
    Admit(p, Cleanup(p, s, now), ip, user, now)
  }

  predicate FailuresFull(p: Policy, s: State, key: string) {
    key !in s.failures && |s.failures| >= p.maxKeys
  }

  function FailuresFor(p: Policy, s: State, key: string, now: Instant): Failures {
    if key !in s.failures then Failures(now, 0, ZERO)
    else if now - s.failures[key].start >= p.failureWindow then s.failures[key].(start := now, count := 0)
    else s.failures[key]
  }

  /** One more failure; the maxFailures-th one inside a window sets the block. */
  function CountFailure(p: Policy, f: Failures, now: Instant): Failures {
    if f.count + 1 >= p.maxFailures then Failures(now, 0, now + p.blockDuration) else f.(count := f.count + 1)
  }

  function RecordFailure(p: Policy, s: State, ip: string, user: string, now: Instant): State {
    var key := FailureKey(ip, user);
    if FailuresFull(p, s, key) then s
    else s.(failures := s.failures[key := CountFailure(p, FailuresFor(p, s, key, now), now)])
  }

  function RecordSuccess(s: State, ip: string, user: string): State {
    var key := FailureKey(ip, user);
    s.(failures := s.failures - {key}, audits := s.audits - {key})
  }

  predicate AuditsFull(p: Policy, s: State, key: string) {
    key !in s.audits && |s.audits| >= p.maxKeys
  }

  /** shouldAuditRateLimited, once the maps have been cleaned up. */
  function Audit(p: Policy, s: State, ip: string, user: string, now: Instant): (State, bool) {
    var key := FailureKey(ip, user);
    if key in s.audits && !AuditExpired(p, s.audits[key], now) then (s, false)
    else if AuditsFull(p, s, key) then (s, false)
    else (s.(audits := s.audits[key := now]), true)
  }

  function ShouldAudit(p: Policy, s: State, ip: string, user: string, now: Instant): (State, bool) {
    Audit(p, Cleanup(p, s, now), ip, user, now)
  }

  // ---------- Runs ----------

  datatype Op =
    | AllowOp(ip: string, user: string)
    | FailOp(ip: string, user: string)
    | SuccessOp(ip: string, user: string)
    | AuditOp(ip: string, user: string)

  datatype Event = Event(op: Op, at: Instant)

  /** An operation's effect and its answer; operations without an answer say true. */
  function Apply(p: Policy, s: State, e: Event): (State, bool) {
    match e.op
    case AllowOp(ip, user) => Allow(p, s, ip, user, e.at)
    case FailOp(ip, user) => (RecordFailure(p, s, ip, user, e.at), true)
    case SuccessOp(ip, user) => (RecordSuccess(s, ip, user), true)
    case AuditOp(ip, user) => ShouldAudit(p, s, ip, user, e.at)
  }

  function Run(p: Policy, s: State, es: seq<Event>): State {
    if es == [] then s else Apply(p, Run(p, s, es[..|es| - 1]), es[|es| - 1]).0
  }

  /** Time never runs backwards. */
  predicate Ordered(es: seq<Event>) {
    forall i, j :: 0 <= i < j < |es| ==> es[i].at <= es[j].at
  }

  function LastTime(es: seq<Event>): int {
    if es == [] then ZERO else es[|es| - 1].at
  }

  lemma OrderedInit(es: seq<Event>)
    requires Ordered(es) && es != []
    ensures Ordered(es[..|es| - 1]) && LastTime(es[..|es| - 1]) <= es[|es| - 1].at
  {}

  // ---------- Against a limiter that never forgets ----------

  /** The reference: no clean-up and no cap. */
  function RefAllow(p: Policy, s: State, ip: string, user: string, now: Instant): (State, bool) {
    var c := CounterFor(p, s, ip, now);
    if c.count >= p.maxAttempts then (s.(attempts := s.attempts[ip := c]), false)
    else (s.(attempts := s.attempts[ip := c.(count := c.count + 1)]), !Blocked(s, FailureKey(ip, user), now))
  }

  function RefRecordFailure(p: Policy, s: State, ip: string, user: string, now: Instant): State {
    var key := FailureKey(ip, user);
    s.(failures := s.failures[key := CountFailure(p, FailuresFor(p, s, key, now), now)])
  }

  function RefShouldAudit(p: Policy, s: State, ip: string, user: string, now: Instant): (State, bool) {
    var key := FailureKey(ip, user);
    if key in s.audits && !AuditExpired(p, s.audits[key], now) then (s, false)
    else (s.(audits := s.audits[key := now]), true)
  }

  function RefApply(p: Policy, s: State, e: Event): (State, bool) {
    match e.op
    case AllowOp(ip, user) => RefAllow(p, s, ip, user, e.at)
    case FailOp(ip, user) => (RefRecordFailure(p, s, ip, user, e.at), true)
    case SuccessOp(ip, user) => (RecordSuccess(s, ip, user), true)
    case AuditOp(ip, user) => RefShouldAudit(p, s, ip, user, e.at)
  }

  function RefRun(p: Policy, s: State, es: seq<Event>): State {
    if es == [] then s else RefApply(p, RefRun(p, s, es[..|es| - 1]), es[|es| - 1]).0
  }

  /** A new key meets a full map. */
  predicate MeetsFullMap(p: Policy, s: State, e: Event) {
    match e.op
    case AllowOp(ip, user) => AttemptsFull(p, Cleanup(p, s, e.at), ip)
    case FailOp(ip, user) => FailuresFull(p, s, FailureKey(ip, user))
    case SuccessOp(ip, user) => false
    case AuditOp(ip, user) => AuditsFull(p, Cleanup(p, s, e.at), FailureKey(ip, user))
  }

  /** Two failure records that no operation at or after `now` can tell apart. */
  predicate SameFailures(f: Failures, g: Failures, now: int) {
    f.start == g.start && f.count == g.count
      && (f.blockedUntil == g.blockedUntil || (f.blockedUntil < now && g.blockedUntil < now))
  }

  predicate GoneFailures(p: Policy, f: Failures, now: int) {
    now - f.start >= p.failureWindow && f.blockedUntil < now
  }

  ghost predicate ForgetsCounters(p: Policy, a: map<string, Counter>, b: map<string, Counter>, now: int) {
    && (forall k :: k in a ==> k in b && a[k] == b[k])
    && (forall k :: k in b && k !in a ==> now - b[k].start >= p.attemptWindow)
  }

  ghost predicate ForgetsRecords(p: Policy, a: map<string, Failures>, b: map<string, Failures>, now: int) {
    && (forall k :: k in a ==> k in b && SameFailures(a[k], b[k], now))
    && (forall k :: k in b && k !in a ==> GoneFailures(p, b[k], now))
  }

  ghost predicate ForgetsAudits(p: Policy, a: map<string, int>, b: map<string, int>, now: int) {
    && (forall k :: k in a ==> k in b && a[k] == b[k])
    && (forall k :: k in b && k !in a ==> now - b[k] >= p.auditWindow)
  }

  /** The limiter's maps are the reference's with some entries gone, all of them dead. */
  ghost predicate Forgets(p: Policy, s: State, r: State, now: int) {
    && ForgetsCounters(p, s.attempts, r.attempts, now)
    && ForgetsRecords(p, s.failures, r.failures, now)
    && ForgetsAudits(p, s.audits, r.audits, now)
  }

  lemma CleanupForgets(p: Policy, s: State, r: State, last: int, now: Instant)
    requires Forgets(p, s, r, last) && last <= now
    ensures Forgets(p, Cleanup(p, s, now), r, now)
  {}

  lemma ForgetsLater(p: Policy, s: State, r: State, last: int, now: int)
    requires Forgets(p, s, r, last) && last <= now
    ensures Forgets(p, s, r, now)
  {}

  lemma CountersAgree(p: Policy, s: State, r: State, ip: string, now: Instant)
    requires ForgetsCounters(p, s.attempts, r.attempts, now)
    ensures CounterFor(p, s, ip, now) == CounterFor(p, r, ip, now)
  {}

  lemma PutForgets(p: Policy, a: map<string, Counter>, b: map<string, Counter>, ip: string, c: Counter, now: int)
    requires ForgetsCounters(p, a, b, now)
    ensures ForgetsCounters(p, a[ip := c], b[ip := c], now)
  {}

  lemma BlocksAgree(p: Policy, s: State, r: State, key: string, now: Instant)
    requires ForgetsRecords(p, s.failures, r.failures, now)
    ensures Blocked(s, key, now) == Blocked(r, key, now)
  {}

  lemma AdmitAgrees(p: Policy, s: State, r: State, ip: string, user: string, now: Instant)
    requires Forgets(p, s, r, now) && !AttemptsFull(p, s, ip)
    ensures Admit(p, s, ip, user, now).1 == RefAllow(p, r, ip, user, now).1
    ensures Forgets(p, Admit(p, s, ip, user, now).0, RefAllow(p, r, ip, user, now).0, now)
  {
    hide ForgetsCounters, ForgetsRecords, ForgetsAudits, CounterFor, Blocked, FailureKey;
    CountersAgree(p, s, r, ip, now);
    var c := CounterFor(p, s, ip, now);
    PutForgets(p, s.attempts, r.attempts, ip, c, now);
    PutForgets(p, s.attempts, r.attempts, ip, c.(count := c.count + 1), now);
    BlocksAgree(p, s, r, FailureKey(ip, user), now);
  }

  lemma FailureAgrees(p: Policy, s: State, r: State, ip: string, user: string, now: Instant)
    requires Forgets(p, s, r, now) && !FailuresFull(p, s, FailureKey(ip, user))
    ensures Forgets(p, RecordFailure(p, s, ip, user, now), RefRecordFailure(p, r, ip, user, now), now)
  {
    hide ForgetsCounters, ForgetsAudits, FailureKey;
    var key := FailureKey(ip, user);
    assert SameFailures(FailuresFor(p, s, key, now), FailuresFor(p, r, key, now), now);
  }

  lemma SuccessAgrees(p: Policy, s: State, r: State, ip: string, user: string, now: int)
    requires Forgets(p, s, r, now)
    ensures Forgets(p, RecordSuccess(s, ip, user), RecordSuccess(r, ip, user), now)
  {
    hide ForgetsCounters, FailureKey;
  }

  lemma AuditAgrees(p: Policy, s: State, r: State, ip: string, user: string, now: Instant)
    requires Forgets(p, s, r, now) && !AuditsFull(p, s, FailureKey(ip, user))
    ensures Audit(p, s, ip, user, now).1 == RefShouldAudit(p, r, ip, user, now).1
    ensures Forgets(p, Audit(p, s, ip, user, now).0, RefShouldAudit(p, r, ip, user, now).0, now)
  {
    hide ForgetsCounters, ForgetsRecords, FailureKey;
  }

  lemma StepAgrees(p: Policy, s: State, r: State, last: int, e: Event)
    requires Forgets(p, s, r, last) && last <= e.at && !MeetsFullMap(p, s, e)
    ensures Apply(p, s, e).1 == RefApply(p, r, e).1
    ensures Forgets(p, Apply(p, s, e).0, RefApply(p, r, e).0, e.at)
  {
    hide Forgets, Cleanup, Admit, Audit, RefAllow, RefRecordFailure, RefShouldAudit, RecordFailure, RecordSuccess;
    ForgetsLater(p, s, r, last, e.at);
    CleanupForgets(p, s, r, last, e.at);
    match e.op
    case AllowOp(ip, user) => AdmitAgrees(p, Cleanup(p, s, e.at), r, ip, user, e.at);
    case FailOp(ip, user) => FailureAgrees(p, s, r, ip, user, e.at);
    case SuccessOp(ip, user) => SuccessAgrees(p, s, r, ip, user, e.at);
    case AuditOp(ip, user) => AuditAgrees(p, Cleanup(p, s, e.at), r, ip, user, e.at);
  }

  /** No event of the run brings a new key to a full map. */
  ghost predicate NeverFull(p: Policy, s: State, es: seq<Event>) {
    forall i :: 0 <= i < |es| ==> !MeetsFullMap(p, Run(p, s, es[..i]), es[i])
  }

  lemma {:induction false} RunForgets(p: Policy, es: seq<Event>)
    requires Ordered(es) && NeverFull(p, EMPTY, es)
    ensures Forgets(p, Run(p, EMPTY, es), RefRun(p, EMPTY, es), LastTime(es))
  {
    if es != [] {
      var n := |es| - 1;
      OrderedInit(es);
      assert forall i :: 0 <= i < n ==> es[..n][i] == es[i] && es[..n][..i] == es[..i];
      RunForgets(p, es[..n]);
      StepAgrees(p, Run(p, EMPTY, es[..n]), RefRun(p, EMPTY, es[..n]), LastTime(es[..n]), es[n]);
    }
  }

  /** Lazy clean-up is invisible: as long as no new key meets a full map, every answer is
      the one of the limiter that never deletes anything. */
  lemma AnswersLikeReference(p: Policy, es: seq<Event>, e: Event)
    requires Ordered(es + [e]) && NeverFull(p, EMPTY, es + [e])
    ensures Apply(p, Run(p, EMPTY, es), e).1 == RefApply(p, RefRun(p, EMPTY, es), e).1
  {
    var all := es + [e];
    assert all[..|es|] == es;
    OrderedInit(all);
    assert forall i :: 0 <= i < |es| ==> all[i] == es[i] && all[..i] == es[..i];
    RunForgets(p, es);
    assert !MeetsFullMap(p, Run(p, EMPTY, all[..|es|]), all[|es|]);
    StepAgrees(p, Run(p, EMPTY, es), RefRun(p, EMPTY, es), LastTime(es), e);
  }

  // ---------- The maps stay bounded ----------

  predicate Bounded(p: Policy, s: State) {
    |s.attempts| <= p.maxKeys && |s.failures| <= p.maxKeys && |s.audits| <= p.maxKeys
  }

  lemma CleanupBounded(p: Policy, s: State, now: Instant)
    requires Bounded(p, s)
    ensures Bounded(p, Cleanup(p, s, now))
  {
    var c := Cleanup(p, s, now);
    SubmapSize(c.attempts, s.attempts);
    SubmapSize(c.failures, s.failures);
    SubmapSize(c.audits, s.audits);
  }

  lemma AdmitBounded(p: Policy, s: State, ip: string, user: string, now: Instant)
    requires Bounded(p, s)
    ensures Bounded(p, Admit(p, s, ip, user, now).0)
  {
    var c := CounterFor(p, s, ip, now);
    PutSize(s.attempts, ip, c);
    PutSize(s.attempts, ip, c.(count := c.count + 1));
  }

  lemma StepBounded(p: Policy, s: State, e: Event)
    requires Bounded(p, s)
    ensures Bounded(p, Apply(p, s, e).0)
  {
    hide Admit, CounterFor, Cleanup;
    CleanupBounded(p, s, e.at);
    match e.op
    case AllowOp(ip, user) => AdmitBounded(p, Cleanup(p, s, e.at), ip, user, e.at);
    case FailOp(ip, user) =>
      var key := FailureKey(ip, user);
      PutSize(s.failures, key, CountFailure(p, FailuresFor(p, s, key, e.at), e.at));
    case SuccessOp(ip, user) =>
      SubmapSize(s.failures - {FailureKey(ip, user)}, s.failures);
      SubmapSize(s.audits - {FailureKey(ip, user)}, s.audits);
    case AuditOp(ip, user) => PutSize(Cleanup(p, s, e.at).audits, FailureKey(ip, user), e.at);
  }

  /** None of the three maps ever holds more keys than the cap. */
  lemma {:induction false} RunBounded(p: Policy, es: seq<Event>)
    ensures Bounded(p, Run(p, EMPTY, es))
  {
    hide Apply;
    if es != [] {
      RunBounded(p, es[..|es| - 1]);
      StepBounded(p, Run(p, EMPTY, es[..|es| - 1]), es[|es| - 1]);
    }
  }

  // ---------- How many attempts an address gets ----------

  /** The attempts of an address that the run admits at times in [t, t + attemptWindow). */
  function Admitted(p: Policy, es: seq<Event>, ip: string, t: int): nat {
    if es == [] then 0
    else
      var n := |es| - 1;
      var e := es[n];
      Admitted(p, es[..n], ip, t) +
      if e.op.AllowOp? && e.op.ip == ip && t <= e.at < t + p.attemptWindow && Apply(p, Run(p, EMPTY, es[..n]), e).1
      then 1 else 0
  }

  /** How the admissions since t are spread: at most one full window before the current
      one, plus the current window's own count. */
  ghost predicate SpreadOver(p: Policy, s: State, ip: string, t: int, last: int, admitted: nat) {
    if last < t then admitted == 0
    else if ip !in s.attempts then admitted <= p.maxAttempts
      || (admitted <= 2 * p.maxAttempts && last >= t + p.attemptWindow)
    else if s.attempts[ip].start < t then admitted <= s.attempts[ip].count
    else if s.attempts[ip].start < t + p.attemptWindow then admitted <= p.maxAttempts + s.attempts[ip].count
    else admitted <= 2 * p.maxAttempts
  }

  ghost predicate CountsBounded(p: Policy, s: State, last: int) {
    forall k :: k in s.attempts ==> s.attempts[k].count <= p.maxAttempts && s.attempts[k].start <= last
  }

  /** Time passes, and counters whose window is over may be dropped. */
  lemma SpreadCleanup(p: Policy, s: State, ip: string, t: int, last: int, now: Instant, admitted: nat)
    requires CountsBounded(p, s, last) && SpreadOver(p, s, ip, t, last, admitted) && last <= now
    ensures CountsBounded(p, s, now) && SpreadOver(p, s, ip, t, now, admitted)
    ensures CountsBounded(p, Cleanup(p, s, now), now) && SpreadOver(p, Cleanup(p, s, now), ip, t, now, admitted)
  {}

  lemma SpreadAdmit(p: Policy, s: State, ip: string, t: int, now: Instant, i: string, user: string, admitted: nat)
    requires CountsBounded(p, s, now) && SpreadOver(p, s, ip, t, now, admitted)
    requires ip in s.attempts ==> !AttemptExpired(p, s.attempts[ip], now)
    ensures var (next, ok) := Admit(p, s, i, user, now);
            && CountsBounded(p, next, now)
            && SpreadOver(p, next, ip, t, now,
                          admitted + if i == ip && t <= now < t + p.attemptWindow && ok then 1 else 0)
  {
    hide Blocked, FailureKey;
  }

  lemma SpreadStep(p: Policy, s: State, ip: string, t: int, last: int, e: Event, admitted: nat)
    requires CountsBounded(p, s, last) && SpreadOver(p, s, ip, t, last, admitted) && last <= e.at
    ensures var (next, ok) := Apply(p, s, e);
            var more := if e.op.AllowOp? && e.op.ip == ip && t <= e.at < t + p.attemptWindow && ok then 1 else 0;
            CountsBounded(p, next, e.at) && SpreadOver(p, next, ip, t, e.at, admitted + more)
  {
    SpreadCleanup(p, s, ip, t, last, e.at, admitted);
    hide Admit, CounterFor;
    if e.op.AllowOp? {
      SpreadAdmit(p, Cleanup(p, s, e.at), ip, t, e.at, e.op.ip, e.op.user, admitted);
    }
  }

  lemma {:induction false} AdmittedSpread(p: Policy, es: seq<Event>, ip: string, t: int)
    requires Ordered(es)
    ensures CountsBounded(p, Run(p, EMPTY, es), LastTime(es))
    ensures t > ZERO ==> SpreadOver(p, Run(p, EMPTY, es), ip, t, LastTime(es), Admitted(p, es, ip, t))
  {
    if es != [] {
      var n := |es| - 1;
      OrderedInit(es);
      AdmittedSpread(p, es[..n], ip, t);
      if t > ZERO {
        SpreadStep(p, Run(p, EMPTY, es[..n]), ip, t, LastTime(es[..n]), es[n], Admitted(p, es[..n], ip, t));
      } else {
        SpreadStep(p, Run(p, EMPTY, es[..n]), ip, es[n].at + 1, LastTime(es[..n]), es[n], 0);
      }
    }
  }

  /** In any half-open interval as long as the window, an address is admitted at most twice
      the limit, whatever the run. */
  lemma AttemptBound(p: Policy, es: seq<Event>, ip: string, t: int)
    requires Ordered(es) && t > ZERO
    ensures Admitted(p, es, ip, t) <= 2 * p.maxAttempts
  {
    AdmittedSpread(p, es, ip, t);
  }

  // ---------- When failures block a pair ----------

  predicate FailsPair(e: Event, key: string) {
    e.op.FailOp? && FailureKey(e.op.ip, e.op.user) == key
  }

  predicate ClearsPair(e: Event, key: string) {
    e.op.SuccessOp? && FailureKey(e.op.ip, e.op.user) == key
  }

  predicate BlockedUntil(s: State, key: string, until: int) {
    key in s.failures && s.failures[key].blockedUntil >= until
  }

  function PairFailures(es: seq<Event>, key: string): nat {
    if es == [] then 0 else PairFailures(es[..|es| - 1], key) + if FailsPair(es[|es| - 1], key) then 1 else 0
  }

  /** A stretch of events inside [t, t + failureWindow), no success of the pair among them. */
  predicate Stretch(p: Policy, es: seq<Event>, key: string, t: int) {
    forall e :: e in es ==> t <= e.at < t + p.failureWindow && !ClearsPair(e, key)
  }

  ghost predicate Tracked(p: Policy, s: State, es: seq<Event>, key: string) {
    forall i :: 0 <= i < |es| ==> FailsPair(es[i], key) ==> !FailuresFull(p, Run(p, s, es[..i]), key)
  }

  /** Event i is a failure of the pair and sets a block of the full length. */
  ghost predicate BlocksAt(p: Policy, s: State, es: seq<Event>, key: string, i: int) {
    0 <= i < |es| && FailsPair(es[i], key) && BlockedUntil(Run(p, s, es[..i + 1]), key, es[i].at + p.blockDuration)
  }

  ghost predicate SetsBlock(p: Policy, s: State, es: seq<Event>, key: string) {
    exists i :: BlocksAt(p, s, es, key, i)
  }

  lemma PrefixSetsBlock(p: Policy, s: State, es: seq<Event>, key: string, n: nat)
    requires n <= |es| && SetsBlock(p, s, es[..n], key)
    ensures SetsBlock(p, s, es, key)
  {
    var i :| BlocksAt(p, s, es[..n], key, i);
    assert es[..n][..i + 1] == es[..i + 1];
    assert BlocksAt(p, s, es, key, i);
  }

  /** How the stretch's failures are spread while none has set a block: at most
      maxFailures - 1 in a window opened before t, plus the count of the current one. */
  ghost predicate FailuresSpread(p: Policy, s: State, key: string, t: int, failures: nat) {
    if key !in s.failures then failures < p.maxFailures || failures == 0
    else if s.failures[key].start < t then failures <= s.failures[key].count < p.maxFailures || failures == 0
    else s.failures[key].count < p.maxFailures && failures <= p.maxFailures - 1 + s.failures[key].count
  }

  lemma FailuresSpreadStep(p: Policy, s: State, key: string, t: int, e: Event, failures: nat)
    requires key in s.failures ==> s.failures[key].count < p.maxFailures
    requires FailuresSpread(p, s, key, t, failures)
    requires t <= e.at < t + p.failureWindow && !ClearsPair(e, key)
    requires FailsPair(e, key) ==>
               !FailuresFull(p, s, key) && !BlockedUntil(Apply(p, s, e).0, key, e.at + p.blockDuration)
    ensures FailuresSpread(p, Apply(p, s, e).0, key, t, failures + if FailsPair(e, key) then 1 else 0)
  {}

  ghost predicate CountsBelow(p: Policy, s: State) {
    forall k :: k in s.failures ==> s.failures[k].count < p.maxFailures || s.failures[k].count == 0
  }

  lemma CountsBelowStep(p: Policy, s: State, e: Event)
    requires CountsBelow(p, s)
    ensures CountsBelow(p, Apply(p, s, e).0)
  {}

  lemma {:induction false} RunCountsBelow(p: Policy, s: State, es: seq<Event>)
    requires CountsBelow(p, s)
    ensures CountsBelow(p, Run(p, s, es))
  {
    hide Apply;
    if es != [] {
      RunCountsBelow(p, s, es[..|es| - 1]);
      CountsBelowStep(p, Run(p, s, es[..|es| - 1]), es[|es| - 1]);
    }
  }

  lemma SpreadStart(p: Policy, s: State, key: string, t: int)
    requires CountsBelow(p, s) && p.maxFailures >= 1
    ensures FailuresSpread(p, s, key, t, 0)
  {}

  lemma {:induction false} UnblockedSpread(p: Policy, s: State, es: seq<Event>, key: string, t: int)
    requires CountsBelow(p, s) && p.maxFailures >= 1
    requires Stretch(p, es, key, t) && Tracked(p, s, es, key) && !SetsBlock(p, s, es, key)
    ensures FailuresSpread(p, Run(p, s, es), key, t, PairFailures(es, key))
  {
    hide Apply, FailuresSpread, FailuresFull;
    if es == [] {
      SpreadStart(p, s, key, t);
    } else {
      var n := |es| - 1;
      var r := Run(p, s, es[..n]);
      assert Tracked(p, s, es[..n], key) by { assert forall i :: 0 <= i < n ==> es[..n][..i] == es[..i]; }
      assert !SetsBlock(p, s, es[..n], key) by {
        if SetsBlock(p, s, es[..n], key) { PrefixSetsBlock(p, s, es, key, n); }
      }
      UnblockedSpread(p, s, es[..n], key, t);
      RunCountsBelow(p, s, es[..n]);
      assert !BlocksAt(p, s, es, key, n) && es[..n + 1] == es;
      FailuresSpreadStep(p, r, key, t, es[n], PairFailures(es[..n], key));
    }
  }

  /** Whatever came before, 2 * maxFailures - 1 failures of a tracked pair inside one
      window-long stretch without a success set a block. */
  lemma FailuresBlock(p: Policy, before: seq<Event>, es: seq<Event>, key: string, t: int)
    requires p.maxFailures >= 1 && Stretch(p, es, key, t) && Tracked(p, Run(p, EMPTY, before), es, key)
    requires PairFailures(es, key) >= 2 * p.maxFailures - 1
    ensures SetsBlock(p, Run(p, EMPTY, before), es, key)
  {
    var s := Run(p, EMPTY, before);
    RunCountsBelow(p, EMPTY, before);
    if !SetsBlock(p, s, es, key) {
      UnblockedSpread(p, s, es, key, t);
    }
  }

  // ---------- What a success forgives ----------

  /** The pair has at most so many failures and no block. */
  predicate Clear(s: State, key: string, failures: nat) {
    key in s.failures ==> s.failures[key].count <= failures && s.failures[key].blockedUntil <= ZERO
  }

  predicate FewFailures(p: Policy, es: seq<Event>, key: string) {
    PairFailures(es, key) == 0 || PairFailures(es, key) < p.maxFailures
  }

  lemma ClearStep(p: Policy, s: State, e: Event, key: string, failures: nat)
    requires Clear(s, key, failures) && (FailsPair(e, key) ==> failures + 1 < p.maxFailures)
    ensures Clear(Apply(p, s, e).0, key, failures + if FailsPair(e, key) then 1 else 0)
  {}

  lemma {:induction false} RunClear(p: Policy, s: State, es: seq<Event>, key: string)
    requires Clear(s, key, 0) && FewFailures(p, es, key)
    ensures Clear(Run(p, s, es), key, PairFailures(es, key))
  {
    hide Apply, Clear;
    if es != [] {
      var n := |es| - 1;
      RunClear(p, s, es[..n], key);
      ClearStep(p, Run(p, s, es[..n]), es[n], key, PairFailures(es[..n], key));
    }
  }

  /** Whatever follows, the pair is not blocked before it has failed maxFailures times again. */
  ghost predicate Forgiven(p: Policy, s: State, key: string) {
    forall es: seq<Event> :: FewFailures(p, es, key) ==> forall now: Instant :: !Blocked(Run(p, s, es), key, now)
  }

  lemma ClearForgiven(p: Policy, s: State, key: string)
    requires Clear(s, key, 0)
    ensures Forgiven(p, s, key)
  {
    forall es: seq<Event> | FewFailures(p, es, key)
      ensures forall now: Instant :: !Blocked(Run(p, s, es), key, now)
    {
      RunClear(p, s, es, key);
    }
  }

  /** After a success, until the pair has failed maxFailures times again, a login of it is refused
      only for its address's sake: because the map is full or the address has used up its attempts. */
  lemma SuccessForgives(p: Policy, s: State, es: seq<Event>, e: Event)
    requires e.op.AllowOp? && FewFailures(p, es, FailureKey(e.op.ip, e.op.user))
    ensures var later := Cleanup(p, Run(p, RecordSuccess(s, e.op.ip, e.op.user), es), e.at);
            Apply(p, Run(p, RecordSuccess(s, e.op.ip, e.op.user), es), e).1 <==>
              !AttemptsFull(p, later, e.op.ip) && CounterFor(p, later, e.op.ip, e.at).count < p.maxAttempts
  {
    var key := FailureKey(e.op.ip, e.op.user);
    RunClear(p, RecordSuccess(s, e.op.ip, e.op.user), es, key);
  }

  lemma BlockStep(p: Policy, s: State, e: Event, key: string, until: int)
    requires BlockedUntil(s, key, until) && e.at < until && !ClearsPair(e, key)
    requires s.failures[key].blockedUntil <= e.at + p.blockDuration
    ensures BlockedUntil(Apply(p, s, e).0, key, until)
  {}

  /** No block reaches further than blockDuration past the last event. */
  ghost predicate BlocksBounded(p: Policy, s: State, last: int) {
    forall k :: k in s.failures ==> s.failures[k].blockedUntil <= last + p.blockDuration
  }

  lemma BlocksBoundedStep(p: Policy, s: State, last: int, e: Event)
    requires BlocksBounded(p, s, last) && last <= e.at
    ensures BlocksBounded(p, Apply(p, s, e).0, e.at)
  {}

  lemma {:induction false} RunBlocksBounded(p: Policy, es: seq<Event>)
    requires Ordered(es)
    ensures BlocksBounded(p, Run(p, EMPTY, es), LastTime(es))
  {
    hide Apply;
    if es != [] {
      OrderedInit(es);
      var n := |es| - 1;
      RunBlocksBounded(p, es[..n]);
      BlocksBoundedStep(p, Run(p, EMPTY, es[..n]), LastTime(es[..n]), es[n]);
    }
  }

  lemma {:induction false} BlockLasts(p: Policy, before: seq<Event>, es: seq<Event>, key: string, until: int)
    requires Ordered(before + es) && BlockedUntil(Run(p, EMPTY, before), key, until)
    requires forall i :: 0 <= i < |es| ==> es[i].at < until && !ClearsPair(es[i], key)
    ensures BlockedUntil(Run(p, EMPTY, before + es), key, until)
  {
    hide Apply;
    if es == [] {
      assert before + es == before;
    } else {
      var n := |es| - 1;
      var all := before + es;
      assert all[..|all| - 1] == before + es[..n];
      OrderedInit(all);
      var s := Run(p, EMPTY, before + es[..n]);
      assert BlockedUntil(s, key, until) by { BlockLasts(p, before, es[..n], key, until); }
      assert s.failures[key].blockedUntil <= es[n].at + p.blockDuration by { RunBlocksBounded(p, before + es[..n]); }
      BlockStep(p, s, es[n], key, until);
    }
  }

  /** A blocked pair is refused until its block ends, whatever else happens, unless it succeeds first. */
  lemma BlockedIsRefused(p: Policy, before: seq<Event>, es: seq<Event>, e: Event, until: int)
    requires Ordered(before + es + [e]) && e.op.AllowOp? && e.at < until
    requires BlockedUntil(Run(p, EMPTY, before), FailureKey(e.op.ip, e.op.user), until)
    requires forall i :: 0 <= i < |es| ==> !ClearsPair(es[i], FailureKey(e.op.ip, e.op.user))
    ensures !Apply(p, Run(p, EMPTY, before + es), e).1
  {
    var all := before + es + [e];
    OrderedInit(all);
    assert all[..|all| - 1] == before + es;
    forall i | 0 <= i < |es|
      ensures es[i].at < until
    {
      assert all[|before| + i] == es[i];
    }
    BlockLasts(p, before, es, FailureKey(e.op.ip, e.op.user), until);
  }

  // ---------- How often a refused pair is audited ----------

  predicate AuditedSince(s: State, key: string, since: int) {
    key in s.audits && s.audits[key] >= since
  }

  lemma AuditStep(p: Policy, s: State, e: Event, key: string, since: int)
    requires AuditedSince(s, key, since) && since <= e.at < since + p.auditWindow && !ClearsPair(e, key)
    ensures AuditedSince(Apply(p, s, e).0, key, since)
  {}

  lemma {:induction false} AuditRemembered(p: Policy, s: State, es: seq<Event>, key: string, since: int)
    requires AuditedSince(s, key, since)
    requires forall e :: e in es ==> since <= e.at < since + p.auditWindow && !ClearsPair(e, key)
    ensures AuditedSince(Run(p, s, es), key, since)
  {
    hide Apply;
    if es != [] {
      var n := |es| - 1;
      AuditRemembered(p, s, es[..n], key, since);
      AuditStep(p, Run(p, s, es[..n]), es[n], key, since);
    }
  }

  /** Once a pair has been audited, it is not audited again within the audit window unless it succeeds in between. */
  lemma AuditsApart(p: Policy, s: State, first: Event, es: seq<Event>, second: Event)
    requires first.op.AuditOp? && second.op == first.op && Apply(p, s, first).1
    requires forall e :: e in es ==>
               first.at <= e.at <= second.at && !ClearsPair(e, FailureKey(first.op.ip, first.op.user))
    requires first.at <= second.at && Apply(p, Run(p, Apply(p, s, first).0, es), second).1
    ensures second.at - first.at >= p.auditWindow
  {
    var key := FailureKey(first.op.ip, first.op.user);
    if second.at - first.at < p.auditWindow {
      AuditRemembered(p, Apply(p, s, first).0, es, key, first.at);
    }
  }
}
