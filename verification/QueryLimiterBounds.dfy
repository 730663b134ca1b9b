/** What the query limiter's limit on an address's logins promises, and exactly how many addresses it
    promises it for: with at most as many as the map has places it holds over every run; with one
    more, eviction lets an address log in any number of times. */
module QueryLimiterBounds {
  import opened LimiterKeys
  import opened QueryLimiter

  // ---------- How many attempts an address gets ----------

  /** The attempts of an address that the run admits at times in [t, t + attemptWindow). */
  function Admitted(p: Policy, es: seq<Event>, ip: Address, t: int): nat {
    if es == [] then 0
    else
      var n := |es| - 1;
      Admitted(p, es[..n], ip, t) + if AdmittedNow(p, Run(p, EMPTY, es[..n]), es[n], ip, t) then 1 else 0
  }

  predicate AdmittedNow(p: Policy, s: State, e: Event, ip: Address, t: int) {
    AllowFor(e, ip) && t <= e.at < t + p.attemptWindow && Apply(p, s, e).1
  }

  /** The releases of an address in [t, t + attemptWindow). */
  function Releases(p: Policy, es: seq<Event>, ip: Address, t: int): nat {
    if es == [] then 0
    else Releases(p, es[..|es| - 1], ip, t) + if ReleasedNow(p, es[|es| - 1], ip, t) then 1 else 0
  }

  predicate ReleasedNow(p: Policy, e: Event, ip: Address, t: int) {
    e.op.ReleaseOp? && e.op.ip == ip && t <= e.at < t + p.attemptWindow
  }

  /** Before the event: the map is full of open windows, a newcomer asks for a place, and the victim is this address. */
  predicate Evicts(p: Policy, s: State, e: Event, ip: Address) {
    var c := Cleanup(p, s, e.at);
    e.op.AllowOp? && e.op.ip !in c.attempts && |c.attempts| >= MaxKeys(p) && e.op.victim == ip
  }

  ghost predicate NeverEvicted(p: Policy, es: seq<Event>, ip: Address) {
    forall i :: 0 <= i < |es| ==> !Evicts(p, Run(p, EMPTY, es[..i]), es[i], ip)
  }

  /** Nothing else drops a counter whose window is open. */
  lemma OnlyEvictionDrops(p: Policy, s: State, e: Event, ip: Address)
    requires !Evicts(p, s, e, ip) && ip in s.attempts && ip !in Apply(p, s, e).0.attempts
    ensures AttemptExpired(p, s.attempts[ip], e.at)
  {
    match e.op
    case AllowOp(i, cn, victim) =>
      var c := Cleanup(p, s, e.at);
      assert Cleanup(p, c, e.at) == c;
    case FailOp(i, cn, victim) => FailAttempts(p, s, i, cn, e.at, victim, ip);
    case _ =>
  }

  /** How the admissions since t are spread, with `grace` slots given back by releases. */
  ghost predicate SpreadOver(p: Policy, s: State, ip: Address, t: int, last: int, admitted: nat, grace: nat) {
    var limit := p.maxAttempts + grace;
    if last < t then admitted == 0
    else if ip !in s.attempts then admitted <= limit
      || (admitted <= p.maxAttempts + limit && last >= t + p.attemptWindow)
    else if s.attempts[ip].start < t then admitted <= s.attempts[ip].count + grace
    else if s.attempts[ip].start < t + p.attemptWindow && last < t + p.attemptWindow
      then admitted <= limit + s.attempts[ip].count
    else admitted <= p.maxAttempts + limit
  }

  predicate CountBounded(p: Policy, s: State, ip: Address, last: int) {
    ip in s.attempts ==> s.attempts[ip].count <= p.maxAttempts && s.attempts[ip].start <= last
  }

  lemma SpreadStep(p: Policy, s: State, ip: Address, t: int, last: int, e: Event, admitted: nat, grace: nat)
    requires CountBounded(p, s, ip, last) && last <= e.at && !Evicts(p, s, e, ip)
    requires SpreadOver(p, s, ip, t, last, admitted, grace)
    ensures CountBounded(p, Apply(p, s, e).0, ip, e.at)
    ensures SpreadOver(p, Apply(p, s, e).0, ip, t, e.at, admitted + if AdmittedNow(p, s, e, ip, t) then 1 else 0,
                       grace + if ReleasedNow(p, e, ip, t) then RELEASE_GRACE_ATTEMPTS else 0)
  {
    if AllowFor(e, ip) {
      hide Apply;
      OwnAllowCounts(p, s, e, ip);
    } else if e.op.ReleaseOp? && e.op.ip == ip {
    } else {
      hide Apply, Evicts;
      OthersKeepCounter(p, s, e, ip);
      if ip in s.attempts && ip !in Apply(p, s, e).0.attempts { OnlyEvictionDrops(p, s, e, ip); }
    }
  }

  lemma SpreadEmpty(p: Policy, ip: Address, t: int)
    requires t > ZERO
    ensures SpreadOver(p, EMPTY, ip, t, ZERO, 0, 0)
  {}

  lemma {:induction false} AdmittedSpread(p: Policy, es: seq<Event>, ip: Address, t: int)
    requires Ordered(es) && NeverEvicted(p, es, ip) && t > ZERO
    ensures CountBounded(p, Run(p, EMPTY, es), ip, LastTime(es))
    ensures SpreadOver(p, Run(p, EMPTY, es), ip, t, LastTime(es), Admitted(p, es, ip, t),
                       RELEASE_GRACE_ATTEMPTS * Releases(p, es, ip, t))
  {
    hide Apply, SpreadOver, Evicts;
    if es == [] {
      SpreadEmpty(p, ip, t);
    } else {
      var n := |es| - 1;
      OrderedInit(es);
      assert NeverEvicted(p, es[..n], ip) by { assert forall i :: 0 <= i < n ==> es[..n][..i] == es[..i]; }
      AdmittedSpread(p, es[..n], ip, t);
      SpreadStep(p, Run(p, EMPTY, es[..n]), ip, t, LastTime(es[..n]), es[n], Admitted(p, es[..n], ip, t),
                 RELEASE_GRACE_ATTEMPTS * Releases(p, es[..n], ip, t));
    }
  }

  /** An address whose counter is never evicted while its window is open is admitted at most twice
      the limit in any half-open window, plus the grace of each release in it. */
  lemma AttemptBound(p: Policy, es: seq<Event>, ip: Address, t: int)
    requires Ordered(es) && NeverEvicted(p, es, ip) && t > ZERO
    ensures Admitted(p, es, ip, t) <= 2 * p.maxAttempts + RELEASE_GRACE_ATTEMPTS * Releases(p, es, ip, t)
  {
    AdmittedSpread(p, es, ip, t);
  }

  // ---------- As many addresses as places ----------

  /** The addresses that log in during a run. */
  function AddressesOf(es: seq<Event>): set<string> {
    set i | 0 <= i < |es| && es[i].op.AllowOp? :: es[i].op.ip
  }

  lemma AddressesInit(es: seq<Event>)
    requires es != []
    ensures AddressesOf(es) == AddressesOf(es[..|es| - 1]) +
              if es[|es| - 1].op.AllowOp? then {es[|es| - 1].op.ip} else {}
  {
    var n := |es| - 1;
    forall a | a in AddressesOf(es)
      ensures a in AddressesOf(es[..n]) || (es[n].op.AllowOp? && a == es[n].op.ip)
    {
      var i :| 0 <= i < |es| && es[i].op.AllowOp? && es[i].op.ip == a;
      if i < n { assert es[..n][i] == es[i]; }
    }
    forall a | a in AddressesOf(es[..n])
      ensures a in AddressesOf(es)
    {
      var i :| 0 <= i < n && es[..n][i].op.AllowOp? && es[..n][i].op.ip == a;
      assert es[i] == es[..n][i];
    }
  }

  lemma CounterOrigin(p: Policy, s: State, e: Event, k: string)
    requires k in Apply(p, s, e).0.attempts
    ensures k in s.attempts || (e.op.AllowOp? && k == e.op.ip)
  {
    hide Allow, RecordFailure;
    match e.op
    case AllowOp(i, cn, victim) => if k != i { AllowAttempts(p, s, i, cn, e.at, victim, k); }
    case FailOp(i, cn, victim) => FailAttempts(p, s, i, cn, e.at, victim, k);
    case _ =>
  }

  /** Only an address that logs in has a counter. */
  lemma {:induction false} CountersAreOf(p: Policy, es: seq<Event>)
    ensures Run(p, EMPTY, es).attempts.Keys <= AddressesOf(es)
  {
    hide Apply;
    if es != [] {
      var n := |es| - 1;
      var s := Run(p, EMPTY, es[..n]);
      CountersAreOf(p, es[..n]);
      AddressesInit(es);
      forall k | k in Apply(p, s, es[n]).0.attempts
        ensures k in AddressesOf(es)
      {
        CounterOrigin(p, s, es[n], k);
      }
    }
  }

  lemma PlaceLeft(p: Policy, es: seq<Event>, i: nat)
    requires |AddressesOf(es)| <= MaxKeys(p) && i < |es| && es[i].op.AllowOp?
    ensures var c := Cleanup(p, Run(p, EMPTY, es[..i]), es[i].at);
              es[i].op.ip in c.attempts || |c.attempts| < MaxKeys(p)
  {
    var c := Cleanup(p, Run(p, EMPTY, es[..i]), es[i].at);
    CountersAreOf(p, es[..i]);
    assert forall j :: 0 <= j < i ==> es[..i][j] == es[j];
    if es[i].op.ip !in c.attempts {
      assert c.attempts.Keys <= AddressesOf(es) - {es[i].op.ip};
      SubsetSize(c.attempts.Keys, AddressesOf(es) - {es[i].op.ip});
      assert |c.attempts.Keys| == |c.attempts|;
    }
  }

  /** With no more addresses than places, a newcomer always finds one free. */
  lemma FewNeverEvict(p: Policy, es: seq<Event>, ip: Address)
    requires |AddressesOf(es)| <= MaxKeys(p)
    ensures NeverEvicted(p, es, ip)
  {
    hide Run;
    forall i | 0 <= i < |es| && es[i].op.AllowOp?
      ensures !Evicts(p, Run(p, EMPTY, es[..i]), es[i], ip)
    {
      PlaceLeft(p, es, i);
    }
  }

  /** With at most as many addresses as places, every address is admitted at most twice the limit
      in any half-open window, plus the grace of each release in it. */
  lemma FewAddressesBound(p: Policy, es: seq<Event>, ip: Address, t: int)
    requires Ordered(es) && |AddressesOf(es)| <= MaxKeys(p) && t > ZERO
    ensures Admitted(p, es, ip, t) <= 2 * p.maxAttempts + RELEASE_GRACE_ATTEMPTS * Releases(p, es, ip, t)
  {
    FewNeverEvict(p, es, ip);
    AttemptBound(p, es, ip, t);
  }

  // ---------- One address more ----------

  /** Each of these addresses has logged in once, at instant 1. */
  function Seated(ips: set<string>): State {
    State(map ip | ip in ips :: Counter(1, 1, 1), map[])
  }

  function Login(ip: Address, victim: string): Event {
    Event(AllowOp(ip, "x", victim), 1)
  }

  /** A newcomer takes a free place, or the victim's. */
  function Seat(p: Policy, ips: set<string>, ip: string, victim: string): set<string> {
    (if |ips| < MaxKeys(p) then ips else ips - {victim}) + {ip}
  }

  predicate Limits(p: Policy) {
    p.attemptWindow > 0 && p.maxAttempts > 0
  }

  lemma SeatedStays(p: Policy, ips: set<string>)
    requires Limits(p)
    ensures Cleanup(p, Seated(ips), 1) == Seated(ips) && |Seated(ips).attempts| == |ips|
  {
    assert Cleanup(p, Seated(ips), 1) == Seated(ips);
    assert Seated(ips).attempts.Keys == ips && |Seated(ips).attempts.Keys| == |Seated(ips).attempts|;
  }

  lemma SeatRoom(p: Policy, ips: set<string>, victim: string)
    requires Limits(p) && |ips| <= MaxKeys(p) && (|ips| == MaxKeys(p) ==> victim in ips)
    ensures AttemptsRoom(p, Seated(ips), 1, victim) ==
              (Seated(if |ips| < MaxKeys(p) then ips else ips - {victim}), true)
  {
    hide Cleanup;
    SeatedStays(p, ips);
    if |ips| == MaxKeys(p) {
      assert victim in Seated(ips).attempts;
      assert Seated(ips).attempts - {victim} == Seated(ips - {victim}).attempts;
    }
  }

  lemma SeatAdmits(p: Policy, ips: set<string>, ip: Address)
    requires Limits(p) && ip !in ips
    ensures Admit(p, Seated(ips), ip, "x", 1) == (Seated(ips + {ip}), true)
  {
    hide FailureKey;
    assert Seated(ips).attempts[ip := Counter(1, 1, 1)] == Seated(ips + {ip}).attempts;
  }

  lemma SeatNewcomer(p: Policy, ips: set<string>, ip: Address, victim: string)
    requires Limits(p) && ip !in ips && |ips| <= MaxKeys(p) && (|ips| == MaxKeys(p) ==> victim in ips)
    ensures Fair(p, Seated(ips), Login(ip, victim))
    ensures Apply(p, Seated(ips), Login(ip, victim)) == (Seated(Seat(p, ips, ip, victim)), true)
  {
    hide Cleanup, AttemptsRoom, Admit, MaxKeys;
    SeatedStays(p, ips);
    SeatRoom(p, ips, victim);
    SeatAdmits(p, if |ips| < MaxKeys(p) then ips else ips - {victim}, ip);
  }

  /** A run of logins at instant 1 that leaves these addresses seated and admitted the first address n times. */
  ghost predicate Seats(p: Policy, es: seq<Event>, ips: set<string>, n: nat) {
    && (forall e :: e in es ==> e.at == 1 && e.op.AllowOp?)
    && Run(p, EMPTY, es) == Seated(ips) && FairRun(p, EMPTY, es) && Admitted(p, es, Addr(0), 1) == n
    && AddressesOf(es) <= Crowd(MaxKeys(p) + 1)
  }

  lemma Snoc(p: Policy, s: State, es: seq<Event>, e: Event)
    requires FairRun(p, s, es) && Fair(p, Run(p, s, es), e)
    ensures FairRun(p, s, es + [e]) && Run(p, s, es + [e]) == Apply(p, Run(p, s, es), e).0
  {
    hide Apply, Fair;
    var all := es + [e];
    assert all[..|es|] == es;
    forall i | 0 <= i < |all|
      ensures Fair(p, Run(p, s, all[..i]), all[i])
    {
      if i < |es| { assert all[..i] == es[..i] && all[i] == es[i]; }
    }
  }

  lemma AdmittedSnoc(p: Policy, es: seq<Event>, e: Event, ip: Address, t: int)
    ensures Admitted(p, es + [e], ip, t) == Admitted(p, es, ip, t) +
              if AdmittedNow(p, Run(p, EMPTY, es), e, ip, t) then 1 else 0
    ensures AddressesOf(es + [e]) == AddressesOf(es) + if e.op.AllowOp? then {e.op.ip} else {}
  {
    AddressesInit(es + [e]);
    assert (es + [e])[..|es|] == es;
  }

  lemma SeatSnoc(p: Policy, es: seq<Event>, ips: set<string>, n: nat, k: nat, victim: string)
    requires Limits(p) && Seats(p, es, ips, n) && k <= MaxKeys(p)
    requires Addr(k) !in ips && |ips| <= MaxKeys(p) && (|ips| == MaxKeys(p) ==> victim in ips)
    ensures Seats(p, es + [Login(Addr(k), victim)], Seat(p, ips, Addr(k), victim), n + if k == 0 then 1 else 0)
  {
    hide Apply, Fair, FairRun, Run, Admitted, AddressesOf, Seated, Seat, Addr, Crowd, MaxKeys;
    var e := Login(Addr(k), victim);
    SeatNewcomer(p, ips, Addr(k), victim);
    Snoc(p, EMPTY, es, e);
    AdmittedSnoc(p, es, e, Addr(0), 1);
    CrowdSize(MaxKeys(p) + 1, k);
    AddrDiffer(k, 0);
  }

  lemma NobodySeated(p: Policy)
    ensures Seats(p, [], Crowd(0), 0)
  {
    assert Run(p, EMPTY, []) == EMPTY;
    assert EMPTY == Seated({});
  }

  lemma {:induction false} FillSeats(p: Policy, k: nat) returns (es: seq<Event>)
    requires Limits(p) && k <= MaxKeys(p)
    ensures Seats(p, es, Crowd(k), if k == 0 then 0 else 1)
  {
    hide Seats, Limits;
    if k == 0 {
      es := [];
      NobodySeated(p);
    } else {
      var before := FillSeats(p, k - 1);
      CrowdSize(k - 1, k - 1);
      SeatSnoc(p, before, Crowd(k - 1), if k == 1 then 0 else 1, k - 1, "");
      es := before + [Login(Addr(k - 1), "")];
    }
  }

  /** Swapping one key of a full set for a new one and back. */
  lemma Swapped(p: Policy, full: set<string>, first: string, outside: string)
    requires |full| == MaxKeys(p) && first in full && outside !in full
    ensures var swapped := Seat(p, full, outside, first);
            && |swapped| == MaxKeys(p) && first !in swapped && outside in swapped
            && Seat(p, swapped, first, outside) == full
  {
    hide MaxKeys;
    var swapped := Seat(p, full, outside, first);
    assert swapped == full - {first} + {outside};
    assert swapped - {outside} + {first} == full;
  }

  /** The address outside a full map evicts the first one, which evicts it in turn. */
  lemma OneTurn(p: Policy, before: seq<Event>, full: set<string>, n: nat) returns (es: seq<Event>)
    requires Limits(p) && Seats(p, before, full, n)
    requires |full| == MaxKeys(p) && Addr(0) in full && Addr(MaxKeys(p)) !in full
    ensures Seats(p, es, full, n + 1)
  {
    hide Seats, Limits, Addr, Seat, MaxKeys;
    var first, outside := Addr(0), Addr(MaxKeys(p));
    Swapped(p, full, first, outside);
    SeatSnoc(p, before, full, n, MaxKeys(p), first);
    SeatSnoc(p, before + [Login(outside, first)], Seat(p, full, outside, first), n, 0, outside);
    es := before + [Login(outside, first)] + [Login(first, outside)];
  }

  lemma {:induction false} TakeTurns(p: Policy, n: nat) returns (es: seq<Event>)
    requires Limits(p) && n >= 1
    ensures Seats(p, es, Crowd(MaxKeys(p)), n)
  {
    hide Seats, Limits, Crowd, Addr, MaxKeys;
    MaxKeysPositive(p);
    if n == 1 {
      es := FillSeats(p, MaxKeys(p));
    } else {
      var before := TakeTurns(p, n - 1);
      CrowdSize(MaxKeys(p), 0);
      CrowdSize(MaxKeys(p), MaxKeys(p));
      es := OneTurn(p, before, Crowd(MaxKeys(p)), n - 1);
    }
  }

  lemma {:induction false} NoReleases(p: Policy, es: seq<Event>, ip: Address, t: int)
    requires forall e :: e in es ==> e.op.AllowOp?
    ensures Releases(p, es, ip, t) == 0
  {
    if es != [] {
      NoReleases(p, es[..|es| - 1], ip, t);
    }
  }

  /** With one address more than there are places there is no bound at all: whatever the limits, an
      address can be admitted n times at one instant, for every n, without a single release. */
  lemma EvictionDefeatsLimit(p: Policy, n: nat) returns (es: seq<Event>)
    requires Limits(p) && n >= 1
    ensures Ordered(es) && FairRun(p, EMPTY, es) && |AddressesOf(es)| <= MaxKeys(p) + 1
    ensures (forall e :: e in es ==> e.at == 1)
    ensures Admitted(p, es, Addr(0), 1) == n && Releases(p, es, Addr(0), 1) == 0
  {
    es := TakeTurns(p, n);
    CrowdSize(MaxKeys(p) + 1, 0);
    SubsetSize(AddressesOf(es), Crowd(MaxKeys(p) + 1));
    NoReleases(p, es, Addr(0), 1);
  }

  ghost predicate WithinLimit(p: Policy, es: seq<Event>, ip: Address, t: int) {
    Admitted(p, es, ip, t) <= 2 * p.maxAttempts + RELEASE_GRACE_ATTEMPTS * Releases(p, es, ip, t)
  }

  /** The limit on an address's logins holds over every run in which at most m addresses log in. */
  ghost predicate LimitHolds(p: Policy, m: nat) {
    forall es: seq<Event>, ip: Address, t: int ::
      Ordered(es) && FairRun(p, EMPTY, es) && |AddressesOf(es)| <= m && t > ZERO ==> WithinLimit(p, es, ip, t)
  }

  lemma {:induction false} NothingAdmitted(p: Policy, es: seq<Event>, ip: Address, t: int)
    requires !Limits(p)
    ensures Admitted(p, es, ip, t) == 0
  {
    hide Apply;
    if es != [] {
      var n := |es| - 1;
      NothingAdmitted(p, es[..n], ip, t);
      if AllowFor(es[n], ip) { OwnAllowCounts(p, Run(p, EMPTY, es[..n]), es[n], ip); }
    }
  }

  /** It does exactly when the map has a place for each of them, or nothing is ever admitted anyway. */
  lemma LimitIffPlaces(p: Policy, m: nat)
    ensures LimitHolds(p, m) <==> m <= MaxKeys(p) || !Limits(p)
  {
    if m <= MaxKeys(p) {
      forall es: seq<Event>, ip: Address, t: int | Ordered(es) && FairRun(p, EMPTY, es) && |AddressesOf(es)| <= m
        && t > ZERO
        ensures WithinLimit(p, es, ip, t)
      {
        FewAddressesBound(p, es, ip, t);
      }
    } else if Limits(p) {
      var es := EvictionDefeatsLimit(p, 2 * p.maxAttempts + 1);
      assert !WithinLimit(p, es, Addr(0), 1);
    } else {
      forall es: seq<Event>, ip: Address, t: int
        ensures WithinLimit(p, es, ip, t)
      {
        NothingAdmitted(p, es, ip, t);
      }
    }
  }
}
