/** Verification of a recovery email by emailed code (backend/internal/recoveryemailverification):
    the same life cycle as a recovery code, but limits count per user, and a request that comes too
    early rolls back and says how long to wait. */
module EmailVerification {
  import opened Text
  import opened Recovery

  const TTL: int := 600 * SECOND

  datatype VCode = VCode(
    user: nat, email: nat, secret: Secret, created: int, expires: int,
    status: CodeStatus, attempts: nat, maxAttempts: nat,
    sentAt: Option<int>, usedAt: Option<int>, invalidatedAt: Option<int>)

  datatype Tables = Tables(users: seq<User>, emails: seq<Email>, vcodes: seq<VCode>)

  datatype Problem =
    | UserInactive | NoRecoveryEmail | EmailDisabled | AlreadyVerified | NoActiveCode | BadCode
    | CodeExpired | CodeUsed | CodeInvalidated | Mismatch | Exhausted | Missing
    | RateLimit(retryAfter: int)

  datatype Answer =
    | Okay
    | SendPrepared(code: nat)
    | EmailConfirmed(code: nat, email: nat)
    | Failure(problem: Problem)

  // ---------- Row updates ----------

  predicate Pendent(c: VCode) {
    c.status == Sending || c.status == Live
  }

  function Retire(c: VCode, status: CodeStatus, now: Instant): VCode {
    c.(status := status, invalidatedAt := Stamp(c.invalidatedAt, now))
  }

  function Overdue(c: VCode, u: nat, now: Instant): VCode {
    if c.user == u && c.status == Live && c.invalidatedAt.None? && c.expires <= now then Retire(c, Expired, now)
    else if c.user == u && c.status == Sending && c.invalidatedAt.None? && c.created <= now - STALE_SEND
      then Retire(c, DeliveryFailed, now)
    else c
  }

  function Superseded(c: VCode, u: nat, now: Instant): VCode {
    if c.user == u && Pendent(c) && c.invalidatedAt.None? then Retire(c, Invalidated, now) else c
  }

  function SupersededFor(c: VCode, e: nat, now: Instant): VCode {
    if c.email == e && Pendent(c) && c.invalidatedAt.None? then Retire(c, Invalidated, now) else c
  }

  function OverdueAll(codes: seq<VCode>, u: nat, now: Instant): seq<VCode> {
    seq(|codes|, i requires 0 <= i < |codes| => Overdue(codes[i], u, now))
  }

  function SupersededAll(codes: seq<VCode>, u: nat, now: Instant): seq<VCode> {
    seq(|codes|, i requires 0 <= i < |codes| => Superseded(codes[i], u, now))
  }

  function SupersededForAll(codes: seq<VCode>, e: nat, now: Instant): seq<VCode> {
    seq(|codes|, i requires 0 <= i < |codes| => SupersededFor(codes[i], e, now))
  }

  function SupersededOf(codes: seq<VCode>, u: nat, e: nat, now: Instant): seq<VCode> {
    seq(|codes|, i requires 0 <= i < |codes| =>
        if codes[i].user == u then SupersededFor(codes[i], e, now) else codes[i])
  }

  // ---------- The aggregates of the rate limit ----------

  /** max(created_at) of a user's codes. */
  function LatestCreated(codes: seq<VCode>, u: nat): Option<int> {
    if codes == [] then None
    else
      var n := |codes| - 1;
      var before := LatestCreated(codes[..n], u);
      if codes[n].user != u then before
      else if before.Some? && before.value > codes[n].created then before else Some(codes[n].created)
  }

  /** min(created_at) of a user's codes created after `since`. */
  function OldestAfter(codes: seq<VCode>, u: nat, since: int): Option<int> {
    if codes == [] then None
    else
      var n := |codes| - 1;
      var before := OldestAfter(codes[..n], u, since);
      if codes[n].user != u || codes[n].created <= since then before
      else if before.Some? && before.value < codes[n].created then before else Some(codes[n].created)
  }

  /** How many of a user's codes were created in (since, until]. */
  function CountBetween(codes: seq<VCode>, u: nat, since: int, until: int): nat {
    if codes == [] then 0
    else
      var n := |codes| - 1;
      CountBetween(codes[..n], u, since, until) +
        if codes[n].user == u && since < codes[n].created <= until then 1 else 0
  }

  function CountAfter(codes: seq<VCode>, u: nat, since: int): nat {
    if codes == [] then 0
    else
      var n := |codes| - 1;
      CountAfter(codes[..n], u, since) + if codes[n].user == u && codes[n].created > since then 1 else 0
  }

  /** The wait a request at `now` is told to observe, if it is too early. */
  function TooEarly(codes: seq<VCode>, u: nat, now: int): Option<int> {
    var latest, oldest := LatestCreated(codes, u), OldestAfter(codes, u, now - WINDOW);
    if latest.Some? && now < latest.value + COOLDOWN then Some(latest.value + COOLDOWN - now)
    else if CountAfter(codes, u, now - WINDOW) >= WINDOW_LIMIT && oldest.Some? then Some(oldest.value + WINDOW - now)
    else None
  }

  /** The whole seconds reported to the client: rounded up, at least one. */
  function RetryAfterSeconds(wait: int): (seconds: int)
    requires wait > 0
    ensures seconds >= 1 && wait <= seconds * SECOND < wait + SECOND
  {
    (wait + SECOND - 1) / SECOND
  }

  // ---------- The store transactions ----------

  function NewVCode(u: nat, e: nat, secret: Secret, now: Instant): VCode {
    VCode(u, e, secret, now, now + TTL, Sending, 0, MAX_ATTEMPTS, None, None, None)
  }

  /** The user's pending current email, or why there is none to verify. */
  function PendingEmail(db: Tables, u: nat): (nat, Option<Problem>) {
    if u >= |db.users| || db.users[u].status != Active then (0, Some(UserInactive))
    else
      var current := CurrentEmail(db.emails, u);
      if current.None? || current.value >= |db.emails| then (0, Some(NoRecoveryEmail))
      else if db.emails[current.value].status == Verified then (0, Some(AlreadyVerified))
      else if db.emails[current.value].status != Pending then (0, Some(EmailDisabled))
      else (current.value, None)
  }

  function PrepareSend(db: Tables, u: nat, secret: Secret, now: Instant): (Tables, Answer) {
    var (e, problem) := PendingEmail(db, u);
    if problem.Some? then (db, Failure(problem.value))
    else
      var lapsed := OverdueAll(db.vcodes, u, now);
      var wait := TooEarly(lapsed, u, now);
      if wait.Some? then (db, Failure(RateLimit(wait.value)))
      else (db.(vcodes := SupersededAll(lapsed, u, now) + [NewVCode(u, e, secret, now)]), SendPrepared(|db.vcodes|))
  }

  function ConfirmVerificationSent(db: Tables, c: nat, u: nat, e: nat, now: Instant): (Tables, Answer) {
    if u >= |db.users| then (db, Failure(Missing))
    else if db.users[u].status != Active then (db, Failure(UserInactive))
    else if e >= |db.emails| || db.emails[e].user != u || !db.emails[e].current || db.emails[e].status != Pending
      then (db, Failure(CodeInvalidated))
    else if c >= |db.vcodes| || db.vcodes[c].user != u || db.vcodes[c].email != e then (db, Failure(Missing))
    else if db.vcodes[c].status != Sending then (db, Failure(CodeInvalidated))
    else (db.(vcodes := db.vcodes[c := db.vcodes[c].(status := Live, sentAt := Some(now))]), Okay)
  }

  function FailVerificationSend(db: Tables, c: nat, u: nat, now: Instant): Tables {
    if c < |db.vcodes| && db.vcodes[c].user == u && db.vcodes[c].status == Sending
    then db.(vcodes := db.vcodes[c := Retire(db.vcodes[c], DeliveryFailed, now)])
    else db
  }

  function MissedGuess(c: VCode, now: Instant): VCode {
    var d := c.(attempts := c.attempts + 1);
    if d.attempts >= c.maxAttempts then Retire(d, Locked, now) else d
  }

  predicate IsLatestFor(codes: seq<VCode>, u: nat, e: nat, pick: Option<nat>) {
    match pick
    case None => forall i :: 0 <= i < |codes| ==> !(codes[i].user == u && codes[i].email == e)
    case Some(c) =>
      && c < |codes| && codes[c].user == u && codes[c].email == e
      && forall i :: 0 <= i < |codes| && codes[i].user == u && codes[i].email == e ==>
        codes[i].created <= codes[c].created
  }

  /** Verify; `clock` is the application's own clock, against which it checks the expiry. */
  function VerifyEmail(db: Tables, u: nat, guess: string, pick: Option<nat>, clock: Instant,
                       now: Instant): (Tables, Answer) {
    var (e, problem) := PendingEmail(db, u);
    if !ValidCode(guess) then (db, Failure(BadCode))
    else if problem.Some? then (db, Failure(problem.value))
    else if pick.None? || pick.value >= |db.vcodes| || e >= |db.emails| then (db, Failure(NoActiveCode))
    else
      var c := db.vcodes[pick.value];
      match c.status
      case Used => (db, Failure(CodeUsed))
      case Locked => (db, Failure(Exhausted))
      case Expired => (db, Failure(CodeExpired))
      case Live =>
        if c.expires <= clock then (db.(vcodes := db.vcodes[pick.value := Retire(c, Expired, now)]),
                                    Failure(CodeExpired))
        else if c.secret != guess then
          (db.(vcodes := db.vcodes[pick.value := MissedGuess(c, now)]),
           Failure(if c.attempts + 1 >= c.maxAttempts then Exhausted else Mismatch))
        else
          (db.(emails := db.emails[e := db.emails[e].(status := Verified)],
               vcodes := SupersededOf(db.vcodes[pick.value := c.(status := Used, usedAt := Some(now))], u, e, now)),
           EmailConfirmed(pick.value, e))
      case _ => (db, Failure(CodeInvalidated))
  }

  // ---------- What the rest of the system does to these tables ----------

  function DropAddress(db: Tables, e: nat, now: Instant): Tables {
    db.(emails := if e < |db.emails| then db.emails[e := db.emails[e].(status := Off, current := false)] else db.emails,
        vcodes := SupersededForAll(db.vcodes, e, now))
  }

  function PutAddress(db: Tables, u: nat, lookup: string, now: Instant): Tables {
    if u >= |db.users| || db.users[u].status == Merged then db
    else
      var current := CurrentEmail(db.emails, u);
      if current.Some? && current.value < |db.emails| && db.emails[current.value].lookup == lookup then db
      else
        var dropped := if current.Some? then DropAddress(db, current.value, now) else db;
        dropped.(emails := dropped.emails + [Email(u, lookup, Pending, true)])
  }

  function UnbindAddress(db: Tables, u: nat, now: Instant): Tables {
    if u >= |db.users| || db.users[u].status == Merged || CurrentEmail(db.emails, u).None? then db
    else DropAddress(db, CurrentEmail(db.emails, u).value, now)
  }

  // ---------- Runs ----------

  /** UsersMove stands for every transaction that writes only the users table. */
  datatype Move =
    | SendMove(user: nat, secret: Secret)
    | ConfirmMove(code: nat, user: nat, email: nat)
    | FailMove(code: nat, user: nat)
    | VerifyMove(user: nat, guess: string, pick: Option<nat>, clock: Instant)
    | PutMove(user: nat, lookup: string)
    | UnbindMove(user: nat)
    | UsersMove(users: seq<User>)

  datatype Moment = Moment(move: Move, at: Instant)

  function Do(db: Tables, m: Moment): (Tables, Answer) {
    match m.move
    case SendMove(u, secret) => PrepareSend(db, u, secret, m.at)
    case ConfirmMove(c, u, e) => ConfirmVerificationSent(db, c, u, e, m.at)
    case FailMove(c, u) => (FailVerificationSend(db, c, u, m.at), Okay)
    case VerifyMove(u, guess, pick, clock) => VerifyEmail(db, u, guess, pick, clock, m.at)
    case PutMove(u, lookup) => (PutAddress(db, u, lookup, m.at), Okay)
    case UnbindMove(u) => (UnbindAddress(db, u, m.at), Okay)
    case UsersMove(users) => (db.(users := users), Okay)
  }

  function Play(db: Tables, ms: seq<Moment>): Tables {
    if ms == [] then db else Do(Play(db, ms[..|ms| - 1]), ms[|ms| - 1]).0
  }

  /** Look-ups return rows they can return. */
  predicate Allowed(db: Tables, m: Moment) {
    m.move.VerifyMove? && PendingEmail(db, m.move.user).1.None? ==>
      IsLatestFor(db.vcodes, m.move.user, PendingEmail(db, m.move.user).0, m.move.pick)
  }

  /** Times do not run backwards from `from` on. */
  predicate InOrder(from: int, ms: seq<Moment>) {
    (forall m :: m in ms ==> from <= m.at) && forall i, j :: 0 <= i < j < |ms| ==> ms[i].at <= ms[j].at
  }

  function EndTime(from: int, ms: seq<Moment>): int {
    if ms == [] then from else ms[|ms| - 1].at
  }

  const NOTHING := Tables([], [], [])

  // ---------- What every run keeps ----------

  predicate Sound(c: VCode) {
    && (Pendent(c) <==> c.usedAt.None? && c.invalidatedAt.None?)
    && (c.status == Live ==> c.sentAt.Some? && c.attempts < c.maxAttempts)
    && (c.status == Sending ==> c.attempts == 0)
    && c.attempts <= c.maxAttempts == MAX_ATTEMPTS && c.expires == c.created + TTL
  }

  ghost predicate AllSound(codes: seq<VCode>) {
    forall i :: 0 <= i < |codes| ==> Sound(codes[i])
  }

  /** A pendent code is its user's newest, and no user has two. */
  ghost predicate NewestPendent(codes: seq<VCode>) {
    forall i, j :: 0 <= i < |codes| && 0 <= j < |codes| && Pendent(codes[i]) && codes[j].user == codes[i].user ==>
      j <= i
  }

  ghost predicate Apart(codes: seq<VCode>, last: int) {
    && (forall i :: 0 <= i < |codes| ==> codes[i].created <= last)
    && (forall i, j :: 0 <= i < j < |codes| ==>
          codes[i].created + (if codes[i].user == codes[j].user then COOLDOWN else 0) <= codes[j].created)
  }

  ghost predicate Windowed(codes: seq<VCode>) {
    forall u: nat, t: int :: HourFrom(codes, u, t) <= WINDOW_LIMIT
  }

  /** A user's codes created in (t, t + WINDOW]. */
  function HourFrom(codes: seq<VCode>, u: nat, t: int): nat {
    CountBetween(codes, u, t, t + WINDOW)
  }

  ghost predicate Steady(codes: seq<VCode>, last: int) {
    AllSound(codes) && NewestPendent(codes) && Apart(codes, last) && Windowed(codes)
  }

  /** A code row is kept, or was pendent and changed in status, attempts and stamps only. */
  predicate BecomesV(c: VCode, d: VCode) {
    || d == c
    || (Pendent(c) && Sound(d) && c.attempts <= d.attempts
        && d == c.(status := d.status, attempts := d.attempts, sentAt := d.sentAt, usedAt := d.usedAt,
                   invalidatedAt := d.invalidatedAt))
  }

  ghost predicate BecomeV(codes: seq<VCode>, after: seq<VCode>) {
    |after| == |codes| && forall i :: 0 <= i < |codes| ==> BecomesV(codes[i], after[i])
  }

  lemma UpdatesBecome(codes: seq<VCode>, u: nat, e: nat, now: Instant)
    requires AllSound(codes)
    ensures BecomeV(codes, OverdueAll(codes, u, now)) && BecomeV(codes, SupersededAll(codes, u, now))
    ensures BecomeV(codes, SupersededForAll(codes, e, now)) && BecomeV(codes, SupersededOf(codes, u, e, now))
  {
    forall i | 0 <= i < |codes|
      ensures BecomesV(codes[i], Overdue(codes[i], u, now)) && BecomesV(codes[i], Superseded(codes[i], u, now))
              && BecomesV(codes[i], SupersededFor(codes[i], e, now))
    {
      assert Sound(codes[i]);
    }
  }

  lemma {:induction false} CountsKept(codes: seq<VCode>, after: seq<VCode>, u: nat, since: int, until: int)
    requires BecomeV(codes, after)
    ensures CountBetween(after, u, since, until) == CountBetween(codes, u, since, until)
    ensures CountAfter(after, u, since) == CountAfter(codes, u, since)
    ensures LatestCreated(after, u) == LatestCreated(codes, u)
    ensures OldestAfter(after, u, since) == OldestAfter(codes, u, since)
  {
    if codes != [] {
      var n := |codes| - 1;
      assert BecomesV(codes[n], after[n]);
      CountsKept(codes[..n], after[..n], u, since, until);
    }
  }

  lemma BecomingKeeps(codes: seq<VCode>, after: seq<VCode>, last: int)
    requires Steady(codes, last) && BecomeV(codes, after)
    ensures Steady(after, last)
  {
    assert AllSound(after) && NewestPendent(after) && Apart(after, last) by { hide Windowed, Sound; }
    hide AllSound, NewestPendent, Apart, BecomeV;
    forall u: nat, t: int
      ensures HourFrom(after, u, t) <= WINDOW_LIMIT
    {
      assert HourFrom(codes, u, t) <= WINDOW_LIMIT;
      CountsKept(codes, after, u, t, t + WINDOW);
    }
  }

  lemma {:induction false} LatestIsLatest(codes: seq<VCode>, u: nat)
    ensures match LatestCreated(codes, u)
            case None => forall i :: 0 <= i < |codes| ==> codes[i].user != u
            case Some(t) =>
              && (forall i :: 0 <= i < |codes| && codes[i].user == u ==> codes[i].created <= t)
              && (exists i :: 0 <= i < |codes| && codes[i].user == u && codes[i].created == t)
  {
    if codes != [] {
      var n := |codes| - 1;
      LatestIsLatest(codes[..n], u);
      assert forall i :: 0 <= i < n ==> codes[..n][i] == codes[i];
    }
  }

  lemma {:induction false} AfterAntitone(codes: seq<VCode>, u: nat, since: int, later: int)
    requires since <= later
    ensures CountAfter(codes, u, later) <= CountAfter(codes, u, since)
  {
    if codes != [] {
      AfterAntitone(codes[..|codes| - 1], u, since, later);
    }
  }

  lemma {:induction false} OldestIsOldest(codes: seq<VCode>, u: nat, since: int)
    ensures match OldestAfter(codes, u, since)
            case None => CountAfter(codes, u, since) == 0
            case Some(t) => t > since && CountAfter(codes, u, t) < CountAfter(codes, u, since)
                            && (exists i :: 0 <= i < |codes| && codes[i].created == t)
                            && forall s :: since <= s < t ==> CountAfter(codes, u, s) == CountAfter(codes, u, since)
  {
    if codes != [] {
      var n := |codes| - 1;
      OldestIsOldest(codes[..n], u, since);
      assert forall i :: 0 <= i < n ==> codes[..n][i] == codes[i];
      var t := OldestAfter(codes, u, since);
      if t.Some? {
        forall s | since <= s <= t.value
          ensures CountAfter(codes[..n], u, s) <= CountAfter(codes[..n], u, since)
        {
          AfterAntitone(codes[..n], u, since, s);
        }
      }
    }
  }

  lemma {:induction false} BetweenIsAfter(codes: seq<VCode>, u: nat, since: int, until: int)
    requires forall i :: 0 <= i < |codes| ==> codes[i].created <= until
    ensures CountBetween(codes, u, since, until) == CountAfter(codes, u, since)
  {
    if codes != [] {
      var n := |codes| - 1;
      assert forall i :: 0 <= i < n ==> codes[..n][i] == codes[i];
      BetweenIsAfter(codes[..n], u, since, until);
    }
  }

  lemma {:induction false} BetweenWithin(codes: seq<VCode>, u: nat, since: int, until: int, wide: int)
    requires wide <= since
    ensures CountBetween(codes, u, since, until) <= CountAfter(codes, u, wide)
  {
    if codes != [] {
      BetweenWithin(codes[..|codes| - 1], u, since, until, wide);
    }
  }

  lemma AppendKeeps(codes: seq<VCode>, u: nat, e: nat, secret: Secret, now: Instant)
    requires Steady(codes, now) && TooEarly(codes, u, now).None?
    requires forall i :: 0 <= i < |codes| ==> codes[i].user == u ==> !Pendent(codes[i])
    ensures Steady(codes + [NewVCode(u, e, secret, now)], now)
  {
    var after := codes + [NewVCode(u, e, secret, now)];
    assert after[..|codes|] == codes;
    LatestIsLatest(codes, u);
    OldestIsOldest(codes, u, now - WINDOW);
    assert AllSound(after) && NewestPendent(after) && Apart(after, now);
    forall v: nat, t: int
      ensures HourFrom(after, v, t) <= WINDOW_LIMIT
    {
      assert HourFrom(codes, v, t) <= WINDOW_LIMIT;
      if v == u && t < now <= t + WINDOW {
        BetweenWithin(codes, u, t, t + WINDOW, now - WINDOW);
      }
    }
  }

  lemma SteadySound(codes: seq<VCode>, last: int)
    requires Steady(codes, last)
    ensures AllSound(codes)
  {}

  /** The limits depend on the codes only through their users and times. */
  lemma WaitKept(codes: seq<VCode>, after: seq<VCode>, u: nat, now: int)
    requires BecomeV(codes, after)
    ensures TooEarly(after, u, now) == TooEarly(codes, u, now)
  {
    CountsKept(codes, after, u, now - WINDOW, now);
  }

  lemma SupersededNone(codes: seq<VCode>, u: nat, now: Instant)
    requires AllSound(codes)
    ensures forall i :: 0 <= i < |SupersededAll(codes, u, now)| ==>
              SupersededAll(codes, u, now)[i].user == u ==> !Pendent(SupersededAll(codes, u, now)[i])
  {
    assert forall i :: 0 <= i < |codes| ==> Sound(codes[i]);
  }

  lemma SendKeeps(db: Tables, u: nat, secret: Secret, now: Instant)
    requires Steady(db.vcodes, now)
    ensures Steady(PrepareSend(db, u, secret, now).0.vcodes, now)
  {
    hide Steady, OverdueAll, SupersededAll, TooEarly, AllSound, BecomeV, Pendent, PendingEmail;
    var lapsed := OverdueAll(db.vcodes, u, now);
    var cleared := SupersededAll(lapsed, u, now);
    SteadySound(db.vcodes, now);
    UpdatesBecome(db.vcodes, u, 0, now);
    BecomingKeeps(db.vcodes, lapsed, now);
    SteadySound(lapsed, now);
    UpdatesBecome(lapsed, u, 0, now);
    BecomingKeeps(lapsed, cleared, now);
    SupersededNone(lapsed, u, now);
    WaitKept(lapsed, cleared, u, now);
    if TooEarly(lapsed, u, now).None? {
      AppendKeeps(cleared, u, PendingEmail(db, u).0, secret, now);
    }
  }

  lemma BecomeSelf(codes: seq<VCode>)
    ensures BecomeV(codes, codes)
  {}

  lemma LapsedSound(codes: seq<VCode>, after: seq<VCode>)
    requires AllSound(codes) && BecomeV(codes, after)
    ensures AllSound(after)
  {
    forall i | 0 <= i < |after| ensures Sound(after[i]) { assert Sound(codes[i]) && BecomesV(codes[i], after[i]); }
  }

  lemma BecomeTwice(a: seq<VCode>, b: seq<VCode>, c: seq<VCode>)
    requires BecomeV(a, b) && BecomeV(b, c)
    ensures BecomeV(a, c)
  {
    forall i | 0 <= i < |a|
      ensures BecomesV(a[i], c[i])
    {
      assert BecomesV(a[i], b[i]) && BecomesV(b[i], c[i]);
    }
  }

  lemma RowBecomes(codes: seq<VCode>, c: nat, d: VCode)
    requires c < |codes| && BecomesV(codes[c], d)
    ensures BecomeV(codes, codes[c := d])
  {}

  /** A guess expires a code, counts an attempt on it, or uses it up and supersedes the others. */
  lemma VerifyBecomes(db: Tables, u: nat, guess: string, pick: Option<nat>, clock: Instant, now: Instant)
    requires AllSound(db.vcodes)
    ensures BecomeV(db.vcodes, VerifyEmail(db, u, guess, pick, clock, now).0.vcodes)
  {
    hide SupersededOf, BecomeV, PendingEmail;
    BecomeSelf(db.vcodes);
    if pick.Some? && pick.value < |db.vcodes| && db.vcodes[pick.value].status == Live {
      var c, code := pick.value, db.vcodes[pick.value];
      assert Sound(code);
      RowBecomes(db.vcodes, c, Retire(code, Expired, now));
      RowBecomes(db.vcodes, c, MissedGuess(code, now));
      var d := code.(status := Used, usedAt := Some(now));
      var used := db.vcodes[c := d];
      RowBecomes(db.vcodes, c, d);
      LapsedSound(db.vcodes, used);
      UpdatesBecome(used, u, PendingEmail(db, u).0, now);
      BecomeTwice(db.vcodes, used, SupersededOf(used, u, PendingEmail(db, u).0, now));
    }
  }

  /** Every transaction but a send only lets code rows become others. */
  lemma OthersBecome(db: Tables, m: Moment)
    requires AllSound(db.vcodes) && !m.move.SendMove?
    ensures BecomeV(db.vcodes, Do(db, m).0.vcodes)
  {
    hide OverdueAll, SupersededAll, SupersededForAll, SupersededOf, BecomeV, PrepareSend, VerifyEmail, CurrentEmail;
    BecomeSelf(db.vcodes);
    match m.move
    case ConfirmMove(c, _, _) =>
      if c < |db.vcodes| && db.vcodes[c].status == Sending {
        assert Sound(db.vcodes[c]);
        RowBecomes(db.vcodes, c, db.vcodes[c].(status := Live, sentAt := Some(m.at)));
      }
    case FailMove(c, _) =>
      if c < |db.vcodes| && db.vcodes[c].status == Sending {
        assert Sound(db.vcodes[c]);
        RowBecomes(db.vcodes, c, Retire(db.vcodes[c], DeliveryFailed, m.at));
      }
    case VerifyMove(u, guess, pick, clock) => VerifyBecomes(db, u, guess, pick, clock, m.at);
    case PutMove(u, _) =>
      if CurrentEmail(db.emails, u).Some? { UpdatesBecome(db.vcodes, u, CurrentEmail(db.emails, u).value, m.at); }
    case UnbindMove(u) =>
      if CurrentEmail(db.emails, u).Some? { UpdatesBecome(db.vcodes, u, CurrentEmail(db.emails, u).value, m.at); }
    case UsersMove(_) =>
  }

  lemma LaterSteady(codes: seq<VCode>, last: int, now: int)
    requires Steady(codes, last) && last <= now
    ensures Steady(codes, now)
  {}

  lemma StepSteady(db: Tables, m: Moment, last: int)
    requires Steady(db.vcodes, last) && last <= m.at
    ensures Steady(Do(db, m).0.vcodes, m.at)
  {
    LaterSteady(db.vcodes, last, m.at);
    if m.move.SendMove? {
      hide Steady;
      SendKeeps(db, m.move.user, m.move.secret, m.at);
    } else {
      OthersBecome(db, m);
      hide Do;
      BecomingKeeps(db.vcodes, Do(db, m).0.vcodes, m.at);
    }
  }

  lemma {:induction false} PlaySteady(db: Tables, from: int, ms: seq<Moment>)
    requires Steady(db.vcodes, from) && InOrder(from, ms)
    ensures Steady(Play(db, ms).vcodes, EndTime(from, ms))
  {
    hide Steady, Do;
    if ms != [] {
      var n := |ms| - 1;
      PlaySteady(db, from, ms[..n]);
      StepSteady(Play(db, ms[..n]), ms[n], EndTime(from, ms[..n]));
    }
  }

  lemma NothingSteady()
    ensures Steady(NOTHING.vcodes, 0)
  {}

  /** Any hour sees at most WINDOW_LIMIT verification codes of one user, COOLDOWN apart, and a
      user never has two codes in play. */
  lemma VerificationsPerHour(ms: seq<Moment>, u: nat, t: int)
    requires InOrder(0, ms)
    ensures CountBetween(Play(NOTHING, ms).vcodes, u, t, t + WINDOW) <= WINDOW_LIMIT
    ensures forall i, j :: 0 <= i < j < |Play(NOTHING, ms).vcodes| ==>
              Play(NOTHING, ms).vcodes[i].user == Play(NOTHING, ms).vcodes[j].user ==>
                && Play(NOTHING, ms).vcodes[i].created + COOLDOWN <= Play(NOTHING, ms).vcodes[j].created
                && !Pendent(Play(NOTHING, ms).vcodes[i])
  {
    NothingSteady();
    PlaySteady(NOTHING, 0, ms);
    assert HourFrom(Play(NOTHING, ms).vcodes, u, t) <= WINDOW_LIMIT;
  }

  // ---------- The advertised wait ----------

  /** A send is admitted exactly when the email is pending and it is not too early. */
  lemma SendAdmitted(db: Tables, u: nat, secret: Secret, now: Instant)
    requires AllSound(db.vcodes)
    ensures PrepareSend(db, u, secret, now).1.SendPrepared? <==>
              PendingEmail(db, u).1.None? && TooEarly(db.vcodes, u, now).None?
    ensures forall w :: PrepareSend(db, u, secret, now).1 == Failure(RateLimit(w)) ==>
              TooEarly(db.vcodes, u, now) == Some(w)
  {
    hide OverdueAll, TooEarly;
    UpdatesBecome(db.vcodes, u, 0, now);
    WaitKept(db.vcodes, OverdueAll(db.vcodes, u, now), u, now);
  }

  /** A wait is positive and never more than the window. */
  lemma WaitBounds(codes: seq<VCode>, u: nat, now: int)
    requires TooEarly(codes, u, now).Some? && Apart(codes, now)
    ensures 0 < TooEarly(codes, u, now).value <= WINDOW
  {
    LatestIsLatest(codes, u);
    OldestIsOldest(codes, u, now - WINDOW);
  }

  /** Until the advertised wait is over it stays too early. */
  lemma StaysTooEarly(codes: seq<VCode>, u: nat, now: int, t: int)
    requires TooEarly(codes, u, now).Some? && now <= t < now + TooEarly(codes, u, now).value
    ensures TooEarly(codes, u, t).Some?
  {
    OldestIsOldest(codes, u, now - WINDOW);
    OldestIsOldest(codes, u, t - WINDOW);
  }

  /** The wait comes from the full window, not from the cool-down. */
  predicate WindowWait(codes: seq<VCode>, u: nat, now: int) {
    TooEarly(codes, u, now).Some? && LatestCreated(codes, u).Some? && LatestCreated(codes, u).value + COOLDOWN <= now
  }

  /** When the window's wait is over, one of its codes has left it and there is room again. */
  lemma WindowReopens(codes: seq<VCode>, u: nat, now: int)
    requires Steady(codes, now) && WindowWait(codes, u, now)
    ensures TooEarly(codes, u, now + TooEarly(codes, u, now).value).None?
  {
    WaitBounds(codes, u, now);
    OldestIsOldest(codes, u, now - WINDOW);
    BetweenIsAfter(codes, u, now - WINDOW, now);
    assert HourFrom(codes, u, now - WINDOW) <= WINDOW_LIMIT;
  }

  /** The user's codes are the same ones as far as the limits can see. */
  ghost predicate SameFor(codes: seq<VCode>, after: seq<VCode>, u: nat) {
    LatestCreated(after, u) == LatestCreated(codes, u) && forall since: int :: SameAfter(codes, after, u, since)
  }

  predicate SameAfter(codes: seq<VCode>, after: seq<VCode>, u: nat, since: int) {
    CountAfter(after, u, since) == CountAfter(codes, u, since)
      && OldestAfter(after, u, since) == OldestAfter(codes, u, since)
  }

  lemma SameWait(codes: seq<VCode>, after: seq<VCode>, u: nat, now: int)
    requires SameFor(codes, after, u)
    ensures TooEarly(after, u, now) == TooEarly(codes, u, now)
  {
    assert SameAfter(codes, after, u, now - WINDOW);
  }

  lemma BecomeSame(codes: seq<VCode>, after: seq<VCode>, u: nat)
    requires BecomeV(codes, after)
    ensures SameFor(codes, after, u)
  {
    CountsKept(codes, after, u, 0, 0);
    forall since: int ensures SameAfter(codes, after, u, since) { CountsKept(codes, after, u, since, 0); }
  }

  lemma OtherUsersCode(codes: seq<VCode>, code: VCode, u: nat)
    requires code.user != u
    ensures SameFor(codes, codes + [code], u)
  {
    assert (codes + [code])[..|codes|] == codes;
  }

  lemma SameTwice(a: seq<VCode>, b: seq<VCode>, c: seq<VCode>, u: nat)
    requires SameFor(a, b, u) && SameFor(b, c, u)
    ensures SameFor(a, c, u)
  {
    forall since: int
      ensures SameAfter(a, c, u, since)
    {
      assert SameAfter(a, b, u, since) && SameAfter(b, c, u, since);
    }
  }

  /** While it is too early for u, no transaction issues u a code. */
  lemma TooEarlyKeepsCodes(db: Tables, m: Moment, u: nat)
    requires AllSound(db.vcodes) && TooEarly(db.vcodes, u, m.at).Some?
    ensures SameFor(db.vcodes, Do(db, m).0.vcodes, u)
  {
    hide SameFor, OverdueAll, SupersededAll, TooEarly, BecomeV;
    if m.move.SendMove? {
      var v := m.move.user;
      var lapsed := OverdueAll(db.vcodes, v, m.at);
      UpdatesBecome(db.vcodes, v, 0, m.at);
      BecomeSame(db.vcodes, db.vcodes, u) by { BecomeSelf(db.vcodes); }
      WaitKept(db.vcodes, lapsed, v, m.at);
      if v != u {
        LapsedSound(db.vcodes, lapsed);
        UpdatesBecome(lapsed, v, 0, m.at);
        var cleared := SupersededAll(lapsed, v, m.at);
        BecomeTwice(db.vcodes, lapsed, cleared);
        BecomeSame(db.vcodes, cleared, u);
        var code := NewVCode(v, PendingEmail(db, v).0, m.move.secret, m.at);
        OtherUsersCode(cleared, code, u);
        SameTwice(db.vcodes, cleared, cleared + [code], u);
      }
    } else {
      OthersBecome(db, m);
      BecomeSame(db.vcodes, Do(db, m).0.vcodes, u);
    }
  }

  lemma {:induction false} WaitHolds(db: Tables, u: nat, now: Instant, ms: seq<Moment>)
    requires Steady(db.vcodes, now) && InOrder(now, ms) && TooEarly(db.vcodes, u, now).Some?
    requires EndTime(now, ms) < now + TooEarly(db.vcodes, u, now).value
    ensures SameFor(db.vcodes, Play(db, ms).vcodes, u)
  {
    hide SameFor, Do, TooEarly, Steady, BecomeV;
    if ms == [] {
      BecomeSelf(db.vcodes);
      BecomeSame(db.vcodes, db.vcodes, u);
    } else {
      var n := |ms| - 1;
      var mid := Play(db, ms[..n]);
      WaitHolds(db, u, now, ms[..n]);
      StaysTooEarly(db.vcodes, u, now, ms[n].at);
      SameWait(db.vcodes, mid.vcodes, u, ms[n].at);
      PlaySteady(db, now, ms[..n]);
      SteadySound(mid.vcodes, EndTime(now, ms[..n]));
      TooEarlyKeepsCodes(mid, ms[n], u);
      SameTwice(db.vcodes, mid.vcodes, Do(mid, ms[n]).0.vcodes, u);
    }
  }

  lemma SteadyApart(codes: seq<VCode>, last: int)
    requires Steady(codes, last)
    ensures Apart(codes, last)
  {}

  /** A refused request's retry-after is never too long: whatever happens meanwhile, every request
      of the user before it is over is refused too. */
  lemma RetryAfterNeverTooLong(db: Tables, u: nat, secret: Secret, now: Instant, wait: int, ms: seq<Moment>,
                               again: Secret, t: Instant)
    requires Steady(db.vcodes, now) && PrepareSend(db, u, secret, now).1 == Failure(RateLimit(wait))
    requires InOrder(now, ms) && EndTime(now, ms) <= t < now + wait
    ensures 0 < wait <= WINDOW
    ensures !PrepareSend(Play(db, ms), u, again, t).1.SendPrepared?
  {
    hide TooEarly, PrepareSend, Steady, SameFor, Do, Play, PendingEmail, AllSound;
    SteadySound(db.vcodes, now);
    SendAdmitted(db, u, secret, now);
    SteadyApart(db.vcodes, now);
    WaitBounds(db.vcodes, u, now);
    PlaySteady(db, now, ms);
    var after := Play(db, ms);
    SteadySound(after.vcodes, EndTime(now, ms));
    WaitHolds(db, u, now, ms);
    StaysTooEarly(db.vcodes, u, now, t);
    SameWait(db.vcodes, after.vcodes, u, t);
    SendAdmitted(after, u, again, t);
  }

  /** The window's retry-after is exact: a request at that instant is admitted, provided the user
      still has a recovery email waiting for verification. */
  lemma WindowRetryAfterExact(db: Tables, u: nat, secret: Secret, now: Instant, wait: int, ms: seq<Moment>,
                              again: Secret)
    requires Steady(db.vcodes, now) && PrepareSend(db, u, secret, now).1 == Failure(RateLimit(wait))
    requires WindowWait(db.vcodes, u, now)
    requires InOrder(now, ms) && EndTime(now, ms) < now + wait
    ensures wait > 0
    ensures PrepareSend(Play(db, ms), u, again, now + wait).1.SendPrepared? <==> PendingEmail(Play(db, ms), u).1.None?
  {
    hide TooEarly, PrepareSend, Steady, SameFor, Do, WindowWait, Play, PendingEmail, AllSound;
    SteadySound(db.vcodes, now);
    SendAdmitted(db, u, secret, now);
    SteadyApart(db.vcodes, now);
    WaitBounds(db.vcodes, u, now);
    WindowReopens(db.vcodes, u, now);
    PlaySteady(db, now, ms);
    var after := Play(db, ms);
    SteadySound(after.vcodes, EndTime(now, ms));
    WaitHolds(db, u, now, ms);
    SameWait(db.vcodes, after.vcodes, u, now + wait);
    SendAdmitted(after, u, again, now + wait);
  }

  /** When the cool-down is over, it is no longer too early exactly when the window has room. */
  lemma CooldownOver(codes: seq<VCode>, u: nat, now: int)
    requires TooEarly(codes, u, now).Some? && !WindowWait(codes, u, now)
    ensures var t := now + TooEarly(codes, u, now).value;
            TooEarly(codes, u, t).None? <==> CountAfter(codes, u, t - WINDOW) < WINDOW_LIMIT
  {
    LatestIsLatest(codes, u);
    OldestIsOldest(codes, u, now - WINDOW);
    OldestIsOldest(codes, u, now + TooEarly(codes, u, now).value - WINDOW);
  }

  /** The cool-down's retry-after, whatever happens meanwhile: a request at that instant is admitted
      exactly when the user still has a recovery email waiting for verification and fewer than
      WINDOW_LIMIT of the codes there were at the refusal will still be in the window. */
  lemma CooldownRetryAfter(db: Tables, u: nat, secret: Secret, now: Instant, wait: int, ms: seq<Moment>, again: Secret)
    requires Steady(db.vcodes, now) && PrepareSend(db, u, secret, now).1 == Failure(RateLimit(wait))
    requires !WindowWait(db.vcodes, u, now)
    requires InOrder(now, ms) && EndTime(now, ms) < now + wait
    ensures wait > 0
    ensures PrepareSend(Play(db, ms), u, again, now + wait).1.SendPrepared? <==>
              PendingEmail(Play(db, ms), u).1.None? && CountAfter(db.vcodes, u, now + wait - WINDOW) < WINDOW_LIMIT
  {
    hide TooEarly, PrepareSend, Steady, SameFor, Do, WindowWait, Play, PendingEmail, AllSound;
    SteadySound(db.vcodes, now);
    SendAdmitted(db, u, secret, now);
    SteadyApart(db.vcodes, now);
    WaitBounds(db.vcodes, u, now);
    CooldownOver(db.vcodes, u, now);
    PlaySteady(db, now, ms);
    var after := Play(db, ms);
    SteadySound(after.vcodes, EndTime(now, ms));
    WaitHolds(db, u, now, ms);
    SameWait(db.vcodes, after.vcodes, u, now + wait);
    SendAdmitted(after, u, again, now + wait);
  }

  // ---------- A run in which the cool-down's wait is too short ----------

  /** The instant of the n-th send of the run below, and of the request after its n sends. */
  function SendTime(n: nat): Instant {
    1 + n * COOLDOWN
  }

  /** A user registers a recovery email and asks for n codes, a minute apart. */
  function Burst(n: nat): seq<Moment> {
    if n == 0 then [Moment(UsersMove([User("a", Active, None)]), 1), Moment(PutMove(0, "e"), 1)]
    else Burst(n - 1) + [Moment(SendMove(0, "000000"), SendTime(n - 1))]
  }

  lemma {:induction false} BurstInOrder(n: nat)
    ensures InOrder(1, Burst(n)) && EndTime(1, Burst(n)) == if n == 0 then 1 else SendTime(n - 1)
  {
    if n > 0 {
      BurstInOrder(n - 1);
    }
  }

  /** The user's email is pending and n codes were issued, the first at 1 and the last a minute before SendTime(n). */
  ghost predicate Sent(db: Tables, n: nat) {
    && PendingEmail(db, 0).1.None? && |db.vcodes| == n
    && (forall i :: 0 <= i < n ==> db.vcodes[i].user == 0 && db.vcodes[i].created == SendTime(i))
  }

  lemma {:induction false} SentAggregates(codes: seq<VCode>, since: int)
    requires since < 1
    requires forall i :: 0 <= i < |codes| ==> codes[i].user == 0 && codes[i].created == SendTime(i)
    ensures CountAfter(codes, 0, since) == |codes|
    ensures LatestCreated(codes, 0) == if codes == [] then None else Some(SendTime(|codes| - 1))
  {
    if codes != [] {
      var n := |codes| - 1;
      assert forall i :: 0 <= i < n ==> codes[..n][i] == codes[i];
      SentAggregates(codes[..n], since);
    }
  }

  lemma FirstMoves()
    ensures Sent(Play(NOTHING, Burst(0)), 0)
  {
    var ms := Burst(0);
    var users := [User("a", Active, None)];
    assert ms[..1] == [ms[0]] && ms[..1][..0] == [] && ms[..|ms| - 1] == ms[..1];
    var one := Play(NOTHING, ms[..1]);
    assert Play(NOTHING, []) == NOTHING;
    assert one == Do(NOTHING, ms[0]).0;
    assert one == Tables(users, [], []);
    assert Play(NOTHING, ms) == Do(one, ms[1]).0;
    assert Do(one, ms[1]).0.emails == [Email(0, "e", Pending, true)];
  }

  lemma SendNotTooEarly(codes: seq<VCode>, n: nat)
    requires n < WINDOW_LIMIT && |codes| == n
    requires forall i :: 0 <= i < n ==> codes[i].user == 0 && codes[i].created == SendTime(i)
    ensures TooEarly(codes, 0, SendTime(n)).None?
  {
    SentAggregates(codes, SendTime(n) - WINDOW);
    hide CountAfter, LatestCreated, OldestAfter;
  }

  /** A send that is prepared keeps whose the codes are and when they were made, and adds one. */
  lemma SentCodes(db: Tables, u: nat, secret: Secret, now: Instant)
    requires PrepareSend(db, u, secret, now).1.SendPrepared?
    ensures var next := PrepareSend(db, u, secret, now).0;
            && next.users == db.users && next.emails == db.emails && |next.vcodes| == |db.vcodes| + 1
            && next.vcodes[|db.vcodes|].user == u && next.vcodes[|db.vcodes|].created == now
            && (forall i :: 0 <= i < |db.vcodes| ==>
                  next.vcodes[i].user == db.vcodes[i].user && next.vcodes[i].created == db.vcodes[i].created)
  {
    hide TooEarly, PendingEmail;
  }

  lemma SamePendingEmail(db: Tables, next: Tables, u: nat)
    requires next.users == db.users && next.emails == db.emails
    ensures PendingEmail(next, u) == PendingEmail(db, u)
  {}

  lemma NextSend(db: Tables, n: nat)
    requires n < WINDOW_LIMIT && Sent(db, n) && AllSound(db.vcodes)
    ensures Sent(PrepareSend(db, 0, "000000", SendTime(n)).0, n + 1)
  {
    SendNotTooEarly(db.vcodes, n);
    hide TooEarly, AllSound;
    var now := SendTime(n);
    SendAdmitted(db, 0, "000000", now);
    SentCodes(db, 0, "000000", now);
    hide PrepareSend, OverdueAll, SupersededAll;
    SamePendingEmail(db, PrepareSend(db, 0, "000000", now).0, 0);
  }

  lemma {:induction false} BurstSent(n: nat)
    requires n <= WINDOW_LIMIT
    ensures Sent(Play(NOTHING, Burst(n)), n) && Steady(Play(NOTHING, Burst(n)).vcodes, SendTime(n))
  {
    hide Steady, Sent, PrepareSend;
    BurstInOrder(n);
    LaterSteady(NOTHING.vcodes, 0, 1) by { NothingSteady(); }
    PlaySteady(NOTHING, 1, Burst(n));
    LaterSteady(Play(NOTHING, Burst(n)).vcodes, EndTime(1, Burst(n)), SendTime(n));
    if n == 0 {
      FirstMoves();
    } else {
      BurstSent(n - 1);
      SteadySound(Play(NOTHING, Burst(n - 1)).vcodes, SendTime(n - 1));
      NextSend(Play(NOTHING, Burst(n - 1)), n - 1);
      assert Burst(n)[..|Burst(n)| - 1] == Burst(n - 1);
    }
  }

  lemma RefusedFor(db: Tables, u: nat, secret: Secret, now: Instant)
    requires AllSound(db.vcodes) && PendingEmail(db, u).1.None? && TooEarly(db.vcodes, u, now).Some?
    ensures PrepareSend(db, u, secret, now).1 == Failure(RateLimit(TooEarly(db.vcodes, u, now).value))
  {
    hide OverdueAll, TooEarly;
    UpdatesBecome(db.vcodes, u, 0, now);
    WaitKept(db.vcodes, OverdueAll(db.vcodes, u, now), u, now);
  }

  /** So the cool-down's retry-after can be too short: after five codes a minute apart, the request
      that is told to wait out the cool-down is refused again at the very instant it was told. */
  lemma CooldownRetryAfterTooShort(secret: Secret, again: Secret)
    ensures var now := SendTime(WINDOW_LIMIT - 1);
            var db := Play(NOTHING, Burst(WINDOW_LIMIT));
            && InOrder(0, Burst(WINDOW_LIMIT)) && EndTime(0, Burst(WINDOW_LIMIT)) == now
            && PrepareSend(db, 0, secret, now).1 == Failure(RateLimit(COOLDOWN))
            && PrepareSend(db, 0, again, now + COOLDOWN).1.Failure?
            && PrepareSend(db, 0, again, now + COOLDOWN).1.problem.RateLimit?
  {
    hide Steady, Burst, Play, PrepareSend, PendingEmail;
    var now, db := SendTime(WINDOW_LIMIT - 1), Play(NOTHING, Burst(WINDOW_LIMIT));
    BurstInOrder(WINDOW_LIMIT);
    BurstSent(WINDOW_LIMIT);
    SteadySound(db.vcodes, SendTime(WINDOW_LIMIT));
    SentAggregates(db.vcodes, now - WINDOW);
    RefusedFor(db, 0, secret, now);
    SentAggregates(db.vcodes, now + COOLDOWN - WINDOW);
    OldestIsOldest(db.vcodes, 0, now + COOLDOWN - WINDOW);
    RefusedFor(db, 0, again, now + COOLDOWN);
  }

  // ---------- A code verifies at most once ----------

  lemma StepKeepsDead(db: Tables, m: Moment, last: int, c: nat)
    requires Steady(db.vcodes, last) && c < |db.vcodes| && !Pendent(db.vcodes[c])
    ensures c < |Do(db, m).0.vcodes| && Do(db, m).0.vcodes[c] == db.vcodes[c]
  {
    if m.move.SendMove? {
      var u := m.move.user;
      var lapsed := OverdueAll(db.vcodes, u, m.at);
      assert lapsed[c] == db.vcodes[c] && SupersededAll(lapsed, u, m.at)[c] == db.vcodes[c];
    } else {
      OthersBecome(db, m);
      hide Do;
      assert BecomesV(db.vcodes[c], Do(db, m).0.vcodes[c]);
    }
  }

  lemma {:induction false} DeadStaysDead(db: Tables, from: int, ms: seq<Moment>, c: nat)
    requires Steady(db.vcodes, from) && InOrder(from, ms) && c < |db.vcodes| && !Pendent(db.vcodes[c])
    ensures c < |Play(db, ms).vcodes| && Play(db, ms).vcodes[c] == db.vcodes[c]
  {
    hide Do, Steady, Pendent;
    if ms != [] {
      var n := |ms| - 1;
      DeadStaysDead(db, from, ms[..n], c);
      PlaySteady(db, from, ms[..n]);
      StepKeepsDead(Play(db, ms[..n]), ms[n], EndTime(from, ms[..n]), c);
    }
  }

  /** What a successful verification rests on: a delivered code of the user's pending current
      email, live, unexpired by the application's clock and with attempts left. */
  lemma VerificationRests(db: Tables, m: Moment, last: int)
    requires Steady(db.vcodes, last) && Allowed(db, m) && Do(db, m).1.EmailConfirmed?
    ensures var (c, e) := (Do(db, m).1.code, Do(db, m).1.email);
            && m.move.VerifyMove? && c < |db.vcodes| && e < |db.emails|
            && CurrentEmail(db.emails, m.move.user) == Some(e) && db.emails[e].status == Pending
            && Do(db, m).0.emails[e].status == Verified
            && db.vcodes[c].user == m.move.user && db.vcodes[c].email == e && db.vcodes[c].secret == m.move.guess
            && db.vcodes[c].sentAt.Some? && db.vcodes[c].attempts < MAX_ATTEMPTS
            && m.move.clock < db.vcodes[c].created + TTL
            && c < |Do(db, m).0.vcodes| && !Pendent(Do(db, m).0.vcodes[c])
  {
    var c := Do(db, m).1.code;
    assert Sound(db.vcodes[c]);
  }

  lemma LiveVerifies(db: Tables, m: Moment)
    requires Do(db, m).1.EmailConfirmed?
    ensures Do(db, m).1.code < |db.vcodes| && Pendent(db.vcodes[Do(db, m).1.code])
  {}

  /** A code that has verified an email never verifies again. */
  lemma VerifiesOnce(db: Tables, m: Moment, last: int, ms: seq<Moment>, again: Moment)
    requires Steady(db.vcodes, last) && last <= m.at && Allowed(db, m) && Do(db, m).1.EmailConfirmed?
    requires InOrder(m.at, ms) && EndTime(m.at, ms) <= again.at
    requires var after := Play(Do(db, m).0, ms); Allowed(after, again) && Do(after, again).1.EmailConfirmed?
    ensures Do(Play(Do(db, m).0, ms), again).1.code != Do(db, m).1.code
  {
    hide Do, Steady, Play, Allowed;
    VerificationRests(db, m, last);
    StepSteady(db, m, last);
    var next, c := Do(db, m).0, Do(db, m).1.code;
    DeadStaysDead(next, m.at, ms, c);
    PlaySteady(next, m.at, ms);
    LiveVerifies(Play(next, ms), again);
  }

  /** The look-up can only return the live code if the user has one for the email. */
  lemma LiveCodeIsPicked(codes: seq<VCode>, last: int, c: nat, pick: Option<nat>)
    requires Steady(codes, last) && c < |codes| && Pendent(codes[c])
    requires IsLatestFor(codes, codes[c].user, codes[c].email, pick)
    ensures pick == Some(c)
  {}

  /** The right guess at a live code for the pending current email, in time by the application's
      clock, verifies that email and uses the code up. */
  lemma RightGuessVerifies(db: Tables, last: int, c: nat, pick: Option<nat>, clock: Instant, now: Instant)
    requires Steady(db.vcodes, last) && c < |db.vcodes| && db.vcodes[c].status == Live && clock < db.vcodes[c].expires
    requires PendingEmail(db, db.vcodes[c].user) == (db.vcodes[c].email, None)
    requires IsLatestFor(db.vcodes, db.vcodes[c].user, db.vcodes[c].email, pick)
    ensures var (next, answer) := VerifyEmail(db, db.vcodes[c].user, db.vcodes[c].secret, pick, clock, now);
            && answer == EmailConfirmed(c, db.vcodes[c].email) && db.vcodes[c].email < |next.emails|
            && next.emails == db.emails[db.vcodes[c].email := db.emails[db.vcodes[c].email].(status := Verified)]
            && c < |next.vcodes| && next.vcodes[c].status == Used
  {
    LiveCodeIsPicked(db.vcodes, last, c, pick);
  }

  // ---------- Wrong guesses ----------

  /** A guess that was compared with code c and did not match. */
  predicate WrongFor(db: Tables, m: Moment, c: nat) {
    && m.move.VerifyMove? && m.move.pick == Some(c) && c < |db.vcodes| && db.vcodes[c].status == Live
    && (Do(db, m).1 == Failure(Mismatch) || Do(db, m).1 == Failure(Exhausted))
  }

  function WrongGuessesFor(db: Tables, ms: seq<Moment>, c: nat): nat {
    if ms == [] then 0
    else
      WrongGuessesFor(db, ms[..|ms| - 1], c) +
      if WrongFor(Play(db, ms[..|ms| - 1]), ms[|ms| - 1], c) then 1 else 0
  }

  lemma StepCounts(db: Tables, m: Moment, last: int, c: nat)
    requires Steady(db.vcodes, last) && c < |db.vcodes|
    ensures c < |Do(db, m).0.vcodes|
    ensures Do(db, m).0.vcodes[c].attempts >= db.vcodes[c].attempts + if WrongFor(db, m, c) then 1 else 0
  {
    if m.move.SendMove? {
      var u := m.move.user;
      var lapsed := OverdueAll(db.vcodes, u, m.at);
      assert lapsed[c].attempts == db.vcodes[c].attempts
               && SupersededAll(lapsed, u, m.at)[c].attempts == db.vcodes[c].attempts;
    } else if WrongFor(db, m, c) {
      assert Do(db, m).0.vcodes[c] == MissedGuess(db.vcodes[c], m.at);
    } else {
      OthersBecome(db, m);
      hide Do;
      assert BecomesV(db.vcodes[c], Do(db, m).0.vcodes[c]);
    }
  }

  lemma {:induction false} GuessesCount(db: Tables, from: int, ms: seq<Moment>, c: nat)
    requires Steady(db.vcodes, from) && InOrder(from, ms) && c < |db.vcodes|
    ensures c < |Play(db, ms).vcodes|
    ensures Play(db, ms).vcodes[c].attempts >= db.vcodes[c].attempts + WrongGuessesFor(db, ms, c)
  {
    hide Do, Steady, WrongFor;
    if ms != [] {
      var n := |ms| - 1;
      GuessesCount(db, from, ms[..n], c);
      PlaySteady(db, from, ms[..n]);
      StepCounts(Play(db, ms[..n]), ms[n], EndTime(from, ms[..n]), c);
    }
  }

  /** Over any run, at most MAX_ATTEMPTS wrong guesses at one code are evaluated. */
  lemma GuessesPerCode(db: Tables, from: int, ms: seq<Moment>, c: nat)
    requires Steady(db.vcodes, from) && InOrder(from, ms) && c < |db.vcodes|
    ensures db.vcodes[c].attempts + WrongGuessesFor(db, ms, c) <= MAX_ATTEMPTS
  {
    GuessesCount(db, from, ms, c);
    PlaySteady(db, from, ms);
    assert Sound(Play(db, ms).vcodes[c]);
  }
}
