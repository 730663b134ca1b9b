/** Query-code recovery by emailed code (backend/internal/querycoderecovery): the tables and
    every store transaction as a function of the tables before, the inputs and the transaction's
    clock. A prepared send, its confirmation, a failed delivery, a verification and a reset are
    separate transactions, so in-flight sends interleave with everything else, including the
    transactions of the user administration that retire codes and sessions.
    Hashes are injective: a row holds the secret itself. */
module Recovery {
  import opened Text

  /** The database clock, in microseconds. */
  type Instant = t: int | 0 < t witness 1

  const SECOND: int := 1_000_000
  const CODE_TTL: int := 600 * SECOND
  const TOKEN_TTL: int := 600 * SECOND
  const COOLDOWN: int := 60 * SECOND
  const WINDOW: int := 3600 * SECOND
  const STALE_SEND: int := 120 * SECOND
  const WINDOW_LIMIT: nat := 5
  const IP_WINDOW_LIMIT: nat := 20
  const MAX_ATTEMPTS: nat := 5
  const CODE_LENGTH: nat := 6

  // ---------- Tables ----------

  datatype UserStatus = Active | Disabled | Merged
  /** `queryCode` stands for query_code_hash; None is its null or empty value. */
  datatype User = User(cn: string, status: UserStatus, queryCode: Option<string>)

  datatype EmailStatus = Pending | Verified | Off
  datatype Email = Email(user: nat, lookup: string, status: EmailStatus, current: bool)

  datatype CodeStatus = Sending | Live | Used | Locked | Expired | Invalidated | DeliveryFailed
  datatype Code = Code(
    user: nat, email: nat, cn: string, secret: Secret, created: int, expires: int,
    status: CodeStatus, attempts: nat, maxAttempts: nat,
    sentAt: Option<int>, usedAt: Option<int>, invalidatedAt: Option<int>)

  datatype SessionStatus = Open | Spent | Lapsed | Cancelled
  datatype Session = Session(
    user: nat, email: nat, token: string, expires: int,
    status: SessionStatus, usedAt: Option<int>, invalidatedAt: Option<int>)

  datatype Request = Request(cn: string, ip: string, at: int)

  /** Rows are never deleted: a row's id is its index. */
  datatype Db = Db(users: seq<User>, emails: seq<Email>, codes: seq<Code>, sessions: seq<Session>,
                   requests: seq<Request>)

  const EMPTY := Db([], [], [], [], [])

  datatype Error =
    | Unavailable | InvalidCode | NotEligible | RateLimited | Rejected | CodeMismatch | AttemptsExhausted
    | DeliveryError | SameQueryCode | NotFound | ConstraintViolation | InvalidToken | InvalidQueryCode

  datatype Reply =
    | Done
    | Prepared(code: nat)
    | CodeVerified(code: nat, session: nat)
    | ResetDone(session: nat, cn: string)
    | Refused(error: Error)

  predicate ValidCode(code: string) {
    |code| == CODE_LENGTH && forall ch :: ch in code ==> '0' <= ch <= '9'
  }

  /** A generated code. */
  type Secret = s: string | ValidCode(s) witness "000000"

  // ---------- Row predicates and row updates ----------

  predicate InFlight(c: Code) {
    c.status == Sending || c.status == Live
  }

  /** coalesce(invalidated_at, now()) */
  function Stamp(t: Option<int>, now: Instant): Option<int> {
    if t.Some? then t else Some(now)
  }

  function Kill(c: Code, status: CodeStatus, now: Instant): Code {
    c.(status := status, invalidatedAt := Stamp(c.invalidatedAt, now))
  }

  function KillSession(s: Session, status: SessionStatus, now: Instant): Session {
    s.(status := status, invalidatedAt := Stamp(s.invalidatedAt, now))
  }

  /** Marks a user's overdue codes: live ones past their expiry, and sends unanswered for two minutes. */
  function LapseCode(c: Code, u: nat, now: Instant): Code {
    if c.user == u && c.status == Live && c.invalidatedAt.None? && c.expires <= now then Kill(c, Expired, now)
    else if c.user == u && c.status == Sending && c.invalidatedAt.None? && c.created <= now - STALE_SEND
      then Kill(c, DeliveryFailed, now)
    else c
  }

  function RetireCode(c: Code, u: nat, now: Instant): Code {
    if c.user == u && InFlight(c) && c.invalidatedAt.None? then Kill(c, Invalidated, now) else c
  }

  function RetireCodeOfEmail(c: Code, e: nat, now: Instant): Code {
    if c.email == e && InFlight(c) && c.invalidatedAt.None? then Kill(c, Invalidated, now) else c
  }

  function LapseSession(s: Session, u: nat, now: Instant): Session {
    if s.user == u && s.status == Open && s.invalidatedAt.None? && s.expires <= now then KillSession(s, Lapsed, now)
    else s
  }

  function RetireSession(s: Session, u: nat, now: Instant): Session {
    if s.user == u && s.status == Open && s.invalidatedAt.None? then KillSession(s, Cancelled, now) else s
  }

  function RetireSessionOfEmail(s: Session, e: nat, now: Instant): Session {
    if s.email == e && s.status == Open && s.invalidatedAt.None? then KillSession(s, Cancelled, now) else s
  }

  function LapseCodes(codes: seq<Code>, u: nat, now: Instant): seq<Code> {
    seq(|codes|, i requires 0 <= i < |codes| => LapseCode(codes[i], u, now))
  }

  function RetireCodes(codes: seq<Code>, u: nat, now: Instant): seq<Code> {
    seq(|codes|, i requires 0 <= i < |codes| => RetireCode(codes[i], u, now))
  }

  function RetireCodesOfEmail(codes: seq<Code>, e: nat, now: Instant): seq<Code> {
    seq(|codes|, i requires 0 <= i < |codes| => RetireCodeOfEmail(codes[i], e, now))
  }

  function LapseSessions(sessions: seq<Session>, u: nat, now: Instant): seq<Session> {
    seq(|sessions|, i requires 0 <= i < |sessions| => LapseSession(sessions[i], u, now))
  }

  function RetireSessions(sessions: seq<Session>, u: nat, now: Instant): seq<Session> {
    seq(|sessions|, i requires 0 <= i < |sessions| => RetireSession(sessions[i], u, now))
  }

  function RetireSessionsOfEmail(sessions: seq<Session>, e: nat, now: Instant): seq<Session> {
    seq(|sessions|, i requires 0 <= i < |sessions| => RetireSessionOfEmail(sessions[i], e, now))
  }

  // ---------- Look-ups ----------

  /** The user's email that has not been replaced or unbound; a unique index allows only one. */
  function CurrentEmail(emails: seq<Email>, u: nat): Option<nat> {
    if emails == [] then None
    else
      var n := |emails| - 1;
      if emails[n].user == u && emails[n].current then Some(n) else CurrentEmail(emails[..n], u)
  }

  predicate IssuedFor(c: Code, u: nat, e: nat) {
    c.user == u && c.email == e
  }

  /** The pair's codes created in [from, to). */
  function IssuedIn(codes: seq<Code>, u: nat, e: nat, from: int, to: int): nat {
    if codes == [] then 0
    else
      var n := |codes| - 1;
      IssuedIn(codes[..n], u, e, from, to) + if IssuedFor(codes[n], u, e) && from <= codes[n].created < to then 1 else 0
  }

  /** max(created_at) + Cooldown is still ahead. */
  predicate CoolingDown(codes: seq<Code>, u: nat, e: nat, now: Instant) {
    exists i :: 0 <= i < |codes| && IssuedFor(codes[i], u, e) && now < codes[i].created + COOLDOWN
  }

  function RequestsFor(requests: seq<Request>, cn: string, now: Instant): nat {
    if requests == [] then 0
    else
      var n := |requests| - 1;
      RequestsFor(requests[..n], cn, now) + if requests[n].cn == cn && requests[n].at > now - WINDOW then 1 else 0
  }

  function RequestsFrom(requests: seq<Request>, ip: string, now: Instant): nat {
    if requests == [] then 0
    else
      var n := |requests| - 1;
      RequestsFrom(requests[..n], ip, now) + if requests[n].ip == ip && requests[n].at > now - WINDOW then 1 else 0
  }

  /** `order by created_at desc limit 1`: a row of the pair none of whose siblings is newer. */
  predicate IsLatest(codes: seq<Code>, u: nat, e: nat, c: nat) {
    && c < |codes| && IssuedFor(codes[c], u, e)
    && forall i :: 0 <= i < |codes| && IssuedFor(codes[i], u, e) ==> codes[i].created <= codes[c].created
  }

  /** The row the query may return; the order among rows created at one instant is the database's. */
  predicate PicksLatest(codes: seq<Code>, u: nat, e: nat, pick: Option<nat>) {
    match pick
    case None => forall i :: 0 <= i < |codes| ==> !IssuedFor(codes[i], u, e)
    case Some(c) => IsLatest(codes, u, e, c)
  }

  /** The row a look-up by normalised CN may return. */
  predicate PicksUser(users: seq<User>, cn: string, row: Option<nat>) {
    match row
    case None => forall i :: 0 <= i < |users| ==> FoldCN(users[i].cn) != cn
    case Some(u) => u < |users| && FoldCN(users[u].cn) == cn
  }

  function FindToken(sessions: seq<Session>, token: string): Option<nat> {
    if sessions == [] then None
    else
      var n := |sessions| - 1;
      if sessions[n].token == token then Some(n) else FindToken(sessions[..n], token)
  }

  // ---------- The store transactions ----------

  function NewCode(u: nat, e: nat, cn: string, secret: Secret, now: Instant): Code {
    Code(u, e, cn, secret, now, now + CODE_TTL, Sending, 0, MAX_ATTEMPTS, None, None, None)
  }

  /** PrepareRequest. Refusals after the request has been counted still commit what was written. */
  function Prepare(db: Db, cnInput: string, ipInput: string, row: Option<nat>, secret: Secret,
                   now: Instant): (Db, Reply) {
    var cn, ip := FoldCN(cnInput), Trim(ipInput);
    if cn == "" || ip == "" then (db, Refused(Unavailable))
    else
      var counted := db.(requests := db.requests + [Request(cn, ip, now)]);
      if RequestsFor(db.requests, cn, now) >= WINDOW_LIMIT || RequestsFrom(db.requests, ip, now) >= IP_WINDOW_LIMIT then
        (counted, Refused(RateLimited))
      else if row.None? || row.value >= |db.users| || !Eligible(db.users[row.value])
        then (counted, Refused(NotEligible))
      else
        var current := CurrentEmail(db.emails, row.value);
        if current.None? || current.value >= |db.emails| || db.emails[current.value].status != Verified
        then (counted, Refused(NotEligible))
        else Issue(counted, row.value, current.value, cn, secret, now)
  }

  predicate Eligible(user: User) {
    user.status == Active && user.queryCode.Some?
  }

  /** The part of PrepareRequest after the eligibility checks. */
  function Issue(db: Db, u: nat, e: nat, cn: string, secret: Secret, now: Instant): (Db, Reply) {
    var lapsed := db.(codes := LapseCodes(db.codes, u, now), sessions := LapseSessions(db.sessions, u, now));
    if CoolingDown(lapsed.codes, u, e, now)
      || IssuedIn(lapsed.codes, u, e, now - WINDOW + 1, now + 1) >= WINDOW_LIMIT then
      (lapsed, Refused(RateLimited))
    else
      var cleared := lapsed.(codes := RetireCodes(lapsed.codes, u, now),
                             sessions := RetireSessions(lapsed.sessions, u, now));
      (cleared.(codes := cleared.codes + [NewCode(u, e, cn, secret, now)]), Prepared(|db.codes|))
  }

  function ConfirmSent(db: Db, c: nat, u: nat, e: nat, now: Instant): (Db, Reply) {
    if u >= |db.users| then (db, Refused(NotFound))
    else if db.users[u].status != Active then (db, Refused(Rejected))
    else if e >= |db.emails| || db.emails[e].user != u || !db.emails[e].current || db.emails[e].status != Verified
      then (db, Refused(Rejected))
    else if c >= |db.codes| || !IssuedFor(db.codes[c], u, e) then (db, Refused(NotFound))
    else if db.codes[c].status != Sending then (db, Refused(Rejected))
    else (db.(codes := db.codes[c := db.codes[c].(status := Live, sentAt := Some(now))]), Done)
  }

  function MarkDeliveryFailed(db: Db, c: nat, u: nat, now: Instant): Db {
    if c < |db.codes| && db.codes[c].user == u && db.codes[c].status == Sending
    then db.(codes := db.codes[c := Kill(db.codes[c], DeliveryFailed, now)])
    else db
  }

  /** The code row after a wrong guess: one more attempt, and locked once they are used up. */
  function Missed(c: Code, now: Instant): Code {
    var d := c.(attempts := c.attempts + 1);
    if d.attempts >= c.maxAttempts then Kill(d, Locked, now) else d
  }

  predicate Matches(c: Code, cn: string, guess: string) {
    cn != "" && c.cn == cn && c.secret == guess
  }

  function VerifyCode(db: Db, cnInput: string, guess: string, row: Option<nat>, pick: Option<nat>, token: string,
                      now: Instant): (Db, Reply) {
    var cn := FoldCN(cnInput);
    if !ValidCode(guess) then (db, Refused(InvalidCode))
    else if row.None? || row.value >= |db.users| || db.users[row.value].status != Active then (db, Refused(Rejected))
    else
      var current := CurrentEmail(db.emails, row.value);
      if current.None? || current.value >= |db.emails| || db.emails[current.value].status != Verified
      then (db, Refused(Rejected))
      else if pick.None? || pick.value >= |db.codes| then (db, Refused(Rejected))
      else CheckGuess(db, row.value, current.value, pick.value, cn, guess, token, now)
  }

  /** The part of VerifyCode after the latest code row has been read. */
  function CheckGuess(db: Db, u: nat, e: nat, c: nat, cn: string, guess: string, token: string,
                      now: Instant): (Db, Reply)
    requires c < |db.codes|
  {
    var code := db.codes[c];
    if code.status == Locked then (db, Refused(AttemptsExhausted))
    else if code.status != Live then (db, Refused(Rejected))
    else if code.expires <= now then (db.(codes := db.codes[c := Kill(code, Expired, now)]), Refused(Rejected))
    else if !Matches(code, cn, guess) then
      (db.(codes := db.codes[c := Missed(code, now)]),
       Refused(if code.attempts + 1 >= code.maxAttempts then AttemptsExhausted else CodeMismatch))
    else if FindToken(db.sessions, token).Some? then (db, Refused(ConstraintViolation))
    else Accept(db, u, e, c, token, now)
  }

  /** A right guess: the code is used up, everything else of the user's is retired, and a reset session opens. */
  function Accept(db: Db, u: nat, e: nat, c: nat, token: string, now: Instant): (Db, Reply)
    requires c < |db.codes|
  {
    var used := db.codes[c := db.codes[c].(status := Used, usedAt := Some(now))];
    (db.(codes := RetireCodes(used, u, now),
         sessions := RetireSessions(db.sessions, u, now) + [Session(u, e, token, now + TOKEN_TTL, Open, None, None)]),
     CodeVerified(c, |db.sessions|))
  }

  function ResetQueryCode(db: Db, token: string, newCode: string, now: Instant): (Db, Reply) {
    var found := FindToken(db.sessions, token);
    if found.None? || found.value >= |db.sessions| then (db, Refused(Rejected))
    else
      var (s, u) := (db.sessions[found.value], db.sessions[found.value].user);
      if u >= |db.users| then (db, Refused(NotFound))
      else if !Eligible(db.users[u]) then (db, Refused(Rejected))
      else
        var current := CurrentEmail(db.emails, u);
        if current != Some(s.email) || s.email >= |db.emails| || db.emails[s.email].status != Verified
        then (db, Refused(Rejected))
        else if s.status != Open then (db, Refused(Rejected))
        else if s.expires <= now
          then (db.(sessions := db.sessions[found.value := KillSession(s, Lapsed, now)]), Refused(Rejected))
        else if db.users[u].queryCode == Some(newCode) then (db, Refused(SameQueryCode))
        else Complete(db, found.value, newCode, now)
  }

  function Complete(db: Db, s: nat, newCode: string, now: Instant): (Db, Reply)
    requires s < |db.sessions| && db.sessions[s].user < |db.users|
  {
    var u := db.sessions[s].user;
    var spent := db.sessions[s := db.sessions[s].(status := Spent, usedAt := Some(now))];
    (db.(users := db.users[u := db.users[u].(queryCode := Some(newCode))],
         codes := RetireCodes(db.codes, u, now),
         sessions := RetireSessions(spent, u, now)),
     ResetDone(s, db.users[u].cn))
  }

  // ---------- What the rest of the system does to these tables ----------

  /** PutRecoveryEmail: registers or replaces the address; the same address again changes nothing. */
  function PutEmail(db: Db, u: nat, lookup: string, now: Instant): (Db, Reply) {
    if u >= |db.users| then (db, Refused(NotFound))
    else if db.users[u].status == Merged then (db, Refused(Rejected))
    else
      var current := CurrentEmail(db.emails, u);
      if current.Some? && current.value < |db.emails| && db.emails[current.value].lookup == lookup then (db, Done)
      else
        var dropped := if current.Some? then DropEmail(db, current.value, now) else db;
        (dropped.(emails := dropped.emails + [Email(u, lookup, Pending, true)]), Done)
  }

  function DropEmail(db: Db, e: nat, now: Instant): Db {
    db.(emails := if e < |db.emails| then db.emails[e := db.emails[e].(status := Off, current := false)] else db.emails,
        codes := RetireCodesOfEmail(db.codes, e, now),
        sessions := RetireSessionsOfEmail(db.sessions, e, now))
  }

  function UnbindEmail(db: Db, u: nat, now: Instant): (Db, Reply) {
    if u >= |db.users| then (db, Refused(NotFound))
    else if db.users[u].status == Merged then (db, Refused(Rejected))
    else
      var current := CurrentEmail(db.emails, u);
      (if current.Some? then DropEmail(db, current.value, now) else db, Done)
  }

  /** What a successful verification of the recovery email (module EmailVerification) does here. */
  function MarkEmailVerified(db: Db, u: nat): (Db, Reply) {
    var current := CurrentEmail(db.emails, u);
    if current.None? || current.value >= |db.emails| || db.emails[current.value].status != Pending
    then (db, Refused(Rejected))
    else (db.(emails := db.emails[current.value := db.emails[current.value].(status := Verified)]), Done)
  }

  /** SetQueryAccessStatus to "disabled" or "active". */
  function SetAccess(db: Db, u: nat, enabled: bool, now: Instant): (Db, Reply) {
    if u >= |db.users| || db.users[u].status == Merged then (db, Refused(NotFound))
    else
      var changed := db.(users := db.users[u := db.users[u].(status := if enabled then Active else Disabled)]);
      (if enabled then changed
       else changed.(codes := RetireCodes(db.codes, u, now), sessions := RetireSessions(db.sessions, u, now)), Done)
  }

  /** What MergeUsers does to these tables. */
  function MergeUsers(db: Db, source: nat, target: nat, now: Instant): (Db, Reply) {
    if source == target then (db, Refused(Rejected))
    else if source >= |db.users| || target >= |db.users| then (db, Refused(NotFound))
    else if db.users[source].status == Merged || db.users[target].status != Active then (db, Refused(Rejected))
    else (db.(users := db.users[source := db.users[source].(status := Merged, queryCode := None)],
              codes := RetireCodes(db.codes, source, now),
              sessions := RetireSessions(db.sessions, source, now)), Done)
  }

  /** Any other write of a query code: by an administrator, by the user or with a bind token. */
  function SetQueryCode(db: Db, u: nat, code: string): (Db, Reply) {
    if u >= |db.users| then (db, Refused(NotFound))
    else (db.(users := db.users[u := db.users[u].(queryCode := Some(code))]), Done)
  }

  function AddUser(db: Db, cn: string): (Db, Reply) {
    (db.(users := db.users + [User(cn, Active, None)]), Done)
  }

  // ---------- Runs ----------

  datatype Step =
    | PrepareStep(cn: string, ip: string, row: Option<nat>, secret: Secret)
    | ConfirmStep(code: nat, user: nat, email: nat)
    | FailStep(code: nat, user: nat)
    | VerifyStep(cn: string, guess: string, row: Option<nat>, pick: Option<nat>, token: string)
    | ResetStep(token: string, newCode: string)
    | PutEmailStep(user: nat, lookup: string)
    | UnbindStep(user: nat)
    | EmailVerifiedStep(user: nat)
    | AccessStep(user: nat, enabled: bool)
    | MergeStep(source: nat, target: nat)
    | SetCodeStep(user: nat, newCode: string)
    | AddUserStep(cn: string)

  datatype Event = Event(step: Step, at: Instant)

  function Apply(db: Db, e: Event): (Db, Reply) {
    match e.step
    case PrepareStep(cn, ip, row, secret) => Prepare(db, cn, ip, row, secret, e.at)
    case ConfirmStep(c, u, m) => ConfirmSent(db, c, u, m, e.at)
    case FailStep(c, u) => (MarkDeliveryFailed(db, c, u, e.at), Done)
    case VerifyStep(cn, guess, row, pick, token) => VerifyCode(db, cn, guess, row, pick, token, e.at)
    case ResetStep(token, newCode) => ResetQueryCode(db, token, newCode, e.at)
    case PutEmailStep(u, lookup) => PutEmail(db, u, lookup, e.at)
    case UnbindStep(u) => UnbindEmail(db, u, e.at)
    case EmailVerifiedStep(u) => MarkEmailVerified(db, u)
    case AccessStep(u, enabled) => SetAccess(db, u, enabled, e.at)
    case MergeStep(source, target) => MergeUsers(db, source, target, e.at)
    case SetCodeStep(u, code) => SetQueryCode(db, u, code)
    case AddUserStep(cn) => AddUser(db, cn)
  }

  function Next(db: Db, e: Event): Db {
    Apply(db, e).0
  }

  function ReplyTo(db: Db, e: Event): Reply {
    Apply(db, e).1
  }

  /** The rows the event says its look-ups return are rows they can return. */
  predicate Offered(db: Db, e: Event) {
    match e.step
    case PrepareStep(cn, _, row, _) => PicksUser(db.users, FoldCN(cn), row)
    case VerifyStep(cn, _, row, pick, _) =>
      && PicksUser(db.users, FoldCN(cn), row)
      && (row.Some? && CurrentEmail(db.emails, row.value).Some? ==>
            PicksLatest(db.codes, row.value, CurrentEmail(db.emails, row.value).value, pick))
    case _ => true
  }

  /** The tables after a run. */
  function Run(es: seq<Event>): Db {
    if es == [] then EMPTY else Next(Run(es[..|es| - 1]), es[|es| - 1])
  }

  /** A run that can happen: time never runs backwards and look-ups return rows they can return. */
  ghost predicate Possible(es: seq<Event>) {
    && (forall i, j :: 0 <= i < j < |es| ==> es[i].at <= es[j].at)
    && (forall i :: 0 <= i < |es| ==> Offered(Run(es[..i]), es[i]))
  }

  function LastTime(es: seq<Event>): int {
    if es == [] then 0 else es[|es| - 1].at
  }

  lemma PossiblePrefix(es: seq<Event>, n: nat)
    requires Possible(es) && n <= |es|
    ensures Possible(es[..n])
  {
    hide Offered, Run;
    assert forall i :: 0 <= i < n ==> es[..n][i] == es[i] && es[..n][..i] == es[..i];
  }

  lemma PossibleInit(es: seq<Event>)
    requires Possible(es) && es != []
    ensures Possible(es[..|es| - 1]) && LastTime(es[..|es| - 1]) <= es[|es| - 1].at
    ensures Offered(Run(es[..|es| - 1]), es[|es| - 1])
  {
    PossiblePrefix(es, |es| - 1);
  }
}
