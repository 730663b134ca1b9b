/** The recovery store's methods with the tables as fields, statement by statement: look-ups,
    aggregates and updates are scans over the rows. Each method is proved against its transaction in
    module Recovery, keeps the tables' invariant and says when it goes through. The service's
    Request must leave no send undecided whatever other transactions commit while its mail is under
    way. A transaction that does not commit leaves the tables as they were. */
module RecoveryStore {
  import opened Text
  import opened Recovery
  import opened RecoveryInvariant
  import opened RecoveryWindows
  import opened RecoveryAdmission

  // ---------- Reading rows ----------

  /** The email row of the user's that has not been invalidated. */
  method FindCurrentEmail(emails: seq<Email>, u: nat) returns (found: Option<nat>)
    ensures found == CurrentEmail(emails, u)
  {
    found := None;
    for i := 0 to |emails|
      invariant found == CurrentEmail(emails[..i], u)
    {
      assert emails[..i + 1][..i] == emails[..i];
      if emails[i].user == u && emails[i].current { found := Some(i); }
    }
    assert emails[..|emails|] == emails;
  }

  /** The session row that holds the token; the column is unique. */
  method FindSession(sessions: seq<Session>, token: string) returns (found: Option<nat>)
    ensures found == FindToken(sessions, token)
  {
    found := None;
    for i := 0 to |sessions|
      invariant found == FindToken(sessions[..i], token)
    {
      assert sessions[..i + 1][..i] == sessions[..i];
      if sessions[i].token == token { found := Some(i); }
    }
    assert sessions[..|sessions|] == sessions;
  }

  /** The two filtered counts over the request log. */
  method CountRequests(requests: seq<Request>, cn: string, ip: string, now: Instant) returns (forCn: nat, fromIp: nat)
    ensures forCn == RequestsFor(requests, cn, now) && fromIp == RequestsFrom(requests, ip, now)
  {
    forCn, fromIp := 0, 0;
    for i := 0 to |requests|
      invariant forCn == RequestsFor(requests[..i], cn, now) && fromIp == RequestsFrom(requests[..i], ip, now)
    {
      assert requests[..i + 1][..i] == requests[..i];
      if requests[i].at > now - WINDOW {
        if requests[i].cn == cn { forCn := forCn + 1; }
        if requests[i].ip == ip { fromIp := fromIp + 1; }
      }
    }
    assert requests[..|requests|] == requests;
  }

  /** The pair's latest code, its oldest one inside the window and how many are inside it: they tell
      whether the pair is cooling down and how many codes its window holds. */
  method MeasureWindow(codes: seq<Code>, u: nat, e: nat, now: Instant)
    returns (latest: Option<int>, oldest: Option<int>, count: nat)
    requires forall i :: 0 <= i < |codes| ==> codes[i].created <= now
    ensures CoolingDown(codes, u, e, now) <==> latest.Some? && now < latest.value + COOLDOWN
    ensures count == IssuedIn(codes, u, e, now - WINDOW + 1, now + 1)
    ensures oldest.Some? <==> count > 0
  {
    latest, oldest, count := None, None, 0;
    for i := 0 to |codes|
      invariant latest.Some? ==> exists j :: 0 <= j < i && IssuedFor(codes[j], u, e) && codes[j].created == latest.value
      invariant forall j :: 0 <= j < i && IssuedFor(codes[j], u, e) ==> latest.Some? && codes[j].created <= latest.value
      invariant count == IssuedIn(codes[..i], u, e, now - WINDOW + 1, now + 1)
      invariant oldest.Some? <==> count > 0
    {
      assert codes[..i + 1][..i] == codes[..i];
      var code := codes[i];
      if IssuedFor(code, u, e) {
        if latest.None? || latest.value < code.created { latest := Some(code.created); }
        if code.created > now - WINDOW {
          if oldest.None? || code.created < oldest.value { oldest := Some(code.created); }
          count := count + 1;
        }
      }
    }
    assert codes[..|codes|] == codes;
  }

  // ---------- Retiring sessions ----------

  /** Every session of the user's is retired but the one that is kept. */
  ghost predicate RetiredBut(sessions: seq<Session>, after: seq<Session>, kept: Option<nat>, u: nat, now: Instant) {
    && |after| == |sessions|
    && forall i :: 0 <= i < |sessions| ==>
         after[i] == if kept == Some(i) then sessions[i] else RetireSession(sessions[i], u, now)
  }

  lemma AllRetired(sessions: seq<Session>, after: seq<Session>, u: nat, now: Instant)
    requires RetiredBut(sessions, after, None, u, now)
    ensures after == RetireSessions(sessions, u, now)
  {}

  /** Keeping a session and then marking it spent is marking it first. */
  lemma KeptIsSpent(sessions: seq<Session>, after: seq<Session>, s: nat, u: nat, now: Instant)
    requires s < |sessions| && RetiredBut(sessions, after, Some(s), u, now)
    ensures var spent := sessions[s].(status := Spent, usedAt := Some(now));
            |after| == |sessions| && after[s := spent] == RetireSessions(sessions[s := spent], u, now)
  {}

  // ---------- The store ----------

  class Store {
    var users: seq<User>
    var emails: seq<Email>
    var codes: seq<Code>
    var sessions: seq<Session>
    var requests: seq<Request>

    constructor ()
      ensures Contents() == EMPTY && Valid(0)
    {
      users, emails, codes, sessions, requests := [], [], [], [], [];
    }

    function Contents(): Db
      reads this
    {
      Db(users, emails, codes, sessions, requests)
    }

    /** The tables are as some run up to this instant can leave them. */
    ghost predicate Valid(now: int)
      reads this
    {
      Inv(Contents(), now)
    }

    /** The three updates that mark a user's overdue codes and sessions. */
    method LapseOverdue(u: nat, now: Instant)
      modifies this`codes, this`sessions
      ensures codes == LapseCodes(old(codes), u, now) && sessions == LapseSessions(old(sessions), u, now)
      ensures |codes| == |old(codes)| && forall i :: 0 <= i < |codes| ==> codes[i].created == old(codes)[i].created
    {
      for i := 0 to |codes|
        invariant |codes| == |old(codes)| && sessions == old(sessions)
        invariant forall j :: 0 <= j < i ==>
                    codes[j] == if old(codes)[j].status == Live then LapseCode(old(codes)[j], u, now) else old(codes)[j]
        invariant forall j :: i <= j < |codes| ==> codes[j] == old(codes)[j]
      {
        var c := codes[i];
        if c.user == u && c.status == Live && c.invalidatedAt.None? && c.expires <= now {
          codes := codes[i := Kill(c, Expired, now)];
        }
      }
      ghost var expired := codes;
      for i := 0 to |codes|
        invariant |codes| == |old(codes)| && sessions == old(sessions)
        invariant forall j :: 0 <= j < i ==> codes[j] == LapseCode(old(codes)[j], u, now)
        invariant forall j :: i <= j < |codes| ==> codes[j] == expired[j]
      {
        var c := codes[i];
        if c.user == u && c.status == Sending && c.invalidatedAt.None? && c.created <= now - STALE_SEND {
          codes := codes[i := Kill(c, DeliveryFailed, now)];
        }
      }
      for i := 0 to |sessions|
        invariant |sessions| == |old(sessions)| && codes == LapseCodes(old(codes), u, now)
        invariant forall j :: 0 <= j < i ==> sessions[j] == LapseSession(old(sessions)[j], u, now)
        invariant forall j :: i <= j < |sessions| ==> sessions[j] == old(sessions)[j]
      {
        var s := sessions[i];
        if s.user == u && s.status == Open && s.invalidatedAt.None? && s.expires <= now {
          sessions := sessions[i := KillSession(s, Lapsed, now)];
        }
      }
    }

    /** The two updates that retire a user's codes and sessions, but for a used code, which need not be
        excepted, and a session that is kept. */
    method RetireSecrets(u: nat, keptCode: Option<nat>, keptSession: Option<nat>, now: Instant)
      requires keptCode.Some? && keptCode.value < |codes| ==> !InFlight(codes[keptCode.value])
      modifies this`codes, this`sessions
      ensures codes == RetireCodes(old(codes), u, now) && |codes| == |old(codes)|
      ensures RetiredBut(old(sessions), sessions, keptSession, u, now)
    {
      for i := 0 to |codes|
        invariant |codes| == |old(codes)| && sessions == old(sessions)
        invariant forall j :: 0 <= j < i ==> codes[j] == RetireCode(old(codes)[j], u, now)
        invariant forall j :: i <= j < |codes| ==> codes[j] == old(codes)[j]
      {
        var c := codes[i];
        if c.user == u && keptCode != Some(i) && (c.status == Sending || c.status == Live) && c.invalidatedAt.None? {
          codes := codes[i := Kill(c, Invalidated, now)];
        }
      }
      ghost var retired := codes;
      for i := 0 to |sessions|
        invariant |sessions| == |old(sessions)| && codes == retired
        invariant forall j :: 0 <= j < i ==>
                    sessions[j] == if keptSession == Some(j) then old(sessions)[j]
                      else RetireSession(old(sessions)[j], u, now)
        invariant forall j :: i <= j < |sessions| ==> sessions[j] == old(sessions)[j]
      {
        var s := sessions[i];
        if s.user == u && keptSession != Some(i) && s.status == Open && s.invalidatedAt.None? {
          sessions := sessions[i := KillSession(s, Cancelled, now)];
        }
      }
    }

    /** A request is prepared exactly when nothing stands against it, and its code is then the only
        secret the user has in play. */
    method PrepareRequest(cnInput: string, ipInput: string, row: Option<nat>, secret: Secret, now: Instant)
      returns (reply: Reply)
      requires Valid(now)
      modifies this
      ensures Valid(now)
      ensures (Contents(), reply) == Prepare(old(Contents()), cnInput, ipInput, row, secret, now)
      ensures reply.Prepared? <==>
                row.Some? && exists e: nat ::
                  MayRequest(old(Contents()), row.value, e, FoldCN(cnInput), Trim(ipInput), now)
      ensures reply.Prepared? ==> reply.code == |old(codes)| && Sole(Contents(), row.value, CodeKey(reply.code))
    {
      hide Inv, Sole, MayRequest, CoolingDown, IssuedIn, RequestsFor, RequestsFrom;
      hide LapseCodes, LapseSessions, RetireCodes, RetireSessions, RetiredBut;
      PreparedExactly(Contents(), cnInput, ipInput, row, secret, now);
      PrepareKeepsInv(Contents(), cnInput, ipInput, row, secret, now, now);
      SpacedOf(Contents(), now);
      var cn, ip := FoldCN(cnInput), Trim(ipInput);
      if cn == "" || ip == "" {
        return Refused(Unavailable);
      }
      var cnEvents, ipEvents := CountRequests(requests, cn, ip, now);
      requests := requests + [Request(cn, ip, now)];
      if cnEvents >= WINDOW_LIMIT || ipEvents >= IP_WINDOW_LIMIT {
        return Refused(RateLimited);
      }
      if row.None? || row.value >= |users| {
        return Refused(NotEligible);
      }
      var u := row.value;
      if users[u].status != Active || users[u].queryCode.None? {
        return Refused(NotEligible);
      }
      var current := FindCurrentEmail(emails, u);
      if current.None? || current.value >= |emails| || emails[current.value].status != Verified {
        return Refused(NotEligible);
      }
      var e := current.value;
      LapseOverdue(u, now);
      var latest, oldest, count := MeasureWindow(codes, u, e, now);
      if latest.Some? && now < latest.value + COOLDOWN {
        return Refused(RateLimited);
      }
      if count >= WINDOW_LIMIT && oldest.Some? {
        return Refused(RateLimited);
      }
      ghost var lapsed := Contents();
      RetireSecrets(u, None, None, now);
      AllRetired(lapsed.sessions, sessions, u, now);
      var id := |codes|;
      codes := codes + [NewCode(u, e, cn, secret, now)];
      return Prepared(id);
    }

    /** A delivery is confirmed exactly while its code is being sent. */
    method ConfirmSending(c: nat, u: nat, e: nat, now: Instant) returns (reply: Reply)
      requires Valid(now)
      modifies this`codes
      ensures Valid(now)
      ensures (Contents(), reply) == ConfirmSent(old(Contents()), c, u, e, now)
      ensures reply == Done <==> c < |old(codes)| && IssuedFor(old(codes)[c], u, e) && old(codes)[c].status == Sending
      ensures reply == Done ==> codes[c].status == Live && Sole(Contents(), u, CodeKey(c))
    {
      hide Inv, Sole;
      ConfirmedExactly(Contents(), c, u, e, now);
      ConfirmKeepsInv(Contents(), c, u, e, now, now);
      if u >= |users| {
        return Refused(NotFound);
      }
      if users[u].status != Active {
        return Refused(Rejected);
      }
      if e >= |emails| || emails[e].user != u || !emails[e].current || emails[e].status != Verified {
        return Refused(Rejected);
      }
      if c >= |codes| || codes[c].user != u || codes[c].email != e {
        return Refused(NotFound);
      }
      if codes[c].status != Sending {
        return Refused(Rejected);
      }
      codes := codes[c := codes[c].(status := Live, sentAt := Some(now))];
      return Done;
    }

    /** A failed delivery leaves the user without a secret if the code was still being sent. */
    method FailDelivery(c: nat, u: nat, now: Instant)
      requires Valid(now)
      modifies this`codes
      ensures Valid(now)
      ensures Contents() == MarkDeliveryFailed(old(Contents()), c, u, now)
      ensures if c < |old(codes)| && old(codes)[c].user == u && old(codes)[c].status == Sending
              then codes[c].status == DeliveryFailed && Silent(Contents(), u)
              else codes == old(codes)
    {
      hide Inv, Silent;
      FailedExactly(Contents(), c, u, now);
      FailKeepsInv(Contents(), c, u, now, now);
      if c < |codes| && codes[c].user == u && codes[c].status == Sending {
        codes := codes[c := Kill(codes[c], DeliveryFailed, now)];
      }
    }

    /** A guess is accepted exactly when it is the user's live code, in time; the session it opens is
        then the only secret the user has in play. */
    method Verify(cnInput: string, guess: string, row: Option<nat>, pick: Option<nat>, token: string, now: Instant)
      returns (reply: Reply)
      requires Valid(now) && Offered(Contents(), Event(VerifyStep(cnInput, guess, row, pick, token), now))
      modifies this`codes, this`sessions
      ensures Valid(now)
      ensures (Contents(), reply) == VerifyCode(old(Contents()), cnInput, guess, row, pick, token, now)
      ensures reply.CodeVerified? <==>
                && ValidCode(guess) && FreshToken(old(Contents()), token)
                && exists c :: RightGuess(old(Contents()), c, row, FoldCN(cnInput), guess, now)
      ensures reply.CodeVerified? ==>
                && RightGuess(old(Contents()), reply.code, row, FoldCN(cnInput), guess, now)
                && reply.session == |old(sessions)| && Sole(Contents(), row.value, SessionKey(reply.session))
    {
      hide Inv, Sole, RightGuess, FreshToken, Offered, RetireCodes, RetireSessions, RetiredBut;
      ghost var event := Event(VerifyStep(cnInput, guess, row, pick, token), now);
      VerifiedExactly(Contents(), cnInput, guess, row, pick, token, now);
      VerifyKeepsInv(Contents(), event, now);
      assert Next(Contents(), event) == VerifyCode(Contents(), cnInput, guess, row, pick, token, now).0;
      var cn := FoldCN(cnInput);
      if !ValidCode(guess) {
        return Refused(InvalidCode);
      }
      if row.None? || row.value >= |users| || users[row.value].status != Active {
        return Refused(Rejected);
      }
      var u := row.value;
      var current := FindCurrentEmail(emails, u);
      if current.None? || current.value >= |emails| || emails[current.value].status != Verified {
        return Refused(Rejected);
      }
      if pick.None? || pick.value >= |codes| {
        return Refused(Rejected);
      }
      var c := pick.value;
      var code := codes[c];
      if code.status != Live {
        return Refused(if code.status == Locked then AttemptsExhausted else Rejected);
      }
      if code.expires <= now {
        codes := codes[c := Kill(code, Expired, now)];
        return Refused(Rejected);
      }
      if !Matches(code, cn, guess) {
        var attempts := code.attempts + 1;
        var locked := attempts >= code.maxAttempts;
        var missed := code.(attempts := attempts);
        codes := codes[c := if locked then Kill(missed, Locked, now) else missed];
        return Refused(if locked then AttemptsExhausted else CodeMismatch);
      }
      var taken := FindSession(sessions, token);
      if taken.Some? {
        return Refused(ConstraintViolation);
      }
      codes := codes[c := code.(status := Used, usedAt := Some(now))];
      RetireSecrets(u, Some(c), None, now);
      AllRetired(old(sessions), sessions, u, now);
      var id := |sessions|;
      sessions := sessions + [Session(u, current.value, token, now + TOKEN_TTL, Open, None, None)];
      return CodeVerified(c, id);
    }

    /** A reset goes through exactly when an open session in time holds the token and the code is a
        change; the user then has the new code and no secret in play. */
    method Reset(token: string, newCode: string, now: Instant) returns (reply: Reply)
      requires Valid(now)
      modifies this`users, this`codes, this`sessions
      ensures Valid(now)
      ensures (Contents(), reply) == ResetQueryCode(old(Contents()), token, newCode, now)
      ensures reply.ResetDone? <==> exists s :: MayReset(old(Contents()), s, token, newCode, now)
      ensures reply.ResetDone? ==>
                && MayReset(old(Contents()), reply.session, token, newCode, now)
                && var u := old(sessions)[reply.session].user;
                   users == old(users)[u := old(users)[u].(queryCode := Some(newCode))] && Silent(Contents(), u)
    {
      hide Inv, Silent, RetireCodes, RetireSessions, RetiredBut;
      ResetExactly(Contents(), token, newCode, now);
      ResetKeepsInv(Contents(), token, newCode, now, now);
      hide MayReset;
      var found := FindSession(sessions, token);
      if found.None? || found.value >= |sessions| {
        return Refused(Rejected);
      }
      var id, s := found.value, sessions[found.value];
      var u := s.user;
      if u >= |users| {
        return Refused(NotFound);
      }
      if users[u].status != Active || users[u].queryCode.None? {
        return Refused(Rejected);
      }
      var current := FindCurrentEmail(emails, u);
      if current != Some(s.email) || s.email >= |emails| || emails[s.email].status != Verified {
        return Refused(Rejected);
      }
      if s.status != Open {
        return Refused(Rejected);
      }
      if s.expires <= now {
        sessions := sessions[id := KillSession(s, Lapsed, now)];
        return Refused(Rejected);
      }
      if users[u].queryCode == Some(newCode) {
        return Refused(SameQueryCode);
      }
      users := users[u := users[u].(queryCode := Some(newCode))];
      RetireSecrets(u, None, Some(id), now);
      KeptIsSpent(old(sessions), sessions, id, u, now);
      sessions := sessions[id := s.(status := Spent, usedAt := Some(now))];
      return ResetDone(id, users[u].cn);
    }

    /** Other clients' transactions, committing one after the other. */
    method Others(es: seq<Event>)
      modifies this
      ensures Contents() == After(old(Contents()), es)
    {
      ghost var was := Contents();
      for i := 0 to |es|
        invariant Contents() == After(was, es[..i])
      {
        assert es[..i + 1][..i] == es[..i];
        var db := Next(Contents(), es[i]);
        users, emails, codes, sessions, requests := db.users, db.emails, db.codes, db.sessions, db.requests;
      }
      assert es[..|es|] == es;
    }

    /** Service.Request: prepare, decrypt the address, send, confirm; a failure after the
        preparation marks the delivery failed. `meanwhile` commits while the mail is under way. */
    method RequestCode(cn: string, ip: string, row: Option<nat>, secret: Secret, start: Instant,
                       meanwhile: seq<Event>, revealed: bool, delivered: bool, end: Instant)
      returns (reply: Reply)
      requires Inv(Contents(), start) && Offered(Contents(), Event(PrepareStep(cn, ip, row, secret), start))
      requires start <= end
      requires Later(Next(Contents(), Event(PrepareStep(cn, ip, row, secret), start)), start, meanwhile, end)
      requires forall e :: e in meanwhile ==> !(e.step.ConfirmStep? && e.step.code == |codes|)
      modifies this
      ensures Inv(Contents(), end)
      ensures var first := Prepare(old(Contents()), cn, ip, row, secret, start).1;
              if !first.Prepared? then reply == first
              else Decided(codes, |old(codes)|, secret, reply == Done) && (reply == Done ==> revealed && delivered)
    {
      hide Inv, Prepare, Next, Later, Offered, ConfirmSent, MarkDeliveryFailed;
      ghost var was, first := Contents(), Event(PrepareStep(cn, ip, row, secret), start);
      StepKeepsInv(was, first, start);
      PrepareIsStep(was, cn, ip, row, secret, start);
      reply := PrepareRequest(cn, ip, row, secret, start);
      if !reply.Prepared? {
        LaterKeepsInv(Contents(), start, end);
        return;
      }
      PreparedCode(was, first);
      var c := reply.code;
      var u, e := codes[c].user, codes[c].email;
      Others(meanwhile);
      SettleMeanwhile(Next(was, first), start, meanwhile, end, c);
      var sent := revealed && delivered;
      if sent {
        ConfirmKeepsInv(Contents(), c, u, e, end, end);
        ConfirmDecides(Contents(), c, u, e, end);
        reply := ConfirmSending(c, u, e, end);
      } else {
        reply := Refused(DeliveryError);
      }
      if reply != Done {
        FailKeepsInv(Contents(), c, u, end, end);
        FailDecides(Contents(), c, u, end);
        FailDelivery(c, u, end);
      }
    }
  }

  lemma PrepareIsStep(db: Db, cn: string, ip: string, row: Option<nat>, secret: Secret, now: Instant)
    ensures var e := Event(PrepareStep(cn, ip, row, secret), now);
            (Next(db, e), ReplyTo(db, e)) == Prepare(db, cn, ip, row, secret, now)
  {}

  /** Code c has been decided: live if it was confirmed, out of play if not. */
  predicate Decided(codes: seq<Code>, c: nat, secret: string, confirmed: bool) {
    c < |codes| && codes[c].secret == secret && if confirmed then codes[c].status == Live else !InFlight(codes[c])
  }

  lemma ConfirmDecides(db: Db, c: nat, u: nat, e: nat, now: Instant)
    ensures var (after, reply) := ConfirmSent(db, c, u, e, now);
            if reply == Done then c < |db.codes| && Decided(after.codes, c, db.codes[c].secret, true) else after == db
  {}

  lemma FailDecides(db: Db, c: nat, u: nat, now: Instant)
    requires c < |db.codes| && db.codes[c].user == u && db.codes[c].status != Live
    ensures Decided(MarkDeliveryFailed(db, c, u, now).codes, c, db.codes[c].secret, false)
  {}

  function After(db: Db, es: seq<Event>): Db {
    if es == [] then db else Next(After(db, es[..|es| - 1]), es[|es| - 1])
  }

  /** The events can follow these tables, between `from` and `to`. */
  ghost predicate Later(db: Db, from: int, es: seq<Event>, to: int) {
    if es == [] then from <= to
    else
      var n := |es| - 1;
      Later(db, from, es[..n], es[n].at) && es[n].at <= to && Offered(After(db, es[..n]), es[n])
  }

  lemma PreparedCode(db: Db, e: Event)
    requires Inv(db, e.at) && ReplyTo(db, e).Prepared?
    ensures ReplyTo(db, e).code == |db.codes| && |Next(db, e).codes| == |db.codes| + 1
    ensures Next(db, e).codes[|db.codes|].status == Sending
    ensures e.step.PrepareStep? && Next(db, e).codes[|db.codes|].secret == e.step.secret
  {
    SpacedOf(db, e.at);
    hide Inv;
    StepChanges(db, e);
    assert Appends(db, e, Next(db, e).codes[|db.codes|]);
  }

  /** While nobody confirms it, a code being sent stays that or dies. */
  lemma {:induction false} SettleMeanwhile(db: Db, from: int, es: seq<Event>, to: int, c: nat)
    requires Inv(db, from) && Later(db, from, es, to)
    requires c < |db.codes| && db.codes[c].status == Sending
    requires forall e :: e in es ==> !(e.step.ConfirmStep? && e.step.code == c)
    ensures Inv(After(db, es), to)
    ensures c < |After(db, es).codes| && Kept(db.codes[c], After(db, es).codes[c])
  {
    hide Inv, Next, Offered;
    if es == [] {
      LaterKeepsInv(db, from, to);
    } else {
      var n := |es| - 1;
      var e := es[n];
      var mid := After(db, es[..n]);
      SettleMeanwhile(db, from, es[..n], e.at, c);
      StepKeepsInv(mid, e, e.at);
      LaterKeepsInv(Next(mid, e), e.at, to);
      SettleStep(mid, e, c, db.codes[c]);
    }
  }

  /** Still the same code, being sent or dead. */
  predicate Kept(c: Code, d: Code) {
    d.user == c.user && d.email == c.email && d.secret == c.secret && d.status != Live
  }

  lemma SettleStep(db: Db, e: Event, c: nat, was: Code)
    requires Inv(db, e.at) && c < |db.codes| && Kept(was, db.codes[c])
    requires !(e.step.ConfirmStep? && e.step.code == c)
    ensures c < |Next(db, e).codes| && Kept(was, Next(db, e).codes[c])
  {
    SpacedOf(db, e.at);
    hide Inv, Next, ReplyTo;
    StepChanges(db, e);
    assert CodeChanges(db, e, c, db.codes[c], Next(db, e).codes[c]);
  }
}
