/** Which recovery email a verification code in play belongs to, over every run, and exactly when
    each step of a verification goes through. */
module EmailVerificationAdmission {
  import opened Text
  import opened Recovery
  import opened EmailVerification
  import RecoveryInvariant

  // ---------- Codes and their emails ----------

  /** A user has one current email; a code belongs to its email's user, and while it is in play that
      email is the current one and waits for verification. */
  ghost predicate Anchored(emails: seq<Email>, codes: seq<VCode>) {
    && RecoveryInvariant.OneEmail(emails)
    && (forall i :: 0 <= i < |codes| ==> codes[i].email < |emails| && emails[codes[i].email].user == codes[i].user)
    && (forall i :: 0 <= i < |codes| && Pendent(codes[i]) ==>
          emails[codes[i].email].current && emails[codes[i].email].status == Pending)
  }

  lemma BecomingAnchored(emails: seq<Email>, codes: seq<VCode>, after: seq<VCode>)
    requires Anchored(emails, codes) && BecomeV(codes, after)
    ensures Anchored(emails, after)
  {
    forall i | 0 <= i < |after|
      ensures after[i].email == codes[i].email && after[i].user == codes[i].user
      ensures Pendent(after[i]) ==> Pendent(codes[i])
    {
      assert BecomesV(codes[i], after[i]);
    }
  }

  lemma OnlyCurrent(emails: seq<Email>, u: nat, e: nat)
    requires RecoveryInvariant.OneEmail(emails) && e < |emails| && emails[e].user == u && emails[e].current
    ensures CurrentEmail(emails, u) == Some(e)
  {
    RecoveryInvariant.CurrentEmailFinds(emails, u);
  }

  lemma PendingEmailFinds(db: Tables, u: nat)
    ensures var (e, problem) := PendingEmail(db, u);
            problem.None? ==>
              && u < |db.users| && db.users[u].status == Active && CurrentEmail(db.emails, u) == Some(e)
              && e < |db.emails| && db.emails[e].user == u && db.emails[e].current && db.emails[e].status == Pending
  {
    RecoveryInvariant.CurrentEmailFinds(db.emails, u);
  }

  lemma AppendAnchored(emails: seq<Email>, codes: seq<VCode>, code: VCode)
    requires Anchored(emails, codes) && code.email < |emails| && emails[code.email].user == code.user
    requires emails[code.email].current && emails[code.email].status == Pending
    ensures Anchored(emails, codes + [code])
  {}

  lemma SendAnchored(db: Tables, u: nat, secret: Secret, now: Instant)
    requires AllSound(db.vcodes) && Anchored(db.emails, db.vcodes)
    ensures var next := PrepareSend(db, u, secret, now).0; Anchored(next.emails, next.vcodes)
  {
    hide OverdueAll, SupersededAll, TooEarly, BecomeV, PendingEmail, Anchored;
    var lapsed := OverdueAll(db.vcodes, u, now);
    UpdatesBecome(db.vcodes, u, 0, now);
    LapsedSound(db.vcodes, lapsed);
    UpdatesBecome(lapsed, u, 0, now);
    BecomingAnchored(db.emails, db.vcodes, lapsed);
    BecomingAnchored(db.emails, lapsed, SupersededAll(lapsed, u, now));
    PendingEmailFinds(db, u);
    var (e, problem) := PendingEmail(db, u);
    if problem.None? { AppendAnchored(db.emails, SupersededAll(lapsed, u, now), NewVCode(u, e, secret, now)); }
  }

  /** The email is dropped and its codes with it. */
  lemma DropAnchored(db: Tables, e: nat, now: Instant)
    requires AllSound(db.vcodes) && Anchored(db.emails, db.vcodes)
    ensures var next := DropAddress(db, e, now); Anchored(next.emails, next.vcodes)
  {
    UpdatesBecome(db.vcodes, 0, e, now);
    var after := SupersededForAll(db.vcodes, e, now);
    BecomingAnchored(db.emails, db.vcodes, after);
    forall i | 0 <= i < |after| && Pendent(after[i]) ensures after[i].email != e {
      assert Sound(db.vcodes[i]);
    }
  }

  lemma AddAnchored(emails: seq<Email>, codes: seq<VCode>, u: nat, lookup: string)
    requires Anchored(emails, codes)
    requires forall i :: 0 <= i < |emails| ==> !(emails[i].user == u && emails[i].current)
    ensures Anchored(emails + [Email(u, lookup, Pending, true)], codes)
  {}

  lemma AnchoredOne(emails: seq<Email>, codes: seq<VCode>)
    requires Anchored(emails, codes)
    ensures RecoveryInvariant.OneEmail(emails)
  {}

  lemma PutAnchored(db: Tables, u: nat, lookup: string, now: Instant)
    requires AllSound(db.vcodes) && Anchored(db.emails, db.vcodes)
    ensures var next := PutAddress(db, u, lookup, now); Anchored(next.emails, next.vcodes)
  {
    RecoveryInvariant.CurrentEmailFinds(db.emails, u);
    var current := CurrentEmail(db.emails, u);
    if current.Some? {
      DropAnchored(db, current.value, now);
      var dropped := DropAddress(db, current.value, now);
      hide Anchored;
      AddAnchored(dropped.emails, dropped.vcodes, u, lookup) by {
        assert RecoveryInvariant.OneEmail(db.emails) by { AnchoredOne(db.emails, db.vcodes); }
      }
    } else {
      AddAnchored(db.emails, db.vcodes, u, lookup);
    }
  }

  ghost predicate NoneFor(codes: seq<VCode>, e: nat) {
    forall i :: 0 <= i < |codes| && Pendent(codes[i]) ==> codes[i].email != e
  }

  lemma UsedUp(emails: seq<Email>, codes: seq<VCode>, u: nat, e: nat, c: nat, now: Instant)
    requires AllSound(codes) && Anchored(emails, codes) && e < |emails| && emails[e].user == u && c < |codes|
    ensures var used := codes[c := codes[c].(status := Used, usedAt := Some(now))];
            NoneFor(SupersededOf(used, u, e, now), e)
  {
    assert forall i :: 0 <= i < |codes| ==> Sound(codes[i]);
  }

  lemma MarkedAnchored(emails: seq<Email>, codes: seq<VCode>, e: nat)
    requires Anchored(emails, codes) && e < |emails| && NoneFor(codes, e)
    ensures Anchored(emails[e := emails[e].(status := Verified)], codes)
  {}

  /** A verified email leaves none of its codes in play. */
  lemma VerifyAnchored(db: Tables, u: nat, guess: string, pick: Option<nat>, clock: Instant, now: Instant)
    requires AllSound(db.vcodes) && Anchored(db.emails, db.vcodes)
    ensures var next := VerifyEmail(db, u, guess, pick, clock, now).0; Anchored(next.emails, next.vcodes)
  {
    hide AllSound, SupersededOf, BecomeV, Anchored, NoneFor;
    OthersBecome(db, Moment(VerifyMove(u, guess, pick, clock), now));
    var (next, answer) := VerifyEmail(db, u, guess, pick, clock, now);
    BecomingAnchored(db.emails, db.vcodes, next.vcodes);
    if answer.EmailConfirmed? {
      PendingEmailFinds(db, u);
      UsedUp(db.emails, db.vcodes, u, answer.email, answer.code, now);
      MarkedAnchored(db.emails, next.vcodes, answer.email);
    }
  }

  lemma StepAnchored(db: Tables, m: Moment)
    requires AllSound(db.vcodes) && Anchored(db.emails, db.vcodes)
    ensures Anchored(Do(db, m).0.emails, Do(db, m).0.vcodes)
  {
    hide Anchored, AllSound, PrepareSend, VerifyEmail, PutAddress, DropAddress;
    match m.move
    case SendMove(u, secret) => SendAnchored(db, u, secret, m.at);
    case VerifyMove(u, guess, pick, clock) => VerifyAnchored(db, u, guess, pick, clock, m.at);
    case PutMove(u, lookup) => PutAnchored(db, u, lookup, m.at);
    case UnbindMove(u) =>
      if CurrentEmail(db.emails, u).Some? { DropAnchored(db, CurrentEmail(db.emails, u).value, m.at); }
    case UsersMove(_) =>
    case _ => OthersBecome(db, m); BecomingAnchored(db.emails, db.vcodes, Do(db, m).0.vcodes);
  }

  /** In every run a code in play belongs to its user's current email, which waits for verification. */
  lemma {:induction false} PlayAnchored(db: Tables, from: int, ms: seq<Moment>)
    requires Steady(db.vcodes, from) && Anchored(db.emails, db.vcodes) && InOrder(from, ms)
    ensures Anchored(Play(db, ms).emails, Play(db, ms).vcodes)
  {
    hide Steady, Do, Anchored;
    if ms != [] {
      var n := |ms| - 1;
      PlayAnchored(db, from, ms[..n]);
      PlaySteady(db, from, ms[..n]);
      SteadySound(Play(db, ms[..n]).vcodes, EndTime(from, ms[..n]));
      StepAnchored(Play(db, ms[..n]), ms[n]);
    }
  }

  lemma NothingAnchored()
    ensures Anchored(NOTHING.emails, NOTHING.vcodes)
  {}

  // ---------- What a user can still use ----------

  /** Code c is the one code the user has in play. */
  ghost predicate OnlyCode(codes: seq<VCode>, u: nat, c: nat) {
    forall i :: 0 <= i < |codes| ==> (Pendent(codes[i]) && codes[i].user == u <==> i == c)
  }

  ghost predicate NoCode(codes: seq<VCode>, u: nat) {
    forall i :: 0 <= i < |codes| ==> !(Pendent(codes[i]) && codes[i].user == u)
  }

  /** The user may sign in. */
  predicate IsActive(db: Tables, u: nat) {
    u < |db.users| && db.users[u].status == Active
  }

  // ---------- Exactly when each step goes through ----------

  /** Nothing stands against a send: the email waits for verification, the last code is a cool-down
      ago and the last hour has room. */
  ghost predicate MaySend(db: Tables, u: nat, e: nat, now: Instant) {
    && IsActive(db, u)
    && e < |db.emails| && db.emails[e].user == u && db.emails[e].current && db.emails[e].status == Pending
    && (forall i :: 0 <= i < |db.vcodes| && db.vcodes[i].user == u ==> db.vcodes[i].created + COOLDOWN <= now)
    && CountAfter(db.vcodes, u, now - WINDOW) < WINDOW_LIMIT
  }

  lemma NotTooEarly(codes: seq<VCode>, u: nat, now: Instant)
    ensures TooEarly(codes, u, now).None? <==>
              && (forall i :: 0 <= i < |codes| && codes[i].user == u ==> codes[i].created + COOLDOWN <= now)
              && CountAfter(codes, u, now - WINDOW) < WINDOW_LIMIT
  {
    LatestIsLatest(codes, u);
    OldestIsOldest(codes, u, now - WINDOW);
  }

  lemma SendIff(db: Tables, u: nat, secret: Secret, now: Instant)
    requires AllSound(db.vcodes) && RecoveryInvariant.OneEmail(db.emails)
    ensures PrepareSend(db, u, secret, now).1.SendPrepared? <==> exists e: nat :: MaySend(db, u, e, now)
  {
    hide PrepareSend, TooEarly, CountAfter;
    SendAdmitted(db, u, secret, now);
    NotTooEarly(db.vcodes, u, now);
    PendingEmailFinds(db, u);
    forall e: nat | MaySend(db, u, e, now) ensures PendingEmail(db, u) == (e, None) { OnlyCurrent(db.emails, u, e); }
    if PrepareSend(db, u, secret, now).1.SendPrepared? {
      assert MaySend(db, u, PendingEmail(db, u).0, now);
    }
  }

  lemma SentRow(db: Tables, u: nat, secret: Secret, now: Instant)
    requires PrepareSend(db, u, secret, now).1.SendPrepared?
    ensures var (next, answer) := PrepareSend(db, u, secret, now);
            && answer.code == |db.vcodes| && |next.vcodes| == |db.vcodes| + 1
            && next.vcodes[answer.code] == NewVCode(u, PendingEmail(db, u).0, secret, now)
            && next.users == db.users && next.emails == db.emails
  {
    hide TooEarly, PendingEmail;
  }

  lemma PendentIsOnly(codes: seq<VCode>, last: int, c: nat)
    requires Steady(codes, last) && c < |codes| && Pendent(codes[c])
    ensures OnlyCode(codes, codes[c].user, c)
  {}

  lemma RefusedSend(db: Tables, u: nat, secret: Secret, now: Instant)
    ensures var (next, answer) := PrepareSend(db, u, secret, now); !answer.SendPrepared? ==> next == db
  {}

  /** A code is sent exactly when nothing stands against it; it is then the only one in play. */
  lemma SentExactly(db: Tables, u: nat, secret: Secret, now: Instant)
    requires Steady(db.vcodes, now) && Anchored(db.emails, db.vcodes)
    ensures var (next, answer) := PrepareSend(db, u, secret, now);
            && (answer.SendPrepared? <==> exists e: nat :: MaySend(db, u, e, now))
            && (answer.SendPrepared? ==> answer.code == |db.vcodes| && OnlyCode(next.vcodes, u, answer.code))
            && (!answer.SendPrepared? ==> next == db)
  {
    SteadySound(db.vcodes, now);
    AnchoredOne(db.emails, db.vcodes);
    hide Steady, MaySend, PrepareSend, OnlyCode, Anchored;
    SendIff(db, u, secret, now);
    SendKeeps(db, u, secret, now);
    var (next, answer) := PrepareSend(db, u, secret, now);
    if answer.SendPrepared? {
      SentRow(db, u, secret, now);
      PendentIsOnly(next.vcodes, now, answer.code);
    } else {
      RefusedSend(db, u, secret, now);
    }
  }

  /** A delivery is confirmed exactly when the code is still being sent and its user is active: its
      email need not be asked, it always waits for this. The code is then the user's only one. */
  lemma ConfirmedExactly(db: Tables, c: nat, u: nat, e: nat, now: Instant)
    requires Steady(db.vcodes, now) && Anchored(db.emails, db.vcodes)
    ensures var (next, answer) := ConfirmVerificationSent(db, c, u, e, now);
            && (answer == Okay <==>
                  && IsActive(db, u) && c < |db.vcodes| && db.vcodes[c].user == u && db.vcodes[c].email == e
                  && db.vcodes[c].status == Sending)
            && (answer == Okay ==>
                  next == db.(vcodes := db.vcodes[c := db.vcodes[c].(status := Live, sentAt := Some(now))])
                  && OnlyCode(next.vcodes, u, c))
            && (answer != Okay ==> next == db)
  {
    var m := Moment(ConfirmMove(c, u, e), now);
    StepSteady(db, m, now);
    var (next, answer) := ConfirmVerificationSent(db, c, u, e, now);
    assert next == Do(db, m).0;
    hide Steady, OnlyCode;
    if answer == Okay { PendentIsOnly(next.vcodes, now, c); }
  }

  /** A failed delivery takes a code out of play exactly when it was still being sent. */
  lemma FailedExactly(db: Tables, c: nat, u: nat, now: Instant)
    requires Steady(db.vcodes, now)
    ensures var next := FailVerificationSend(db, c, u, now);
            if c < |db.vcodes| && db.vcodes[c].user == u && db.vcodes[c].status == Sending
            then
              && next.vcodes[c].status == DeliveryFailed && next.vcodes[c].invalidatedAt == Some(now)
              && next == db.(vcodes := db.vcodes[c := next.vcodes[c]]) && NoCode(next.vcodes, u)
            else next == db
  {
    if c < |db.vcodes| && db.vcodes[c].user == u && db.vcodes[c].status == Sending {
      PendentIsOnly(db.vcodes, now, c);
      assert Sound(db.vcodes[c]);
    }
  }

  /** The guess is the user's live code, in time by the application's clock. */
  predicate RightFor(db: Tables, c: nat, u: nat, guess: string, clock: Instant) {
    && c < |db.vcodes| && db.vcodes[c].status == Live && db.vcodes[c].user == u
    && db.vcodes[c].secret == guess && clock < db.vcodes[c].expires
  }

  /** A live code is the row looked up, for the email it was sent to. */
  lemma LiveIsLookedUp(db: Tables, last: int, c: nat, pick: Option<nat>)
    requires Steady(db.vcodes, last) && Anchored(db.emails, db.vcodes)
    requires c < |db.vcodes| && Pendent(db.vcodes[c]) && IsActive(db, db.vcodes[c].user)
    requires PendingEmail(db, db.vcodes[c].user).1.None? ==>
               IsLatestFor(db.vcodes, db.vcodes[c].user, PendingEmail(db, db.vcodes[c].user).0, pick)
    ensures PendingEmail(db, db.vcodes[c].user) == (db.vcodes[c].email, None) && pick == Some(c)
  {
    OnlyCurrent(db.emails, db.vcodes[c].user, db.vcodes[c].email);
    hide Anchored;
    LiveCodeIsPicked(db.vcodes, last, c, pick);
  }

  lemma ConfirmsRight(db: Tables, u: nat, guess: string, pick: Option<nat>, clock: Instant, now: Instant)
    requires VerifyEmail(db, u, guess, pick, clock, now).1.EmailConfirmed?
    requires Allowed(db, Moment(VerifyMove(u, guess, pick, clock), now))
    ensures IsActive(db, u) && RightFor(db, VerifyEmail(db, u, guess, pick, clock, now).1.code, u, guess, clock)
  {}

  lemma UsedLeavesNone(db: Tables, last: int, u: nat, guess: string, pick: Option<nat>, clock: Instant, now: Instant)
    requires Steady(db.vcodes, last) && Allowed(db, Moment(VerifyMove(u, guess, pick, clock), now))
    requires VerifyEmail(db, u, guess, pick, clock, now).1.EmailConfirmed?
    ensures NoCode(VerifyEmail(db, u, guess, pick, clock, now).0.vcodes, u)
  {
    var (next, answer) := VerifyEmail(db, u, guess, pick, clock, now);
    PendentIsOnly(db.vcodes, last, answer.code);
  }

  /** An email is verified exactly when the guess is the active user's live code, in time, whichever
      row "latest" returns and without a word about emails; the user then has no code in play. */
  lemma VerifiedExactly(db: Tables, u: nat, guess: string, pick: Option<nat>, clock: Instant, now: Instant)
    requires Steady(db.vcodes, now) && Anchored(db.emails, db.vcodes)
    requires Allowed(db, Moment(VerifyMove(u, guess, pick, clock), now))
    ensures var (next, answer) := VerifyEmail(db, u, guess, pick, clock, now);
            && (answer.EmailConfirmed? <==> IsActive(db, u) && exists c :: RightFor(db, c, u, guess, clock))
            && (answer.EmailConfirmed? ==>
                  && RightFor(db, answer.code, u, guess, clock) && answer.email == db.vcodes[answer.code].email
                  && answer.email < |db.emails|
                  && next.emails == db.emails[answer.email := db.emails[answer.email].(status := Verified)]
                  && NoCode(next.vcodes, u))
  {
    hide Steady, Anchored, NoCode, SupersededOf;
    if IsActive(db, u) && exists c :: RightFor(db, c, u, guess, clock) {
      var c :| RightFor(db, c, u, guess, clock);
      LiveIsLookedUp(db, now, c, pick);
    }
    var (next, answer) := VerifyEmail(db, u, guess, pick, clock, now);
    if answer.EmailConfirmed? {
      ConfirmsRight(db, u, guess, pick, clock, now);
      LiveIsLookedUp(db, now, answer.code, pick);
      UsedLeavesNone(db, now, u, guess, pick, clock, now);
    }
  }

  /** A wrong guess at a live code in time counts one attempt on that code and changes nothing else. */
  lemma MissedExactly(db: Tables, c: nat, guess: string, pick: Option<nat>, clock: Instant, now: Instant)
    requires Steady(db.vcodes, now) && Anchored(db.emails, db.vcodes) && ValidCode(guess)
    requires c < |db.vcodes| && db.vcodes[c].status == Live && clock < db.vcodes[c].expires
    requires db.vcodes[c].secret != guess
    requires IsActive(db, db.vcodes[c].user)
    requires Allowed(db, Moment(VerifyMove(db.vcodes[c].user, guess, pick, clock), now))
    ensures var (next, answer) := VerifyEmail(db, db.vcodes[c].user, guess, pick, clock, now);
            && next == db.(vcodes := db.vcodes[c := next.vcodes[c]])
            && next.vcodes[c].attempts == db.vcodes[c].attempts + 1
            && (next.vcodes[c].status == if next.vcodes[c].attempts == MAX_ATTEMPTS then Locked else Live)
            && answer == Failure(if next.vcodes[c].attempts == MAX_ATTEMPTS then Exhausted else Mismatch)
  {
    LiveIsLookedUp(db, now, c, pick);
    assert Sound(db.vcodes[c]);
    hide Steady, Anchored;
  }
}
