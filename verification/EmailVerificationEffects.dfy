/** What each transaction of an email's verification writes, row by row. */
module EmailVerificationEffects {
  import opened Text
  import opened Recovery
  import opened EmailVerification
  import opened EmailVerificationAdmission
  import RecoveryInvariant
  import RecoveryEffects

  lemma Stamps(codes: seq<VCode>, last: int)
    requires Steady(codes, last)
    ensures forall i :: 0 <= i < |codes| && Pendent(codes[i]) ==> codes[i].invalidatedAt.None?
  {
    assert forall i :: 0 <= i < |codes| ==> Sound(codes[i]);
  }

  // ---------- Sending and verifying ----------

  lemma {:induction false} CodesCounted(codes: seq<VCode>, u: nat, since: int)
    ensures CountAfter(codes, u, since) ==
              |RecoveryEffects.Places(codes, (c: VCode) => c.user == u && c.created > since)|
  {
    if codes != [] {
      CodesCounted(codes[..|codes| - 1], u, since);
      RecoveryEffects.PlacesSnoc(codes, (c: VCode) => c.user == u && c.created > since);
    }
  }

  /** What stands against no send: the active user's current email waits for verification, no code of
      theirs is from the last minute and fewer than 5 are from the last hour. */
  lemma MaySendMeans(db: Tables, u: nat, e: nat, now: Instant)
    ensures MaySend(db, u, e, now) <==>
              && u < |db.users| && db.users[u].status == Active
              && e < |db.emails| && db.emails[e].user == u && db.emails[e].current && db.emails[e].status == Pending
              && (forall i :: 0 <= i < |db.vcodes| && db.vcodes[i].user == u ==>
                    db.vcodes[i].created + 60 * SECOND <= now)
              && |RecoveryEffects.Places(db.vcodes, (c: VCode) =>
                    c.user == u && c.created > now - 3600 * SECOND)| < 5
  {
    hide RecoveryEffects.Places, CountAfter;
    CodesCounted(db.vcodes, u, now - 3600 * SECOND);
  }

  /** Every code of the user's in play has met its fate, and no other code has changed. */
  ghost predicate Replaced(codes: seq<VCode>, after: seq<VCode>, u: nat, now: Instant) {
    && |codes| <= |after|
    && forall i :: 0 <= i < |codes| ==>
      after[i] ==
        if codes[i].user == u && (codes[i].status == Sending || codes[i].status == Live)
        then codes[i].(status := RecoveryEffects.Fate(codes[i].status, codes[i].created, codes[i].expires, now),
                       invalidatedAt := Some(now))
        else codes[i]
  }

  lemma SentReplaces(db: Tables, u: nat, secret: Secret, now: Instant)
    requires Steady(db.vcodes, now) && PrepareSend(db, u, secret, now).1.SendPrepared?
    ensures var next := PrepareSend(db, u, secret, now).0;
            next == db.(vcodes := next.vcodes) && Replaced(db.vcodes, next.vcodes, u, now)
  {
    hide TooEarly, PendingEmail;
    Stamps(db.vcodes, now);
  }

  /** The row is a code just sent to the user's current email, which waits for verification. */
  predicate JustSent(db: Tables, c: VCode, u: nat, secret: Secret, now: Instant) {
    && c.email < |db.emails| && db.emails[c.email].user == u && db.emails[c.email].current
    && db.emails[c.email].status == Pending
    && c == VCode(u, c.email, secret, now, now + TTL, Sending, 0, MAX_ATTEMPTS, None, None, None)
  }

  /** A code sent takes the place of what the user had in play, and is one for the email that waits. */
  lemma SentWrites(db: Tables, u: nat, secret: Secret, now: Instant)
    requires Steady(db.vcodes, now) && PrepareSend(db, u, secret, now).1.SendPrepared?
    ensures var next := PrepareSend(db, u, secret, now).0;
            && next == db.(vcodes := next.vcodes) && Replaced(db.vcodes, next.vcodes, u, now)
            && |next.vcodes| == |db.vcodes| + 1 && JustSent(db, next.vcodes[|db.vcodes|], u, secret, now)
  {
    hide Steady, Replaced, TooEarly;
    SentReplaces(db, u, secret, now);
    PendingEmailFinds(db, u);
    assert PendingEmail(db, u).1.None?;
    SentRow(db, u, secret, now);
  }

  lemma NothingToSupersede(codes: seq<VCode>, u: nat, e: nat, now: Instant)
    requires NoCode(codes, u)
    ensures SupersededOf(codes, u, e, now) == codes
  {}

  /** A verification marks the email of its code and uses the code up, and writes nothing else: the
      user had no other code in play. */
  lemma VerifiedWrites(db: Tables, u: nat, guess: string, pick: Option<nat>, clock: Instant, now: Instant)
    requires Steady(db.vcodes, now) && Anchored(db.emails, db.vcodes)
    requires Allowed(db, Moment(VerifyMove(u, guess, pick, clock), now))
    requires VerifyEmail(db, u, guess, pick, clock, now).1.EmailConfirmed?
    ensures var (next, answer) := VerifyEmail(db, u, guess, pick, clock, now);
            && answer.code < |db.vcodes| && answer.email == db.vcodes[answer.code].email < |db.emails|
            && next == db.(emails := db.emails[answer.email := db.emails[answer.email].(status := Verified)],
                           vcodes := db.vcodes[answer.code :=
                                                 db.vcodes[answer.code].(status := Used, usedAt := Some(now))])
  {
    var c := VerifyEmail(db, u, guess, pick, clock, now).1.code;
    ConfirmsRight(db, u, guess, pick, clock, now);
    LiveIsLookedUp(db, now, c, pick);
    PendentIsOnly(db.vcodes, now, c);
    hide Steady, Anchored;
    var used := db.vcodes[c := db.vcodes[c].(status := Used, usedAt := Some(now))];
    NothingToSupersede(used, u, db.vcodes[c].email, now);
  }

  /** A guess at a live code out of time closes that code and does nothing else. */
  lemma LateGuess(db: Tables, c: nat, guess: string, pick: Option<nat>, clock: Instant, now: Instant)
    requires Steady(db.vcodes, now) && Anchored(db.emails, db.vcodes) && ValidCode(guess)
    requires c < |db.vcodes| && db.vcodes[c].status == Live && db.vcodes[c].expires <= clock
    requires IsActive(db, db.vcodes[c].user)
    requires Allowed(db, Moment(VerifyMove(db.vcodes[c].user, guess, pick, clock), now))
    ensures VerifyEmail(db, db.vcodes[c].user, guess, pick, clock, now) ==
              (db.(vcodes := db.vcodes[c := db.vcodes[c].(status := Expired, invalidatedAt := Some(now))]),
               Failure(CodeExpired))
  {
    LiveIsLookedUp(db, now, c, pick);
    Stamps(db.vcodes, now);
    hide Steady, Anchored;
  }

  /** What is told to who cannot verify an email now, and that everybody else can. */
  lemma ProblemTold(db: Tables, u: nat)
    requires RecoveryInvariant.OneEmail(db.emails)
    ensures var problem := PendingEmail(db, u).1;
            && (!IsActive(db, u) ==> problem == Some(UserInactive))
            && (IsActive(db, u) && (forall e :: 0 <= e < |db.emails| && db.emails[e].user == u ==>
                                    !db.emails[e].current) ==>
                  problem == Some(NoRecoveryEmail))
            && forall e: nat :: IsActive(db, u) && e < |db.emails| && db.emails[e].user == u && db.emails[e].current ==>
              problem == match db.emails[e].status
                         case Pending => None
                         case Verified => Some(AlreadyVerified)
                         case Off => Some(EmailDisabled)
  {
    RecoveryInvariant.CurrentEmailFinds(db.emails, u);
  }

  /** A guess of someone who has no live code, or that is not a code at all, changes nothing, and tells
      what became of the code looked up. */
  lemma StrayGuess(db: Tables, u: nat, guess: string, pick: Option<nat>, clock: Instant, now: Instant)
    requires Allowed(db, Moment(VerifyMove(u, guess, pick, clock), now))
    requires |guess| != 6 || (exists ch :: ch in guess && !('0' <= ch <= '9')) || !IsActive(db, u)
             || forall c :: 0 <= c < |db.vcodes| && db.vcodes[c].user == u ==> db.vcodes[c].status != Live
    ensures var (next, answer) := VerifyEmail(db, u, guess, pick, clock, now);
            var problem := PendingEmail(db, u).1;
            && next == db
            && answer == Failure(
                           if |guess| != 6 || exists ch :: ch in guess && !('0' <= ch <= '9') then BadCode
                           else if problem.Some? then problem.value
                           else if pick == None then NoActiveCode
                           else match db.vcodes[pick.value].status
                             case Used => CodeUsed
                             case Locked => Exhausted
                             case Expired => CodeExpired
                             case _ => CodeInvalidated)
  {
    PendingEmailFinds(db, u);
  }

  // ---------- Changing the address ----------

  /** Every code of the user's in play has been withdrawn, and no other code has changed. */
  ghost predicate Withdrawn(codes: seq<VCode>, after: seq<VCode>, u: nat, now: Instant) {
    && |after| == |codes|
    && forall i :: 0 <= i < |codes| ==>
      after[i] ==
        if codes[i].user == u && (codes[i].status == Sending || codes[i].status == Live)
        then codes[i].(status := Invalidated, invalidatedAt := Some(now))
        else codes[i]
  }

  /** Codes in play are for the user's current email, so that dropping it withdraws them all. */
  lemma Dropped(db: Tables, u: nat, now: Instant)
    requires Steady(db.vcodes, now) && Anchored(db.emails, db.vcodes)
    ensures var current := CurrentEmail(db.emails, u);
            var next := if current.Some? then DropAddress(db, current.value, now) else db;
            && Withdrawn(db.vcodes, next.vcodes, u, now)
            && RecoveryEffects.AddressOff(db.emails, next.emails, u) && |next.emails| == |db.emails|
            && next.users == db.users
  {
    RecoveryInvariant.CurrentEmailFinds(db.emails, u);
    Stamps(db.vcodes, now);
    AnchoredOne(db.emails, db.vcodes);
    hide Steady;
  }

  predicate Manageable(db: Tables, u: nat) {
    u < |db.users| && db.users[u].status != Merged
  }

  lemma SameAddress(emails: seq<Email>, u: nat, lookup: string)
    requires RecoveryInvariant.OneEmail(emails)
    ensures var current := CurrentEmail(emails, u);
            (exists e: nat :: RecoveryEffects.Registered(emails, e, u, lookup)) <==>
              current.Some? && current.value < |emails| && emails[current.value].lookup == lookup
  {
    RecoveryInvariant.CurrentEmailFinds(emails, u);
    var current := CurrentEmail(emails, u);
    forall e: nat | RecoveryEffects.Registered(emails, e, u, lookup) ensures current == Some(e) {
      OnlyCurrent(emails, u, e);
    }
    if current.Some? && emails[current.value].lookup == lookup {
      assert RecoveryEffects.Registered(emails, current.value, u, lookup);
    }
  }

  /** A new address takes the place of the old one, whose codes are withdrawn; the same address again
      changes nothing. */
  lemma PutExactly(db: Tables, u: nat, lookup: string, now: Instant)
    requires Steady(db.vcodes, now) && Anchored(db.emails, db.vcodes)
    ensures var next := PutAddress(db, u, lookup, now);
            if !Manageable(db, u) || exists e: nat :: RecoveryEffects.Registered(db.emails, e, u, lookup)
            then next == db
            else
              && next == db.(emails := next.emails, vcodes := next.vcodes)
              && Withdrawn(db.vcodes, next.vcodes, u, now) && RecoveryEffects.AddressOff(db.emails, next.emails, u)
              && next.emails[|db.emails|..] == [Email(u, lookup, Pending, true)]
  {
    AnchoredOne(db.emails, db.vcodes);
    hide Steady, Anchored, DropAddress;
    SameAddress(db.emails, u, lookup);
    Dropped(db, u, now);
  }

  lemma UnboundExactly(db: Tables, u: nat, now: Instant)
    requires Steady(db.vcodes, now) && Anchored(db.emails, db.vcodes)
    ensures var next := UnbindAddress(db, u, now);
            if !Manageable(db, u) then next == db
            else
              && next == db.(emails := next.emails, vcodes := next.vcodes)
              && Withdrawn(db.vcodes, next.vcodes, u, now)
              && RecoveryEffects.AddressOff(db.emails, next.emails, u) && |next.emails| == |db.emails|
  {
    hide Steady, Anchored, DropAddress, RecoveryEffects.AddressOff, Withdrawn;
    Dropped(db, u, now);
  }
}
