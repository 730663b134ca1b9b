/** The verification store's methods with the tables as fields, statement by statement: aggregates
    and updates are scans over the rows. Each is proved against its transaction in module
    EmailVerification, keeps what every run keeps and says when it goes through. Refusals roll back. */
module EmailVerificationStore {
  import opened Text
  import opened Recovery
  import opened EmailVerification
  import opened EmailVerificationAdmission
  import RecoveryStore

  /** max(created_at) of the user's codes, and min(created_at) and count(*) of those in the window. */
  method MeasureWindow(codes: seq<VCode>, u: nat, since: int)
    returns (latestCreated: Option<int>, oldestInWindow: Option<int>, windowCount: nat)
    ensures latestCreated == LatestCreated(codes, u)
    ensures oldestInWindow == OldestAfter(codes, u, since) && windowCount == CountAfter(codes, u, since)
  {
    latestCreated, oldestInWindow, windowCount := None, None, 0;
    for i := 0 to |codes|
      invariant latestCreated == LatestCreated(codes[..i], u)
      invariant oldestInWindow == OldestAfter(codes[..i], u, since) && windowCount == CountAfter(codes[..i], u, since)
    {
      assert codes[..i + 1][..i] == codes[..i];
      var code := codes[i];
      if code.user == u {
        if latestCreated.None? || latestCreated.value <= code.created { latestCreated := Some(code.created); }
        if code.created > since {
          if oldestInWindow.None? || oldestInWindow.value >= code.created { oldestInWindow := Some(code.created); }
          windowCount := windowCount + 1;
        }
      }
    }
    assert codes[..|codes|] == codes;
  }

  /** How long the user has to wait before another code is sent, if at all. */
  method MeasureWait(codes: seq<VCode>, u: nat, now: Instant) returns (wait: Option<int>)
    ensures wait == TooEarly(codes, u, now)
  {
    var latestCreated, oldestInWindow, windowCount := MeasureWindow(codes, u, now - WINDOW);
    if latestCreated.Some? {
      var availableAt := latestCreated.value + COOLDOWN;
      if now < availableAt {
        return Some(availableAt - now);
      }
    }
    if windowCount >= WINDOW_LIMIT && oldestInWindow.Some? {
      var availableAt := oldestInWindow.value + WINDOW;
      return Some(availableAt - now);
    }
    return None;
  }

  class Store {
    var users: seq<User>
    var emails: seq<Email>
    var vcodes: seq<VCode>

    constructor ()
      ensures Contents() == NOTHING && Valid(0)
    {
      users, emails, vcodes := [], [], [];
      new;
      NothingSteady();
      NothingAnchored();
    }

    function Contents(): Tables
      reads this
    {
      Tables(users, emails, vcodes)
    }

    /** The tables are as some run up to this instant can leave them. */
    ghost predicate Valid(now: int)
      reads this
    {
      Steady(vcodes, now) && Anchored(emails, vcodes)
    }

    /** The two updates that mark the user's overdue codes. */
    method LapseOverdue(u: nat, now: Instant)
      modifies this`vcodes
      ensures vcodes == OverdueAll(old(vcodes), u, now)
    {
      for i := 0 to |vcodes|
        invariant |vcodes| == |old(vcodes)|
        invariant forall j :: 0 <= j < i ==>
                    vcodes[j] == if old(vcodes)[j].status == Live then Overdue(old(vcodes)[j], u, now)
                      else old(vcodes)[j]
        invariant forall j :: i <= j < |vcodes| ==> vcodes[j] == old(vcodes)[j]
      {
        var c := vcodes[i];
        if c.user == u && c.status == Live && c.invalidatedAt.None? && c.expires <= now {
          vcodes := vcodes[i := Retire(c, Expired, now)];
        }
      }
      ghost var expired := vcodes;
      for i := 0 to |vcodes|
        invariant |vcodes| == |old(vcodes)|
        invariant forall j :: 0 <= j < i ==> vcodes[j] == Overdue(old(vcodes)[j], u, now)
        invariant forall j :: i <= j < |vcodes| ==> vcodes[j] == expired[j]
      {
        var c := vcodes[i];
        if c.user == u && c.status == Sending && c.invalidatedAt.None? && c.created <= now - STALE_SEND {
          vcodes := vcodes[i := Retire(c, DeliveryFailed, now)];
        }
      }
    }

    /** The update that retires the codes the user has in play. */
    method SupersedePendent(u: nat, now: Instant)
      modifies this`vcodes
      ensures vcodes == SupersededAll(old(vcodes), u, now) && |vcodes| == |old(vcodes)|
    {
      for i := 0 to |vcodes|
        invariant |vcodes| == |old(vcodes)|
        invariant forall j :: 0 <= j < i ==> vcodes[j] == Superseded(old(vcodes)[j], u, now)
        invariant forall j :: i <= j < |vcodes| ==> vcodes[j] == old(vcodes)[j]
      {
        var c := vcodes[i];
        if c.user == u && (c.status == Sending || c.status == Live) && c.invalidatedAt.None? {
          vcodes := vcodes[i := Retire(c, Invalidated, now)];
        }
      }
    }

    /** The update that retires the other codes of a verified email; the used one need not be excepted. */
    method SupersedeOthers(u: nat, e: nat, used: nat, now: Instant)
      requires used < |vcodes| && !Pendent(vcodes[used])
      modifies this`vcodes
      ensures vcodes == SupersededOf(old(vcodes), u, e, now)
    {
      for i := 0 to |vcodes|
        invariant |vcodes| == |old(vcodes)|
        invariant forall j :: 0 <= j < i ==>
                    vcodes[j] == if old(vcodes)[j].user == u then SupersededFor(old(vcodes)[j], e, now)
                      else old(vcodes)[j]
        invariant forall j :: i <= j < |vcodes| ==> vcodes[j] == old(vcodes)[j]
      {
        var c := vcodes[i];
        if c.user == u && c.email == e && i != used && (c.status == Sending || c.status == Live)
          && c.invalidatedAt.None? {
          vcodes := vcodes[i := Retire(c, Invalidated, now)];
        }
      }
    }

    /** A code is sent exactly when nothing stands against it; it is then the user's only one in play. */
    method PrepareSending(u: nat, secret: Secret, now: Instant) returns (answer: Answer)
      requires Valid(now)
      modifies this`vcodes
      ensures Valid(now)
      ensures (Contents(), answer) == PrepareSend(old(Contents()), u, secret, now)
      ensures answer.SendPrepared? <==> exists e: nat :: MaySend(old(Contents()), u, e, now)
      ensures answer.SendPrepared? ==> answer.code == |old(vcodes)| && OnlyCode(vcodes, u, answer.code)
    {
      SteadySound(vcodes, now);
      SentExactly(Contents(), u, secret, now);
      SendKeeps(Contents(), u, secret, now);
      SendAnchored(Contents(), u, secret, now);
      hide Steady, Anchored, AllSound, MaySend, OnlyCode, OverdueAll, SupersededAll, TooEarly;
      if u >= |users| || users[u].status != Active {
        return Failure(UserInactive);
      }
      var current := RecoveryStore.FindCurrentEmail(emails, u);
      if current.None? || current.value >= |emails| {
        return Failure(NoRecoveryEmail);
      }
      var e := current.value;
      if emails[e].status == Verified {
        return Failure(AlreadyVerified);
      }
      if emails[e].status != Pending {
        return Failure(EmailDisabled);
      }
      var saved := vcodes;
      LapseOverdue(u, now);
      var wait := MeasureWait(vcodes, u, now);
      if wait.Some? {
        vcodes := saved;
        return Failure(RateLimit(wait.value));
      }
      SupersedePendent(u, now);
      var id := |vcodes|;
      vcodes := vcodes + [NewVCode(u, e, secret, now)];
      return SendPrepared(id);
    }

    /** A delivery is confirmed exactly while its code is being sent and its user is active. */
    method ConfirmSending(c: nat, u: nat, e: nat, now: Instant) returns (answer: Answer)
      requires Valid(now)
      modifies this`vcodes
      ensures Valid(now)
      ensures (Contents(), answer) == ConfirmVerificationSent(old(Contents()), c, u, e, now)
      ensures answer == Okay <==>
                && IsActive(old(Contents()), u) && c < |old(vcodes)| && old(vcodes)[c].user == u
                && old(vcodes)[c].email == e
                && old(vcodes)[c].status == Sending
      ensures answer == Okay ==> vcodes[c].status == Live && OnlyCode(vcodes, u, c)
    {
      hide Steady, Anchored, OnlyCode;
      ghost var moment := Moment(ConfirmMove(c, u, e), now);
      ConfirmedExactly(Contents(), c, u, e, now);
      MoveKeeps(Contents(), moment);
      if u >= |users| {
        return Failure(Missing);
      }
      if users[u].status != Active {
        return Failure(UserInactive);
      }
      if e >= |emails| || emails[e].user != u || !emails[e].current {
        return Failure(CodeInvalidated);
      }
      if emails[e].status != Pending {
        return Failure(CodeInvalidated);
      }
      if c >= |vcodes| || vcodes[c].user != u || vcodes[c].email != e {
        return Failure(Missing);
      }
      if vcodes[c].status != Sending {
        return Failure(CodeInvalidated);
      }
      vcodes := vcodes[c := vcodes[c].(status := Live, sentAt := Some(now))];
      return Okay;
    }

    /** A failed delivery leaves the user without a code in play if it was still being sent. */
    method FailDelivery(c: nat, u: nat, now: Instant)
      requires Valid(now)
      modifies this`vcodes
      ensures Valid(now)
      ensures Contents() == FailVerificationSend(old(Contents()), c, u, now)
      ensures if c < |old(vcodes)| && old(vcodes)[c].user == u && old(vcodes)[c].status == Sending
              then vcodes[c].status == DeliveryFailed && NoCode(vcodes, u)
              else vcodes == old(vcodes)
    {
      hide Steady, Anchored, NoCode;
      FailedExactly(Contents(), c, u, now);
      MoveKeeps(Contents(), Moment(FailMove(c, u), now));
      if c < |vcodes| && vcodes[c].user == u && vcodes[c].status == Sending {
        vcodes := vcodes[c := Retire(vcodes[c], DeliveryFailed, now)];
      }
    }

    /** The email is verified exactly when the guess is the active user's live code, in time; the
        user then has no code in play. */
    method Verify(u: nat, guess: string, pick: Option<nat>, clock: Instant, now: Instant) returns (answer: Answer)
      requires Valid(now) && Allowed(Contents(), Moment(VerifyMove(u, guess, pick, clock), now))
      modifies this`emails, this`vcodes
      ensures Valid(now)
      ensures (Contents(), answer) == VerifyEmail(old(Contents()), u, guess, pick, clock, now)
      ensures answer.EmailConfirmed? <==>
                IsActive(old(Contents()), u) && exists c :: RightFor(old(Contents()), c, u, guess, clock)
      ensures answer.EmailConfirmed? ==>
                && RightFor(old(Contents()), answer.code, u, guess, clock)
                && answer.email == old(vcodes)[answer.code].email
                && answer.email < |old(emails)|
                && emails == old(emails)[answer.email := old(emails)[answer.email].(status := Verified)]
                && NoCode(vcodes, u)
    {
      hide Steady, Anchored, NoCode, RightFor, SupersededOf, Allowed;
      VerifiedExactly(Contents(), u, guess, pick, clock, now);
      MoveKeeps(Contents(), Moment(VerifyMove(u, guess, pick, clock), now));
      if !ValidCode(guess) {
        return Failure(BadCode);
      }
      if u >= |users| || users[u].status != Active {
        return Failure(UserInactive);
      }
      var current := RecoveryStore.FindCurrentEmail(emails, u);
      if current.None? || current.value >= |emails| {
        return Failure(NoRecoveryEmail);
      }
      var e := current.value;
      if emails[e].status == Verified {
        return Failure(AlreadyVerified);
      }
      if emails[e].status != Pending {
        return Failure(EmailDisabled);
      }
      if pick.None? || pick.value >= |vcodes| {
        return Failure(NoActiveCode);
      }
      var c := pick.value;
      var code := vcodes[c];
      match code.status {
        case Used => return Failure(CodeUsed);
        case Locked => return Failure(Exhausted);
        case Expired => return Failure(CodeExpired);
        case Live =>
        case _ => return Failure(CodeInvalidated);
      }
      if code.expires <= clock {
        vcodes := vcodes[c := Retire(code, Expired, now)];
        return Failure(CodeExpired);
      }
      if code.secret != guess {
        var attempts := code.attempts + 1;
        var locked := attempts >= code.maxAttempts;
        var missed := code.(attempts := attempts);
        vcodes := vcodes[c := if locked then Retire(missed, Locked, now) else missed];
        return Failure(if locked then Exhausted else Mismatch);
      }
      emails := emails[e := emails[e].(status := Verified)];
      vcodes := vcodes[c := code.(status := Used, usedAt := Some(now))];
      SupersedeOthers(u, e, c, now);
      return EmailConfirmed(c, e);
    }
  }

  lemma MoveKeeps(db: Tables, m: Moment)
    requires Steady(db.vcodes, m.at) && Anchored(db.emails, db.vcodes)
    ensures Steady(Do(db, m).0.vcodes, m.at) && Anchored(Do(db, m).0.emails, Do(db, m).0.vcodes)
  {
    SteadySound(db.vcodes, m.at);
    hide Steady, Do, Anchored;
    StepSteady(db, m, m.at);
    StepAnchored(db, m);
  }
}
