/** The query-code login limiter as the object the server holds: maps updated in place, a
    deletion loop for the clean-up and scanning loops that pick the eviction victim. Every
    method takes the state to the one QueryLimiter gives, for a victim the rules allow. */
module QueryLimiterStore {
  import opened QueryLimiter
  import opened QueryLimiterOrigins

  class LoginLimiter {
    const policy: Policy
    var attempts: map<string, Counter>
    var failures: map<string, Failures>

    constructor ()
      ensures policy == DEFAULT_POLICY && Contents() == EMPTY && Valid()
    {
      policy := DEFAULT_POLICY;
      attempts, failures := map[], map[];
    }

    ghost function Contents(): State
      reads this
    {
      State(attempts, failures)
    }

    /** Every record is kept under the key of a pair with the record's own CN. */
    ghost predicate Valid()
      reads this
    {
      OwnKeys(Contents())
    }

    method CleanupLocked(now: Instant)
      modifies this
      ensures Contents() == Cleanup(policy, old(Contents()), now)
    {
      ghost var was := Contents();
      ghost var clean := Cleanup(policy, was, now);
      var left := attempts.Keys;
      while left != {}
        invariant left <= was.attempts.Keys && failures == was.failures
        invariant forall k :: k in attempts <==> k in was.attempts && (k in left || k in clean.attempts)
        invariant forall k :: k in attempts ==> attempts[k] == was.attempts[k]
      {
        var key :| key in left;
        left := left - {key};
        if AttemptExpired(policy, attempts[key], now) {
          attempts := attempts - {key};
        }
      }
      assert attempts == clean.attempts;
      left := failures.Keys;
      while left != {}
        invariant left <= was.failures.Keys && attempts == clean.attempts
        invariant forall k :: k in failures <==> k in was.failures && (k in left || k in clean.failures)
        invariant forall k :: k in failures ==> failures[k] == was.failures[k]
      {
        var key :| key in left;
        left := left - {key};
        if FailuresExpired(policy, failures[key], now) {
          failures := failures - {key};
        }
      }
      assert failures == clean.failures;
    }

    /** Makes room for one new attempts key, evicting the least recently seen one if it must. */
    method EnsureAttemptsCapacityLocked(now: Instant) returns (ok: bool, ghost victim: string)
      modifies this
      ensures (Contents(), ok) == AttemptsRoom(policy, old(Contents()), now, victim)
      ensures var c := Cleanup(policy, old(Contents()), now);
              |old(attempts)| >= MaxKeys(policy) && |c.attempts| >= MaxKeys(policy) ==> ok && AttemptsVictim(c, victim)
    {
      victim := "";
      if |attempts| < MaxKeys(policy) {
        return true, victim;
      }
      CleanupLocked(now);
      if |attempts| < MaxKeys(policy) {
        return true, victim;
      }
      var oldestKey, oldest, found := "", 0, false;
      var left := attempts.Keys;
      while left != {}
        invariant left <= attempts.Keys
        invariant found ==> oldestKey in attempts && attempts[oldestKey].seen == oldest
        invariant forall k :: k in attempts && k !in left ==> found && oldest <= attempts[k].seen
      {
        var key :| key in left;
        left := left - {key};
        if !found || attempts[key].seen < oldest {
          oldest, oldestKey, found := attempts[key].seen, key, true;
        }
      }
      if !found {
        return false, victim;
      }
      victim := oldestKey;
      attempts := attempts - {oldestKey};
      return true, victim;
    }

    /** Makes room for one new failure key, evicting the least recently seen one that is not
        blocked; says false when every key is blocked. */
    method EnsureFailuresCapacityLocked(now: Instant) returns (ok: bool, ghost victim: string)
      modifies this
      ensures (Contents(), ok) == FailuresRoom(policy, old(Contents()), now, victim)
      ensures var c := Cleanup(policy, old(Contents()), now);
              |old(failures)| >= MaxKeys(policy) && |c.failures| >= MaxKeys(policy) && !AllBlocked(c, now) ==>
                FailuresVictim(c, now, victim)
    {
      victim := "";
      if |failures| < MaxKeys(policy) {
        return true, victim;
      }
      CleanupLocked(now);
      if |failures| < MaxKeys(policy) {
        return true, victim;
      }
      var oldestKey, oldest, found := "", 0, false;
      var left := failures.Keys;
      while left != {}
        invariant left <= failures.Keys
        invariant found ==>
                    oldestKey in failures && failures[oldestKey].seen == oldest
                      && now >= failures[oldestKey].blockedUntil
        invariant forall k :: k in failures && k !in left && now >= failures[k].blockedUntil ==>
                    found && oldest <= failures[k].seen
      {
        var key :| key in left;
        left := left - {key};
        if now >= failures[key].blockedUntil && (!found || failures[key].seen < oldest) {
          oldest, oldestKey, found := failures[key].seen, key, true;
        }
      }
      if !found {
        assert AllBlocked(Contents(), now);
        return false, victim;
      }
      victim := oldestKey;
      failures := failures - {oldestKey};
      return true, victim;
    }

    /** Whether this login may proceed; called once per login, before any database work. */
    method Permit(ip: Address, cn: string, now: Instant) returns (ok: bool, ghost victim: string)
      requires Valid()
      modifies this
      ensures Valid()
      ensures (Contents(), ok) == Apply(policy, old(Contents()), Event(AllowOp(ip, cn, victim), now))
      ensures Fair(policy, old(Contents()), Event(AllowOp(ip, cn, victim), now))
    {
      hide OwnKeys, Apply, Fair;
      ok, victim := PermitLocked(ip, cn, now);
      OwnKeysStep(policy, old(Contents()), Event(AllowOp(ip, cn, victim), now));
    }

    method PermitLocked(ip: Address, cn: string, now: Instant) returns (ok: bool, ghost victim: string)
      modifies this
      ensures (Contents(), ok) == Apply(policy, old(Contents()), Event(AllowOp(ip, cn, victim), now))
      ensures Fair(policy, old(Contents()), Event(AllowOp(ip, cn, victim), now))
    {
      victim := "";
      CleanupLocked(now);
      if ip !in attempts {
        assert Cleanup(policy, Contents(), now) == Contents();
        ok, victim := EnsureAttemptsCapacityLocked(now);
        if !ok {
          return false, victim;
        }
      }
      // A counter whose window has closed would start again; right after the clean-up none has.
      assert ip in attempts ==> now - attempts[ip].start < policy.attemptWindow;
      var counter :=
        if ip in attempts && now - attempts[ip].start < policy.attemptWindow then attempts[ip].(seen := now)
        else Counter(now, 0, now);
      if counter.count >= policy.maxAttempts {
        attempts := attempts[ip := counter];
        return false, victim;
      }
      attempts := attempts[ip := counter.(count := counter.count + 1)];
      var key := FailureKey(ip, cn);
      if key in failures {
        failures := failures[key := failures[key].(seen := now)];
        if now < failures[key].blockedUntil {
          return false, victim;
        }
      }
      return true, victim;
    }

    method NoteFailure(ip: Address, cn: string, now: Instant) returns (ghost victim: string)
      requires Valid()
      modifies this
      ensures Valid()
      ensures Contents() == Apply(policy, old(Contents()), Event(FailOp(ip, cn, victim), now)).0
      ensures Fair(policy, old(Contents()), Event(FailOp(ip, cn, victim), now))
    {
      hide OwnKeys, Apply, Fair;
      victim := NoteFailureLocked(ip, cn, now);
      OwnKeysStep(policy, old(Contents()), Event(FailOp(ip, cn, victim), now));
    }

    method NoteFailureLocked(ip: Address, cn: string, now: Instant) returns (ghost victim: string)
      modifies this
      ensures Contents() == Apply(policy, old(Contents()), Event(FailOp(ip, cn, victim), now)).0
      ensures Fair(policy, old(Contents()), Event(FailOp(ip, cn, victim), now))
    {
      victim := "";
      var key := FailureKey(ip, cn);
      var state := Failures(cn, now, 0, ZERO, now);
      if key !in failures {
        var ok;
        ok, victim := EnsureFailuresCapacityLocked(now);
        if !ok {
          return;
        }
      } else {
        state := failures[key];
        if now - state.start >= policy.failureWindow {
          state := state.(start := now, count := 0);
        }
      }
      state := state.(seen := now, count := state.count + 1);
      if state.count >= policy.maxFailures {
        state := state.(blockedUntil := now + policy.blockDuration, count := 0, start := now);
      }
      failures := failures[key := state];
    }

    method NoteSuccess(ip: Address, cn: string)
      requires Valid()
      modifies this
      ensures Valid()
      ensures Contents() == RecordSuccess(old(Contents()), ip, cn)
      ensures Forgiven(policy, Contents(), ip, cn)
    {
      failures := failures - {FailureKey(ip, cn)};
      ClearForgiven(policy, Contents(), ip, cn);
    }

    /** Lifts one pair's block and frees a few attempt slots of its address. */
    method ReleasePair(ip: Address, cn: string, now: Instant)
      requires Valid()
      modifies this
      ensures Valid()
      ensures Contents() == Release(policy, old(Contents()), ip, cn, now)
    {
      failures := failures - {FailureKey(ip, cn)};
      if ip !in attempts {
        return;
      }
      var counter := attempts[ip];
      if now - counter.start >= policy.attemptWindow {
        attempts := attempts[ip := counter.(start := now, count := 0)];
        return;
      }
      var ceiling := policy.maxAttempts - RELEASE_GRACE_ATTEMPTS;
      if counter.count > ceiling {
        attempts := attempts[ip := counter.(count := if ceiling < 0 then 0 else ceiling)];
      } else {
        assert attempts == attempts[ip := counter];
      }
    }

    /** Lifts a CN's blocks at every address. */
    method ReleaseCN(cn: string)
      requires Valid()
      modifies this
      ensures Valid()
      ensures Contents() == ReleaseForCN(old(Contents()), cn) && attempts == old(attempts)
      ensures forall ip: Address :: FailureKey(ip, cn) !in failures && Forgiven(policy, Contents(), ip, cn)
      ensures forall ip: Address, c: string :: c != cn ==>
                MapAt(failures, FailureKey(ip, c)) == MapAt(old(failures), FailureKey(ip, c))
    {
      ReleasedForCN(policy, Contents(), cn);
      hide Forgiven, FailureKey, MapAt, OwnKeys;
      ghost var was := Contents();
      var left := failures.Keys;
      while left != {}
        invariant left <= was.failures.Keys && attempts == was.attempts
        invariant forall k :: k in failures <==> k in was.failures && (k in left || was.failures[k].cn != cn)
        invariant forall k :: k in failures ==> failures[k] == was.failures[k]
      {
        var key :| key in left;
        left := left - {key};
        if failures[key].cn == cn {
          failures := failures - {key};
        }
      }
      assert failures == ReleaseForCN(was, cn).failures;
    }
  }
}
