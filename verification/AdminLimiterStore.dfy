/** The limiter as the object the server holds: maps updated in place, with the clean-up as
    deletion loops. Every method is proved to take the state to the one AdminLimiter gives. */
module AdminLimiterStore {
  import opened AdminLimiter

  class LoginLimiter {
    const policy: Policy
    var attempts: map<string, Counter>
    var failures: map<string, Failures>
    var rateLimitAudits: map<string, int>

    constructor ()
      ensures policy == DEFAULT_POLICY && Contents() == EMPTY
    {
      policy := DEFAULT_POLICY;
      attempts, failures, rateLimitAudits := map[], map[], map[];
    }

    ghost function Contents(): State
      reads this
    {
      State(attempts, failures, rateLimitAudits)
    }

    method CleanupAttempts(now: Instant)
      modifies this`attempts
      ensures attempts == Cleanup(policy, old(Contents()), now).attempts
    {
      ghost var was := attempts;
      var left := attempts.Keys;
      while left != {}
        invariant left <= was.Keys
        invariant forall k :: k in attempts <==> k in was && (k in left || !AttemptExpired(policy, was[k], now))
        invariant forall k :: k in attempts ==> attempts[k] == was[k]
      {
        var key :| key in left;
        left := left - {key};
        if AttemptExpired(policy, attempts[key], now) {
          attempts := attempts - {key};
        }
      }
    }

    method CleanupFailures(now: Instant)
      modifies this`failures
      ensures failures == Cleanup(policy, old(Contents()), now).failures
    {
      ghost var was := failures;
      var left := failures.Keys;
      while left != {}
        invariant left <= was.Keys
        invariant forall k :: k in failures <==> k in was && (k in left || !FailuresExpired(policy, was[k], now))
        invariant forall k :: k in failures ==> failures[k] == was[k]
      {
        var key :| key in left;
        left := left - {key};
        if FailuresExpired(policy, failures[key], now) {
          failures := failures - {key};
        }
      }
    }

    method CleanupAudits(now: Instant)
      modifies this`rateLimitAudits
      ensures rateLimitAudits == Cleanup(policy, old(Contents()), now).audits
    {
      ghost var was := rateLimitAudits;
      var left := rateLimitAudits.Keys;
      while left != {}
        invariant left <= was.Keys
        invariant forall k :: k in rateLimitAudits <==> k in was && (k in left || !AuditExpired(policy, was[k], now))
        invariant forall k :: k in rateLimitAudits ==> rateLimitAudits[k] == was[k]
      {
        var key :| key in left;
        left := left - {key};
        if AuditExpired(policy, rateLimitAudits[key], now) {
          rateLimitAudits := rateLimitAudits - {key};
        }
      }
    }

    /** The three deletion loops, one after the other. */
    method CleanupLocked(now: Instant)
      modifies this
      ensures Contents() == Cleanup(policy, old(Contents()), now)
    {
      CleanupAttempts(now);
      CleanupFailures(now);
      CleanupAudits(now);
    }

    /** Whether this login may proceed; called once per login, before any database work. */
    method Permit(ip: string, user: string, now: Instant) returns (ok: bool)
      modifies this
      ensures (Contents(), ok) == Allow(policy, old(Contents()), ip, user, now)
    {
      CleanupLocked(now);
      if ip !in attempts && |attempts| >= policy.maxKeys {
        return false;
      }
      // A counter whose window has closed would start again; right after the clean-up none has.
      assert ip in attempts ==> now - attempts[ip].start < policy.attemptWindow;
      var counter := if ip in attempts && now - attempts[ip].start < policy.attemptWindow then attempts[ip]
        else Counter(now, 0);
      if counter.count >= policy.maxAttempts {
        attempts := attempts[ip := counter];
        return false;
      }
      attempts := attempts[ip := counter.(count := counter.count + 1)];
      var key := FailureKey(ip, user);
      if key in failures && now < failures[key].blockedUntil {
        return false;
      }
      return true;
    }

    method NoteFailure(ip: string, user: string, now: Instant)
      modifies this
      ensures Contents() == RecordFailure(policy, old(Contents()), ip, user, now)
    {
      var key := FailureKey(ip, user);
      if key !in failures {
        if |failures| >= policy.maxKeys {
          return;
        }
        failures := failures[key := Failures(now, 0, ZERO)];
      } else if now - failures[key].start >= policy.failureWindow {
        failures := failures[key := failures[key].(start := now, count := 0)];
      }
      var state := failures[key];
      state := state.(count := state.count + 1);
      if state.count >= policy.maxFailures {
        state := state.(blockedUntil := now + policy.blockDuration, count := 0, start := now);
      }
      failures := failures[key := state];
    }

    method NoteSuccess(ip: string, user: string)
      modifies this
      ensures Contents() == RecordSuccess(old(Contents()), ip, user)
      ensures Forgiven(policy, Contents(), FailureKey(ip, user))
    {
      var key := FailureKey(ip, user);
      failures := failures - {key};
      rateLimitAudits := rateLimitAudits - {key};
      ClearForgiven(policy, Contents(), key);
    }

    /** Whether a refused login is worth an audit row: at most one per pair and audit window. */
    method ShouldAuditRateLimited(ip: string, user: string, now: Instant) returns (ok: bool)
      modifies this
      ensures (Contents(), ok) == ShouldAudit(policy, old(Contents()), ip, user, now)
    {
      CleanupLocked(now);
      var key := FailureKey(ip, user);
      if key in rateLimitAudits && now - rateLimitAudits[key] < policy.auditWindow {
        return false;
      }
      if key !in rateLimitAudits && |rateLimitAudits| >= policy.maxKeys {
        return false;
      }
      rateLimitAudits := rateLimitAudits[key := now];
      return true;
    }
  }
}
