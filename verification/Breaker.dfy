/** The circuit breaker's object (src/core/budget/breaker.ts), proved to do what BreakerModel says. */
module Breaker {
  import opened Basics
  import M = BreakerModel

  class Breaker {
    const policy: M.Policy
    var current: M.Mode
    var failures: seq<int>
    var consecutive: nat
    var pausedUntil: int
    var openUntil: int
    var coolDownMs: int
    var probing: bool
    ghost var strikes: seq<int>
    ghost var openedAt: int
    ghost var failedAt: seq<int>

    ghost function View(): M.State
      reads this
    {
      M.State(current, failures, consecutive, pausedUntil, openUntil, coolDownMs, probing, strikes, openedAt, failedAt)
    }

    constructor (policy: M.Policy)
      ensures this.policy == policy && View() == M.Start(policy)
    {
      this.policy := policy;
      current, failures, consecutive, pausedUntil, openUntil := M.Closed, [], 0, 0, 0;
      coolDownMs, probing := policy.coolDownMs, false;
      strikes, openedAt, failedAt := [], 0, [];
    }

    method State(now: int) returns (mode: M.Mode)
      modifies this
      ensures View() == M.Observe(old(View()), now) && mode == View().current
    {
      if current == M.Open && now >= openUntil {
        current, probing := M.HalfOpen, false;
      }
      mode := current;
    }

    method RetryAt(now: int) returns (at: Option<int>)
      modifies this
      ensures View() == M.Observe(old(View()), now) && at == M.RetryAt(old(View()), now)
    {
      var state := State(now);
      if state == M.Open {
        return Some(openUntil);
      }
      if state == M.Closed && pausedUntil > now {
        return Some(pausedUntil);
      }
      at := None;
    }

    method Admit(now: int, write: bool, background: bool) returns (admission: M.Admission)
      modifies this
      ensures (View(), admission) == M.Admit(policy, old(View()), now, write, background)
    {
      var state := State(now);
      if state == M.Open {
        return M.Refuse(M.Paused, openUntil);
      }
      if state == M.HalfOpen {
        if probing || write || background {
          return M.Refuse(M.Paused, now + policy.probeRetryMs);
        }
        probing := true;
        return M.Go(true);
      }
      if pausedUntil > now {
        if background || pausedUntil - now > policy.maxWaitMs {
          return M.Refuse(M.SlowDown, pausedUntil);
        }
        return M.Wait(pausedUntil);
      }
      admission := M.Go(false);
    }

    method Abandon(probe: bool)
      modifies this
      ensures View() == M.Abandon(old(View()), probe)
    {
      if probe {
        probing := false;
      }
    }

    method Success(probe: bool)
      modifies this
      ensures View() == M.Success(policy, old(View()), probe)
    {
      if probe {
        current, probing, coolDownMs := M.Closed, false, policy.coolDownMs;
      }
      failures, consecutive, strikes := [], 0, [];
    }

    method Pushback(now: int, probe: bool, retryAfterMs: Option<int>)
      modifies this
      ensures View() == M.Pushback(policy, old(View()), now, probe, retryAfterMs)
    {
      var hinted := match retryAfterMs
        case None => None
        case Some(ms) => Some(Min(policy.maxRetryAfterMs, Max(policy.minRetryAfterMs, ms)));
      if probe {
        probing, coolDownMs := false, Min(policy.maxCoolDownMs, coolDownMs * 2);
        failedAt := failedAt + [now];
        Open(now, hinted);
        return;
      }
      var state := State(now);
      if state != M.Closed {
        if current == M.Open && hinted.Some? {
          openUntil := Max(openUntil, now + hinted.value);
        }
        return;
      }
      KeepRecent(now);
      failures, consecutive, strikes := failures + [now], consecutive + 1, strikes + [now];
      if |failures| >= policy.threshold {
        Open(now, hinted);
        openedAt, failedAt := now, [];
        return;
      }
      var backoff := Min(policy.backoffMaxMs, policy.backoffBaseMs * Pow2(consecutive - 1));
      pausedUntil := Max(pausedUntil, now + if hinted.Some? then hinted.value else backoff);
    }

    /** The `filter` that forgets push-backs outside the window. */
    method KeepRecent(now: int)
      modifies this`failures
      ensures failures == M.Recent(policy, old(failures), now)
    {
      var all := failures;
      failures := [];
      var i := 0;
      while i < |all|
        invariant 0 <= i <= |all|
        invariant failures == M.Recent(policy, all[..i], now)
      {
        assert all[..i + 1][..i] == all[..i];
        if now - all[i] < policy.windowMs {
          failures := failures + [all[i]];
        }
        i := i + 1;
      }
      assert all[..i] == all;
    }

    method Open(now: int, hinted: Option<int>)
      modifies this
      ensures View() == M.OpenUp(old(View()), now, hinted)
    {
      current := M.Open;
      openUntil := now + Max(coolDownMs, if hinted.Some? then hinted.value else 0);
      failures, consecutive, pausedUntil, strikes := [], 0, 0, [];
    }
  }
}
