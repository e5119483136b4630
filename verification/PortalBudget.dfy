/** The budget's object (src/core/budget/budget.ts): the synchronous parts of `run` over the two objects it owns. */
module PortalBudget {
  import opened Basics
  import Breakers = Breaker
  import Limiters = Limiter
  import B = BreakerModel
  import L = LimiterModel
  import M = BudgetModel

  class PortalBudget {
    const breaker: Breakers.Breaker
    const limiter: Limiters.Limiter

    constructor (c: M.Config, now: int)
      ensures fresh(breaker) && fresh(limiter) && Config() == c
      ensures breaker.View() == B.Start(c.policy) && limiter.State() == L.Start(c.limits, now)
    {
      breaker := new Breakers.Breaker(c.policy);
      limiter := new Limiters.Limiter(c.limits, now);
    }

    function Config(): M.Config {
      M.Config(limiter.limits, breaker.policy)
    }

    /** One turn of `admit`'s loop, and the stage it leaves the request in. */
    method Pass(call: M.Call, aborted: bool, now: int) returns (stage: M.Stage)
      modifies breaker
      ensures forall s: M.State, id: nat ::
                s.breaker == old(breaker.View()) && id in s.requests
                && s.requests[id].call == call && s.requests[id].aborted == aborted ==>
                  M.PassBreaker(Config(), s, id, now)
                  == s.(breaker := breaker.View(), requests := s.requests[id := s.requests[id].(stage := stage)])
    {
      if aborted {
        return M.Ended(M.Cancelled);
      }
      var admission := breaker.Admit(now, call.write, call.background);
      match admission {
        case Go(probe) => stage := M.Admitted(probe);
        case Refuse(_, _) => stage := M.Ended(M.Refused);
        case Wait(until) => stage := M.Sleeping(until);
      }
    }

    /** `settle`: learn, tell the queue, release the slot. */
    method Settle(probe: bool, answer: M.Answer, ghost ticket: nat, now: int)
      requires Config().Valid()
      modifies breaker, limiter
      ensures var learned := M.Learn(Config(), old(breaker.View()), now, probe, answer);
              && breaker.View() == B.Observe(learned, now)
              && limiter.State() == M.SettleLimiter(Config(), old(limiter.State()), learned, ticket, now)
    {
      match answer {
        case Fine => breaker.Success(probe);
        case PushedBack(hint) => breaker.Pushback(now, probe, hint);
      }
      var state := breaker.State(now);
      if state == B.Open {
        limiter.Flush(now);
      } else {
        var at := breaker.RetryAt(now);
        limiter.Hold(if at.Some? then at.value else now, now);
      }
      limiter.Release(ticket, now);
    }

    /** What a status report sees. */
    method Snapshot(now: int) returns (mode: B.Mode, retryAt: Option<int>, inFlight: int, queued: nat)
      modifies breaker
      ensures breaker.View() == B.Observe(old(breaker.View()), now)
      ensures mode == breaker.current && retryAt == B.RetryAt(old(breaker.View()), now)
      ensures inFlight == limiter.inFlight && queued == |limiter.queue|
    {
      mode := breaker.State(now);
      retryAt := breaker.RetryAt(now);
      inFlight, queued := limiter.inFlight, |limiter.queue|;
    }
  }
}
