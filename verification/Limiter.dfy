/** The limiter's object (src/core/budget/limiter.ts): its fields and methods, proved to do what LimiterModel says. */
module Limiter {
  import opened Basics
  import M = LimiterModel

  class Limiter {
    const limits: M.Limits
    var tokens: int
    var refilledAt: int
    var inFlight: int
    var holdUntil: int
    var queue: seq<nat>
    var timer: Option<int>
    var listeners: set<nat>
    var issued: nat
    // What the callers' promises saw; the code itself does not look at it.
    ghost var signals: set<nat>
    ghost var granted: seq<nat>
    ghost var grantedAt: seq<int>
    ghost var live: set<nat>
    ghost var cancelled: set<nat>
    ghost var flushed: set<nat>

    ghost function State(): M.State
      reads this
    {
      M.State(tokens, refilledAt, inFlight, holdUntil, queue, timer, signals, listeners, issued, granted, grantedAt,
              live, cancelled, flushed)
    }

    constructor (limits: M.Limits, now: int)
      ensures this.limits == limits && State() == M.Start(limits, now)
    {
      this.limits := limits;
      tokens, refilledAt, inFlight, holdUntil := limits.burst * M.TOKEN, now, 0, 0;
      queue, timer, listeners, issued := [], None, {}, 0;
      signals, granted, grantedAt, live, cancelled, flushed := {}, [], [], {}, {}, {};
    }

    /** The ticket is what the caller's promise is known by; it is cancelled already when the signal has fired. */
    method Acquire(signal: bool, aborted: bool, now: int) returns (ticket: nat)
      requires limits.Valid()
      modifies this
      ensures ticket == old(issued)
      ensures State() == M.Step(limits, old(State()), M.Acquire(signal, aborted), now)
    {
      hide M.Pump;
      ticket := issued;
      issued := issued + 1;
      if aborted {
        cancelled := cancelled + {ticket};
        return;
      }
      if signal {
        listeners, signals := listeners + {ticket}, signals + {ticket};
      }
      queue := queue + [ticket];
      Pump(now);
    }

    method Release(ghost ticket: nat, now: int)
      requires limits.Valid()
      modifies this
      ensures State() == M.Step(limits, old(State()), M.Release(ticket), now)
    {
      hide M.Pump;
      inFlight, live := inFlight - 1, live - {ticket};
      Pump(now);
    }

    method Hold(until: int, now: int)
      requires limits.Valid()
      modifies this
      ensures State() == M.Step(limits, old(State()), M.Hold(until), now)
    {
      hide M.Pump;
      holdUntil := Max(holdUntil, until);
      Pump(now);
    }

    method Flush(now: int)
      requires limits.Valid()
      modifies this
      ensures State() == M.Step(limits, old(State()), M.Flush, now)
    {
      hide M.Pump;
      var waiting := queue;
      queue := [];
      var i := 0;
      while i < |waiting|
        invariant 0 <= i <= |waiting|
        invariant listeners == old(listeners) - M.SetOf(waiting[..i])
        invariant flushed == old(flushed) + M.SetOf(waiting[..i])
        invariant State() == old(State()).(queue := [], listeners := listeners, flushed := flushed)
      {
        assert waiting[..i + 1] == waiting[..i] + [waiting[i]];
        listeners, flushed := listeners - {waiting[i]}, flushed + {waiting[i]};
        i := i + 1;
      }
      assert waiting[..i] == waiting;
      Pump(now);
    }

    /** The abort listener of a queued request. */
    method OnAbort(ticket: nat, now: int)
      requires limits.Valid()
      modifies this
      ensures State() == M.Step(limits, old(State()), M.Abort(ticket), now)
    {
      hide M.Pump;
      queue := M.Splice(queue, M.IndexOf(queue, ticket));
      listeners, cancelled := listeners - {ticket}, cancelled + {ticket};
      Pump(now);
    }

    /** The timer's callback. */
    method OnTimer(now: int)
      requires limits.Valid()
      modifies this
      ensures State() == M.Step(limits, old(State()), M.Fire, now)
    {
      hide M.Pump;
      timer := None;
      Pump(now);
    }

    method Refill(now: int)
      requires limits.Valid()
      modifies this
      ensures State() == M.Refill(limits, old(State()), now)
    {
      var added := (now - refilledAt) * limits.perMinute;
      tokens := Min(limits.burst * M.TOKEN, tokens + added);
      refilledAt := now;
    }

    method Pump(now: int)
      requires limits.Valid()
      modifies this
      ensures State() == M.Pump(limits, old(State()), now)
    {
      Refill(now);
      GrantAll(now);
      var blockedByTime := |queue| > 0 && inFlight < limits.maxInFlight;
      if !blockedByTime {
        timer := None;
      } else {
        var tokenAt := now + M.CeilDiv(M.TOKEN - tokens, limits.perMinute);
        Arm(Max(holdUntil, if tokens >= M.TOKEN then now else tokenAt));
      }
    }

    /** The loop of `pump`. */
    method GrantAll(now: int)
      modifies this
      ensures State() == M.Grants(limits, old(State()), now)
    {
      ghost var goal := M.Grants(limits, State(), now);
      while |queue| > 0 && inFlight < limits.maxInFlight && now >= holdUntil && tokens >= M.TOKEN
        invariant M.Grants(limits, State(), now) == goal
        decreases |queue|
      {
        GrantFirst(now);
      }
    }

    /** The body of that loop. */
    method GrantFirst(now: int)
      requires |queue| > 0
      modifies this
      ensures State() == M.GrantHead(old(State()), now)
    {
      var head := queue[0];
      tokens, inFlight, queue := tokens - M.TOKEN, inFlight + 1, queue[1..];
      listeners := listeners - {head};
      granted, grantedAt, live := granted + [head], grantedAt + [now], live + {head};
    }

    method Arm(at: int)
      modifies this
      ensures State() == old(State()).(timer := Some(at))
    {
      if timer == Some(at) {
        return;
      }
      timer := Some(at);
    }
  }
}
