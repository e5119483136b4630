/** What one step of the limiter does to every token, slot and waiter, and what that makes of a run (src/core/budget/limiter.ts). */
module LimiterAccount {
  import opened Basics
  import opened LimiterModel

  /** The queue without one ticket. */
  function Without(q: seq<nat>, t: nat): seq<nat> {
    if q == [] then [] else (if q[0] == t then [] else [q[0]]) + Without(q[1..], t)
  }

  /** Who waits once the event has happened and before anything is granted. */
  function Waiters(s: State, e: Event): seq<nat> {
    match e
    case Acquire(_, _) => s.queue + [s.issued]
    case Abort(t) => Without(s.queue, t)
    case Flush => []
    case _ => s.queue
  }

  /** The tokens that are there at `t` when `tokens` were there at `at`. */
  function Refilled(l: Limits, tokens: int, at: int, t: int): int {
    Min(l.burst * TOKEN, tokens + (t - at) * l.perMinute)
  }

  lemma {:induction false} WithoutNone(q: seq<nat>, t: nat)
    requires t !in q
    ensures Without(q, t) == q
  {
    if q != [] {
      WithoutNone(q[1..], t);
      assert q == [q[0]] + q[1..];
    }
  }

  lemma {:induction false} WithoutOne(q: seq<nat>, i: nat)
    requires Ascending(q) && i < |q|
    ensures Without(q, q[i]) == q[..i] + q[i + 1..]
  {
    var rest := q[1..];
    assert forall j :: 0 <= j < |rest| ==> rest[j] == q[j + 1];
    if i == 0 {
      assert q[0] !in rest;
      WithoutNone(rest, q[0]);
      assert q[..0] + rest == rest;
    } else {
      WithoutOne(rest, i - 1);
      assert q[..i] + q[i + 1..] == [q[0]] + (rest[..i - 1] + rest[i..]);
    }
  }

  /** Why an abort must find its entry: splicing at -1 would take out the last waiter instead. */
  lemma SpliceOfMissing(q: seq<nat>, t: nat)
    requires t !in q && q != []
    ensures IndexOf(q, t) == -1 && Splice(q, IndexOf(q, t)) == q[..|q| - 1]
  {
    NotFound(q, t);
  }

  lemma {:induction false} NotFound(q: seq<nat>, t: nat)
    requires t !in q
    ensures IndexOf(q, t) == -1
  {
    if q != [] {
      NotFound(q[1..], t);
      assert q[0] in q;
    }
  }

  lemma SpliceIsWithout(q: seq<nat>, t: nat)
    requires Ascending(q) && t in q
    ensures Splice(q, IndexOf(q, t)) == Without(q, t)
  {
    IndexOfFinds(q, t);
    WithoutOne(q, IndexOf(q, t));
  }

  /** The grants of one pump: from the head of the queue, a token and a slot each, as many as tokens, slots and the
      hold allow. */
  lemma {:induction false} GrantsAccount(l: Limits, s: State, now: int)
    ensures var r, k := Grants(l, s, now), |s.queue| - |Grants(l, s, now).queue|;
            && 0 <= k <= |s.queue| && r.queue == s.queue[k..]
            && r == s.(tokens := s.tokens - TOKEN * k, inFlight := s.inFlight + k, queue := r.queue, listeners := r.listeners,
                       granted := s.granted + s.queue[..k], grantedAt := s.grantedAt + seq(k, i => now), live := r.live)
            && (r.queue == [] || r.inFlight >= l.maxInFlight || now < r.holdUntil || r.tokens < TOKEN)
    decreases |s.queue|
  {
    if CanGrant(l, s, now) {
      var m := GrantHead(s, now);
      GrantsAccount(l, m, now);
      var r := Grants(l, s, now);
      var k := |m.queue| - |r.queue|;
      assert s.queue[..k + 1] == [s.queue[0]] + m.queue[..k];
      assert s.granted + s.queue[..k + 1] == m.granted + m.queue[..k];
      assert s.grantedAt + seq(k + 1, i => now) == m.grantedAt + seq(k, i => now);
    } else {
      assert s.granted + s.queue[..0] == s.granted && s.grantedAt + seq(0, i => now) == s.grantedAt;
    }
  }

  /** The whole account of a step: who is granted and who still waits, every token and slot, the hold, and the one
      instant the timer is set for. */
  lemma StepAccount(l: Limits, s: State, e: Event, now: int)
    requires l.Valid() && Inv(l, s) && Enabled(s, e, now) && !(e.Acquire? && e.aborted)
    ensures var r, waiters := Step(l, s, e, now), Waiters(s, e);
            var k := |r.granted| - |s.granted|;
            && 0 <= k <= |waiters| && r.granted == s.granted + waiters[..k] && r.queue == waiters[k..]
            && r.grantedAt == s.grantedAt + seq(k, i => now)
            && r.tokens + TOKEN * k == Refilled(l, s.tokens, s.refilledAt, now) && r.refilledAt == now
            && r.inFlight == s.inFlight + k - (if e.Release? then 1 else 0)
            && r.holdUntil == (if e.Hold? then Max(s.holdUntil, e.until) else s.holdUntil)
            && (r.queue == [] || r.inFlight == l.maxInFlight || now < r.holdUntil || r.tokens < TOKEN)
            && r.issued == s.issued + (if e.Acquire? then 1 else 0)
            && r.cancelled == s.cancelled + (if e.Abort? then {e.ticket} else {})
            && r.flushed == s.flushed + (if e.Flush? then set t | t in s.queue else {})
  {
    hide Paced, Awake, Accounted, Ordered, Listening, Splice, IndexOf, Grants, WakeAt, Ascending;
    var m := Refill(l, Touch(s, e), now);
    if e.Abort? {
      AbortQueued(s, e.ticket);
      SpliceIsWithout(s.queue, e.ticket);
    }
    assert m.queue == Waiters(s, e);
    GrantsAccount(l, m, now);
    StepInv(l, s, e, now);
  }

  lemma AbortQueued(s: State, t: nat)
    requires Listening(s) && Ordered(s) && t in s.listeners
    ensures t in s.queue && Ascending(s.queue)
  {
    var all := s.granted + s.queue;
    assert forall i :: 0 <= i < |s.queue| ==> s.queue[i] == all[|s.granted| + i];
  }

  /** The timer is set exactly while a waiter and a free slot coexist, for the first instant at which the hold is over
      and a token is there. */
  lemma TimerAccount(l: Limits, s: State, t: int)
    requires l.Valid() && Inv(l, s) && t >= s.refilledAt
    ensures s.timer.Some? <==> s.queue != [] && s.inFlight < l.maxInFlight
    ensures s.timer.Some? ==>
              (t >= s.timer.value <==> t >= s.holdUntil && Refilled(l, s.tokens, s.refilledAt, t) >= TOKEN)
  {
    assert s.timer.Some? ==> (GrantPossible(l, s, t) <==> t >= s.timer.value);
  }

  /** A request whose signal has already fired is cancelled, and nothing else happens. */
  lemma AbortedAccount(l: Limits, s: State, signal: bool, now: int)
    requires l.Valid()
    ensures Step(l, s, Acquire(signal, true), now) == s.(issued := s.issued + 1, cancelled := s.cancelled + {s.issued})
  {
  }

  // ---------- The rate from below ----------

  /** The bucket does not overflow before `at`. */
  predicate InTime(l: Limits, s: State, at: int) {
    s.tokens + (at - s.refilledAt) * l.perMinute <= l.burst * TOKEN
  }

  predicate AllInTime(l: Limits, s: State, run: seq<Timed>)
    requires l.Valid()
    decreases |run|
  {
    run != [] ==> InTime(l, s, run[0].at) && AllInTime(l, Step(l, s, run[0].event, run[0].at), run[1..])
  }

  /** As long as the bucket does not overflow, tokens left and tokens granted together are those it started with and
      those the rate has brought since. */
  lemma {:induction false} Conserved(l: Limits, s: State, run: seq<Timed>)
    requires l.Valid() && Inv(l, s) && Legal(l, s, run) && AllInTime(l, s, run)
    ensures var r := After(l, s, run);
            TOKEN * (|r.granted| - |s.granted|) + r.tokens == s.tokens + l.perMinute * (r.refilledAt - s.refilledAt)
    decreases |run|
  {
    hide Step, Inv, Enabled;
    if run != [] {
      var m := Step(l, s, run[0].event, run[0].at);
      StepInv(l, s, run[0].event, run[0].at);
      StepConserves(l, s, run[0].event, run[0].at);
      Conserved(l, m, run[1..]);
      var r := After(l, s, run);
      Distributes(l.perMinute, r.refilledAt, m.refilledAt, s.refilledAt);
    }
  }

  lemma StepConserves(l: Limits, s: State, e: Event, now: int)
    requires l.Valid() && Inv(l, s) && Enabled(s, e, now) && InTime(l, s, now)
    ensures var r := Step(l, s, e, now);
            TOKEN * (|r.granted| - |s.granted|) + r.tokens == s.tokens + l.perMinute * (r.refilledAt - s.refilledAt)
  {
    hide Inv, Enabled;
    if e.Acquire? && e.aborted {
      AbortedAccount(l, s, e.signal, now);
    } else {
      StepAccount(l, s, e, now);
    }
  }

  /** The rate is used in full: from a new limiter, which starts with a full bucket, whenever somebody waits although a
      slot is free and no hold is on, the grants are the burst and all whole tokens the rate has brought since. */
  lemma FullRate(l: Limits, start: int, run: seq<Timed>)
    requires l.Valid() && Legal(l, Start(l, start), run) && AllInTime(l, Start(l, start), run)
    ensures var r := After(l, Start(l, start), run);
            && (r.queue != [] && r.inFlight < l.maxInFlight && r.refilledAt >= r.holdUntil ==>
                  |r.granted| == l.burst + l.perMinute * (r.refilledAt - start) / TOKEN)
            && TOKEN * |r.granted| <= l.burst * TOKEN + l.perMinute * (r.refilledAt - start)
  {
    hide Step;
    StartInv(l, start);
    Conserved(l, Start(l, start), run);
    LimiterModel.RunInv(l, Start(l, start), run);
    var r := After(l, Start(l, start), run);
    if r.queue != [] && r.inFlight < l.maxInFlight && r.refilledAt >= r.holdUntil {
      Saturated(l, Start(l, start), run);
      WholeTokens(|r.granted|, l.burst, l.perMinute * (r.refilledAt - start), r.tokens);
    }
  }

  lemma WholeTokens(n: int, burst: int, brought: int, left: int)
    requires TOKEN * n + left == burst * TOKEN + brought && 0 <= left < TOKEN
    ensures n == burst + brought / TOKEN
  {
  }

  /** Nobody waits for a token that is there. */
  ghost predicate Busy(l: Limits, s: State) {
    s.queue == [] || s.inFlight == l.maxInFlight || s.refilledAt < s.holdUntil || s.tokens < TOKEN
  }

  lemma {:induction false} Saturated(l: Limits, s: State, run: seq<Timed>)
    requires l.Valid() && Inv(l, s) && Legal(l, s, run) && Busy(l, s)
    ensures Busy(l, After(l, s, run))
    decreases |run|
  {
    hide Inv, Enabled, Step;
    if run != [] {
      var m, e, at := Step(l, s, run[0].event, run[0].at), run[0].event, run[0].at;
      StepInv(l, s, e, at);
      if e.Acquire? && e.aborted {
        AbortedAccount(l, s, e.signal, at);
      } else {
        StepAccount(l, s, e, at);
      }
      Saturated(l, m, run[1..]);
    }
  }
}
