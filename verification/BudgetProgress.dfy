/**
 * What becomes of each request (src/core/budget/budget.ts): where every part of `run` leaves it, in every reachable
 * state, and that nobody is ever stuck.
 */
module BudgetProgress {
  import opened Basics
  import L = LimiterModel
  import A = LimiterAccount
  import B = BreakerModel
  import opened BudgetModel

  /** Only this request's stage and abort flag may differ. */
  predicate OnlyThis(q: map<nat, Request>, r: map<nat, Request>, id: nat) {
    && id in q && r.Keys == q.Keys && r[id].call == q[id].call
    && (forall i :: i in q && i != id ==> r[i] == q[i])
  }

  /** A call begins as a request of its own, with its signal as it is then. */
  lemma BeginExactly(c: Config, s: State, call: Call, aborted: bool, now: int)
    requires c.Valid() && Reachable(c, s) && now >= s.clock
    ensures var r := Next(c, s, Begin(call, aborted), now);
            && r.requests == s.requests[s.next := Request(call, aborted, Admitting)] && s.next !in s.requests
            && r.limiter == s.limiter && r.breaker == s.breaker
  {
    hide L.Inv, B.Inv;
    ReachableInv(c, s);
  }

  /** Not sent, and never to be: the signal has fired before the request passed the breaker. */
  predicate Dropped(s: State, id: nat) {
    id in s.requests && s.requests[id].aborted && (s.requests[id].stage.Admitting? || s.requests[id].stage == Ended(Cancelled))
  }

  /** A request whose signal fires before it begins is never sent, whatever else happens. */
  lemma {:induction false} AbortedIsNeverSent(c: Config, s: State, run: seq<Timed>, id: nat)
    requires c.Valid() && Inv(c, s) && Legal(c, s, run) && Dropped(s, id)
    ensures Dropped(After(c, s, run), id)
    decreases |run|
  {
    hide L.Inv, L.Step, B.Inv, B.Admit, Dropped;
    if run != [] {
      NextInv(c, s, run[0].step, run[0].at);
      NextDropped(c, s, run[0].step, run[0].at, id);
      AbortedIsNeverSent(c, Next(c, s, run[0].step, run[0].at), run[1..], id);
    }
  }

  lemma NextDropped(c: Config, s: State, step: Step, now: int, id: nat)
    requires c.Valid() && Inv(c, s) && Enabled(s, step, now) && Dropped(s, id)
    ensures Dropped(Next(c, s, step, now), id)
  {
    hide L.Inv, L.Step, B.Inv, B.Admit;
  }

  /** Passing the breaker: a cancelled request ends; a closed breaker lets everybody through unless it pauses, in which
      case a user's request sleeps until the end of a short pause; past a cool-down one user's read is the probe;
      everybody else is refused. */
  lemma PassExactly(c: Config, s: State, id: nat, now: int)
    requires c.Valid() && Reachable(c, s) && Enabled(s, Pass(id), now)
    ensures var r := Next(c, s, Pass(id), now);
            var b, call := s.breaker, s.requests[id].call;
            var paused := b.current == B.Closed && b.pausedUntil > now;
            var probe := b.current != B.Closed && now >= b.openUntil && !call.write && !call.background
                         && (b.current == B.HalfOpen ==> !b.probing);
            && OnlyThis(s.requests, r.requests, id) && r.limiter == s.limiter && r.requests[id].aborted == s.requests[id].aborted
            && r.requests[id].stage ==
               (if s.requests[id].aborted then Ended(Cancelled)
                else if b.current == B.Closed && !paused then Admitted(false)
                else if paused && !call.background && b.pausedUntil <= now + c.policy.maxWaitMs then Sleeping(b.pausedUntil)
                else if probe then Admitted(true)
                else Ended(Refused))
  {
    hide L.Inv, B.Inv, B.Admit;
    ReachableInv(c, s);
    var call := s.requests[id].call;
    B.AdmitInv(c.policy, s.breaker, s.clock, now, call.write, call.background);
  }

  /** Entering the queue: the request waits under the next ticket, or is cancelled at once. */
  lemma EnqueueExactly(c: Config, s: State, id: nat, now: int)
    requires c.Valid() && Reachable(c, s) && Enabled(s, Enqueue(id), now)
    ensures var r := Next(c, s, Enqueue(id), now);
            var t := s.limiter.issued;
            && OnlyThis(s.requests, r.requests, id) && r.breaker == s.breaker
            && r.requests[id].stage == Waiting(s.requests[id].stage.probe, t) && r.requests[id].aborted == s.requests[id].aborted
            && (if s.requests[id].aborted then t in r.limiter.cancelled && r.limiter.queue == s.limiter.queue
                else t in r.limiter.granted || t in r.limiter.queue)
  {
    hide L.Step, B.Inv, L.Inv;
    ReachableInv(c, s);
    var q := s.requests[id];
    if q.aborted {
      A.AbortedAccount(c.limits, s.limiter, q.call.signal, now);
    } else {
      A.StepAccount(c.limits, s.limiter, L.Acquire(q.call.signal, false), now);
      var r := Next(c, s, Enqueue(id), now);
      var w := s.limiter.queue + [s.limiter.issued];
      var k := |r.limiter.granted| - |s.limiter.granted|;
      assert w == w[..k] + w[k..] && w[|w| - 1] in w;
    }
  }

  /** The end of the wait: sent if granted, failed unsent if flushed, cancelled if cancelled; a probe that is not sent
      gives its role back. */
  lemma ResumeExactly(c: Config, s: State, id: nat, now: int)
    requires c.Valid() && Reachable(c, s) && Enabled(s, Resume(id), now)
    ensures var r := Next(c, s, Resume(id), now);
            var Waiting(probe, t) := s.requests[id].stage;
            && OnlyThis(s.requests, r.requests, id) && r.limiter == s.limiter && r.requests[id].aborted == s.requests[id].aborted
            && (r.requests[id].stage == Sending(probe, t) <==> t in s.limiter.granted)
            && (r.requests[id].stage == Ended(Flushed) <==> t in s.limiter.flushed)
            && (r.requests[id].stage == Ended(Cancelled) <==> t in s.limiter.cancelled)
            && r.breaker == (if probe && t !in s.limiter.granted then s.breaker.(probing := false) else s.breaker)
  {
    hide B.Inv;
    ReachableInv(c, s);
    var t := s.requests[id].stage.ticket;
    assert L.Fates(s.limiter.queue, s.limiter.granted, s.limiter.cancelled, s.limiter.flushed, t) <= 1;
  }

  /** What an answer teaches, and what the queue is told: fail, or hold until the end of the pause and no longer. */
  lemma SettleExactly(c: Config, s: State, id: nat, answer: Answer, now: int)
    requires c.Valid() && Reachable(c, s) && Enabled(s, Settle(id, answer), now)
    ensures var r := Next(c, s, Settle(id, answer), now);
            var b, Sending(probe, t) := s.breaker, s.requests[id].stage;
            && OnlyThis(s.requests, r.requests, id) && r.requests[id].stage == Ended(Answered)
            && t in s.limiter.live && r.limiter.live !! {t}
            && (answer.Fine? && probe ==> r.breaker.current == B.Closed)
            && (answer.Fine? && b.current == B.Closed ==> r.breaker.current == B.Closed && r.breaker.pausedUntil == b.pausedUntil)
            && (answer.Fine? ==> r.breaker.strikes == [])
            && (answer.PushedBack? && probe ==> r.breaker.current == B.Open && r.breaker.openUntil > now)
            && (answer.PushedBack? && b.current == B.Closed ==>
                  r.breaker.current == B.Open || r.breaker.strikes == b.strikes + [now])
            && (r.breaker.current == B.Open ==> r.limiter.queue == [] && r.limiter.holdUntil == s.limiter.holdUntil)
            && (r.breaker.current != B.Open ==>
                  r.limiter.holdUntil == Max(s.limiter.holdUntil,
                                             if r.breaker.current == B.Closed then Max(now, r.breaker.pausedUntil) else now))
  {
    hide L.Step, L.Inv, B.Inv, Learn;
    ReachableInv(c, s);
    SettledHolds(c, s, id, answer, now);
    SettledLesson(c, s, id, answer, now);
    SettledQueue(c, s, id, answer, now);
  }

  lemma SettledLesson(c: Config, s: State, id: nat, answer: Answer, now: int)
    requires c.Valid() && Inv(c, s) && Enabled(s, Settle(id, answer), now)
    ensures var b, probe := s.breaker, s.requests[id].stage.probe;
            var learned := Learn(c, b, now, probe, answer);
            && (answer.Fine? && probe ==> learned.current == B.Closed)
            && (answer.Fine? && b.current == B.Closed ==> learned.current == B.Closed && learned.pausedUntil == b.pausedUntil)
            && (answer.Fine? ==> learned.strikes == [])
            && (answer.PushedBack? && probe ==> learned.current == B.Open && learned.openUntil > now)
            && (answer.PushedBack? && b.current == B.Closed ==>
                  (learned.current == B.Open && learned.openUntil > now)
                  || (learned.current == B.Closed && learned.strikes == b.strikes + [now]))
  {
    hide L.Inv;
    var b, probe := s.breaker, s.requests[id].stage.probe;
    assert IsProbe(s.requests, id) == probe;
    if answer.PushedBack? && probe {
      B.ProbeFailedInv(c.policy, b, s.clock, now, answer.retryAfterMs);
      B.PowerPositive(c.policy, |b.failedAt| + 1);
    }
  }

  lemma SettledQueue(c: Config, s: State, id: nat, answer: Answer, now: int)
    requires c.Valid() && Inv(c, s) && Enabled(s, Settle(id, answer), now)
    ensures var r := Next(c, s, Settle(id, answer), now);
            && (r.breaker.current == B.Open ==> r.limiter.queue == [] && r.limiter.holdUntil == s.limiter.holdUntil)
            && (r.breaker.current != B.Open ==>
                  r.limiter.holdUntil == Max(s.limiter.holdUntil,
                                             if r.breaker.current == B.Closed then Max(now, r.breaker.pausedUntil) else now))
  {
    hide L.Step, L.Inv, B.Inv, Learn;
    var Sending(probe, t) := s.requests[id].stage;
    assert Holds(s.requests, id, t);
    var learned := Learn(c, s.breaker, now, probe, answer);
    ToldAndReleased(c, s.limiter, Tell(learned, now), t, now);
  }

  lemma ToldAndReleased(c: Config, l: L.State, e: L.Event, t: nat, now: int)
    requires c.Valid() && L.Inv(c.limits, l) && L.Enabled(l, e, now) && t in l.live && (e.Hold? || e.Flush?)
    ensures var r := L.Step(c.limits, L.Step(c.limits, l, e, now), L.Release(t), now);
            && (e.Flush? ==> r.queue == [] && r.holdUntil == l.holdUntil)
            && (e.Hold? ==> r.holdUntil == Max(l.holdUntil, e.until))
  {
    hide L.Step, L.Inv;
    A.StepAccount(c.limits, l, e, now);
    LimiterStep(c.limits, l, e, now);
    A.StepAccount(c.limits, L.Step(c.limits, l, e, now), L.Release(t), now);
  }

  /** Who waits with a signal that has not fired is known to the limiter for it. */
  ghost predicate Heard(s: State) {
    forall id :: id in s.requests && s.requests[id].stage.Waiting? && s.requests[id].call.signal && !s.requests[id].aborted ==>
      s.requests[id].stage.ticket in s.limiter.signals
  }

  lemma {:induction false} GrantsSignals(l: L.Limits, s: L.State, now: int)
    ensures L.Grants(l, s, now).signals == s.signals
    decreases |s.queue|
  {
    if L.CanGrant(l, s, now) {
      GrantsSignals(l, L.GrantHead(s, now), now);
    }
  }

  lemma StepSignals(l: L.Limits, s: L.State, e: L.Event, now: int)
    requires l.Valid()
    ensures L.Step(l, s, e, now).signals
         == s.signals + if e.Acquire? && e.signal && !e.aborted then {s.issued} else {}
  {
    GrantsSignals(l, L.Refill(l, L.Touch(s, e), now), now);
  }

  lemma NextHeard(c: Config, s: State, step: Step, now: int)
    requires c.Valid() && Enabled(s, step, now) && Heard(s)
    ensures Heard(Next(c, s, step, now))
  {
    hide L.Step;
    forall l, e {
      StepSignals(c.limits, l, e, now);
    }
  }

  lemma {:induction false} RunHeard(c: Config, s: State, run: seq<Timed>)
    requires c.Valid() && Heard(s) && Legal(c, s, run)
    ensures Heard(After(c, s, run))
    decreases |run|
  {
    hide Heard, Next;
    if run != [] {
      NextHeard(c, s, run[0].step, run[0].at);
      RunHeard(c, Next(c, s, run[0].step, run[0].at), run[1..]);
    }
  }

  lemma ReachableHeard(c: Config, s: State)
    requires c.Valid() && Reachable(c, s)
    ensures Heard(s)
  {
    var start: int, run: seq<Timed> :| Legal(c, Start(c, start), run) && After(c, Start(c, start), run) == s;
    RunHeard(c, Start(c, start), run);
  }

  /** A signal ends a sleeper and takes a queued request out of the queue; anybody else only remembers it. */
  lemma CancelExactly(c: Config, s: State, id: nat, now: int)
    requires c.Valid() && Reachable(c, s) && Enabled(s, Cancel(id), now)
    ensures var r, stage := Next(c, s, Cancel(id), now), s.requests[id].stage;
            && OnlyThis(s.requests, r.requests, id) && r.breaker == s.breaker && r.requests[id].aborted
            && r.requests[id].stage == (if stage.Sleeping? then Ended(Cancelled) else stage)
            && (if stage.Waiting? && stage.ticket in s.limiter.queue
                then stage.ticket in r.limiter.cancelled && stage.ticket !in r.limiter.queue
                else r.limiter == s.limiter)
  {
    hide L.Step, B.Inv, L.Inv;
    ReachableInv(c, s);
    ReachableHeard(c, s);
    var stage := s.requests[id].stage;
    if stage.Waiting? {
      Listens(c.limits, s.limiter, stage.ticket);
      if stage.ticket in s.limiter.queue {
        A.StepAccount(c.limits, s.limiter, L.Abort(stage.ticket), now);
        L.StepInv(c.limits, s.limiter, L.Abort(stage.ticket), now);
        OneFate(c.limits, L.Step(c.limits, s.limiter, L.Abort(stage.ticket), now), stage.ticket);
      }
    }
  }

  lemma Listens(l: L.Limits, s: L.State, t: nat)
    requires L.Inv(l, s) && t in s.signals
    ensures t in s.listeners <==> t in s.queue
  {
  }

  lemma OneFate(l: L.Limits, s: L.State, t: nat)
    requires L.Inv(l, s) && t in s.cancelled
    ensures t !in s.queue
  {
    assert L.Fates(s.queue, s.granted, s.cancelled, s.flushed, t) <= 1;
  }

  // ---------- Nobody is stuck ----------

  /** A step of this request's own that can be taken now: any part of `run`, or its answer's arrival. */
  predicate CanMove(s: State, id: nat, now: int) {
    Enabled(s, Pass(id), now) || Enabled(s, Enqueue(id), now) || Enabled(s, Resume(id), now) || Enabled(s, Settle(id, Fine), now)
  }

  /** In every reachable state each unsettled request can move, or waits for a timer that is set, or for a slot that
      somebody holds who can move. */
  lemma NobodyIsStuck(c: Config, s: State, id: nat, now: int)
    requires c.Valid() && Reachable(c, s) && now >= s.clock && id in s.requests && !s.requests[id].stage.Ended?
    ensures CanMove(s, id, now) || Enabled(s, Timer, now) || exists other: nat :: CanMove(s, other, now)
  {
    hide B.Inv;
    ReachableInv(c, s);
    if s.requests[id].stage.Waiting? {
      var l, t := s.limiter, s.requests[id].stage.ticket;
      assert Holds(s.requests, id, t);
      assert L.Fates(l.queue, l.granted, l.cancelled, l.flushed, t) == 1;
      if t in l.queue && l.timer.None? {
        assert l.inFlight == l.inFlight && |l.live| >= 1;
        var u :| u in l.live;
        var other: nat :| Holds(s.requests, other, u);
        assert CanMove(s, other, now);
      }
    }
  }
}
