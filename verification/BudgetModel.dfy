/**
 * The request budget (src/core/budget/budget.ts): any number of interleaved `run` calls over one limiter and
 * one breaker.
 *
 * `run` awaits between its parts, so each part is a step of its own and any other step may come between:
 * passing the breaker (`Pass`), joining the limiter's queue (`Enqueue`), learning what became of the wait
 * (`Resume`) and settling the answer (`Settle`). Within a part the clock is read once.
 */
module BudgetModel {
  import opened Basics
  import B = BreakerModel
  import L = LimiterModel

  datatype Config = Config(limits: L.Limits, policy: B.Policy) {
    predicate Valid() {
      limits.Valid() && policy.Valid()
    }
  }

  datatype Call = Call(write: bool, background: bool, signal: bool)

  datatype Outcome = Answered | Refused | Cancelled | Flushed

  datatype Stage =
    | Admitting
    | Sleeping(until: int)
    | Admitted(probe: bool)
    | Waiting(probe: bool, ticket: nat)
    | Sending(probe: bool, ticket: nat)
    | Ended(outcome: Outcome)

  datatype Request = Request(call: Call, aborted: bool, stage: Stage)

  datatype Answer =
    | Fine
    | PushedBack(retryAfterMs: Option<int>)   // 429, a 5xx, or (without a hint) a failed send

  datatype State = State(clock: int, breaker: B.State, limiter: L.State, requests: map<nat, Request>, next: nat)

  datatype Step =
    | Begin(call: Call, aborted: bool)
    | Pass(id: nat)
    | Enqueue(id: nat)
    | Resume(id: nat)
    | Settle(id: nat, answer: Answer)
    | Cancel(id: nat)
    | Timer
    | Look

  // ---------- What the code does ----------

  function Start(c: Config, now: int): State {
    State(now, B.Start(c.policy), L.Start(c.limits, now), map[], 0)
  }

  /** One turn of the loop in `admit`. */
  function PassBreaker(c: Config, s: State, id: nat, now: int): State
    requires id in s.requests
  {
    var r := s.requests[id];
    if r.aborted then s.(requests := s.requests[id := r.(stage := Ended(Cancelled))])
    else
      var (b, admission) := B.Admit(c.policy, s.breaker, now, r.call.write, r.call.background);
      var stage := match admission
        case Go(probe) => Admitted(probe)
        case Wait(until) => Sleeping(until)
        case Refuse(_, _) => Ended(Refused);
      s.(breaker := b, requests := s.requests[id := r.(stage := stage)])
  }

  /** The breaker's lesson from an answer. */
  function Learn(c: Config, b: B.State, now: int, probe: bool, answer: Answer): B.State {
    match answer
    case Fine => B.Success(c.policy, b, probe)
    case PushedBack(hint) => B.Pushback(c.policy, b, now, probe, hint)
  }

  /** What `settle` tells the limiter before it releases the slot. */
  function Tell(b: B.State, now: int): L.Event {
    if B.Observe(b, now).current == B.Open then L.Flush
    else var at := B.RetryAt(b, now); L.Hold(if at.Some? then at.value else now)
  }

  function SettleLimiter(c: Config, l: L.State, learned: B.State, ticket: nat, now: int): L.State
    requires c.Valid()
  {
    L.Step(c.limits, L.Step(c.limits, l, Tell(learned, now), now), L.Release(ticket), now)
  }

  function SettleAnswer(c: Config, s: State, id: nat, answer: Answer, now: int): State
    requires c.Valid() && id in s.requests && s.requests[id].stage.Sending?
  {
    var r := s.requests[id];
    var learned := Learn(c, s.breaker, now, r.stage.probe, answer);
    s.(breaker := B.Observe(learned, now), limiter := SettleLimiter(c, s.limiter, learned, r.stage.ticket, now),
    requests := s.requests[id := r.(stage := Ended(Answered))])
  }

  /** The wait is over: on with the request, or off with its error after the probe's role is given back. */
  function ResumeWait(s: State, id: nat): State
    requires id in s.requests && s.requests[id].stage.Waiting?
  {
    var r := s.requests[id];
    var Waiting(probe, t) := r.stage;
    if t in s.limiter.granted then
      s.(requests := s.requests[id := r.(stage := Sending(probe, t))])
    else
      s.(breaker := B.Abandon(s.breaker, probe),
      requests := s.requests[id := r.(stage := Ended(if t in s.limiter.flushed then Flushed else Cancelled))])
  }

  /** The caller's signal fires: a sleeper ends, a queued request leaves the queue, others only remember it. */
  function CancelCall(c: Config, s: State, id: nat, now: int): State
    requires c.Valid() && id in s.requests
  {
    var r := s.requests[id].(aborted := true);
    match r.stage
    case Sleeping(_) => s.(requests := s.requests[id := r.(stage := Ended(Cancelled))])
    case Waiting(_, t) =>
      s.(requests := s.requests[id := r],
      limiter := if t in s.limiter.listeners then L.Step(c.limits, s.limiter, L.Abort(t), now) else s.limiter)
    case _ => s.(requests := s.requests[id := r])
  }

  predicate Enabled(s: State, step: Step, now: int) {
    now >= s.clock &&
    match step
    case Begin(_, _) => true
    case Pass(id) => id in s.requests && (s.requests[id].stage.Admitting? || s.requests[id].stage.Sleeping?)
    case Enqueue(id) => id in s.requests && s.requests[id].stage.Admitted?
    case Resume(id) =>
      && id in s.requests && s.requests[id].stage.Waiting?
      && (var t := s.requests[id].stage.ticket;
          t in s.limiter.granted || t in s.limiter.cancelled || t in s.limiter.flushed)
    case Settle(id, _) => id in s.requests && s.requests[id].stage.Sending?
    case Cancel(id) => id in s.requests && s.requests[id].call.signal && !s.requests[id].aborted
    case Timer => s.limiter.timer.Some?
    case Look => true
  }

  function Next(c: Config, s0: State, step: Step, now: int): State
    requires c.Valid() && Enabled(s0, step, now)
  {
    var s := s0.(clock := now);
    match step
    case Begin(call, aborted) => s.(requests := s.requests[s.next := Request(call, aborted, Admitting)], next := s.next + 1)
    case Pass(id) => PassBreaker(c, s, id, now)
    case Enqueue(id) =>
      var r := s.requests[id];
      s.(requests := s.requests[id := r.(stage := Waiting(r.stage.probe, s.limiter.issued))],
      limiter := L.Step(c.limits, s.limiter, L.Acquire(r.call.signal, r.aborted), now))
    case Resume(id) => ResumeWait(s, id)
    case Settle(id, answer) => SettleAnswer(c, s, id, answer, now)
    case Cancel(id) => CancelCall(c, s, id, now)
    case Timer => s.(limiter := L.Step(c.limits, s.limiter, L.Fire, now))
    case Look => s.(breaker := B.Observe(s.breaker, now))
  }

  // ---------- What holds in every reachable state ----------

  /** An unsettled request with the probe's role, wherever it is. */
  predicate IsProbe(q: map<nat, Request>, id: nat) {
    id in q && (q[id].stage.Admitted? || q[id].stage.Waiting? || q[id].stage.Sending?) && q[id].stage.probe
  }

  /** At most one probe; one exists exactly while the breaker is half-open with `probing` set; it is a user's read. */
  ghost predicate OneProbe(q: map<nat, Request>, b: B.State) {
    && (forall i: nat, j: nat :: IsProbe(q, i) && IsProbe(q, j) ==> i == j)
    && (b.probing ==> exists i: nat :: IsProbe(q, i))
    && (forall i: nat :: IsProbe(q, i) ==>
          && b.probing && b.current == B.HalfOpen && !q[i].call.write && !q[i].call.background)
  }

  predicate Holds(q: map<nat, Request>, id: nat, t: nat) {
    id in q && (q[id].stage.Waiting? || q[id].stage.Sending?) && q[id].stage.ticket == t
  }

  /** Each ticket belongs to one request at most; each live slot to exactly one, which will release it once. */
  ghost predicate Slots(q: map<nat, Request>, l: L.State) {
    && (forall i: nat, j: nat, t: nat :: Holds(q, i, t) && Holds(q, j, t) ==> i == j)
    && (forall i: nat, t: nat :: Holds(q, i, t) ==> t < l.issued)
    && (forall i: nat, t: nat :: Holds(q, i, t) && t in l.granted ==> t in l.live)
    && (forall i: nat, t: nat :: Holds(q, i, t) && q[i].stage.Sending? ==> t in l.granted)
    && (forall t :: t in l.live || t in l.queue ==> exists i: nat :: Holds(q, i, t))
  }

  /** Whoever holds the probe's role is never flushed. */
  ghost predicate ProbeUnflushed(q: map<nat, Request>, l: L.State) {
    forall i: nat :: IsProbe(q, i) && q[i].stage.Waiting? ==> q[i].stage.ticket !in l.flushed
  }

  /** A pause covers what is already admitted: the limiter grants nothing before it ends. */
  predicate PauseHeld(s: State) {
    s.breaker.current == B.Closed ==> s.breaker.pausedUntil <= Max(s.limiter.holdUntil, s.clock)
  }

  ghost predicate Inv(c: Config, s: State)
    requires c.Valid()
  {
    && L.Inv(c.limits, s.limiter) && s.limiter.refilledAt <= s.clock && s.limiter.holdUntil >= 0
    && B.Inv(c.policy, s.breaker, s.clock)
    && OneProbe(s.requests, s.breaker) && Slots(s.requests, s.limiter) && ProbeUnflushed(s.requests, s.limiter)
    && PauseHeld(s)
    && (forall id :: id in s.requests ==> id < s.next)
  }

  // ---------- Proofs ----------

  lemma StartInv(c: Config, now: int)
    requires c.Valid()
    ensures Inv(c, Start(c, now))
  {
    L.StartInv(c.limits, now);
    B.StartInv(c.policy, now);
  }

  lemma {:induction false} GrantsLive(l: L.Limits, s: L.State, now: int)
    requires l.Valid() && L.Sound(l, s) && s.refilledAt == now
    ensures var r := L.Grants(l, s, now);
            && r.issued == s.issued && r.flushed == s.flushed && s.granted <= r.granted && r.refilledAt == now
            && (forall t :: t in r.granted ==> t in s.granted || t in r.live)
            && (forall t :: t in s.live ==> t in r.live)
            && (forall t :: t in r.live || t in r.queue ==> t in s.live || t in s.queue)
            && (forall t :: t in r.live && t !in s.live ==> t !in s.granted)
            && (s.queue == [] ==> r == s)
    decreases |s.queue|
  {
    if L.CanGrant(l, s, now) {
      var h := L.GrantHead(s, now);
      L.GrantHeadSound(l, s, now);
      GrantsLive(l, h, now);
      assert s.queue == [s.queue[0]] + h.queue;
      assert L.Fates(s.queue, s.granted, s.cancelled, s.flushed, s.queue[0]) == 1;
    }
  }

  lemma PumpTickets(l: L.Limits, s: L.State, now: int)
    requires l.Valid() && L.Sound(l, s) && now >= s.refilledAt
    ensures var r := L.Pump(l, s, now);
            && r.issued == s.issued && r.flushed == s.flushed && r.refilledAt == now && r.holdUntil == s.holdUntil
            && s.granted <= r.granted
            && (forall t :: t in r.granted ==> t in s.granted || t in r.live)
            && (forall t :: t in s.live ==> t in r.live)
            && (forall t :: t in r.live || t in r.queue ==> t in s.live || t in s.queue)
            && (forall t :: t in r.live && t !in s.live ==> t !in s.granted)
            && (s.queue == [] ==> r.queue == [] && r.granted == s.granted)
  {
    L.RefillSound(l, s, now);
    GrantsLive(l, L.Refill(l, s, now), now);
    L.GrantsExtend(l, L.Refill(l, s, now), now);
  }

  /** What a limiter step may change for the requests that hold tickets. */
  lemma LimiterStep(l: L.Limits, s: L.State, e: L.Event, now: int)
    requires l.Valid() && L.Inv(l, s) && L.Enabled(s, e, now)
    ensures var r := L.Step(l, s, e, now);
            && L.Inv(l, r) && r.refilledAt <= now && s.holdUntil <= r.holdUntil
            && r.issued == s.issued + (if e.Acquire? then 1 else 0)
            && s.granted <= r.granted
            && (forall t :: t in r.granted ==> t in s.granted || t in r.live)
            && (forall t :: t in s.live && !(e.Release? && e.ticket == t) ==> t in r.live)
            && (forall t :: t in r.live || t in r.queue ==> t in s.live || t in s.queue || (e.Acquire? && t == s.issued))
            && (e.Release? ==> e.ticket !in r.live)
            && (!e.Flush? ==> r.flushed == s.flushed)
            && (e.Flush? || (s.queue == [] && !e.Acquire?) ==> r.queue == [] && r.granted == s.granted)
            && (e.Hold? ==> r.holdUntil >= e.until)
  {
    L.StepInv(l, s, e, now);
    TouchedTickets(l, s, e, now);
    if !(e.Acquire? && e.aborted) {
      L.TouchSound(l, s, e, now);
      PumpTickets(l, L.Touch(s, e), now);
    }
  }

  lemma TouchedTickets(l: L.Limits, s: L.State, e: L.Event, now: int)
    requires l.Valid() && L.Inv(l, s) && L.Enabled(s, e, now)
    ensures var r := L.Touch(s, e);
            && (forall t :: t in r.queue ==> t in s.queue || (e.Acquire? && t == s.issued))
            && (forall t :: t in s.live ==> t !in s.queue && t != s.issued)
            && (s.queue == [] && !e.Acquire? ==> r.queue == [])
  {
    if e.Abort? {
      L.AbortRemovesOwnEntry(s, e.ticket);
    }
    forall t | t in s.live ensures t !in s.queue && t != s.issued {
      assert L.Fates(s.queue, s.granted, s.cancelled, s.flushed, t) == 1;
    }
  }

  lemma BeginInv(c: Config, s: State, call: Call, aborted: bool, now: int)
    requires c.Valid() && Inv(c, s) && now >= s.clock
    ensures Inv(c, Next(c, s, Begin(call, aborted), now))
  {
    hide L.Inv, B.Inv;
    B.InvLater(c.policy, s.breaker, s.clock, now);
    var r := Next(c, s, Begin(call, aborted), now);
    assert forall a: nat :: IsProbe(r.requests, a) <==> IsProbe(s.requests, a);
    assert forall a: nat, t: nat :: Holds(r.requests, a, t) <==> Holds(s.requests, a, t);
  }

  lemma PassProbe(c: Config, s: State, id: nat, now: int)
    requires c.Valid() && Inv(c, s) && Enabled(s, Pass(id), now)
    ensures var r := Next(c, s, Pass(id), now); OneProbe(r.requests, r.breaker)
  {
    hide L.Inv, B.Inv, Slots, ProbeUnflushed, PauseHeld;
    var r := Next(c, s, Pass(id), now);
    var call := s.requests[id].call;
    B.AdmitInv(c.policy, s.breaker, s.clock, now, call.write, call.background);
    assert !IsProbe(s.requests, id);
    assert forall i: nat :: i != id ==> (IsProbe(r.requests, i) <==> IsProbe(s.requests, i));
    if r.breaker.probing && !s.breaker.probing {
      assert IsProbe(r.requests, id);
    }
  }

  lemma PassHolders(c: Config, s: State, id: nat, now: int)
    requires c.Valid() && Inv(c, s) && Enabled(s, Pass(id), now)
    ensures var r := Next(c, s, Pass(id), now); Slots(r.requests, r.limiter) && ProbeUnflushed(r.requests, r.limiter)
  {
    hide L.Inv, OneProbe, B.Inv, B.Admit, PauseHeld;
    var r := Next(c, s, Pass(id), now);
    assert forall i: nat, t: nat :: Holds(r.requests, i, t) <==> Holds(s.requests, i, t);
    assert forall i: nat :: i != id ==> (IsProbe(r.requests, i) <==> IsProbe(s.requests, i));
  }

  lemma PassInv(c: Config, s: State, id: nat, now: int)
    requires c.Valid() && Inv(c, s) && Enabled(s, Pass(id), now)
    ensures Inv(c, Next(c, s, Pass(id), now))
  {
    hide L.Inv, OneProbe, B.Inv, B.Admit, Slots, ProbeUnflushed;
    B.InvLater(c.policy, s.breaker, s.clock, now);
    var call := s.requests[id].call;
    PassProbe(c, s, id, now);
    PassHolders(c, s, id, now);
    B.AdmitInv(c.policy, s.breaker, s.clock, now, call.write, call.background);
  }

  /** A limiter step that hands out no ticket and releases none leaves the holders' tickets in order. */
  lemma SlotsKept(q: map<nat, Request>, r: map<nat, Request>, l: L.Limits, s: L.State, e: L.Event, now: int)
    requires l.Valid() && L.Inv(l, s) && L.Enabled(s, e, now) && !e.Acquire? && !e.Release?
    requires Slots(q, s)
    requires q.Keys == r.Keys && forall i :: i in q ==> q[i].stage == r[i].stage
    ensures Slots(r, L.Step(l, s, e, now))
  {
    hide L.Inv, L.Step;
    LimiterStep(l, s, e, now);
    assert forall i: nat, t: nat :: Holds(r, i, t) <==> Holds(q, i, t);
  }

  lemma EnqueueSlots(c: Config, s: State, id: nat, now: int)
    requires c.Valid() && Inv(c, s) && Enabled(s, Enqueue(id), now)
    ensures var r := Next(c, s, Enqueue(id), now); Slots(r.requests, r.limiter)
  {
    hide L.Step, L.Awake, L.Paced, L.Bounded, L.Listening, L.Ordered, B.Inv;
    var r := Next(c, s, Enqueue(id), now);
    var req := s.requests[id];
    var t := s.limiter.issued;
    LimiterStep(c.limits, s.limiter, L.Acquire(req.call.signal, req.aborted), now);
    assert forall i: nat, u: nat :: Holds(r.requests, i, u) <==> Holds(s.requests, i, u) || (i == id && u == t);
    assert L.Fates(s.limiter.queue, s.limiter.granted, s.limiter.cancelled, s.limiter.flushed, t) == 0;
    assert Holds(r.requests, id, t);
  }

  lemma EnqueueInv(c: Config, s: State, id: nat, now: int)
    requires c.Valid() && Inv(c, s) && Enabled(s, Enqueue(id), now)
    ensures Inv(c, Next(c, s, Enqueue(id), now))
  {
    hide L.Step, L.Awake, L.Paced, L.Bounded, L.Listening, L.Ordered, B.Inv;
    B.InvLater(c.policy, s.breaker, s.clock, now);
    var r := Next(c, s, Enqueue(id), now);
    var req := s.requests[id];
    var t := s.limiter.issued;
    EnqueueSlots(c, s, id, now);
    LimiterStep(c.limits, s.limiter, L.Acquire(req.call.signal, req.aborted), now);
    assert forall i: nat :: IsProbe(r.requests, i) <==> IsProbe(s.requests, i);
    assert L.Fates(s.limiter.queue, s.limiter.granted, s.limiter.cancelled, s.limiter.flushed, t) == 0;
  }

  lemma ResumeInv(c: Config, s: State, id: nat, now: int)
    requires c.Valid() && Inv(c, s) && Enabled(s, Resume(id), now)
    ensures Inv(c, Next(c, s, Resume(id), now))
  {
    hide L.Awake, L.Paced, L.Bounded, L.Listening, L.Ordered;
    var r := Next(c, s, Resume(id), now);
    var Waiting(probe, t) := s.requests[id].stage;
    assert L.Fates(s.limiter.queue, s.limiter.granted, s.limiter.cancelled, s.limiter.flushed, t) == 1;
    assert Holds(s.requests, id, t);
    assert IsProbe(s.requests, id) == probe;
    if t in s.limiter.granted {
      assert forall a: nat :: IsProbe(r.requests, a) <==> IsProbe(s.requests, a);
      assert forall a: nat, u: nat :: Holds(r.requests, a, u) <==> Holds(s.requests, a, u);
    } else {
      assert forall a: nat :: IsProbe(r.requests, a) <==> IsProbe(s.requests, a) && a != id;
      assert forall a: nat, u: nat :: Holds(r.requests, a, u) <==> Holds(s.requests, a, u) && a != id;
    }
  }

  lemma CancelProbe(c: Config, s: State, id: nat, now: int)
    requires c.Valid() && Inv(c, s) && Enabled(s, Cancel(id), now)
    ensures var r := Next(c, s, Cancel(id), now); OneProbe(r.requests, r.breaker)
  {
    hide L.Inv, L.Step;
    var r := Next(c, s, Cancel(id), now);
    assert forall i: nat :: IsProbe(r.requests, i) <==> IsProbe(s.requests, i);
  }

  lemma CancelQueued(c: Config, s: State, id: nat, now: int)
    requires c.Valid() && Inv(c, s) && Enabled(s, Cancel(id), now)
    requires s.requests[id].stage.Waiting? && s.requests[id].stage.ticket in s.limiter.listeners
    ensures Inv(c, Next(c, s, Cancel(id), now))
  {
    hide L.Inv, L.Step, B.Inv;
    B.InvLater(c.policy, s.breaker, s.clock, now);
    var r := Next(c, s, Cancel(id), now);
    var e := L.Abort(s.requests[id].stage.ticket);
    CancelProbe(c, s, id, now);
    LimiterStep(c.limits, s.limiter, e, now);
    SlotsKept(s.requests, r.requests, c.limits, s.limiter, e, now);
  }

  lemma CancelInv(c: Config, s: State, id: nat, now: int)
    requires c.Valid() && Inv(c, s) && Enabled(s, Cancel(id), now)
    ensures Inv(c, Next(c, s, Cancel(id), now))
  {
    hide L.Inv, L.Step, B.Inv;
    B.InvLater(c.policy, s.breaker, s.clock, now);
    var stage := s.requests[id].stage;
    if stage.Waiting? && stage.ticket in s.limiter.listeners {
      CancelQueued(c, s, id, now);
    } else {
      var r := Next(c, s, Cancel(id), now);
      CancelProbe(c, s, id, now);
      assert r.limiter == s.limiter;
      assert forall i: nat, t: nat :: Holds(r.requests, i, t) <==> Holds(s.requests, i, t);
    }
  }

  lemma TimerInv(c: Config, s: State, now: int)
    requires c.Valid() && Inv(c, s) && Enabled(s, Timer, now)
    ensures Inv(c, Next(c, s, Timer, now))
  {
    hide L.Inv, L.Step, B.Inv;
    B.InvLater(c.policy, s.breaker, s.clock, now);
    var r := Next(c, s, Timer, now);
    LimiterStep(c.limits, s.limiter, L.Fire, now);
    assert forall a: nat :: IsProbe(r.requests, a) <==> IsProbe(s.requests, a);
    assert forall a: nat, t: nat :: Holds(r.requests, a, t) <==> Holds(s.requests, a, t);
  }

  lemma LookInv(c: Config, s: State, now: int)
    requires c.Valid() && Inv(c, s) && now >= s.clock
    ensures Inv(c, Next(c, s, Look, now))
  {
    hide L.Inv, B.Inv;
    var r := Next(c, s, Look, now);
    B.ObserveInv(c.policy, s.breaker, s.clock, now);
    assert forall a: nat :: IsProbe(r.requests, a) <==> IsProbe(s.requests, a);
    assert forall a: nat, t: nat :: Holds(r.requests, a, t) <==> Holds(s.requests, a, t);
  }

  /** What an answer teaches the breaker, probe or not. */
  lemma LearnInv(c: Config, b: B.State, clock: int, now: int, probe: bool, answer: Answer)
    requires c.Valid() && B.Inv(c.policy, b, clock) && now >= clock
    requires probe ==> b.current == B.HalfOpen && b.probing
    ensures var learned := Learn(c, b, now, probe, answer);
            && B.Inv(c.policy, learned, now) && B.Inv(c.policy, B.Observe(learned, now), now)
            && (probe ==> !learned.probing)
            && (!probe && b.probing ==> learned.probing && learned.current == B.HalfOpen)
            && (!b.probing ==> !learned.probing)
  {
    match answer
    case Fine => B.SuccessInv(c.policy, b, clock, now, probe);
    case PushedBack(hint) =>
      if probe {
        B.ProbeFailedInv(c.policy, b, clock, now, hint);
      } else if b.current == B.Closed {
        B.ClosedPushbackInv(c.policy, b, clock, now, hint);
      } else {
        B.LatePushbackInv(c.policy, b, clock, now, hint);
      }
  }

  lemma SettleLimiterInv(c: Config, l: L.State, learned: B.State, ticket: nat, now: int)
    requires c.Valid() && L.Inv(c.limits, l) && l.refilledAt <= now && ticket in l.live
    ensures var e := Tell(learned, now); var r := SettleLimiter(c, l, learned, ticket, now);
            && L.Inv(c.limits, r) && r.refilledAt <= now && l.holdUntil <= r.holdUntil && r.issued == l.issued
            && (forall t :: t in l.granted ==> t in r.granted)
            && (forall t :: t in r.granted ==> t in l.granted || t in r.live || t == ticket)
            && (forall t :: t in l.live && t != ticket ==> t in r.live)
            && (forall t :: t in r.live || t in r.queue ==> t in l.live || t in l.queue)
            && ticket !in r.live && ticket !in r.queue
            && (!e.Flush? ==> r.flushed == l.flushed && r.holdUntil >= e.until)
            && (e.Flush? ==> r.queue == [] && r.granted == l.granted)
  {
    hide L.Awake, L.Paced, L.Bounded, L.Listening, L.Ordered, L.Step, L.Pump;
    var e := Tell(learned, now);
    LimiterStep(c.limits, l, e, now);
    var m := L.Step(c.limits, l, e, now);
    LimiterStep(c.limits, m, L.Release(ticket), now);
    TouchedTickets(c.limits, m, L.Release(ticket), now);
    var r := SettleLimiter(c, l, learned, ticket, now);
    assert ticket in r.granted;
    assert L.Fates(r.queue, r.granted, r.cancelled, r.flushed, ticket) == 1;
  }

  lemma SettleSlots(c: Config, s: State, id: nat, answer: Answer, now: int)
    requires c.Valid() && Inv(c, s) && Enabled(s, Settle(id, answer), now)
    ensures var r := Next(c, s, Settle(id, answer), now); Slots(r.requests, r.limiter)
  {
    hide L.Inv, L.Step, B.Inv;
    var r := Next(c, s, Settle(id, answer), now);
    var Sending(probe, ticket) := s.requests[id].stage;
    assert Holds(s.requests, id, ticket);
    SettleLimiterInv(c, s.limiter, Learn(c, s.breaker, now, probe, answer), ticket, now);
    assert forall i: nat, t: nat :: Holds(r.requests, i, t) <==> Holds(s.requests, i, t) && i != id;
  }

  lemma SettleProbe(c: Config, s: State, id: nat, answer: Answer, now: int)
    requires c.Valid() && Inv(c, s) && Enabled(s, Settle(id, answer), now)
    ensures var r := Next(c, s, Settle(id, answer), now);
            OneProbe(r.requests, r.breaker) && ProbeUnflushed(r.requests, r.limiter)
  {
    hide L.Inv, L.Step, B.Inv, Learn, PauseHeld;
    var r := Next(c, s, Settle(id, answer), now);
    var Sending(probe, ticket) := s.requests[id].stage;
    assert IsProbe(s.requests, id) == probe && Holds(s.requests, id, ticket);
    LearnInv(c, s.breaker, s.clock, now, probe, answer);
    SettleLimiterInv(c, s.limiter, Learn(c, s.breaker, now, probe, answer), ticket, now);
    assert forall i: nat :: IsProbe(r.requests, i) <==> IsProbe(s.requests, i) && i != id;
  }

  lemma SettleInv(c: Config, s: State, id: nat, answer: Answer, now: int)
    requires c.Valid() && Inv(c, s) && Enabled(s, Settle(id, answer), now)
    ensures Inv(c, Next(c, s, Settle(id, answer), now))
  {
    hide L.Inv, L.Step, B.Inv;
    var Sending(probe, ticket) := s.requests[id].stage;
    assert IsProbe(s.requests, id) == probe && Holds(s.requests, id, ticket);
    SettleSlots(c, s, id, answer, now);
    SettleProbe(c, s, id, answer, now);
    LearnInv(c, s.breaker, s.clock, now, probe, answer);
    SettleLimiterInv(c, s.limiter, Learn(c, s.breaker, now, probe, answer), ticket, now);
  }

  /** Every part of every `run`, in any interleaving, keeps the whole invariant. */
  lemma NextInv(c: Config, s: State, step: Step, now: int)
    requires c.Valid() && Inv(c, s) && Enabled(s, step, now)
    ensures Inv(c, Next(c, s, step, now))
  {
    match step
    case Begin(call, aborted) => BeginInv(c, s, call, aborted, now);
    case Pass(id) => PassInv(c, s, id, now);
    case Enqueue(id) => EnqueueInv(c, s, id, now);
    case Resume(id) => ResumeInv(c, s, id, now);
    case Settle(id, answer) => SettleInv(c, s, id, answer, now);
    case Cancel(id) => CancelInv(c, s, id, now);
    case Timer => TimerInv(c, s, now);
    case Look => LookInv(c, s, now);
  }

  // ---------- Whole runs ----------

  datatype Timed = Timed(step: Step, at: int)

  predicate Legal(c: Config, s: State, run: seq<Timed>)
    requires c.Valid()
    decreases |run|
  {
    run == [] || (Enabled(s, run[0].step, run[0].at) && Legal(c, Next(c, s, run[0].step, run[0].at), run[1..]))
  }

  function After(c: Config, s: State, run: seq<Timed>): State
    requires c.Valid() && Legal(c, s, run)
    decreases |run|
  {
    if run == [] then s else After(c, Next(c, s, run[0].step, run[0].at), run[1..])
  }

  ghost predicate Reachable(c: Config, s: State)
    requires c.Valid()
  {
    exists start: int, run: seq<Timed> :: Legal(c, Start(c, start), run) && After(c, Start(c, start), run) == s
  }

  lemma {:induction false} RunInv(c: Config, s: State, run: seq<Timed>)
    requires c.Valid() && Inv(c, s) && Legal(c, s, run)
    ensures Inv(c, After(c, s, run))
    decreases |run|
  {
    hide L.Inv, L.Step, B.Inv;
    if run != [] {
      NextInv(c, s, run[0].step, run[0].at);
      RunInv(c, Next(c, s, run[0].step, run[0].at), run[1..]);
    }
  }

  lemma ReachableInv(c: Config, s: State)
    requires c.Valid() && Reachable(c, s)
    ensures Inv(c, s)
  {
    var start: int, run: seq<Timed> :| Legal(c, Start(c, start), run) && After(c, Start(c, start), run) == s;
    StartInv(c, start);
    RunInv(c, Start(c, start), run);
  }

  /** In every interleaving: at most one unsettled probe, there exactly while the breaker is half-open with
      `probing` set, never a write or background call; and no other call passes the breaker meanwhile. */
  lemma AtMostOneProbe(c: Config, s: State, id: nat, now: int)
    requires c.Valid() && Reachable(c, s)
    ensures OneProbe(s.requests, s.breaker)
    ensures s.breaker.probing <==> exists i: nat :: IsProbe(s.requests, i)
    ensures s.breaker.probing && Enabled(s, Pass(id), now) ==>
              var r := Next(c, s, Pass(id), now); !r.requests[id].stage.Admitted? && r.breaker == s.breaker
  {
    ReachableInv(c, s);
    if s.breaker.probing && Enabled(s, Pass(id), now) {
      B.AdmitInv(c.policy, s.breaker, s.clock, now, s.requests[id].call.write, s.requests[id].call.background);
    }
  }

  /** A probe cancelled before it was sent gives its role back, so the next user read may be the probe. */
  lemma CancelledProbeFreesTheRole(c: Config, s: State, id: nat, next: nat, now: int)
    requires c.Valid() && Reachable(c, s)
    requires Enabled(s, Resume(id), now) && IsProbe(s.requests, id) && s.requests[id].stage.ticket !in s.limiter.granted
    ensures var r := Next(c, s, Resume(id), now);
            && r.requests[id].stage == Ended(Cancelled)
            && (forall i: nat :: !IsProbe(r.requests, i))
            && (Enabled(r, Pass(next), now) && !r.requests[next].aborted
                && !r.requests[next].call.write && !r.requests[next].call.background
                ==> Next(c, r, Pass(next), now).requests[next].stage == Admitted(true))
  {
    ReachableInv(c, s);
    var r := Next(c, s, Resume(id), now);
    assert r.breaker == s.breaker.(probing := false) && r.breaker.current == B.HalfOpen;
    assert forall i: nat :: IsProbe(r.requests, i) ==> IsProbe(s.requests, i) && i != id;
  }

  /** While a pause lasts nothing is granted, however long ago it was admitted: a step that ends in a closed
      breaker leaves the limiter held until the pause ends, and grants only at an instant it no longer covers. */
  lemma PauseCoversEveryone(c: Config, s: State, step: Step, now: int)
    requires c.Valid() && Reachable(c, s) && Enabled(s, step, now)
    ensures var r := Next(c, s, step, now);
            && s.limiter.grantedAt <= r.limiter.grantedAt
            && (r.breaker.current == B.Closed ==> r.breaker.pausedUntil <= Max(r.limiter.holdUntil, r.clock))
            && (r.breaker.current == B.Closed ==>
                  forall i :: |s.limiter.grantedAt| <= i < |r.limiter.grantedAt| ==> r.limiter.grantedAt[i] >= r.breaker.pausedUntil)
  {
    hide L.Inv, L.Step, B.Inv;
    ReachableInv(c, s);
    NextInv(c, s, step, now);
    GrantsAfterHold(c, s, step, now);
  }

  predicate GrantsOnlyNow(l: L.State, r: L.State, now: int) {
    && l.grantedAt <= r.grantedAt && l.holdUntil <= r.holdUntil
    && (forall i :: |l.grantedAt| <= i < |r.grantedAt| ==> r.grantedAt[i] == now && now >= r.holdUntil)
  }

  lemma LimiterGrants(l: L.Limits, s: L.State, e: L.Event, now: int)
    requires l.Valid() && L.Inv(l, s)
    ensures var r := L.Step(l, s, e, now); GrantsOnlyNow(s, r, now) && (!e.Hold? ==> r.holdUntil == s.holdUntil)
  {
    L.StepHeld(l, s, e, now);
  }

  lemma GrantsTwice(l: L.State, m: L.State, r: L.State, now: int)
    requires GrantsOnlyNow(l, m, now) && GrantsOnlyNow(m, r, now) && m.holdUntil == r.holdUntil
    ensures GrantsOnlyNow(l, r, now)
  {
    assert m.grantedAt == r.grantedAt[..|m.grantedAt|] && l.grantedAt == m.grantedAt[..|l.grantedAt|];
    forall i | |l.grantedAt| <= i < |r.grantedAt| ensures r.grantedAt[i] == now && now >= r.holdUntil {
      if i < |m.grantedAt| {
        assert r.grantedAt[i] == m.grantedAt[i];
      }
    }
  }

  lemma GrantsAfterHold(c: Config, s: State, step: Step, now: int)
    requires c.Valid() && Inv(c, s) && Enabled(s, step, now)
    ensures GrantsOnlyNow(s.limiter, Next(c, s, step, now).limiter, now)
  {
    hide L.Step, B.Inv, L.Inv;
    var l := s.limiter;
    match step
    case Enqueue(id) => LimiterGrants(c.limits, l, L.Acquire(s.requests[id].call.signal, s.requests[id].aborted), now);
    case Cancel(id) =>
      var stage := s.requests[id].stage;
      if stage.Waiting? && stage.ticket in l.listeners {
        LimiterGrants(c.limits, l, L.Abort(stage.ticket), now);
      }
    case Timer => LimiterGrants(c.limits, l, L.Fire, now);
    case Settle(id, answer) =>
      var Sending(probe, ticket) := s.requests[id].stage;
      assert Holds(s.requests, id, ticket);
      var e := Tell(Learn(c, s.breaker, now, probe, answer), now);
      var m := L.Step(c.limits, l, e, now);
      LimiterGrants(c.limits, l, e, now);
      LimiterStep(c.limits, l, e, now);
      LimiterGrants(c.limits, m, L.Release(ticket), now);
      GrantsTwice(l, m, L.Step(c.limits, m, L.Release(ticket), now), now);
    case _ =>
  }

  /** Once paused until an instant, no later step of any run sends a request on before it, even if the
      breaker opens, half-opens and closes again in between. */
  lemma {:induction false} PauseOutlivesTheBreaker(c: Config, s: State, run: seq<Timed>)
    requires c.Valid() && Inv(c, s) && Legal(c, s, run)
    requires s.breaker.current == B.Closed && s.breaker.pausedUntil > s.clock
    ensures var r := After(c, s, run);
            && s.limiter.grantedAt <= r.limiter.grantedAt
            && (forall i :: |s.limiter.grantedAt| <= i < |r.limiter.grantedAt| ==> r.limiter.grantedAt[i] >= s.breaker.pausedUntil)
  {
    HeldRun(c, s, run, s.breaker.pausedUntil);
  }

  lemma {:induction false} HeldRun(c: Config, s: State, run: seq<Timed>, until: int)
    requires c.Valid() && Inv(c, s) && Legal(c, s, run) && s.limiter.holdUntil >= until
    ensures var r := After(c, s, run);
            && s.limiter.grantedAt <= r.limiter.grantedAt
            && (forall i :: |s.limiter.grantedAt| <= i < |r.limiter.grantedAt| ==> r.limiter.grantedAt[i] >= until)
    decreases |run|
  {
    hide L.Inv, L.Step, B.Inv;
    if run != [] {
      var m := Next(c, s, run[0].step, run[0].at);
      NextInv(c, s, run[0].step, run[0].at);
      GrantsAfterHold(c, s, run[0].step, run[0].at);
      HeldRun(c, m, run[1..], until);
      var r := After(c, s, run);
      forall i | |s.limiter.grantedAt| <= i < |r.limiter.grantedAt| ensures r.limiter.grantedAt[i] >= until {
        if i < |m.limiter.grantedAt| {
          assert r.limiter.grantedAt[i] == m.limiter.grantedAt[i];
        }
      }
    }
  }

  /** When the breaker opens, everything queued fails unsent in that very step and nothing is granted;
      a slot is released exactly when its one holder settles. */
  lemma OpeningFlushesTheQueue(c: Config, s: State, id: nat, answer: Answer, now: int)
    requires c.Valid() && Reachable(c, s) && Enabled(s, Settle(id, answer), now)
    ensures var r := Next(c, s, Settle(id, answer), now); var t := s.requests[id].stage.ticket;
            && t in s.limiter.live && t !in r.limiter.live && r.limiter.inFlight == |r.limiter.live|
            && (forall u :: u in s.limiter.live && u != t ==> u in r.limiter.live)
            && (r.breaker.current == B.Open ==>
                  && r.limiter.queue == [] && r.limiter.granted == s.limiter.granted
                  && (forall u :: u in s.limiter.queue ==> u in r.limiter.flushed)
                  && (forall i: nat :: !IsProbe(r.requests, i)))
  {
    hide L.Step;
    ReachableInv(c, s);
    NextInv(c, s, Settle(id, answer), now);
    var Sending(probe, ticket) := s.requests[id].stage;
    assert Holds(s.requests, id, ticket);
    var learned := Learn(c, s.breaker, now, probe, answer);
    SettleLimiterInv(c, s.limiter, learned, ticket, now);
    var r := Next(c, s, Settle(id, answer), now);
    if r.breaker.current == B.Open {
      forall u | u in s.limiter.queue ensures u in r.limiter.flushed {
        FlushedStay(c, s.limiter, learned, ticket, now);
      }
    }
  }

  lemma FlushedStay(c: Config, l: L.State, learned: B.State, ticket: nat, now: int)
    requires c.Valid() && L.Inv(c.limits, l) && l.refilledAt <= now && ticket in l.live && Tell(learned, now).Flush?
    ensures forall u :: u in l.queue ==> u in SettleLimiter(c, l, learned, ticket, now).flushed
  {
    L.TouchSound(c.limits, l, L.Flush, now);
    PumpTickets(c.limits, L.Touch(l, L.Flush), now);
    var m := L.Step(c.limits, l, L.Flush, now);
    L.StepInv(c.limits, l, L.Flush, now);
    PumpTickets(c.limits, L.Touch(m, L.Release(ticket)), now) by {
      LimiterStep(c.limits, l, L.Flush, now);
      L.TouchSound(c.limits, m, L.Release(ticket), now);
    }
  }

  /** The ticket was issued, and neither waits nor holds a slot. */
  predicate Gone(l: L.State, t: nat) {
    t < l.issued && t !in l.live && t !in l.queue
  }

  lemma LimiterGone(l: L.Limits, s: L.State, e: L.Event, now: int, t: nat)
    requires l.Valid() && L.Inv(l, s) && L.Enabled(s, e, now) && Gone(s, t)
    ensures Gone(L.Step(l, s, e, now), t)
  {
    hide L.Inv, L.Step, L.Enabled;
    LimiterStep(l, s, e, now);
  }

  lemma StepGone(c: Config, s: State, step: Step, now: int, t: nat)
    requires c.Valid() && Inv(c, s) && Enabled(s, step, now) && Gone(s.limiter, t)
    ensures Gone(Next(c, s, step, now).limiter, t)
  {
    hide L.Step, B.Inv, L.Inv, Gone;
    var l := s.limiter;
    match step
    case Enqueue(id) => LimiterGone(c.limits, l, L.Acquire(s.requests[id].call.signal, s.requests[id].aborted), now, t);
    case Cancel(id) =>
      var stage := s.requests[id].stage;
      if stage.Waiting? && stage.ticket in l.listeners {
        LimiterGone(c.limits, l, L.Abort(stage.ticket), now, t);
      }
    case Timer => LimiterGone(c.limits, l, L.Fire, now, t);
    case Settle(id, answer) =>
      var Sending(probe, ticket) := s.requests[id].stage;
      assert Holds(s.requests, id, ticket);
      var e := Tell(Learn(c, s.breaker, now, probe, answer), now);
      LimiterStep(c.limits, l, e, now);
      LimiterGone(c.limits, l, e, now, t);
      LimiterGone(c.limits, L.Step(c.limits, l, e, now), L.Release(ticket), now, t);
    case _ =>
  }

  lemma {:induction false} RunGone(c: Config, s: State, run: seq<Timed>, t: nat)
    requires c.Valid() && Inv(c, s) && Legal(c, s, run) && Gone(s.limiter, t)
    ensures Gone(After(c, s, run).limiter, t)
    decreases |run|
  {
    hide L.Inv, L.Step, B.Inv, Gone;
    if run != [] {
      NextInv(c, s, run[0].step, run[0].at);
      StepGone(c, s, run[0].step, run[0].at, t);
      RunGone(c, Next(c, s, run[0].step, run[0].at), run[1..], t);
    }
  }

  lemma SettledHolds(c: Config, s: State, id: nat, answer: Answer, now: int)
    requires c.Valid() && Inv(c, s) && Enabled(s, Settle(id, answer), now)
    ensures s.requests[id].stage.ticket in s.limiter.live
    ensures Gone(Next(c, s, Settle(id, answer), now).limiter, s.requests[id].stage.ticket)
  {
    hide L.Step, L.Pump, L.Inv, B.Inv;
    var Sending(probe, ticket) := s.requests[id].stage;
    assert Holds(s.requests, id, ticket);
    SettleLimiterInv(c, s.limiter, Learn(c, s.breaker, now, probe, answer), ticket, now);
  }

  /** Along any run no slot is released twice: whatever settles later holds another ticket. */
  lemma NoSlotReleasedTwice(
    c: Config, s: State, id: nat, answer: Answer, now: int, run: seq<Timed>, other: nat, last: Answer, at: int)
    requires c.Valid() && Reachable(c, s) && Enabled(s, Settle(id, answer), now)
    requires Legal(c, Next(c, s, Settle(id, answer), now), run)
    requires Enabled(After(c, Next(c, s, Settle(id, answer), now), run), Settle(other, last), at)
    ensures After(c, Next(c, s, Settle(id, answer), now), run).requests[other].stage.ticket != s.requests[id].stage.ticket
  {
    hide L.Step, L.Inv, B.Inv, Next;
    ReachableInv(c, s);
    SettledHolds(c, s, id, answer, now);
    NextInv(c, s, Settle(id, answer), now);
    var r := Next(c, s, Settle(id, answer), now);
    RunInv(c, r, run);
    RunGone(c, r, run, s.requests[id].stage.ticket);
    SettledHolds(c, After(c, r, run), other, last, at);
  }

  /** Between two looks at an open breaker nobody is admitted: whoever is past the breaker then was past it before. */
  lemma {:induction false} OpenAdmitsNobody(c: Config, s: State, run: seq<Timed>, id: nat)
    requires c.Valid() && Legal(c, s, run) && s.breaker.current == B.Open
    requires forall i :: 0 <= i < |run| ==> run[i].at < s.breaker.openUntil
    requires Inv(c, s)
    ensures var r := After(c, s, run);
            && r.breaker.current == B.Open && r.breaker.openUntil >= s.breaker.openUntil
            && (id in r.requests && Past(r.requests[id].stage) ==> id in s.requests && Past(s.requests[id].stage))
    decreases |run|
  {
    hide L.Inv, L.Step, B.Inv;
    if run != [] {
      var m := Next(c, s, run[0].step, run[0].at);
      OpenStep(c, s, run[0].step, run[0].at, id);
      NextInv(c, s, run[0].step, run[0].at);
      OpenAdmitsNobody(c, m, run[1..], id);
    }
  }

  /** Past the breaker: admitted, waiting for a grant, or sent. */
  predicate Past(stage: Stage) {
    stage.Admitted? || stage.Waiting? || stage.Sending?
  }

  lemma OpenStep(c: Config, s: State, step: Step, now: int, id: nat)
    requires c.Valid() && Inv(c, s) && Enabled(s, step, now) && s.breaker.current == B.Open && now < s.breaker.openUntil
    ensures var r := Next(c, s, step, now);
            && r.breaker.current == B.Open && r.breaker.openUntil >= s.breaker.openUntil
            && (id in r.requests && Past(r.requests[id].stage) ==> id in s.requests && Past(s.requests[id].stage))
  {
    if step.Settle? {
      assert IsProbe(s.requests, step.id) == s.requests[step.id].stage.probe;
    }
  }

  /** Cool-downs grow: the k-th probe since the breaker left `Closed` fails no earlier than the first k
      cool-downs after that, min(max, base * 2^i) each, and the cool-down is the base value again once closed. */
  lemma CoolDownsGrow(c: Config, s: State, k: nat)
    requires c.Valid() && Reachable(c, s)
    ensures k < |s.breaker.failedAt| ==> s.breaker.failedAt[k] >= s.breaker.openedAt + B.CoolDowns(c.policy, k + 1)
    ensures s.breaker.coolDownMs == if s.breaker.current == B.Closed then c.policy.coolDownMs
                                    else B.CoolDown(c.policy, |s.breaker.failedAt|)
    ensures s.breaker.current != B.Closed ==>
              s.breaker.openUntil >= s.breaker.openedAt + B.CoolDowns(c.policy, |s.breaker.failedAt| + 1)
  {
    ReachableInv(c, s);
  }

  /** In any window of any run of the whole budget, requests sent on number at most the burst plus the rate;
      never more than the cap hold a slot. */
  lemma BudgetCeiling(c: Config, s: State, from: int, to: int)
    requires c.Valid() && Reachable(c, s) && from <= to
    ensures L.TOKEN * L.Within(s.limiter.grantedAt, from, to)
            <= c.limits.burst * L.TOKEN + c.limits.perMinute * (to - from)
    ensures 0 <= s.limiter.inFlight <= c.limits.maxInFlight
    ensures 0 <= s.limiter.tokens <= c.limits.burst * L.TOKEN
  {
    ReachableInv(c, s);
    L.PacedBound(c.limits, s.limiter, from, to);
  }
}
