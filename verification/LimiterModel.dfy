/**
 * The limiter in front of every request to the portal (src/core/budget/limiter.ts) as a transition system.
 *
 * Times are milliseconds. One token is TOKEN units, so a refill of `dt` milliseconds at `perMinute`
 * tokens a minute is exactly `dt * perMinute` units. A request waiting for a grant is known by its
 * ticket, the number of acquires before it. The last fields of `State` record what became of each
 * ticket: they are what the callers' promises saw.
 */
module LimiterModel {
  import opened Basics

  const TOKEN := 60_000

  datatype Limits = Limits(perMinute: int, burst: int, maxInFlight: int) {
    predicate Valid() {
      perMinute >= 1 && burst >= 1 && maxInFlight >= 1
    }
  }

  datatype State = State(
    tokens: int,
    refilledAt: int,
    inFlight: int,
    holdUntil: int,
    queue: seq<nat>,
    timer: Option<int>,
    signals: set<nat>,      // tickets acquired with an abort signal
    listeners: set<nat>,    // tickets whose abort listener is attached
    issued: nat,            // tickets handed out so far
    granted: seq<nat>,      // in the order of granting
    grantedAt: seq<int>,    // when, ticket by ticket
    live: set<nat>,         // granted and not yet released
    cancelled: set<nat>,
    flushed: set<nat>)

  datatype Event =
    | Acquire(signal: bool, aborted: bool)
    | Release(ticket: nat)
    | Hold(until: int)
    | Flush
    | Abort(ticket: nat)
    | Fire

  // ---------- What the code does ----------

  function Start(l: Limits, now: int): State {
    State(l.burst * TOKEN, now, 0, 0, [], None, {}, {}, 0, [], [], {}, {}, {})
  }

  function Refill(l: Limits, s: State, now: int): State {
    s.(tokens := Min(l.burst * TOKEN, s.tokens + (now - s.refilledAt) * l.perMinute), refilledAt := now)
  }

  predicate CanGrant(l: Limits, s: State, now: int) {
    |s.queue| > 0 && s.inFlight < l.maxInFlight && now >= s.holdUntil && s.tokens >= TOKEN
  }

  function GrantHead(s: State, now: int): State
    requires |s.queue| > 0
  {
    s.(tokens := s.tokens - TOKEN, inFlight := s.inFlight + 1, queue := s.queue[1..],
    listeners := s.listeners - {s.queue[0]}, granted := s.granted + [s.queue[0]],
    grantedAt := s.grantedAt + [now], live := s.live + {s.queue[0]})
  }

  function Grants(l: Limits, s: State, now: int): State
    decreases |s.queue|
  {
    if CanGrant(l, s, now) then Grants(l, GrantHead(s, now), now) else s
  }

  /** Smallest integer not below a / b. */
  function CeilDiv(a: int, b: int): int
    requires b >= 1
  {
    (a + b - 1) / b
  }

  function WakeAt(l: Limits, s: State, now: int): int
    requires l.Valid()
  {
    Max(s.holdUntil, if s.tokens >= TOKEN then now else now + CeilDiv(TOKEN - s.tokens, l.perMinute))
  }

  function Rearm(l: Limits, s: State, now: int): State
    requires l.Valid()
  {
    s.(timer := if |s.queue| > 0 && s.inFlight < l.maxInFlight then Some(WakeAt(l, s, now)) else None)
  }

  function Pump(l: Limits, s: State, now: int): State
    requires l.Valid()
  {
    Rearm(l, Grants(l, Refill(l, s, now), now), now)
  }

  /** JavaScript's `indexOf`: -1 when absent. */
  function IndexOf(q: seq<nat>, t: nat): int {
    if q == [] then -1
    else if q[0] == t then 0
    else var i := IndexOf(q[1..], t); if i < 0 then -1 else i + 1
  }

  /** JavaScript's `splice(i, 1)`: a negative index counts from the end, so -1 removes the last entry. */
  function Splice(q: seq<nat>, i: int): seq<nat> {
    var at := if i < 0 then Max(0, |q| + i) else Min(i, |q|);
    if at < |q| then q[..at] + q[at + 1..] else q
  }

  function SetOf(q: seq<nat>): set<nat> {
    set t | t in q
  }

  /** What each call changes before it pumps. */
  function Touch(s: State, e: Event): State {
    match e
    case Acquire(signal, aborted) =>
      if aborted then
        s.(issued := s.issued + 1, cancelled := s.cancelled + {s.issued})
      else
        s.(issued := s.issued + 1, queue := s.queue + [s.issued],
        signals := if signal then s.signals + {s.issued} else s.signals,
        listeners := if signal then s.listeners + {s.issued} else s.listeners)
    case Release(t) => s.(inFlight := s.inFlight - 1, live := s.live - {t})
    case Hold(until) => s.(holdUntil := Max(s.holdUntil, until))
    case Flush => s.(queue := [], listeners := s.listeners - SetOf(s.queue), flushed := s.flushed + SetOf(s.queue))
    case Abort(t) =>
      s.(queue := Splice(s.queue, IndexOf(s.queue, t)), listeners := s.listeners - {t}, cancelled := s.cancelled + {t})
    case Fire => s.(timer := None)
  }

  function Step(l: Limits, s: State, e: Event, now: int): State
    requires l.Valid()
  {
    if e.Acquire? && e.aborted then Touch(s, e) else Pump(l, Touch(s, e), now)
  }

  /** An event the outside can cause: the clock never runs back, only a live slot is released, only an
      attached listener hears an abort, only an armed timer fires (early or late). */
  predicate Enabled(s: State, e: Event, now: int) {
    now >= s.refilledAt &&
    match e
    case Release(t) => t in s.live
    case Abort(t) => t in s.listeners
    case Fire => s.timer.Some?
    case _ => true
  }

  // ---------- What holds in every reachable state ----------

  predicate Ascending(q: seq<nat>) {
    forall i, j :: 0 <= i < j < |q| ==> q[i] < q[j]
  }

  predicate Bounded(l: Limits, s: State) {
    0 <= s.tokens <= l.burst * TOKEN && s.inFlight == |s.live| <= l.maxInFlight
  }

  /** Grants follow the order of arrival and every waiter arrived after every granted one. */
  predicate Ordered(s: State) {
    Ascending(s.granted + s.queue) && forall i :: 0 <= i < |s.granted + s.queue| ==> (s.granted + s.queue)[i] < s.issued
  }

  function Fates(queue: seq<nat>, granted: seq<nat>, cancelled: set<nat>, flushed: set<nat>, t: nat): nat {
    (if t in queue then 1 else 0) + (if t in granted then 1 else 0)
    + (if t in cancelled then 1 else 0) + (if t in flushed then 1 else 0)
  }

  ghost predicate OneFateEach(queue: seq<nat>, granted: seq<nat>, cancelled: set<nat>, flushed: set<nat>, issued: nat) {
    forall t: nat :: Fates(queue, granted, cancelled, flushed, t) == if t < issued then 1 else 0
  }

  /** Every ticket is exactly one of waiting, granted, cancelled, flushed; nothing else is any of them. */
  ghost predicate Accounted(s: State) {
    && OneFateEach(s.queue, s.granted, s.cancelled, s.flushed, s.issued)
    && (forall t :: t in s.live ==> t in s.granted)
  }

  /** A queued ticket with a signal listens for its abort, and nothing else does. */
  ghost predicate Listening(s: State) {
    && (forall t: nat :: t in s.listeners <==> t in s.signals && t in s.queue)
    && (forall t :: t in s.signals ==> t < s.issued)
  }

  /** The token bucket as a bound on the grants made since each earlier one. */
  predicate Paced(l: Limits, s: State) {
    && |s.granted| == |s.grantedAt|
    && (forall i :: 0 <= i < |s.grantedAt| ==> s.grantedAt[i] <= s.refilledAt)
    && (forall i, j :: 0 <= i <= j < |s.grantedAt| ==> s.grantedAt[i] <= s.grantedAt[j])
    && (forall i :: 0 <= i < |s.grantedAt| ==>
          TOKEN * (|s.grantedAt| - i) + s.tokens <= l.burst * TOKEN + l.perMinute * (s.refilledAt - s.grantedAt[i]))
    && (forall i, j :: 0 <= i <= j < |s.grantedAt| ==>
          TOKEN * (j + 1 - i) <= l.burst * TOKEN + l.perMinute * (s.grantedAt[j] - s.grantedAt[i]))
  }

  /** Left alone, would the head of the queue be granted at `t`? */
  predicate GrantPossible(l: Limits, s: State, t: int) {
    CanGrant(l, Refill(l, s, t), t)
  }

  /** Whenever a waiter and a free slot coexist, the timer is armed at exactly the first instant a grant is possible. */
  ghost predicate Awake(l: Limits, s: State) {
    && (s.timer.Some? <==> |s.queue| > 0 && s.inFlight < l.maxInFlight)
    && (s.timer.Some? ==> forall t :: t >= s.refilledAt ==> (GrantPossible(l, s, t) <==> t >= s.timer.value))
  }

  ghost predicate Sound(l: Limits, s: State) {
    Bounded(l, s) && Ordered(s) && Accounted(s) && Listening(s) && Paced(l, s)
  }

  ghost predicate Inv(l: Limits, s: State) {
    Sound(l, s) && Awake(l, s)
  }

  // ---------- Proofs ----------

  lemma StartInv(l: Limits, now: int)
    requires l.Valid()
    ensures Inv(l, Start(l, now))
  {
  }

  lemma RefillPaced(l: Limits, s: State, now: int)
    requires l.Valid() && Paced(l, s) && now >= s.refilledAt
    ensures Paced(l, Refill(l, s, now))
  {
    var r := Refill(l, s, now);
    forall i | 0 <= i < |s.grantedAt|
      ensures TOKEN * (|s.grantedAt| - i) + r.tokens <= l.burst * TOKEN + l.perMinute * (now - s.grantedAt[i])
    {
      Distributes(l.perMinute, now, s.refilledAt, s.grantedAt[i]);
    }
  }

  lemma Distributes(p: int, a: int, b: int, c: int)
    ensures p * (a - b) + p * (b - c) == p * (a - c) && p * (a - b) == (a - b) * p
  {
  }

  lemma RefillSound(l: Limits, s: State, now: int)
    requires l.Valid() && Sound(l, s) && now >= s.refilledAt
    ensures Sound(l, Refill(l, s, now))
  {
    RefillPaced(l, s, now);
    assert (now - s.refilledAt) * l.perMinute >= 0;
  }

  lemma GrantHeadSound(l: Limits, s: State, now: int)
    requires l.Valid() && Sound(l, s) && CanGrant(l, s, now) && now == s.refilledAt
    ensures Sound(l, GrantHead(s, now))
  {
    var g := GrantHead(s, now);
    var q := s.queue[0];
    assert s.granted + s.queue == g.granted + g.queue;
    assert q in s.queue && Fates(s.queue, s.granted, s.cancelled, s.flushed, q) == 1;
    assert q !in s.live && q !in g.queue by {
      forall j | 0 <= j < |g.queue| ensures g.queue[j] != q {
        assert (s.granted + s.queue)[|s.granted|] < (s.granted + s.queue)[|s.granted| + 1 + j];
      }
    }
    assert s.queue == [q] + g.queue;
    forall t: nat ensures Fates(g.queue, g.granted, g.cancelled, g.flushed, t) == if t < g.issued then 1 else 0 {
      assert Fates(g.queue, g.granted, g.cancelled, g.flushed, t) == Fates(s.queue, s.granted, s.cancelled, s.flushed, t);
    }
  }

  lemma {:induction false} GrantsSound(l: Limits, s: State, now: int)
    requires l.Valid() && Sound(l, s) && now == s.refilledAt
    ensures Sound(l, Grants(l, s, now))
    ensures Grants(l, s, now).refilledAt == now && !CanGrant(l, Grants(l, s, now), now)
    decreases |s.queue|
  {
    if CanGrant(l, s, now) {
      GrantHeadSound(l, s, now);
      GrantsSound(l, GrantHead(s, now), now);
    }
  }

  lemma CeilDivLeast(a: int, b: int, k: int)
    requires b >= 1
    ensures k >= CeilDiv(a, b) <==> k * b >= a
  {
    var c := CeilDiv(a, b);
    assert b * c <= a + b - 1 < b * c + b;
    if k >= c {
      assert k * b >= c * b;
    } else {
      assert k * b <= (c - 1) * b;
    }
  }

  lemma RearmAwake(l: Limits, s: State, now: int)
    requires l.Valid() && Sound(l, s) && now == s.refilledAt && !CanGrant(l, s, now)
    ensures Inv(l, Rearm(l, s, now))
  {
    var r := Rearm(l, s, now);
    if r.timer.Some? {
      forall t | t >= now ensures GrantPossible(l, r, t) <==> t >= r.timer.value {
        CeilDivLeast(TOKEN - s.tokens, l.perMinute, t - now);
        assert (t - now) * l.perMinute >= 0;
      }
    }
  }

  lemma PumpInv(l: Limits, s: State, now: int)
    requires l.Valid() && Sound(l, s) && now >= s.refilledAt
    ensures Inv(l, Pump(l, s, now))
  {
    RefillSound(l, s, now);
    GrantsSound(l, Refill(l, s, now), now);
    RearmAwake(l, Grants(l, Refill(l, s, now), now), now);
  }

  lemma {:induction false} IndexOfFinds(q: seq<nat>, t: nat)
    requires t in q
    ensures 0 <= IndexOf(q, t) < |q| && q[IndexOf(q, t)] == t
  {
    if q[0] != t {
      assert q == [q[0]] + q[1..];
      IndexOfFinds(q[1..], t);
    }
  }

  lemma AscendingWithout(all: seq<nat>, i: nat)
    requires i < |all| && Ascending(all)
    ensures var q := all[..i] + all[i + 1..];
            && Ascending(q) && (forall j :: 0 <= j < |q| ==> q[j] == all[if j < i then j else j + 1])
            && (forall u :: u in q <==> u in all && u != all[i])
  {
    var q := all[..i] + all[i + 1..];
    assert forall j :: 0 <= j < |q| ==> q[j] == all[if j < i then j else j + 1];
    forall u | u in all && u != all[i] ensures u in q {
      var j :| 0 <= j < |all| && all[j] == u;
      assert q[if j < i then j else j - 1] == u;
    }
  }

  /** An abort removes its own entry from the queue, and no other. */
  lemma AbortRemovesOwnEntry(s: State, t: nat)
    requires Ordered(s) && Listening(s) && t in s.listeners
    ensures var q := Touch(s, Abort(t)).queue;
            && |q| == |s.queue| - 1 && Ascending(s.granted + q)
            && (forall u :: u in q <==> u in s.queue && u != t)
            && (forall j :: 0 <= j < |s.granted + q| ==> (s.granted + q)[j] < s.issued)
  {
    hide Ascending, IndexOf;
    IndexOfFinds(s.queue, t);
    var i := IndexOf(s.queue, t);
    var all := s.granted + s.queue;
    AscendingTail(s.granted, s.queue);
    AscendingWithout(s.queue, i);
    WithoutLater(s.granted, s.queue, i);
    AscendingWithout(all, |s.granted| + i);
  }

  lemma AscendingTail(a: seq<nat>, b: seq<nat>)
    requires Ascending(a + b)
    ensures Ascending(b)
  {
    assert forall j :: 0 <= j < |b| ==> b[j] == (a + b)[|a| + j];
  }

  lemma WithoutLater(a: seq<nat>, b: seq<nat>, i: nat)
    requires i < |b|
    ensures var all, n := a + b, |a| + i; all[n] == b[i] && all[..n] + all[n + 1..] == a + (b[..i] + b[i + 1..])
  {
  }

  lemma AcquireSound(l: Limits, s: State, signal: bool, aborted: bool)
    requires l.Valid() && Sound(l, s)
    ensures Sound(l, Touch(s, Acquire(signal, aborted)))
  {
    var r := Touch(s, Acquire(signal, aborted));
    assert Fates(s.queue, s.granted, s.cancelled, s.flushed, s.issued) == 0;
    var all := s.granted + s.queue;
    if !aborted {
      assert r.granted + r.queue == all + [s.issued];
    }
    assert forall t :: t in r.queue ==> t in s.queue || t == s.issued;
    assert forall t :: t in s.queue ==> t in r.queue;
    assert !aborted ==> r.queue[|s.queue|] == s.issued;
    assert s.issued !in s.queue;
    forall t: nat ensures Fates(r.queue, r.granted, r.cancelled, r.flushed, t) == if t < r.issued then 1 else 0 {
      assert Fates(r.queue, r.granted, r.cancelled, r.flushed, t)
          == Fates(s.queue, s.granted, s.cancelled, s.flushed, t) + if t == s.issued then 1 else 0;
    }
  }

  lemma FlushSound(l: Limits, s: State)
    requires l.Valid() && Sound(l, s)
    ensures Sound(l, Touch(s, Flush))
  {
    var r := Touch(s, Flush);
    assert r.granted + r.queue == s.granted;
    assert forall i :: 0 <= i < |s.granted| ==> s.granted[i] == (s.granted + s.queue)[i];
    forall i, j | 0 <= i < j < |s.granted| ensures s.granted[i] < s.granted[j] {
      assert (s.granted + s.queue)[i] < (s.granted + s.queue)[j];
    }
    forall t: nat ensures Fates(r.queue, r.granted, r.cancelled, r.flushed, t) == if t < r.issued then 1 else 0 {
      assert Fates(r.queue, r.granted, r.cancelled, r.flushed, t) == Fates(s.queue, s.granted, s.cancelled, s.flushed, t);
    }
  }

  lemma AbortSound(l: Limits, s: State, t: nat)
    requires l.Valid() && Sound(l, s) && t in s.listeners
    ensures Sound(l, Touch(s, Abort(t)))
  {
    var r := Touch(s, Abort(t));
    AbortRemovesOwnEntry(s, t);
    assert Fates(s.queue, s.granted, s.cancelled, s.flushed, t) == 1;
    forall u: nat ensures Fates(r.queue, r.granted, r.cancelled, r.flushed, u) == if u < r.issued then 1 else 0 {
      assert Fates(r.queue, r.granted, r.cancelled, r.flushed, u) == Fates(s.queue, s.granted, s.cancelled, s.flushed, u);
    }
  }

  lemma TouchSound(l: Limits, s: State, e: Event, now: int)
    requires l.Valid() && Sound(l, s) && Enabled(s, e, now)
    ensures Sound(l, Touch(s, e))
  {
    match e
    case Acquire(signal, aborted) => AcquireSound(l, s, signal, aborted);
    case Release(t) => assert |s.live - {t}| == |s.live| - 1;
    case Flush => FlushSound(l, s);
    case Abort(t) => AbortSound(l, s, t);
    case Hold(_) =>
    case Fire =>
  }

  /** Every call, abort and timer keeps the whole invariant. */
  lemma StepInv(l: Limits, s: State, e: Event, now: int)
    requires l.Valid() && Inv(l, s) && Enabled(s, e, now)
    ensures Inv(l, Step(l, s, e, now))
  {
    TouchSound(l, s, e, now);
    if e.Acquire? && e.aborted {
      var r := Touch(s, e);
      if r.timer.Some? {
        forall t | t >= r.refilledAt ensures GrantPossible(l, r, t) <==> t >= r.timer.value {
          assert GrantPossible(l, r, t) == GrantPossible(l, s, t);
        }
      }
    } else {
      PumpInv(l, Touch(s, e), now);
    }
  }

  // ---------- Whole runs ----------

  datatype Timed = Timed(event: Event, at: int)

  function After(l: Limits, s: State, run: seq<Timed>): State
    requires l.Valid()
    decreases |run|
  {
    if run == [] then s else After(l, Step(l, s, run[0].event, run[0].at), run[1..])
  }

  predicate Legal(l: Limits, s: State, run: seq<Timed>)
    requires l.Valid()
    decreases |run|
  {
    run == [] ||
    (Enabled(s, run[0].event, run[0].at) && Legal(l, Step(l, s, run[0].event, run[0].at), run[1..]))
  }

  lemma {:induction false} RunInv(l: Limits, s: State, run: seq<Timed>)
    requires l.Valid() && Inv(l, s) && Legal(l, s, run)
    ensures Inv(l, After(l, s, run))
    decreases |run|
  {
    if run != [] {
      StepInv(l, s, run[0].event, run[0].at);
      RunInv(l, Step(l, s, run[0].event, run[0].at), run[1..]);
    }
  }

  /** How many of the instants lie in [from, to]. */
  function Within(times: seq<int>, from: int, to: int): nat {
    if times == [] then 0
    else Within(times[..|times| - 1], from, to) + if from <= times[|times| - 1] <= to then 1 else 0
  }

  lemma {:induction false} WithinSpan(times: seq<int>, from: int, to: int) returns (i: int, j: int)
    requires Within(times, from, to) > 0
    ensures 0 <= i <= j < |times| && from <= times[i] && times[j] <= to && Within(times, from, to) <= j + 1 - i
  {
    var n := |times| - 1;
    if Within(times[..n], from, to) > 0 {
      i, j := WithinSpan(times[..n], from, to);
    } else {
      i := n;
    }
    if from <= times[n] <= to {
      j := n;
    }
  }

  lemma PacedBound(l: Limits, s: State, from: int, to: int)
    requires l.Valid() && Paced(l, s) && from <= to
    ensures TOKEN * Within(s.grantedAt, from, to) <= l.burst * TOKEN + l.perMinute * (to - from)
  {
    var w := Within(s.grantedAt, from, to);
    if w > 0 {
      var i, j := WithinSpan(s.grantedAt, from, to);
      PacedPair(l, s, i, j);
      MulMonotone(l.perMinute, s.grantedAt[j] - s.grantedAt[i], to - from);
    } else {
      MulMonotone(l.perMinute, 0, to - from);
    }
  }

  lemma PacedPair(l: Limits, s: State, i: int, j: int)
    requires Paced(l, s) && 0 <= i <= j < |s.grantedAt|
    ensures TOKEN * (j + 1 - i) <= l.burst * TOKEN + l.perMinute * (s.grantedAt[j] - s.grantedAt[i])
  {
  }

  lemma MulMonotone(p: int, a: int, b: int)
    requires p >= 0 && a <= b
    ensures p * a <= p * b
  {
  }

  /** No window of any run sees more grants than the burst plus the sustained rate allows, whatever the
      order of acquires, releases, holds, flushes, aborts and timer firings. */
  lemma RateBound(l: Limits, start: int, run: seq<Timed>, from: int, to: int)
    requires l.Valid() && Legal(l, Start(l, start), run) && from <= to
    ensures TOKEN * Within(After(l, Start(l, start), run).grantedAt, from, to)
            <= l.burst * TOKEN + l.perMinute * (to - from)
  {
    StartInv(l, start);
    RunInv(l, Start(l, start), run);
    PacedBound(l, After(l, Start(l, start), run), from, to);
  }

  lemma {:induction false} GrantsExtend(l: Limits, s: State, now: int)
    requires |s.granted| == |s.grantedAt|
    ensures var g := Grants(l, s, now);
            && s.granted <= g.granted && s.grantedAt <= g.grantedAt && |g.granted| == |g.grantedAt|
            && g.granted + g.queue == s.granted + s.queue
            && (forall i :: |s.grantedAt| <= i < |g.grantedAt| ==> g.grantedAt[i] == now && now >= s.holdUntil)
            && g.holdUntil == s.holdUntil
    decreases |s.queue|
  {
    if CanGrant(l, s, now) {
      var h := GrantHead(s, now);
      GrantsExtend(l, h, now);
      assert h.granted + h.queue == s.granted + s.queue;
      assert h.grantedAt[|s.grantedAt|] == now;
    }
  }

  /** A step forgets no grant, adds only grants of that instant, and none before the hold ends. */
  lemma StepHeld(l: Limits, s: State, e: Event, now: int)
    requires l.Valid() && Inv(l, s)
    ensures var r := Step(l, s, e, now);
            && s.granted <= r.granted && s.grantedAt <= r.grantedAt && |r.granted| == |r.grantedAt|
            && r.holdUntil == (if e.Hold? then Max(s.holdUntil, e.until) else s.holdUntil)
            && (forall i :: |s.grantedAt| <= i < |r.grantedAt| ==> r.grantedAt[i] == now >= r.holdUntil)
  {
    if !(e.Acquire? && e.aborted) {
      GrantsExtend(l, Refill(l, Touch(s, e), now), now);
    }
  }

  /** Once held until an instant, no later step of any run grants anything before it. */
  lemma {:induction false} RunHeld(l: Limits, s: State, run: seq<Timed>)
    requires l.Valid() && Inv(l, s) && Legal(l, s, run)
    ensures var r := After(l, s, run);
            && s.granted <= r.granted && s.grantedAt <= r.grantedAt && s.holdUntil <= r.holdUntil
            && (forall i :: |s.grantedAt| <= i < |r.grantedAt| ==> r.grantedAt[i] >= s.holdUntil)
    decreases |run|
  {
    if run != [] {
      var m := Step(l, s, run[0].event, run[0].at);
      StepHeld(l, s, run[0].event, run[0].at);
      StepInv(l, s, run[0].event, run[0].at);
      RunHeld(l, m, run[1..]);
      var r := After(l, s, run);
      forall i | |s.grantedAt| <= i < |r.grantedAt| ensures r.grantedAt[i] >= s.holdUntil {
        if i < |m.grantedAt| {
          assert r.grantedAt[i] == m.grantedAt[i];
        }
      }
    }
  }

  lemma LateTimer(l: Limits, s: State, now: int)
    requires l.Valid() && Inv(l, s) && s.timer.Some? && now >= s.refilledAt && now >= s.timer.value
    ensures var r := Step(l, s, Fire, now);
            |r.granted| > |s.granted| && r.granted[|s.granted|] == s.queue[0]
  {
    var f := Refill(l, Touch(s, Fire), now);
    assert CanGrant(l, f, now) by {
      assert GrantPossible(l, s, now);
    }
    GrantsExtend(l, GrantHead(f, now), now);
    assert GrantHead(f, now).granted[|s.granted|] == s.queue[0];
  }

  lemma EarlyTimer(l: Limits, s: State, now: int)
    requires l.Valid() && Inv(l, s) && s.timer.Some? && s.refilledAt <= now < s.timer.value
    ensures var r := Step(l, s, Fire, now);
            r.granted == s.granted && r.queue == s.queue && r.timer == s.timer
  {
    StepInv(l, s, Fire, now);
    var f := Refill(l, Touch(s, Fire), now);
    var r := Step(l, s, Fire, now);
    assert !CanGrant(l, f, now) by {
      assert !GrantPossible(l, s, now);
    }
    assert r == Rearm(l, f, now);
    forall t | t >= now ensures GrantPossible(l, r, t) == GrantPossible(l, s, t) {
      RefillTwice(l, s, now, t);
    }
    assert GrantPossible(l, r, s.timer.value) && !GrantPossible(l, r, s.timer.value - 1);
    assert GrantPossible(l, r, Max(now, r.timer.value));
  }

  /** No waiter is lost: the armed timer, fired at `now`, grants the longest waiting request if and only if
      `now` has reached the instant the timer was armed for; fired early it changes nothing but the refill. */
  lemma TimerGrantsHead(l: Limits, s: State, now: int)
    requires l.Valid() && Inv(l, s) && s.timer.Some? && now >= s.refilledAt
    ensures var r := Step(l, s, Fire, now);
            && (now >= s.timer.value ==> |r.granted| > |s.granted| && r.granted[|s.granted|] == s.queue[0])
            && (now < s.timer.value ==> r.granted == s.granted && r.queue == s.queue && r.timer == s.timer)
  {
    if now >= s.timer.value {
      LateTimer(l, s, now);
    } else {
      EarlyTimer(l, s, now);
    }
  }

  /** Refilling on the way makes no difference: the bucket is exact. */
  lemma RefillTwice(l: Limits, s: State, mid: int, t: int)
    requires l.Valid() && s.refilledAt <= mid <= t && 0 <= s.tokens <= l.burst * TOKEN
    ensures Refill(l, Refill(l, s, mid), t) == Refill(l, s, t)
  {
    assert (t - s.refilledAt) * l.perMinute == (mid - s.refilledAt) * l.perMinute + (t - mid) * l.perMinute;
    assert (t - mid) * l.perMinute >= 0;
  }
}
