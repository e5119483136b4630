/**
 * The circuit breaker of the request budget (src/core/budget/breaker.ts) as functions on its state.
 *
 * The last three fields of `State` only record what happened: the push-backs while closed since the last
 * success or opening, when the breaker last left `Closed`, and when each probe since then was pushed back.
 */
module BreakerModel {
  import opened Basics

  datatype Policy = Policy(
    threshold: int, windowMs: int, coolDownMs: int, maxCoolDownMs: int, backoffBaseMs: int, backoffMaxMs: int,
    minRetryAfterMs: int, maxRetryAfterMs: int, maxWaitMs: int, probeRetryMs: int)
  {
    predicate Valid() {
      threshold >= 1 && windowMs >= 1 && 1 <= coolDownMs <= maxCoolDownMs && backoffBaseMs >= 0 && backoffMaxMs >= 0
      && 0 <= minRetryAfterMs <= maxRetryAfterMs
    }
  }

  const MINUTE := 60_000

  /** src/core/budget/policy.ts */
  const DEFAULT_POLICY := Policy(3, 2 * MINUTE, 5 * MINUTE, 60 * MINUTE, 2_000, MINUTE, 1_000, 60 * MINUTE, 10_000, 10_000)

  datatype Mode = Closed | Open | HalfOpen

  datatype Reason = SlowDown | Paused

  datatype Admission =
    | Go(probe: bool)
    | Wait(until: int)
    | Refuse(reason: Reason, retryAt: int)

  datatype State = State(
    current: Mode, failures: seq<int>, consecutive: nat, pausedUntil: int, openUntil: int, coolDownMs: int, probing: bool,
    strikes: seq<int>, openedAt: int, failedAt: seq<int>)

  // ---------- What the code does ----------

  function Start(p: Policy): State {
    State(Closed, [], 0, 0, 0, p.coolDownMs, false, [], 0, [])
  }

  /** `state(now)`: looking at an open breaker after its cool-down half-opens it. */
  function Observe(b: State, now: int): State {
    if b.current == Open && now >= b.openUntil then b.(current := HalfOpen, probing := false) else b
  }

  function RetryAt(b: State, now: int): Option<int> {
    var o := Observe(b, now);
    if o.current == Open then Some(o.openUntil)
    else if o.current == Closed && o.pausedUntil > now then Some(o.pausedUntil)
    else None
  }

  function Admit(p: Policy, b: State, now: int, write: bool, background: bool): (State, Admission) {
    var o := Observe(b, now);
    match o.current
    case Open => (o, Refuse(Paused, o.openUntil))
    case HalfOpen =>
      if o.probing || write || background then (o, Refuse(Paused, now + p.probeRetryMs))
      else (o.(probing := true), Go(true))
    case Closed =>
      if o.pausedUntil > now then
        if background || o.pausedUntil - now > p.maxWaitMs then (o, Refuse(SlowDown, o.pausedUntil))
        else (o, Wait(o.pausedUntil))
      else (o, Go(false))
  }

  function Abandon(b: State, probe: bool): State {
    if probe then b.(probing := false) else b
  }

  function Success(p: Policy, b: State, probe: bool): State {
    var c := if probe then b.(current := Closed, probing := false, coolDownMs := p.coolDownMs) else b;
    c.(failures := [], consecutive := 0, strikes := [])
  }

  function Hinted(p: Policy, retryAfterMs: Option<int>): Option<int> {
    match retryAfterMs
    case None => None
    case Some(ms) => Some(Min(p.maxRetryAfterMs, Max(p.minRetryAfterMs, ms)))
  }

  function OpenUp(b: State, now: int, hinted: Option<int>): State {
    b.(current := Open, openUntil := now + Max(b.coolDownMs, if hinted.Some? then hinted.value else 0),
    failures := [], consecutive := 0, pausedUntil := 0, strikes := [])
  }

  function Recent(p: Policy, times: seq<int>, now: int): seq<int> {
    if times == [] then []
    else Recent(p, times[..|times| - 1], now)
         + if now - times[|times| - 1] < p.windowMs then [times[|times| - 1]] else []
  }

  function Backoff(p: Policy, consecutive: nat): int
    requires consecutive >= 1
  {
    Min(p.backoffMaxMs, p.backoffBaseMs * Pow2(consecutive - 1))
  }

  function PushbackOfProbe(p: Policy, b: State, now: int, hinted: Option<int>): State {
    OpenUp(b.(probing := false, coolDownMs := Min(p.maxCoolDownMs, b.coolDownMs * 2), failedAt := b.failedAt + [now]), now, hinted)
  }

  function PushbackWhileClosed(p: Policy, b: State, now: int, hinted: Option<int>): State {
    var c := b.(failures := Recent(p, b.failures, now) + [now], consecutive := b.consecutive + 1,
             strikes := b.strikes + [now]);
    if |c.failures| >= p.threshold then OpenUp(c, now, hinted).(openedAt := now, failedAt := [])
    else c.(pausedUntil := Max(c.pausedUntil, now + if hinted.Some? then hinted.value else Backoff(p, c.consecutive)))
  }

  function Pushback(p: Policy, b: State, now: int, probe: bool, retryAfterMs: Option<int>): State {
    var hinted := Hinted(p, retryAfterMs);
    if probe then PushbackOfProbe(p, b, now, hinted)
    else
      var o := Observe(b, now);
      match o.current
      case Closed => PushbackWhileClosed(p, o, now, hinted)
      case Open => if hinted.Some? then o.(openUntil := Max(o.openUntil, now + hinted.value)) else o
      case HalfOpen => o
  }

  // ---------- What holds in every reachable state ----------

  /** The cool-down after k failed probes. */
  function CoolDown(p: Policy, k: nat): int {
    Min(p.maxCoolDownMs, p.coolDownMs * Pow2(k))
  }

  /** The first k cool-downs together. */
  function CoolDowns(p: Policy, k: nat): int {
    if k == 0 then 0 else CoolDowns(p, k - 1) + CoolDown(p, k - 1)
  }

  predicate ProbesOnlyHalfOpen(b: State) {
    b.probing ==> b.current == HalfOpen
  }

  /** The cool-down is the base value when closed and min(max, base * 2^k) after k failed probes; the k-th
      probe failed no earlier than the cool-downs before it allow, and so does the next end of a cool-down. */
  predicate Cooling(p: Policy, b: State, clock: int) {
    && (b.current == Closed ==> b.coolDownMs == p.coolDownMs)
    && (b.current != Closed ==>
          && b.coolDownMs == CoolDown(p, |b.failedAt|)
          && b.openUntil >= b.openedAt + CoolDowns(p, |b.failedAt| + 1)
          && b.pausedUntil == 0)
    && (b.current == HalfOpen ==> clock >= b.openUntil)
    && (forall k :: 0 <= k < |b.failedAt| ==> b.failedAt[k] >= b.openedAt + CoolDowns(p, k + 1))
  }

  /** `failures` and `consecutive` are the push-backs since the last success: those inside the window at the
      last one, and all of them. */
  predicate Counting(p: Policy, b: State, clock: int) {
    && b.consecutive == |b.strikes|
    && (b.strikes == [] ==> b.failures == [])
    && (b.strikes != [] ==> b.failures == Recent(p, b.strikes, b.strikes[|b.strikes| - 1]))
    && (forall i :: 0 <= i < |b.strikes| ==> b.strikes[i] <= clock)
    && |b.failures| < p.threshold
  }

  predicate Inv(p: Policy, b: State, clock: int) {
    ProbesOnlyHalfOpen(b) && Cooling(p, b, clock) && Counting(p, b, clock)
  }

  // ---------- Proofs ----------

  /** The policy the program runs with satisfies what the lemmas ask of one. */
  lemma DefaultIsValid()
    ensures DEFAULT_POLICY.Valid()
  {
  }

  lemma StartInv(p: Policy, clock: int)
    requires p.Valid()
    ensures Inv(p, Start(p), clock)
  {
  }

  lemma InvLater(p: Policy, b: State, clock: int, now: int)
    requires Inv(p, b, clock) && now >= clock
    ensures Inv(p, b, now)
  {
  }

  /** A hint is honoured within limits. */
  function Clamped(p: Policy, ms: int): int {
    if ms < p.minRetryAfterMs then Min(p.minRetryAfterMs, p.maxRetryAfterMs)
    else if ms > p.maxRetryAfterMs then p.maxRetryAfterMs else ms
  }

  lemma ObserveInv(p: Policy, b: State, clock: int, now: int)
    requires p.Valid() && Inv(p, b, clock) && now >= clock
    ensures Inv(p, Observe(b, now), now)
  {
  }

  /** Only one call is let through a half-open breaker, never a write or background work; an open breaker lets none through. */
  lemma AdmitInv(p: Policy, b: State, clock: int, now: int, write: bool, background: bool)
    requires p.Valid() && Inv(p, b, clock) && now >= clock
    ensures var (a, admission) := Admit(p, b, now, write, background);
            && Inv(p, a, now)
            && (admission.Go? ==>
                  && (admission.probe <==> a.current == HalfOpen) && (admission.probe <==> b.current != Closed)
                  && (admission.probe ==> !b.probing && a.probing && !write && !background && now >= b.openUntil)
                  && (!admission.probe ==> a == b && b.current == Closed && b.pausedUntil <= now))
            && (!admission.Go? ==> a == Observe(b, now))
            && (admission.Wait? <==>
                  b.current == Closed && !background && now < b.pausedUntil <= now + p.maxWaitMs)
            && (admission.Wait? ==> admission.until == b.pausedUntil)
            && (admission.Refuse? ==>
                  admission.retryAt == (if a.current == HalfOpen then now + p.probeRetryMs
                                        else if a.current == Open then b.openUntil else b.pausedUntil)
                  && (admission.reason == SlowDown <==> a.current == Closed))
            && (admission.Go? <==>
                  || (b.current == Closed && b.pausedUntil <= now)
                  || (b.current != Closed && now >= b.openUntil && !write && !background
                      && (b.current == HalfOpen ==> !b.probing)))
  {
  }

  /** The retry instant a caller is told: until then no request of a user goes through, and then a user's read does; when
      none is told one goes through at once, unless the probe is out. */
  lemma RetryAtMeans(p: Policy, b: State, clock: int, now: int)
    requires p.Valid() && Inv(p, b, clock) && now >= clock
    ensures var at := RetryAt(b, now);
            && (at.Some? ==>
                  && at.value > now && Admit(p, b, at.value, false, false).1.Go?
                  && forall t, write :: now <= t < at.value ==> !Admit(p, b, t, write, false).1.Go?)
            && (at.None? ==> Admit(p, b, now, false, false).1.Go? || (b.current == HalfOpen && b.probing))
  {
    hide Inv;
    forall t, write | t >= now {
      AdmitInv(p, b, clock, t, write, false);
    }
  }

  lemma DoublingIsPow2(p: Policy, k: nat)
    requires p.Valid()
    ensures Min(p.maxCoolDownMs, CoolDown(p, k) * 2) == CoolDown(p, k + 1)
  {
    assert p.coolDownMs * Pow2(k + 1) == 2 * (p.coolDownMs * Pow2(k));
  }

  /** A probe that fails: the cool-down doubles and the next one starts no earlier than the last one ended. */
  lemma ProbeFailedInv(p: Policy, b: State, clock: int, now: int, retryAfterMs: Option<int>)
    requires p.Valid() && Inv(p, b, clock) && now >= clock && b.current == HalfOpen
    ensures var r := Pushback(p, b, now, true, retryAfterMs);
            && Inv(p, r, now) && r.current == Open && !r.probing && r.failedAt == b.failedAt + [now] && r.pausedUntil == 0
            && r.openUntil == now + Max(CoolDown(p, |b.failedAt| + 1), if retryAfterMs.Some? then Clamped(p, retryAfterMs.value) else 0)
  {
    hide Pow2;
    var k := |b.failedAt|;
    DoublingIsPow2(p, k);
    assert now >= b.openedAt + CoolDowns(p, k + 1);
    assert CoolDowns(p, k + 2) == CoolDowns(p, k + 1) + CoolDown(p, k + 1);
    PowerPositive(p, k + 1);
  }

  lemma PowerPositive(p: Policy, k: nat)
    requires p.Valid()
    ensures CoolDown(p, k) >= 1
  {
    assert p.coolDownMs * Pow2(k) >= 1;
  }

  lemma {:induction false} RecentOfRecent(p: Policy, times: seq<int>, earlier: int, now: int)
    requires earlier <= now
    ensures Recent(p, Recent(p, times, earlier), now) == Recent(p, times, now)
  {
    if times != [] {
      var init, last := times[..|times| - 1], times[|times| - 1];
      RecentOfRecent(p, init, earlier, now);
      var r := Recent(p, init, earlier);
      if earlier - last < p.windowMs {
        assert (r + [last])[..|r|] == r;
      } else {
        assert r + [] == r && Recent(p, init, now) + [] == Recent(p, init, now);
      }
    }
  }

  lemma FirstCoolDown(p: Policy)
    requires p.Valid()
    ensures CoolDown(p, 0) == CoolDowns(p, 1) == p.coolDownMs
  {
    assert Pow2(0) == 1 && CoolDowns(p, 1) == CoolDowns(p, 0) + CoolDown(p, 0);
  }

  /** Filtering push-back by push-back keeps what filtering all of them at once would. */
  lemma CountedOnce(p: Policy, b: State, clock: int, now: int)
    requires p.Valid() && Counting(p, b, clock) && now >= clock
    ensures Recent(p, b.strikes + [now], now) == Recent(p, b.failures, now) + [now]
  {
    var all := b.strikes + [now];
    assert all[..|all| - 1] == b.strikes;
    if b.strikes != [] {
      RecentOfRecent(p, b.strikes, b.strikes[|b.strikes| - 1], now);
    }
  }

  /** A push-back while closed opens the breaker exactly when `threshold` push-backs since the last success,
      this one included, lie within the window; otherwise it pauses for the hint or the doubled backoff. */
  lemma ClosedPushbackInv(p: Policy, b: State, clock: int, now: int, retryAfterMs: Option<int>)
    requires p.Valid() && Inv(p, b, clock) && now >= clock && b.current == Closed
    ensures var r := Pushback(p, b, now, false, retryAfterMs);
            && Inv(p, r, now) && !r.probing
            && (r.current == Open <==> |Recent(p, b.strikes + [now], now)| >= p.threshold)
            && (r.current == Open ==>
                  r.openedAt == now && r.pausedUntil == 0
                  && r.openUntil == now + Max(p.coolDownMs, if retryAfterMs.Some? then Clamped(p, retryAfterMs.value) else 0))
            && (r.current != Open ==>
                  r.current == Closed
                  && r.pausedUntil == Max(b.pausedUntil, now + if retryAfterMs.Some? then Clamped(p, retryAfterMs.value)
                                                              else Backoff(p, |b.strikes| + 1)))
  {
    hide Recent, Pow2, CoolDowns, CoolDown, Backoff;
    CountedOnce(p, b, clock, now);
    FirstCoolDown(p);
  }

  /** A push-back that arrives when the breaker has left `Closed`, from a request other than the probe: while it is
      open a hint can put the end of the cool-down off, and that is all it can do. */
  lemma LatePushbackInv(p: Policy, b: State, clock: int, now: int, retryAfterMs: Option<int>)
    requires p.Valid() && Inv(p, b, clock) && now >= clock && b.current != Closed
    ensures var r := Pushback(p, b, now, false, retryAfterMs);
            && Inv(p, r, now)
            && r == (if b.current == Open && now < b.openUntil then
                       b.(openUntil := if retryAfterMs.Some? then Max(b.openUntil, now + Clamped(p, retryAfterMs.value)) else b.openUntil)
                     else if b.current == Open then b.(current := HalfOpen, probing := false) else b)
  {
  }

  lemma SuccessInv(p: Policy, b: State, clock: int, now: int, probe: bool)
    requires p.Valid() && Inv(p, b, clock) && now >= clock && (probe ==> b.current == HalfOpen)
    ensures var r := Success(p, b, probe);
            && Inv(p, r, now) && r.strikes == [] && r.failures == [] && r.consecutive == 0
            && r.pausedUntil == b.pausedUntil && r.openUntil == b.openUntil
            && (if probe then r.current == Closed && !r.probing
                else r.current == b.current && r.probing == b.probing && r.coolDownMs == b.coolDownMs)
  {
  }
}
