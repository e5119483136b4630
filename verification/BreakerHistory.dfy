/**
 * When the breaker opens and how long it pauses, told from the answers alone (src/core/budget/breaker.ts): a
 * definition that counts push-backs, without any of the breaker's fields, and the breaker agreeing with it.
 */
module BreakerHistory {
  import opened Basics
  import opened BreakerModel

  /** What an answer to a request that is not the probe teaches. */
  datatype Lesson = Answered | PushedBack(at: int, retryAfterMs: Option<int>)

  function After(p: Policy, lessons: seq<Lesson>): State {
    if lessons == [] then Start(p)
    else
      var b := After(p, lessons[..|lessons| - 1]);
      match lessons[|lessons| - 1]
      case Answered => Success(p, b, false)
      case PushedBack(at, retryAfterMs) => Pushback(p, b, at, false, retryAfterMs)
  }

  /** When the push-backs since the last good answer came. */
  function Since(lessons: seq<Lesson>): seq<int> {
    if lessons == [] then []
    else
      match lessons[|lessons| - 1]
      case Answered => []
      case PushedBack(at, _) => Since(lessons[..|lessons| - 1]) + [at]
  }

  /** How many of the instants are less than the window old. */
  function Lately(p: Policy, times: seq<int>, now: int): nat {
    if times == [] then 0
    else Lately(p, times[..|times| - 1], now) + if times[|times| - 1] > now - p.windowMs then 1 else 0
  }

  /** The last lesson is the push-back that is one too many. */
  predicate TooMany(p: Policy, lessons: seq<Lesson>) {
    lessons != [] && lessons[|lessons| - 1].PushedBack?
    && Lately(p, Since(lessons), lessons[|lessons| - 1].at) >= p.threshold
  }

  /** No lesson so far was. */
  predicate Calm(p: Policy, lessons: seq<Lesson>) {
    lessons == [] || (Calm(p, lessons[..|lessons| - 1]) && !TooMany(p, lessons))
  }

  /** What the k-th push-back in a row pauses for. */
  function PauseOf(p: Policy, k: nat, retryAfterMs: Option<int>): int
    requires k >= 1
  {
    if retryAfterMs.Some? then Clamped(p, retryAfterMs.value) else Min(p.backoffMaxMs, p.backoffBaseMs * Pow2(k - 1))
  }

  /** The latest end of any pause so far. */
  function PausedUntil(p: Policy, lessons: seq<Lesson>): int {
    if lessons == [] then 0
    else
      var before := PausedUntil(p, lessons[..|lessons| - 1]);
      match lessons[|lessons| - 1]
      case Answered => before
      case PushedBack(at, retryAfterMs) => Max(before, at + PauseOf(p, |Since(lessons)|, retryAfterMs))
  }

  function Latest(lessons: seq<Lesson>, start: int): int {
    if lessons == [] then start
    else if lessons[|lessons| - 1].PushedBack? then lessons[|lessons| - 1].at
    else Latest(lessons[..|lessons| - 1], start)
  }

  predicate Chronological(lessons: seq<Lesson>, start: int) {
    lessons == [] ||
    (Chronological(lessons[..|lessons| - 1], start)
     && (lessons[|lessons| - 1].PushedBack? ==> lessons[|lessons| - 1].at >= Latest(lessons[..|lessons| - 1], start)))
  }

  lemma {:induction false} RecentCounts(p: Policy, times: seq<int>, now: int)
    ensures |Recent(p, times, now)| == Lately(p, times, now)
  {
    if times != [] {
      RecentCounts(p, times[..|times| - 1], now);
    }
  }

  /** While no push-back was one too many the breaker is closed, paused until exactly the latest end of a pause. */
  lemma {:induction false} ClosedWhileCalm(p: Policy, lessons: seq<Lesson>, start: int)
    requires p.Valid() && Chronological(lessons, start) && Calm(p, lessons)
    ensures var b := After(p, lessons);
            && Inv(p, b, Latest(lessons, start)) && b.current == Closed
            && b.strikes == Since(lessons) && b.pausedUntil == PausedUntil(p, lessons)
  {
    hide Inv, Pushback, Recent, Clamped;
    if lessons == [] {
      StartInv(p, start);
    } else {
      var init, last := lessons[..|lessons| - 1], lessons[|lessons| - 1];
      ClosedWhileCalm(p, init, start);
      var b, clock := After(p, init), Latest(init, start);
      match last
      case Answered => SuccessInv(p, b, clock, clock, false);
      case PushedBack(at, retryAfterMs) =>
        ClosedPushbackInv(p, b, clock, at, retryAfterMs);
        RecentCounts(p, b.strikes + [at], at);
        StrikesKept(p, b, at, retryAfterMs);
    }
  }

  lemma StrikesKept(p: Policy, b: State, at: int, retryAfterMs: Option<int>)
    requires b.current == Closed && Pushback(p, b, at, false, retryAfterMs).current == Closed
    ensures Pushback(p, b, at, false, retryAfterMs).strikes == b.strikes + [at]
  {
  }

  /** And the first one too many opens it, for the base cool-down or a longer hint. */
  lemma OpensExactly(p: Policy, lessons: seq<Lesson>, start: int)
    requires p.Valid() && Chronological(lessons, start) && lessons != [] && Calm(p, lessons[..|lessons| - 1])
    ensures var b, last := After(p, lessons), lessons[|lessons| - 1];
            && (b.current == Open <==> TooMany(p, lessons))
            && (b.current == Closed <==> !TooMany(p, lessons))
            && (TooMany(p, lessons) ==>
                  b.openUntil == last.at + Max(p.coolDownMs, if last.retryAfterMs.Some? then Clamped(p, last.retryAfterMs.value) else 0))
  {
    hide Inv, Pushback, Recent, Clamped;
    var init, last := lessons[..|lessons| - 1], lessons[|lessons| - 1];
    ClosedWhileCalm(p, init, start);
    var b, clock := After(p, init), Latest(init, start);
    if last.PushedBack? {
      ClosedPushbackInv(p, b, clock, last.at, last.retryAfterMs);
      RecentCounts(p, b.strikes + [last.at], last.at);
    } else {
      ClosedWhileCalm(p, lessons, start);
    }
  }
}
