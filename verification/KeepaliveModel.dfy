/**
 * One task of the keepalive scheduler (src/core/keepalive/scheduler.ts): its slot, the timers set for it and the
 * runs under way.
 */
module KeepaliveModel {
  import opened Basics

  const MIN_DELAY_MS := 30_000
  const MAX_BACKOFF_MS := 60 * 60_000

  datatype Settings = Settings(intervalMs: nat, firstDelayMs: Option<nat>)

  datatype Timer = Timer(generation: nat, delay: int)

  /** `timers` holds what has been set and has neither fired nor been cleared, `runs` the generation each run
      under way started in. */
  datatype Task = Task(
    handle: Option<nat>, failures: nat, scheduled: bool, generation: nat, timers: map<nat, Timer>, runs: seq<nat>, issued: nat)

  const IDLE := Task(None, 0, false, 0, map[], [], 0)

  /** How a run ends: with the pause it wants, or with an error. */
  datatype Outcome = Wants(pause: Option<nat>) | Transient | Fatal

  function Round(x: real): int {
    (x + 0.5).Floor
  }

  /** Up to a tenth early; `random` lies in [0, 1). */
  function Delay(wanted: nat, random: real): int {
    Max(MIN_DELAY_MS, Round(wanted as real - wanted as real * 0.1 * random))
  }

  function Arm(t: Task, wanted: nat, random: real): Task {
    t.(handle := Some(t.issued), issued := t.issued + 1,
    timers := t.timers[t.issued := Timer(t.generation, Delay(wanted, random))])
  }

  function Halt(t: Task): Task {
    t.(timers := if t.handle.Some? then t.timers - {t.handle.value} else t.timers,
    handle := None, scheduled := false, generation := t.generation + 1)
  }

  function Resume(t: Task, s: Settings, random: real): Task {
    Arm(Halt(t).(failures := 0, scheduled := true), if s.firstDelayMs.Some? then s.firstDelayMs.value else s.intervalMs, random)
  }

  /** A timer fires: at night or while the portal pushes back nothing is sent and it is set again, otherwise a
      run starts, in the generation the timer was set in. */
  function Fire(t: Task, s: Settings, h: nat, quiet: bool, paused: Option<int>, now: int, random: real): Task
    requires h in t.timers
  {
    var fired := t.(timers := t.timers - {h}, handle := None);
    if quiet then Arm(fired, s.intervalMs, random)
    else if paused.Some? then Arm(fired, Max(s.intervalMs, paused.value - now), random)
    else fired.(runs := t.runs + [t.timers[h].generation])
  }

  function Backoff(s: Settings, failures: nat): nat {
    Min(MAX_BACKOFF_MS, s.intervalMs * Pow2(failures))
  }

  function Settle(t: Task, s: Settings, k: nat, outcome: Outcome, random: real): Task
    requires k < |t.runs|
  {
    var generation := t.runs[k];
    var ended := t.(runs := t.runs[..k] + t.runs[k + 1..]);
    match outcome
    case Wants(pause) =>
      var calm := ended.(failures := 0);
      if generation != t.generation then calm
      else Arm(calm, if pause.Some? then pause.value else s.intervalMs, random)
    case Transient =>
      if generation != t.generation then ended
      else Arm(ended.(failures := t.failures + 1), Backoff(s, t.failures + 1), random)
    case Fatal => if generation != t.generation then ended else Halt(ended)
  }

  /** `inQuietHours`: the span may wrap midnight. */
  predicate InQuietHours(hour: nat, startHour: nat, endHour: nat) {
    if startHour <= endHour then hour >= startHour && hour < endHour else hour >= startHour || hour < endHour
  }

  /** The quiet hours are those met on the way round the clock from the start to before the end; none when they are the
      same. */
  lemma QuietRoundTheClock(hour: nat, startHour: nat, endHour: nat)
    requires hour < 24 && startHour < 24 && endHour < 24
    ensures InQuietHours(hour, startHour, endHour) <==> (hour - startHour) % 24 < (endHour - startHour) % 24
  {
  }

  // ---------- Runs of the scheduler ----------

  datatype Event =
    | Resumed(random: real)
    | Stopped
    | Fired(h: nat, quiet: bool, paused: Option<int>, now: int, random: real)
    | Settled(k: nat, outcome: Outcome, random: real)

  function Next(t: Task, s: Settings, e: Event): Task {
    match e
    case Resumed(random) => Resume(t, s, random)
    case Stopped => Halt(t)
    case Fired(h, quiet, paused, now, random) => if h in t.timers then Fire(t, s, h, quiet, paused, now, random) else t
    case Settled(k, outcome, random) => if k < |t.runs| then Settle(t, s, k, outcome, random) else t
  }

  function After(s: Settings, run: seq<Event>): Task {
    if run == [] then IDLE else Next(After(s, run[..|run| - 1]), s, run[|run| - 1])
  }

  function Current(runs: seq<nat>, generation: nat): nat {
    if runs == [] then 0
    else Current(runs[..|runs| - 1], generation) + if runs[|runs| - 1] == generation then 1 else 0
  }

  ghost predicate Sound(t: Task) {
    && (forall h :: h in t.timers <==> t.handle == Some(h))
    && (t.handle.Some? ==> t.handle.value < t.issued && t.timers[t.handle.value].generation == t.generation)
    && (forall k :: 0 <= k < |t.runs| ==> t.runs[k] <= t.generation)
    && (if t.scheduled then Current(t.runs, t.generation) == if t.handle.Some? then 0 else 1
        else t.handle.None? && Current(t.runs, t.generation) == 0)
  }

  lemma {:induction false} CurrentRemoved(runs: seq<nat>, k: nat, generation: nat)
    requires k < |runs|
    ensures Current(runs[..k] + runs[k + 1..], generation)
         == Current(runs, generation) - if runs[k] == generation then 1 else 0
  {
    var n := |runs| - 1;
    if k < n {
      CurrentRemoved(runs[..n], k, generation);
      var rest := runs[..k] + runs[k + 1..];
      assert rest[..n - 1] == runs[..n][..k] + runs[..n][k + 1..];
    } else {
      assert runs[..k] + runs[k + 1..] == runs[..n];
    }
  }

  lemma {:induction false} NoneCurrent(runs: seq<nat>, generation: nat)
    requires forall k :: 0 <= k < |runs| ==> runs[k] < generation
    ensures Current(runs, generation) == 0
  {
    if runs != [] {
      NoneCurrent(runs[..|runs| - 1], generation);
    }
  }

  lemma HaltSound(t: Task)
    requires Sound(t)
    ensures Sound(Halt(t))
  {
    NoneCurrent(t.runs, t.generation + 1);
  }

  lemma ArmSound(t: Task, wanted: nat, random: real)
    requires Sound(t.(scheduled := false)) && t.scheduled
    ensures Sound(Arm(t, wanted, random))
  {
    hide Delay;
  }

  lemma FireSound(t: Task, s: Settings, h: nat, quiet: bool, paused: Option<int>, now: int, random: real)
    requires Sound(t) && h in t.timers
    ensures Sound(Fire(t, s, h, quiet, paused, now, random))
  {
    hide Arm;
    var fired := t.(timers := t.timers - {h}, handle := None);
    if quiet {
      ArmSound(fired, s.intervalMs, random);
    } else if paused.Some? {
      ArmSound(fired, Max(s.intervalMs, paused.value - now), random);
    } else {
      assert (t.runs + [t.generation])[..|t.runs|] == t.runs;
    }
  }

  lemma SettleSound(t: Task, s: Settings, k: nat, outcome: Outcome, random: real)
    requires Sound(t) && k < |t.runs|
    ensures Sound(Settle(t, s, k, outcome, random))
  {
    hide Arm, Backoff;
    CurrentRemoved(t.runs, k, t.generation);
    var runs := t.runs[..k] + t.runs[k + 1..];
    assert forall i :: 0 <= i < |runs| ==> runs[i] == t.runs[if i < k then i else i + 1];
    if t.runs[k] == t.generation {
      SomeCurrent(t.runs, k, t.generation);
      match outcome {
        case Wants(pause) =>
          ArmSound(t.(runs := runs, failures := 0), if pause.Some? then pause.value else s.intervalMs, random);
        case Transient =>
          ArmSound(t.(runs := runs, failures := t.failures + 1), Backoff(s, t.failures + 1), random);
        case Fatal =>
          NoneCurrent(runs, t.generation + 1);
      }
    }
  }

  lemma {:induction false} SomeCurrent(runs: seq<nat>, k: nat, generation: nat)
    requires k < |runs| && runs[k] == generation
    ensures Current(runs, generation) >= 1
  {
    if k < |runs| - 1 {
      SomeCurrent(runs[..|runs| - 1], k, generation);
    }
  }

  lemma NextSound(t: Task, s: Settings, e: Event)
    requires Sound(t)
    ensures Sound(Next(t, s, e))
  {
    hide Sound, Arm, Halt, Fire, Settle;
    match e
    case Resumed(random) =>
      HaltSound(t);
      ResumeSound(t, s, random);
    case Stopped => HaltSound(t);
    case Fired(h, quiet, paused, now, random) =>
      if h in t.timers {
        FireSound(t, s, h, quiet, paused, now, random);
      }
    case Settled(k, outcome, random) =>
      if k < |t.runs| {
        SettleSound(t, s, k, outcome, random);
      }
  }

  lemma ResumeSound(t: Task, s: Settings, random: real)
    requires Sound(Halt(t))
    ensures Sound(Resume(t, s, random))
  {
    hide Arm;
    ArmSound(Halt(t).(failures := 0, scheduled := true),
             if s.firstDelayMs.Some? then s.firstDelayMs.value else s.intervalMs, random);
  }

  lemma {:induction false} RunSound(s: Settings, run: seq<Event>)
    ensures Sound(After(s, run))
  {
    hide Next;
    if run != [] {
      RunSound(s, run[..|run| - 1]);
      NextSound(After(s, run[..|run| - 1]), s, run[|run| - 1]);
    }
  }

  // ---------- What that means ----------

  /** After any run: a scheduled task has exactly one armed timer or one run of the current generation, never
      both; a stopped one has neither. */
  lemma OneTimerOrOneRun(s: Settings, run: seq<Event>)
    ensures var t := After(s, run);
            |t.timers| + Current(t.runs, t.generation) == if t.scheduled then 1 else 0
  {
    RunSound(s, run);
    var t := After(s, run);
    if t.handle.Some? {
      assert t.timers.Keys == {t.handle.value};
      assert |t.timers| == |t.timers.Keys|;
    } else {
      assert forall h :: h !in t.timers;
    }
  }

  lemma NextGeneration(t: Task, s: Settings, e: Event)
    ensures t.generation <= Next(t, s, e).generation
    ensures e.Stopped? || e.Resumed? ==> t.generation < Next(t, s, e).generation
  {
    hide Delay, Backoff;
  }

  lemma {:induction false} GenerationGrows(s: Settings, run: seq<Event>, i: nat)
    requires i <= |run|
    ensures After(s, run[..i]).generation <= After(s, run).generation
    ensures forall j :: i <= j < |run| && (run[j].Stopped? || run[j].Resumed?) ==>
              After(s, run[..i]).generation < After(s, run).generation
    decreases |run|
  {
    hide Next;
    if i == |run| {
      assert run[..i] == run;
    } else {
      var n := |run| - 1;
      GenerationGrows(s, run[..n], i);
      assert run[..n][..i] == run[..i];
      NextGeneration(After(s, run[..n]), s, run[n]);
    }
  }

  /** Once a stop or a resume has come, no run that was under way before arms or stops anything when it ends; all
      it can do is reset the count of failures, when it succeeds. */
  lemma OvertakenChangesNothing(s: Settings, run: seq<Event>, i: nat, j: nat, k: nat, outcome: Outcome, random: real)
    requires i <= j < |run| && (run[j].Stopped? || run[j].Resumed?)
    requires k < |After(s, run).runs| && After(s, run).runs[k] <= After(s, run[..i]).generation
    ensures forall m :: 0 <= m < |After(s, run[..i]).runs| ==> After(s, run[..i]).runs[m] <= After(s, run[..i]).generation
    ensures var t := After(s, run);
            var r := Settle(t, s, k, outcome, random);
            && (r.handle, r.scheduled, r.generation, r.timers) == (t.handle, t.scheduled, t.generation, t.timers)
            && r.failures == if outcome.Wants? then 0 else t.failures
  {
    RunSound(s, run[..i]);
    GenerationGrows(s, run, i);
  }

  /** A run that starts bears the generation it starts in. */
  lemma StartsCurrent(s: Settings, run: seq<Event>, h: nat, now: int, random: real)
    requires h in After(s, run).timers
    ensures var t := After(s, run);
            var r := Fire(t, s, h, false, None, now, random);
            |r.runs| == |t.runs| + 1 && r.runs[|t.runs|] == t.generation && r.generation == t.generation
  {
    hide Arm;
    RunSound(s, run);
  }

  /** Stopped, a task stays silent until it is resumed: nothing is armed and no run starts. */
  lemma {:induction false} StoppedStaysSilent(s: Settings, run: seq<Event>, i: nat)
    requires i <= |run| && !After(s, run[..i]).scheduled
    requires forall j :: i <= j < |run| ==> !run[j].Resumed?
    ensures var t, r := After(s, run[..i]), After(s, run);
            !r.scheduled && r.timers == map[] && r.handle.None? && |r.runs| <= |t.runs|
    decreases |run|
  {
    hide Next;
    if i == |run| {
      assert run[..i] == run;
      RunSound(s, run);
      SilentNow(After(s, run));
    } else {
      var n := |run| - 1;
      assert run[..n][..i] == run[..i];
      StoppedStaysSilent(s, run[..n], i);
      RunSound(s, run[..n]);
      StillSilent(s, After(s, run[..n]), run[n]);
    }
  }

  lemma SilentNow(t: Task)
    requires Sound(t) && !t.scheduled
    ensures t.handle.None? && t.timers == map[]
  {
    assert forall h :: h !in t.timers;
  }

  lemma StillSilent(s: Settings, t: Task, e: Event)
    requires Sound(t) && !t.scheduled && !e.Resumed?
    ensures var r := Next(t, s, e);
            !r.scheduled && r.timers == t.timers && r.handle.None? && |r.runs| <= |t.runs|
  {
    hide Arm, Backoff;
    if e.Settled? && e.k < |t.runs| && t.runs[e.k] == t.generation {
      SomeCurrent(t.runs, e.k, t.generation);
    }
  }

  // ---------- Pauses ----------

  /** One timer has just been set, to fire after the pause wanted. */
  predicate Armed(before: Task, t: Task, wanted: nat, random: real) {
    && t.handle == Some(before.issued) && t.issued == before.issued + 1 && before.issued in t.timers
    && t.timers[before.issued] == Timer(t.generation, Delay(wanted, random))
  }

  /** Resuming replaces whatever was armed by the first pause, and forgets the failures. */
  lemma ResumeExactly(s: Settings, run: seq<Event>, random: real)
    ensures var t := After(s, run);
            var r := Next(t, s, Resumed(random));
            && r.scheduled && r.failures == 0 && r.runs == t.runs && r.generation == t.generation + 1
            && Armed(t, r, if s.firstDelayMs.Some? then s.firstDelayMs.value else s.intervalMs, random)
            && r.timers.Keys == {t.issued}
  {
    hide Delay;
    RunSound(s, run);
  }

  /** A timer that fires at night, or while the portal pushes back, sends nothing and is set again, past the end of the
      push-back if that is known to be longer; otherwise one run starts and no timer is set. */
  lemma FireExactly(s: Settings, run: seq<Event>, h: nat, quiet: bool, paused: Option<int>, now: int, random: real)
    requires h in After(s, run).timers
    ensures var t := After(s, run);
            var r := Next(t, s, Fired(h, quiet, paused, now, random));
            && r.scheduled == t.scheduled && r.failures == t.failures && r.generation == t.generation
            && (if quiet then r.runs == t.runs && Armed(t, r, s.intervalMs, random)
                else if paused.Some? then
                  r.runs == t.runs
                  && Armed(t, r, if paused.value - now > s.intervalMs then paused.value - now else s.intervalMs, random)
                else r.runs == t.runs + [t.generation] && r.timers == map[] && r.handle.None?)
  {
    hide Delay;
    RunSound(s, run);
    var t := After(s, run);
    assert t.timers.Keys == {h};
    assert forall k :: k in t.timers - {h} ==> false;
  }

  lemma SilentOrRunning(t: Task)
    requires Sound(t) && Current(t.runs, t.generation) >= 1
    ensures t.scheduled && t.handle.None? && t.timers == map[]
  {
    assert forall h :: h !in t.timers;
  }

  /** The end of the current run: the pause it wants after a success, twice the last after each failure in a row, an hour
      at most, and none after an error that no waiting helps. */
  lemma SettleExactly(s: Settings, run: seq<Event>, k: nat, outcome: Outcome, random: real)
    requires var t := After(s, run); k < |t.runs| && t.runs[k] == t.generation
    ensures var t := After(s, run);
            var r := Next(t, s, Settled(k, outcome, random));
            && r.runs == t.runs[..k] + t.runs[k + 1..]
            && (match outcome
                case Wants(pause) =>
                  r.scheduled && r.failures == 0 && Armed(t, r, if pause.Some? then pause.value else s.intervalMs, random)
                case Transient =>
                  r.scheduled && r.failures == t.failures + 1 && Armed(t, r, Backoff(s, r.failures), random)
                  && Backoff(s, r.failures) == Min(60 * 60 * 1000, if t.failures == 0 then 2 * s.intervalMs else 2 * (s.intervalMs * Pow2(t.failures)))
                case Fatal => !r.scheduled && r.handle.None? && r.timers == map[] && r.generation == t.generation + 1)
  {
    hide Delay, After;
    RunSound(s, run);
    var t := After(s, run);
    SomeCurrent(t.runs, k, t.generation);
    SilentOrRunning(t);
    assert s.intervalMs * Pow2(t.failures + 1) == 2 * (s.intervalMs * Pow2(t.failures));
  }

  lemma Fraction(a: real, r: real)
    requires a >= 0.0 && 0.0 <= r < 1.0
    ensures 0.0 <= a * r <= a
  {
    assert a - a * r == a * (1.0 - r);
    assert a * (1.0 - r) >= 0.0;
  }

  /** A timer is never set for less than the minimum, runs at most a tenth early, and never late. */
  lemma DelayBounds(wanted: nat, random: real)
    requires 0.0 <= random < 1.0
    ensures var d := Delay(wanted, random);
            && d >= MIN_DELAY_MS && d <= Max(MIN_DELAY_MS, wanted) && 10 * d >= 9 * wanted - 5
            && (d > MIN_DELAY_MS ==> -0.5 <= d as real - wanted as real * (1.0 - random / 10.0) <= 0.5)
            && (d == MIN_DELAY_MS ==> wanted as real * (1.0 - random / 10.0) <= MIN_DELAY_MS as real + 0.5)
  {
    var x := wanted as real;
    var early := x * 0.1 * random;
    Fraction(x * 0.1, random);
    assert 0.0 <= early <= x * 0.1;
    var y := x - early;
    assert Round(y) as real <= y + 0.5 < Round(y) as real + 1.0;
    assert Round(y) as real < wanted as real + 1.0;
    assert 10.0 * Round(y) as real > 9.0 * x - 5.0;
  }

  /** Backing off makes the pause longer, up to an hour, exactly for intervals under an hour; above, shorter. */
  lemma BackoffSlower(s: Settings, failures: nat)
    requires failures >= 1 && s.intervalMs > 0
    ensures Backoff(s, failures) > s.intervalMs <==> s.intervalMs < MAX_BACKOFF_MS
    ensures Backoff(s, failures) < s.intervalMs <==> s.intervalMs > MAX_BACKOFF_MS
    ensures Backoff(s, failures) <= Backoff(s, failures + 1) <= MAX_BACKOFF_MS
  {
    var i, p := s.intervalMs, Pow2(failures);
    assert p == 2 * Pow2(failures - 1);
    assert i * p >= i * 2;
    assert i * Pow2(failures + 1) == 2 * (i * p);
    assert Backoff(s, failures) == Min(MAX_BACKOFF_MS, i * p);
    assert Backoff(s, failures + 1) == Min(MAX_BACKOFF_MS, 2 * (i * p));
  }
}
