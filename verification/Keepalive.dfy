/** The slot of one keepalive task, changed in place (src/core/keepalive/scheduler.ts). */
module Keepalive {
  import opened Basics
  import opened KeepaliveModel

  class Slot {
    const settings: Settings
    var handle: Option<nat>
    var failures: nat
    var scheduled: bool
    var generation: nat
    /** The timers of the host that belong to this task, and the runs under way. */
    var timers: map<nat, Timer>
    var runs: seq<nat>
    var issued: nat

    function State(): Task
      reads this
    {
      Task(handle, failures, scheduled, generation, timers, runs, issued)
    }

    constructor (settings: Settings)
      ensures this.settings == settings && State() == IDLE
    {
      this.settings := settings;
      handle, failures, scheduled, generation := None, 0, false, 0;
      timers, runs, issued := map[], [], 0;
    }

    /** The host's `timer.set`. */
    method SetTimer(timer: Timer) returns (h: nat)
      modifies this`timers, this`issued
      ensures h == old(issued) && issued == h + 1 && timers == old(timers)[h := timer]
    {
      h := issued;
      issued := issued + 1;
      timers := timers[h := timer];
    }

    method Halt()
      modifies this
      ensures State() == KeepaliveModel.Halt(old(State()))
    {
      if handle.Some? {
        timers := timers - {handle.value};
      }
      handle := None;
      scheduled := false;
      generation := generation + 1;
    }

    method Arm(wanted: nat, random: real)
      modifies this`handle, this`timers, this`issued
      ensures State() == KeepaliveModel.Arm(old(State()), wanted, random)
    {
      var h := SetTimer(Timer(generation, Delay(wanted, random)));
      handle := Some(h);
    }

    method Resume(random: real)
      modifies this
      ensures State() == KeepaliveModel.Resume(old(State()), settings, random)
    {
      Halt();
      failures := 0;
      scheduled := true;
      Arm(if settings.firstDelayMs.Some? then settings.firstDelayMs.value else settings.intervalMs, random);
    }

    /** `fire`, up to the start of the run. */
    method Fire(h: nat, quiet: bool, paused: Option<int>, now: int, random: real)
      requires h in timers
      modifies this
      ensures State() == KeepaliveModel.Fire(old(State()), settings, h, quiet, paused, now, random)
    {
      var started := timers[h].generation;
      timers := timers - {h};
      handle := None;
      if quiet {
        Arm(settings.intervalMs, random);
        return;
      }
      if paused.Some? {
        Arm(Max(settings.intervalMs, paused.value - now), random);
        return;
      }
      runs := runs + [started];
    }

    /** `fire`, from the end of the run. */
    method Settle(k: nat, outcome: Outcome, random: real)
      requires k < |runs|
      modifies this
      ensures State() == KeepaliveModel.Settle(old(State()), settings, k, outcome, random)
    {
      hide Backoff;
      var started := runs[k];
      runs := runs[..k] + runs[k + 1..];
      var next := settings.intervalMs;
      match outcome {
        case Wants(pause) =>
          next := if pause.Some? then pause.value else settings.intervalMs;
          failures := 0;
        case Transient =>
          if started != generation {
            return;
          }
          failures := failures + 1;
          next := Backoff(settings, failures);
        case Fatal =>
          if started == generation {
            Halt();
          }
          return;
      }
      if started != generation {
        return;
      }
      Arm(next, random);
    }
  }
}
