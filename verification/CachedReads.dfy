/**
 * Reads through the cache while the child in focus changes (src/core/portal/cached.ts). A portal read does not
 * name the child it is for: each of its requests goes to whoever is in focus when it is sent.
 */
module CachedReads {
  import opened Basics
  import opened CacheKey
  import opened ReadCacheModel

  /** A read under way or done: the scope and epoch it started in, and everyone in focus during its requests. */
  datatype Read = Read(scope: Scope, capability: string, args: seq<Arg>, epoch: nat, trace: set<Option<Scope>>, done: bool) {
    function Key(): string {
      KeyOf(scope, capability, args)
    }
  }

  /** `dirty` between a change of focus and the clear that follows it. A cached value is a read's position. */
  datatype State = State(focus: Option<Scope>, dirty: bool, cache: Cache, log: seq<Read>)

  datatype Event =
    | Called(capability: string, args: seq<Arg>, refresh: bool, at: int)
    | Requested(n: nat)
    | Answered(n: nat, defined: bool, ttl: int, at: int)
    | Thrown(n: nat)
    | Switched(scope: Option<Scope>)
    | Cleared

  /** What the caller is served from the cache. */
  function Hit(s: State, capability: string, args: seq<Arg>, at: int): Option<Value> {
    if s.focus.None? then None else Get(s.cache, KeyOf(s.focus.value, capability, args), at).1
  }

  function Call(s: State, capability: string, args: seq<Arg>, refresh: bool, at: int): State {
    if s.focus.None? then s
    else
      var looked := if refresh then s else s.(cache := Get(s.cache, KeyOf(s.focus.value, capability, args), at).0);
      if !refresh && Hit(s, capability, args, at).Some? then looked
      else looked.(log := s.log + [Read(s.focus.value, capability, args, s.cache.generation, {}, false)])
  }

  predicate Running(s: State, n: nat) {
    n < |s.log| && !s.log[n].done
  }

  /** `epochs` is false for the weaker guard that compares scopes only. */
  predicate Keeps(s: State, r: Read, epochs: bool) {
    (epochs ==> s.cache.generation == r.epoch) && s.focus == Some(r.scope)
  }

  function Answer(s: State, max: nat, n: nat, defined: bool, ttl: int, at: int, epochs: bool): State
    requires Running(s, n)
  {
    var r := s.log[n];
    var ended := s.(log := s.log[n := r.(done := true)]);
    if defined && Keeps(s, r, epochs) then ended.(cache := Set(s.cache, max, r.Key(), n, ttl, at)) else ended
  }

  function Next(s: State, max: nat, e: Event, epochs: bool): State {
    match e
    case Called(capability, args, refresh, at) => Call(s, capability, args, refresh, at)
    case Requested(n) =>
      if Running(s, n) then s.(log := s.log[n := s.log[n].(trace := s.log[n].trace + {s.focus})]) else s
    case Answered(n, defined, ttl, at) => if Running(s, n) then Answer(s, max, n, defined, ttl, at, epochs) else s
    case Thrown(n) => if Running(s, n) then s.(log := s.log[n := s.log[n].(done := true)]) else s
    case Switched(scope) => s.(focus := scope, dirty := s.dirty || scope != s.focus)
    case Cleared => s.(cache := Clear(s.cache), dirty := false)
  }

  function After(s: State, max: nat, run: seq<Event>, epochs: bool): State
    decreases |run|
  {
    if run == [] then s else Next(After(s, max, run[..|run| - 1], epochs), max, run[|run| - 1], epochs)
  }

  function Initial(focus: Option<Scope>): State {
    State(focus, false, Cache([], 0), [])
  }

  /** Every change of focus is followed by a clear before the next one. */
  ghost predicate Orderly(s: State, max: nat, run: seq<Event>) {
    forall i :: 0 <= i < |run| && run[i].Switched? ==>
      !After(s, max, run[..i], true).dirty || run[i].scope == After(s, max, run[..i], true).focus
  }

  // ---------- Isolation ----------

  ghost predicate Clean(r: Read) {
    r.trace <= {Some(r.scope)}
  }

  /** A running read of this epoch is for the child in focus, unless focus has just changed; and if it is, all
      its requests so far were too. */
  ghost predicate Fresh(s: State, r: Read) {
    && r.epoch <= s.cache.generation
    && (!r.done && r.epoch == s.cache.generation ==>
          (s.dirty || s.focus == Some(r.scope)) && (s.focus == Some(r.scope) ==> Clean(r)))
  }

  ghost predicate Kept(s: State, e: Entry) {
    e.value < |s.log| && s.log[e.value].done && Clean(s.log[e.value]) && e.key == s.log[e.value].Key()
  }

  ghost predicate Isolated(s: State) {
    && Distinct(s.cache.entries)
    && (forall n :: 0 <= n < |s.log| ==> Fresh(s, s.log[n]))
    && (forall e :: e in s.cache.entries ==> Kept(s, e))
  }

  lemma CallIsolated(s: State, capability: string, args: seq<Arg>, refresh: bool, at: int)
    requires Isolated(s)
    ensures Isolated(Call(s, capability, args, refresh, at))
  {
    hide Get, Distinct, KeyOf;
    if s.focus.Some? {
      GetDistinct(s.cache, KeyOf(s.focus.value, capability, args), at);
      GetGeneration(s.cache, KeyOf(s.focus.value, capability, args), at);
    }
  }

  lemma GetGeneration(c: Cache, key: string, at: int)
    ensures Get(c, key, at).0.generation == c.generation
  {
  }

  lemma AnswerIsolated(s: State, max: nat, n: nat, defined: bool, ttl: int, at: int)
    requires Isolated(s) && Running(s, n)
    ensures Isolated(Answer(s, max, n, defined, ttl, at, true))
  {
    hide Stored, Distinct, KeyOf;
    var key := s.log[n].Key();
    if ttl > 0 {
      StoredDistinct(s.cache.entries, max, Entry(key, n, at + ttl), at);
    }
  }

  lemma NextIsolated(s: State, max: nat, e: Event)
    requires Isolated(s) && (e.Switched? ==> !s.dirty || e.scope == s.focus)
    ensures Isolated(Next(s, max, e, true))
  {
    hide Call, Answer, Distinct, KeyOf;
    match e
    case Called(capability, args, refresh, at) => CallIsolated(s, capability, args, refresh, at);
    case Answered(n, defined, ttl, at) =>
      if Running(s, n) {
        AnswerIsolated(s, max, n, defined, ttl, at);
      }
    case Cleared => NothingDistinct();
    case _ =>
  }

  lemma {:induction false} RunIsolated(s: State, max: nat, run: seq<Event>)
    requires Isolated(s) && Orderly(s, max, run)
    ensures Isolated(After(s, max, run, true))
    decreases |run|
  {
    hide Isolated, Next;
    if run != [] {
      var n := |run| - 1;
      forall i | 0 <= i < n ensures run[..n][..i] == run[..i] {
      }
      RunIsolated(s, max, run[..n]);
      NextIsolated(After(s, max, run[..n], true), max, run[n]);
    }
  }

  /** Whatever is served from the cache for a child was read by a like call for that child, and every request of
      that read was sent while that child was in focus, whatever switches and reads overlapped. */
  lemma ServedForItsChild(focus: Option<Scope>, max: nat, run: seq<Event>, capability: string, args: seq<Arg>, at: int)
    requires Orderly(Initial(focus), max, run)
    ensures var s := After(Initial(focus), max, run, true);
            var hit := Hit(s, capability, args, at);
            hit.Some? ==>
              && s.focus.Some? && hit.value < |s.log|
              && (var r := s.log[hit.value];
                  && r.scope == s.focus.value && r.capability == capability && Normalized(r.args) == Normalized(args)
                  && r.trace <= {s.focus})
  {
    hide Next, Distinct, KeyOf, Normalized;
    NothingDistinct();
    RunIsolated(Initial(focus), max, run);
    var s := After(Initial(focus), max, run, true);
    if Hit(s, capability, args, at).Some? {
      LookupIs(s.cache.entries, KeyOf(s.focus.value, capability, args));
      var r := s.log[Hit(s, capability, args, at).value];
      KeysUnique(r.scope, s.focus.value, r.capability, capability, r.args, args);
    }
  }

  // ---------- What is kept and served ----------

  /** A call: served from the cache if it may be and there is something live under its key, else a new read for the
      child in focus, in this epoch. */
  lemma CallExactly(s: State, max: nat, capability: string, args: seq<Arg>, refresh: bool, at: int)
    ensures var r := Next(s, max, Called(capability, args, refresh, at), true);
            && r.focus == s.focus && r.dirty == s.dirty && r.cache.generation == s.cache.generation
            && r.cache == (if refresh || s.focus.None? then s.cache
                           else Get(s.cache, KeyOf(s.focus.value, capability, args), at).0)
            && r.log == (if s.focus.None? || (!refresh && Hit(s, capability, args, at).Some?) then s.log
                         else s.log + [Read(s.focus.value, capability, args, s.cache.generation, {}, false)])
  {
    hide KeyOf;
  }

  /** An answer is kept exactly when it is one, for a positive time, to a read of this epoch for the child in focus; it
      then serves every like call until that time is over. */
  lemma KeptExactly(s: State, max: nat, n: nat, defined: bool, ttl: int, at: int, capability: string, args: seq<Arg>, later: int)
    requires Isolated(s) && Running(s, n) && max >= 1
    ensures var r, read := Next(s, max, Answered(n, defined, ttl, at), true), s.log[n];
            var kept := defined && ttl > 0 && read.epoch == s.cache.generation && s.focus == Some(read.scope);
            && r.focus == s.focus && r.cache.generation == s.cache.generation && r.log == s.log[n := read.(done := true)]
            && (!kept ==> r.cache == s.cache)
            && (kept && capability == read.capability && Normalized(args) == Normalized(read.args) && later < at + ttl ==>
                  Hit(r, capability, args, later) == Some(n))
            && (kept && capability == read.capability && Normalized(args) == Normalized(read.args) && later >= at + ttl ==>
                  Hit(r, capability, args, later) == None)
  {
    hide Isolated, Stored, KeyOf, Without;
    IsolatedDistinct(s);
    var read := s.log[n];
    if ttl > 0 {
      var e := Entry(read.Key(), n, at + ttl);
      StoredLast(s.cache.entries, max, e, at);
      if Normalized(args) == Normalized(read.args) {
        SameKey(read.scope, read.capability, read.args, args);
      }
    }
  }

  lemma IsolatedDistinct(s: State)
    requires Isolated(s)
    ensures Distinct(s.cache.entries)
  {
  }

  lemma SameKey(scope: Scope, capability: string, a: seq<Arg>, b: seq<Arg>)
    requires Normalized(a) == Normalized(b)
    ensures KeyOf(scope, capability, a) == KeyOf(scope, capability, b)
  {
  }

  /** A read that throws leaves nothing behind, and every request of a read is sent for whoever is in focus then. */
  lemma RequestExactly(s: State, max: nat, n: nat)
    requires Running(s, n)
    ensures Next(s, max, Thrown(n), true) == s.(log := s.log[n := s.log[n].(done := true)])
    ensures Next(s, max, Requested(n), true) == s.(log := s.log[n := s.log[n].(trace := s.log[n].trace + {s.focus})])
  {
  }

  // ---------- Without the epoch ----------

  /** The overlapping read of an away-and-back switch, with every change of focus cleared at once. */
  function AwayAndBack(a: Scope, b: Scope, capability: string, args: seq<Arg>, ttl: int): seq<Event> {
    [Called(capability, args, false, 0), Switched(Some(b)), Cleared, Requested(0), Switched(Some(a)), Cleared,
     Answered(0, true, ttl, 0)]
  }

  /** Comparing scopes alone is not enough: after away and back, one child is served what was read for another. */
  lemma ScopeAloneFails(a: Scope, b: Scope, capability: string, args: seq<Arg>, max: nat, ttl: int)
    requires a != b && max >= 1 && ttl > 0
    ensures var s := After(Initial(Some(a)), max, AwayAndBack(a, b, capability, args, ttl), false);
            s.focus == Some(a) && Hit(s, capability, args, 0) == Some(0)
            && s.log != [] && s.log[0].scope == a && s.log[0].trace == {Some(b)}
  {
    hide KeyOf;
    var run := AwayAndBack(a, b, capability, args, ttl);
    var key := KeyOf(a, capability, args);
    var s0 := Initial(Some(a));
    var s1 := Next(s0, max, run[0], false);
    var s4 := Next(Next(Next(s1, max, run[1], false), max, run[2], false), max, run[3], false);
    var s6 := Next(Next(s4, max, run[4], false), max, run[5], false);
    assert s1.log == [Read(a, capability, args, 0, {}, false)];
    assert s4.log[0].trace == {Some(b)};
    assert s6.log == [Read(a, capability, args, 0, {Some(b)}, false)];
    assert s6 == State(Some(a), false, Cache([], 2), [Read(a, capability, args, 0, {Some(b)}, false)]);
    var s7 := Next(s6, max, run[6], false);
    StoredAlone(max, Entry(key, 0, ttl));
    AfterSeven(s0, max, run, false);
  }

  lemma StoredAlone(max: nat, e: Entry)
    requires max >= 1
    ensures Stored([], max, e, 0) == [e]
  {
  }

  lemma AfterSeven(s: State, max: nat, run: seq<Event>, epochs: bool)
    requires |run| == 7
    ensures var s1 := Next(s, max, run[0], epochs);
            var s2 := Next(s1, max, run[1], epochs);
            var s3 := Next(s2, max, run[2], epochs);
            var s4 := Next(s3, max, run[3], epochs);
            var s5 := Next(s4, max, run[4], epochs);
            var s6 := Next(s5, max, run[5], epochs);
            After(s, max, run, epochs) == Next(s6, max, run[6], epochs)
  {
    hide Next;
    AfterOne(s, max, run[..1], epochs);
    forall i: nat | i < 7 ensures run[..i + 1][..i] == run[..i] {
    }
    AfterOne(s, max, run[..2], epochs);
    AfterOne(s, max, run[..3], epochs);
    AfterOne(s, max, run[..4], epochs);
    AfterOne(s, max, run[..5], epochs);
    AfterOne(s, max, run[..6], epochs);
    assert run[..7] == run;
    AfterOne(s, max, run, epochs);
  }

  lemma AfterOne(s: State, max: nat, run: seq<Event>, epochs: bool)
    requires run != []
    ensures After(s, max, run, epochs) == Next(After(s, max, run[..|run| - 1], epochs), max, run[|run| - 1], epochs)
    ensures |run| == 1 ==> After(s, max, run, epochs) == Next(s, max, run[0], epochs)
  {
    hide Next;
  }
}
