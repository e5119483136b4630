/**
 * The short-lived copies of portal reads (src/core/cache/read-cache.ts): entries in order of last use, and the
 * plain last-write map they must agree with.
 */
module ReadCacheModel {
  import opened Basics

  /** A value is the number of the read that produced it. */
  type Value = nat

  datatype Entry = Entry(key: string, value: Value, expiresAt: int)

  /** The entries, least recently used first, and the number of clears so far. */
  datatype Cache = Cache(entries: seq<Entry>, generation: nat)

  function Lookup(es: seq<Entry>, key: string): Option<Entry> {
    if es == [] then None
    else if es[|es| - 1].key == key then Some(es[|es| - 1])
    else Lookup(es[..|es| - 1], key)
  }

  function Filter(es: seq<Entry>, keep: Entry -> bool): seq<Entry> {
    if es == [] then []
    else
      var init, last := Filter(es[..|es| - 1], keep), es[|es| - 1];
      if keep(last) then init + [last] else init
  }

  function Without(es: seq<Entry>, key: string): seq<Entry> {
    Filter(es, (e: Entry) => e.key != key)
  }

  function Live(es: seq<Entry>, now: int): seq<Entry> {
    Filter(es, (e: Entry) => e.expiresAt > now)
  }

  /** Without the least recently used entries beyond `max`. */
  function Trimmed(es: seq<Entry>, max: nat): seq<Entry> {
    if |es| > max then es[|es| - max..] else es
  }

  function Get(c: Cache, key: string, now: int): (Cache, Option<Value>) {
    var found := Lookup(c.entries, key);
    if found.None? then (c, None)
    else
      var rest := Without(c.entries, key);
      if found.value.expiresAt <= now then (c.(entries := rest), None)
      else (c.(entries := rest + [found.value]), Some(found.value.value))
  }

  function Stored(es: seq<Entry>, max: nat, e: Entry, now: int): seq<Entry> {
    Trimmed(Without(Live(es, now), e.key) + [e], max)
  }

  function Set(c: Cache, max: nat, key: string, value: Value, ttl: int, now: int): Cache {
    if ttl <= 0 then c else c.(entries := Stored(c.entries, max, Entry(key, value, now + ttl), now))
  }

  function Clear(c: Cache): Cache {
    Cache([], c.generation + 1)
  }

  // ---------- Runs, and the plain map ----------

  datatype Op = OpGet(key: string, at: int) | OpSet(key: string, value: Value, ttl: int, at: int) | OpClear

  function Step(c: Cache, max: nat, op: Op): Cache {
    match op
    case OpGet(key, at) => Get(c, key, at).0
    case OpSet(key, value, ttl, at) => Set(c, max, key, value, ttl, at)
    case OpClear => Clear(c)
  }

  function After(c: Cache, max: nat, run: seq<Op>): Cache
    decreases |run|
  {
    if run == [] then c else Step(After(c, max, run[..|run| - 1]), max, run[|run| - 1])
  }

  function Write(m: map<string, Entry>, op: Op): map<string, Entry> {
    if op.OpClear? then map[]
    else if op.OpSet? && op.ttl > 0 then m[op.key := Entry(op.key, op.value, op.at + op.ttl)]
    else m
  }

  /** What was last written to each key with a positive time to live since the last clear. */
  function Written(run: seq<Op>): map<string, Entry>
    decreases |run|
  {
    if run == [] then map[] else Write(Written(run[..|run| - 1]), run[|run| - 1])
  }

  function Keys(es: seq<Entry>): set<string> {
    set e | e in es :: e.key
  }

  ghost predicate Distinct(es: seq<Entry>) {
    es == [] || (Distinct(es[..|es| - 1]) && es[|es| - 1].key !in Keys(es[..|es| - 1]))
  }

  /** Every entry is the last write of its key. */
  ghost predicate Copies(es: seq<Entry>, m: map<string, Entry>) {
    forall e :: e in es ==> e.key in m && m[e.key] == e
  }

  lemma PushedKeys(es: seq<Entry>, e: Entry)
    ensures Keys(es + [e]) == Keys(es) + {e.key}
    ensures (es + [e])[..|es|] == es
  {
    assert forall x :: x in es + [e] <==> x in es || x == e;
  }

  lemma LastKeys(es: seq<Entry>)
    requires es != []
    ensures Keys(es) == Keys(es[..|es| - 1]) + {es[|es| - 1].key}
    ensures es == es[..|es| - 1] + [es[|es| - 1]]
  {
    PushedKeys(es[..|es| - 1], es[|es| - 1]);
  }

  lemma {:induction false} FilterIs(es: seq<Entry>, keep: Entry -> bool)
    ensures forall e :: e in Filter(es, keep) <==> e in es && keep(e)
    ensures |Filter(es, keep)| <= |es|
  {
    if es != [] {
      FilterIs(es[..|es| - 1], keep);
      assert forall e :: e in es <==> e in es[..|es| - 1] || e == es[|es| - 1];
    }
  }

  lemma {:induction false} FilterDistinct(es: seq<Entry>, keep: Entry -> bool)
    requires Distinct(es)
    ensures Distinct(Filter(es, keep)) && Keys(Filter(es, keep)) <= Keys(es)
  {
    FilterIs(es, keep);
    if es != [] {
      var init, last := es[..|es| - 1], es[|es| - 1];
      FilterDistinct(init, keep);
      FilterIs(init, keep);
      PushedKeys(Filter(init, keep), last);
    }
  }

  lemma WithoutIs(es: seq<Entry>, key: string)
    requires Distinct(es)
    ensures Distinct(Without(es, key)) && key !in Keys(Without(es, key)) && |Without(es, key)| <= |es|
    ensures forall e :: e in Without(es, key) <==> e in es && e.key != key
  {
    FilterDistinct(es, (e: Entry) => e.key != key);
    FilterIs(es, (e: Entry) => e.key != key);
  }

  lemma LiveIs(es: seq<Entry>, now: int)
    requires Distinct(es)
    ensures Distinct(Live(es, now)) && |Live(es, now)| <= |es|
    ensures forall e :: e in Live(es, now) <==> e in es && e.expiresAt > now
  {
    FilterDistinct(es, (e: Entry) => e.expiresAt > now);
    FilterIs(es, (e: Entry) => e.expiresAt > now);
  }

  lemma {:induction false} LookupIs(es: seq<Entry>, key: string)
    ensures Lookup(es, key).Some? <==> key in Keys(es)
    ensures Lookup(es, key).Some? ==> Lookup(es, key).value in es && Lookup(es, key).value.key == key
  {
    if es != [] {
      LookupIs(es[..|es| - 1], key);
      LastKeys(es);
    }
  }

  lemma {:induction false} SuffixDistinct(es: seq<Entry>, from: nat)
    requires Distinct(es) && from <= |es|
    ensures Distinct(es[from..]) && Keys(es[from..]) <= Keys(es)
  {
    hide Keys;
    if from < |es| {
      var init, last := es[..|es| - 1], es[|es| - 1];
      SuffixDistinct(init, from);
      LastKeys(es);
      assert es[from..] == init[from..] + [last];
      PushedKeys(init[from..], last);
    } else {
      assert es[from..] == [] && Keys([]) == {} by { NoKeys(); }
    }
  }

  lemma NoKeys()
    ensures Keys([]) == {}
  {
  }

  lemma WithoutShorter(es: seq<Entry>, key: string)
    requires Distinct(es) && key in Keys(es)
    ensures |Without(es, key)| < |es|
  {
    var init, last := es[..|es| - 1], es[|es| - 1];
    LastKeys(es);
    WithoutIs(init, key);
    if last.key != key {
      WithoutShorter(init, key);
    }
  }

  lemma GetDistinct(c: Cache, key: string, now: int)
    requires Distinct(c.entries)
    ensures var es := Get(c, key, now).0.entries;
            Distinct(es) && |es| <= |c.entries| && forall e :: e in es ==> e in c.entries
  {
    LookupIs(c.entries, key);
    var found := Lookup(c.entries, key);
    if found.Some? {
      WithoutIs(c.entries, key);
      WithoutShorter(c.entries, key);
      PushedKeys(Without(c.entries, key), found.value);
    }
  }

  lemma PushedDistinct(es: seq<Entry>, e: Entry)
    requires Distinct(es) && e.key !in Keys(es)
    ensures Distinct(es + [e]) && forall x :: x in es + [e] <==> x in es || x == e
  {
    PushedKeys(es, e);
  }

  lemma StoredDistinct(es: seq<Entry>, max: nat, e: Entry, now: int)
    requires Distinct(es)
    ensures var r := Stored(es, max, e, now);
            Distinct(r) && |r| <= max && forall x :: x in r ==> x == e || (x in es && x.key != e.key)
  {
    hide Live, Without, Distinct, Keys;
    LiveIs(es, now);
    WithoutIs(Live(es, now), e.key);
    var all := Without(Live(es, now), e.key) + [e];
    PushedDistinct(Without(Live(es, now), e.key), e);
    if |all| > max {
      SuffixDistinct(all, |all| - max);
    }
    assert forall x :: x in Trimmed(all, max) ==> x in all;
  }

  lemma NothingDistinct()
    ensures Distinct([])
  {
  }

  lemma StepCopies(c: Cache, max: nat, op: Op, m: map<string, Entry>)
    requires Distinct(c.entries) && |c.entries| <= max && Copies(c.entries, m)
    ensures var es := Step(c, max, op).entries; Distinct(es) && |es| <= max && Copies(es, Write(m, op))
  {
    hide Stored, Get, Distinct;
    match op
    case OpClear => NothingDistinct();
    case OpGet(key, at) => GetDistinct(c, key, at);
    case OpSet(key, value, ttl, at) =>
      if ttl > 0 {
        StoredDistinct(c.entries, max, Entry(key, value, at + ttl), at);
      }
  }

  /** The copies agree with the plain map after any run, each key once, and never exceed the bound. */
  lemma {:induction false} RunCopies(max: nat, run: seq<Op>)
    ensures var es := After(Cache([], 0), max, run).entries; Distinct(es) && |es| <= max && Copies(es, Written(run))
    decreases |run|
  {
    if run != [] {
      RunCopies(max, run[..|run| - 1]);
      StepCopies(After(Cache([], 0), max, run[..|run| - 1]), max, run[|run| - 1], Written(run[..|run| - 1]));
    }
  }

  /** A hit is the latest value written to that key since the last clear, and it has not expired. */
  lemma HitIsLatest(max: nat, run: seq<Op>, key: string, now: int)
    ensures var hit := Get(After(Cache([], 0), max, run), key, now).1;
            hit.Some? ==> key in Written(run) && Written(run)[key].value == hit.value && Written(run)[key].expiresAt > now
  {
    RunCopies(max, run);
    LookupIs(After(Cache([], 0), max, run).entries, key);
  }

  // ---------- When a hit is guaranteed ----------

  /** The key an operation writes or hits. */
  function Uses(c: Cache, op: Op): set<string> {
    match op
    case OpGet(key, at) => if Get(c, key, at).1.Some? then {key} else {}
    case OpSet(key, value, ttl, at) => if ttl > 0 then {key} else {}
    case OpClear => {}
  }

  function UsedIn(c: Cache, max: nat, run: seq<Op>): set<string>
    decreases |run|
  {
    if run == [] then {}
    else UsedIn(c, max, run[..|run| - 1]) + Uses(After(c, max, run[..|run| - 1]), run[|run| - 1])
  }

  /** The entry is there, and whatever was used after it is one of `used`. */
  ghost predicate Behind(es: seq<Entry>, e: Entry, used: set<string>) {
    es != [] && (es[|es| - 1] == e || (es[|es| - 1].key in used && Behind(es[..|es| - 1], e, used)))
  }

  lemma {:induction false} BehindIn(es: seq<Entry>, e: Entry, used: set<string>)
    requires Behind(es, e, used)
    ensures e in es && e.key in Keys(es)
    ensures Distinct(es) ==> Lookup(es, e.key) == Some(e)
  {
    LastKeys(es);
    if es[|es| - 1] != e {
      BehindIn(es[..|es| - 1], e, used);
    }
  }

  lemma {:induction false} BehindFilter(es: seq<Entry>, e: Entry, used: set<string>, keep: Entry -> bool)
    requires Behind(es, e, used) && keep(e)
    ensures Behind(Filter(es, keep), e, used)
  {
    var init, last := es[..|es| - 1], es[|es| - 1];
    if last != e {
      BehindFilter(init, e, used, keep);
    }
    if keep(last) {
      PushedKeys(Filter(init, keep), last);
    }
  }

  lemma {:induction false} BehindMore(es: seq<Entry>, e: Entry, used: set<string>, more: set<string>)
    requires Behind(es, e, used) && forall k :: k in used && k in Keys(es) ==> k in more
    ensures Behind(es, e, more)
  {
    LastKeys(es);
    if es[|es| - 1] != e {
      BehindMore(es[..|es| - 1], e, used, more);
    }
  }

  lemma BehindPushed(es: seq<Entry>, e: Entry, used: set<string>, last: Entry)
    requires Behind(es, e, used)
    ensures Behind(es + [last], e, used + {last.key})
  {
    BehindMore(es, e, used, used + {last.key});
    PushedKeys(es, last);
  }

  lemma TrimmedNone(es: seq<Entry>, max: nat)
    requires |es| <= max
    ensures Trimmed(es, max) == es
  {
  }

  lemma TrimmedLast(es: seq<Entry>, max: nat)
    requires |es| > max >= 1
    ensures Trimmed(es, max) == Trimmed(es[..|es| - 1], max - 1) + [es[|es| - 1]]
  {
  }

  /** An entry with fewer than `max` distinct keys used after it survives the bound. */
  lemma {:induction false} BehindTrimmed(es: seq<Entry>, e: Entry, used: set<string>, max: nat)
    requires Distinct(es) && Behind(es, e, used) && |used - {e.key}| < max
    ensures Behind(Trimmed(es, max), e, used)
  {
    hide Trimmed, Keys;
    var init, last := es[..|es| - 1], es[|es| - 1];
    if |es| <= max {
      assert Trimmed(es, max) == es by {
        TrimmedNone(es, max);
      }
    } else {
      TrimmedLast(es, max);
      PushedKeys(Trimmed(init, max - 1), last);
      if last != e {
        var fewer := used - {last.key};
        BehindIn(init, e, used);
        BehindMore(init, e, used, fewer);
        assert used - {e.key} == (fewer - {e.key}) + {last.key};
        BehindTrimmed(init, e, fewer, max - 1);
        BehindMore(Trimmed(init, max - 1), e, fewer, used);
      }
    }
  }

  lemma GetBehind(c: Cache, key: string, at: int, e: Entry, used: set<string>)
    requires Distinct(c.entries) && Behind(c.entries, e, used) && at < e.expiresAt
    ensures Behind(Get(c, key, at).0.entries, e, used + Uses(c, OpGet(key, at)))
  {
    BehindIn(c.entries, e, used);
    BehindMore(c.entries, e, used, used + Uses(c, OpGet(key, at)));
    var rest := Without(c.entries, key);
    var found := Lookup(c.entries, key);
    if found.Some? {
      PushedKeys(rest, found.value);
      LookupIs(c.entries, key);
      if key != e.key {
        BehindFilter(c.entries, e, used, (x: Entry) => x.key != key);
        BehindMore(rest, e, used, used + Uses(c, OpGet(key, at)));
      }
    }
  }

  lemma StoredBehind(es: seq<Entry>, max: nat, last: Entry, now: int, e: Entry, used: set<string>)
    requires Distinct(es) && Behind(es, e, used) && now < e.expiresAt && last.key != e.key
    requires |used + {last.key} - {e.key}| < max
    ensures Behind(Stored(es, max, last, now), e, used + {last.key})
  {
    BehindFilter(es, e, used, (x: Entry) => x.expiresAt > now);
    BehindFilter(Live(es, now), e, used, (x: Entry) => x.key != last.key);
    LiveIs(es, now);
    WithoutIs(Live(es, now), last.key);
    var rest := Without(Live(es, now), last.key);
    PushedKeys(rest, last);
    BehindPushed(rest, e, used, last);
    BehindTrimmed(rest + [last], e, used + {last.key}, max);
  }

  /** Neither cleared nor overwritten nor expired. */
  predicate Spares(op: Op, e: Entry) {
    !op.OpClear? && op.at < e.expiresAt && (op.OpSet? && op.ttl > 0 ==> op.key != e.key)
  }

  lemma StepBehind(c: Cache, max: nat, op: Op, e: Entry, used: set<string>)
    requires Distinct(c.entries) && Behind(c.entries, e, used) && Spares(op, e)
    requires |used + Uses(c, op) - {e.key}| < max
    ensures var es := Step(c, max, op).entries; Distinct(es) && Behind(es, e, used + Uses(c, op))
  {
    hide Stored, Get, Distinct, Behind;
    match op
    case OpGet(key, at) =>
      GetDistinct(c, key, at);
      GetBehind(c, key, at, e, used);
    case OpSet(key, value, ttl, at) =>
      if ttl > 0 {
        StoredDistinct(c.entries, max, Entry(key, value, at + ttl), at);
        StoredBehind(c.entries, max, Entry(key, value, at + ttl), at, e, used);
      } else {
        assert used + Uses(c, op) == used;
      }
  }

  lemma {:induction false} RunBehind(c: Cache, max: nat, run: seq<Op>, e: Entry)
    requires Distinct(c.entries) && c.entries != [] && c.entries[|c.entries| - 1] == e
    requires forall i :: 0 <= i < |run| ==> Spares(run[i], e)
    requires |UsedIn(c, max, run) - {e.key}| < max
    ensures var es := After(c, max, run).entries; Distinct(es) && Behind(es, e, UsedIn(c, max, run))
    decreases |run|
  {
    if run != [] {
      var n := |run| - 1;
      SmallerSet(UsedIn(c, max, run[..n]) - {e.key}, UsedIn(c, max, run) - {e.key});
      RunBehind(c, max, run[..n], e);
      StepBehind(After(c, max, run[..n]), max, run[n], e, UsedIn(c, max, run[..n]));
    }
  }

  lemma {:induction false} SmallerSet<T>(a: set<T>, b: set<T>)
    requires a <= b
    ensures |a| <= |b|
  {
    if a != {} {
      var x :| x in a;
      SmallerSet(a - {x}, b - {x});
    }
  }

  /** After its last use an entry is guaranteed to hit until it expires, is overwritten or cleared, as long as
      fewer than `max` other distinct keys are written or hit. */
  lemma GuaranteedHit(c: Cache, max: nat, run: seq<Op>, e: Entry, now: int)
    requires Distinct(c.entries) && c.entries != [] && c.entries[|c.entries| - 1] == e
    requires forall i :: 0 <= i < |run| ==> Spares(run[i], e)
    requires |UsedIn(c, max, run) - {e.key}| < max && now < e.expiresAt
    ensures Get(After(c, max, run), e.key, now).1 == Some(e.value)
  {
    RunBehind(c, max, run, e);
    BehindIn(After(c, max, run).entries, e, UsedIn(c, max, run));
  }

  lemma StoredLast(es: seq<Entry>, max: nat, e: Entry, now: int)
    requires max >= 1
    ensures var r := Stored(es, max, e, now); r != [] && r[|r| - 1] == e
  {
    hide Without, Live;
  }

  /** Writing or hitting a key makes it the most recently used one. */
  lemma UseIsLast(c: Cache, max: nat, op: Op, key: string)
    requires Distinct(c.entries) && max >= 1 && key in Uses(c, op)
    ensures var es := Step(c, max, op).entries; Distinct(es) && es != [] && es[|es| - 1].key == key
  {
    hide Stored, Distinct, Keys, Without;
    LookupIs(c.entries, key);
    match op
    case OpGet(_, at) => GetDistinct(c, key, at);
    case OpSet(_, value, ttl, at) =>
      StoredDistinct(c.entries, max, Entry(key, value, at + ttl), at);
      StoredLast(c.entries, max, Entry(key, value, at + ttl), at);
  }
}
