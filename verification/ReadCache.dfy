/** The in-memory read cache, its map changed in place (src/core/cache/read-cache.ts). */
module ReadCache {
  import opened Basics
  import opened ReadCacheModel

  class MemoryReadCache {
    const maxEntries: nat
    /** The map in its insertion order. */
    var entries: seq<Entry>
    var generation: nat

    ghost predicate Valid()
      reads this
    {
      Distinct(entries)
    }

    function State(): Cache
      reads this
    {
      Cache(entries, generation)
    }

    constructor (maxEntries: nat)
      ensures Valid() && this.maxEntries == maxEntries && State() == Cache([], 0)
    {
      this.maxEntries := maxEntries;
      entries, generation := [], 0;
    }

    method Read(key: string, now: int) returns (value: Option<Value>)
      requires Valid()
      modifies this`entries
      ensures Valid() && (State(), value) == Get(old(State()), key, now)
    {
      GetDistinct(State(), key, now);
      var entry := Lookup(entries, key);
      if entry.None? {
        return None;
      }
      entries := Without(entries, key);
      if entry.value.expiresAt <= now {
        return None;
      }
      entries := entries + [entry.value];
      value := Some(entry.value.value);
    }

    /** Deletes what has expired, entry by entry. */
    method Prune(now: int)
      requires Valid()
      modifies this`entries
      ensures Valid() && entries == Live(old(entries), now)
    {
      hide Distinct, Live, Without;
      var all := entries;
      LiveNone(now);
      assert all[..0] == [] && [] + all[0..] == all;
      for i := 0 to |all|
        invariant Distinct(entries) && entries == Live(all[..i], now) + all[i..]
      {
        PruneOne(all, i, now);
        if all[i].expiresAt <= now {
          entries := Without(entries, all[i].key);
        }
      }
      assert all[..|all|] == all && Live(all, now) + [] == Live(all, now);
    }

    /** Deletes the least recently used entries beyond the bound. */
    method Evict()
      requires Valid()
      modifies this`entries
      ensures Valid() && entries == Trimmed(old(entries), maxEntries)
    {
      hide Distinct, Without;
      ghost var all := entries;
      while |entries| > maxEntries
        invariant Distinct(entries)
        invariant |entries| <= |all| && entries == all[|all| - |entries|..]
        invariant |entries| >= maxEntries || entries == all
      {
        OldestOut(entries);
        entries := Without(entries, entries[0].key);
      }
    }

    method Write(key: string, value: Value, ttl: int, now: int)
      requires Valid()
      modifies this`entries
      ensures Valid() && State() == Set(old(State()), maxEntries, key, value, ttl, now)
    {
      hide Distinct, Live, Without, Trimmed, Keys;
      if ttl <= 0 {
        return;
      }
      Prune(now);
      WithoutIs(entries, key);
      PushedDistinct(Without(entries, key), Entry(key, value, now + ttl));
      entries := Without(entries, key);
      entries := entries + [Entry(key, value, now + ttl)];
      Evict();
    }

    method Empty()
      modifies this
      ensures Valid() && State() == Clear(old(State()))
    {
      entries := [];
      generation := generation + 1;
    }
  }

  /** Deleting by key takes out the one entry that has it. */
  lemma {:induction false} DeleteOne(a: seq<Entry>, e: Entry, b: seq<Entry>)
    requires Distinct(a + [e] + b)
    ensures Without(a + [e] + b, e.key) == a + b && Distinct(a + b)
  {
    hide Distinct, Keys;
    var all := a + [e] + b;
    WithoutIs(all, e.key);
    LastDiffers(all);
    if b == [] {
      assert all[..|all| - 1] == a && a + b == a;
      AllOther(a, e.key);
    } else {
      var init, last := b[..|b| - 1], b[|b| - 1];
      assert all[..|all| - 1] == a + [e] + init;
      assert (a + init) + [last] == a + b;
      DeleteOne(a, e, init);
      assert (a + [e] + init)[|a|] == e;
    }
  }

  lemma LastDiffers(es: seq<Entry>)
    requires Distinct(es) && es != []
    ensures Distinct(es[..|es| - 1]) && es[|es| - 1].key !in Keys(es[..|es| - 1])
    ensures forall x :: x in es[..|es| - 1] ==> x.key != es[|es| - 1].key
  {
  }

  lemma PruneOne(all: seq<Entry>, i: nat, now: int)
    requires i < |all| && Distinct(Live(all[..i], now) + all[i..])
    ensures var es, next := Live(all[..i], now) + all[i..], Live(all[..i + 1], now) + all[i + 1..];
            next == (if all[i].expiresAt <= now then Without(es, all[i].key) else es) && Distinct(next)
  {
    hide Distinct, Live, Without;
    LiveOne(all, i, now);
    var done, e, rest := Live(all[..i], now), all[i], all[i + 1..];
    assert done + ([e] + rest) == done + [e] + rest;
    if e.expiresAt <= now {
      DeleteOne(done, e, rest);
    }
  }

  lemma OldestOut(es: seq<Entry>)
    requires Distinct(es) && es != []
    ensures Without(es, es[0].key) == es[1..] && Distinct(es[1..])
  {
    assert es == [] + [es[0]] + es[1..] && [] + es[1..] == es[1..];
    DeleteOne([], es[0], es[1..]);
  }

  lemma LiveNone(now: int)
    ensures Live([], now) == []
  {
  }

  lemma LiveOne(all: seq<Entry>, i: nat, now: int)
    requires i < |all|
    ensures Live(all[..i + 1], now) == Live(all[..i], now) + if all[i].expiresAt > now then [all[i]] else []
    ensures all[i..] == [all[i]] + all[i + 1..]
  {
    assert all[..i + 1][..i] == all[..i];
  }

  lemma {:induction false} AllOther(es: seq<Entry>, key: string)
    requires key !in Keys(es)
    ensures Without(es, key) == es
  {
    if es != [] {
      LastKeys(es);
      AllOther(es[..|es| - 1], key);
    }
  }
}
