/** The wrapper around each portal read, on a cache object it shares with others (src/core/portal/cached.ts). */
module CachedPortal {
  import opened Basics
  import opened CacheKey
  import opened ReadCacheModel
  import opened ReadCache
  import opened CachedReads

  class PortalReads {
    const cache: MemoryReadCache
    var log: seq<Read>

    ghost predicate Valid()
      reads this, cache
    {
      cache.Valid()
    }

    function Seen(focus: Option<Scope>, dirty: bool): State
      reads this, cache
    {
      State(focus, dirty, cache.State(), log)
    }

    constructor (cache: MemoryReadCache)
      requires cache.Valid()
      ensures this.cache == cache && Valid() && log == []
    {
      this.cache := cache;
      log := [];
    }

    /** Before the read: a hit, or the number of the read that starts (none without a session). */
    method Begin(focus: Option<Scope>, ghost dirty: bool, capability: string, args: seq<Arg>, refresh: bool, at: int)
      returns (hit: Option<Value>, started: Option<nat>)
      requires Valid()
      modifies this`log, cache`entries
      ensures Valid() && Seen(focus, dirty) == Call(old(Seen(focus, dirty)), capability, args, refresh, at)
      ensures hit == if refresh then None else old(Hit(Seen(focus, dirty), capability, args, at))
      ensures started == if focus.Some? && hit.None? then Some(|old(log)|) else None
    {
      hit, started := None, None;
      if focus.None? {
        return;
      }
      var key := KeyOf(focus.value, capability, args);
      if !refresh {
        hit := cache.Read(key, at);
        if hit.Some? {
          return;
        }
      }
      started := Some(|log|);
      log := log + [Read(focus.value, capability, args, cache.generation, {}, false)];
    }

    /** After the read: the answer is kept only if the epoch and the scope are as they were. */
    method Finish(focus: Option<Scope>, ghost dirty: bool, n: nat, defined: bool, ttl: int, at: int)
      requires Valid() && Running(Seen(focus, dirty), n)
      modifies this`log, cache`entries
      ensures Valid()
      ensures Seen(focus, dirty) == Answer(old(Seen(focus, dirty)), cache.maxEntries, n, defined, ttl, at, true)
    {
      var r := log[n];
      log := log[n := r.(done := true)];
      if defined && cache.generation == r.epoch && focus == Some(r.scope) {
        cache.Write(r.Key(), n, ttl, at);
      }
    }
  }
}
