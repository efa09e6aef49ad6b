// The expire-after-write cache that the `cacheManager` bean builds for every
// cache name: a map from key to (value, time of the write), read with a TTL
// check. Time is a logical clock (a `nat`) passed in by the caller.

module ExpiringCache {
  import opened Wrappers
  import opened Users

  /**
   * One cached value and the time of the write that stored it. The value is a
   * `User`, never an optional one: the cache is built with null values
   * disallowed, so every stored value is a real user.
   */
  datatype Entry = Entry(value: User, writtenAt: nat)

  type Entries = map<Key, Entry>

  /** Expire-after-write: an entry answers reads while fewer than `ttl` ticks have passed since its write. */
  predicate Live(e: Entry, now: nat, ttl: nat)
  {
    now - e.writtenAt < ttl
  }

  /** What a read of `k` at time `now` sees: absent keys and expired entries alike are a miss. */
  function Lookup(m: Entries, k: Key, now: nat, ttl: nat): Option<User>
  {
    if k in m && Live(m[k], now, ttl) then Some(m[k].value) else None
  }

  /** The entries after `put(k, v)` at time `now`. */
  function Written(m: Entries, k: Key, v: User, now: nat): Entries
  {
    m[k := Entry(v, now)]
  }

  /** The entries after `evict(k)`. */
  function Removed(m: Entries, k: Key): Entries
  {
    m - {k}
  }

  /** A put is read back unchanged by any read fewer than `ttl` ticks after it. */
  lemma PutThenGet(m: Entries, k: Key, v: User, t: nat, now: nat, ttl: nat)
    requires t <= now && now - t < ttl
    ensures Lookup(Written(m, k, v, t), k, now, ttl) == Some(v)
  {
  }

  /**
   * Expiry counts from the last write: once `ttl` ticks have passed since the
   * write, the key is a miss. Reads never change the entries (`Cache.Get`
   * modifies nothing), so reads in between do not postpone this.
   */
  lemma ExpiredIsMiss(m: Entries, k: Key, now: nat, ttl: nat)
    requires k in m && now - m[k].writtenAt >= ttl
    ensures Lookup(m, k, now, ttl) == None
  {
  }

  /** A put on an existing key replaces the value and restarts its lifetime; no other key changes. */
  lemma PutReplaces(m: Entries, k: Key, v: User, t: nat)
    ensures k in Written(m, k, v, t) && Written(m, k, v, t)[k] == Entry(v, t)
    ensures forall k' :: k' != k ==> (k' in m <==> k' in Written(m, k, v, t))
    ensures forall k' :: k' != k && k' in m ==> Written(m, k, v, t)[k'] == m[k']
  {
  }

  /** After an eviction the key is a miss at every time; evicting an absent key changes nothing; no other key changes. */
  lemma EvictMisses(m: Entries, k: Key, now: nat, ttl: nat)
    ensures Lookup(Removed(m, k), k, now, ttl) == None
    ensures k !in m ==> Removed(m, k) == m
    ensures forall k' :: k' != k ==> Lookup(Removed(m, k), k', now, ttl) == Lookup(m, k', now, ttl)
  {
  }

  /** One named cache: a fresh map per name, one TTL for all its entries. */
  class Cache {
    const name: string
    const ttl: nat
    var entries: Entries

    /** `createConcurrentMapCache(name)`: a new, empty map for this name. */
    constructor (name: string, ttl: nat)
      ensures this.name == name && this.ttl == ttl && entries == map[]
    {
      this.name := name;
      this.ttl := ttl;
      entries := map[];
    }

    /** A read: the value when its entry is still live, otherwise a miss. Reads do not touch the entries. */
    method Get(k: Key, now: nat) returns (r: Option<User>)
      ensures r == Lookup(entries, k, now, ttl)
      ensures r.Some? ==> k in entries && now - entries[k].writtenAt < ttl
    {
      if k in entries {
        var e := entries[k];
        if now - e.writtenAt < ttl {
          return Some(e.value);
        }
      }
      r := None;
    }

    /** Insert or replace the entry at `k`, stamping it with the time of this write. */
    method Put(k: Key, v: User, now: nat)
      modifies this
      ensures entries == Written(old(entries), k, v, now)
    {
      entries := entries[k := Entry(v, now)];
    }

    /** Remove the entry at `k`, if any. */
    method Evict(k: Key)
      modifies this
      ensures entries == Removed(old(entries), k)
    {
      entries := entries - {k};
    }
  }

  /** The `cacheManager` bean: one cache per name, each built on first use with the same TTL. */
  class CacheManager {
    const ttl: nat
    var caches: map<string, Cache>

    /** Every cache is registered under its own name, so different names never share a cache. */
    ghost predicate Valid()
      reads this
    {
      forall n :: n in caches ==> caches[n].name == n && caches[n].ttl == ttl
    }

    constructor (ttl: nat)
      ensures Valid() && this.ttl == ttl && caches == map[]
    {
      this.ttl := ttl;
      caches := map[];
    }

    /** The cache for `name`: the existing one, or a freshly built empty one that is registered. */
    method GetCache(name: string) returns (c: Cache)
      requires Valid()
      modifies this
      ensures Valid() && c.name == name && c.ttl == ttl
      ensures name in old(caches) ==> c == old(caches)[name] && caches == old(caches)
      ensures name !in old(caches) ==> fresh(c) && c.entries == map[] && caches == old(caches)[name := c]
    {
      if name in caches {
        c := caches[name];
      } else {
        c := new Cache(name, ttl);
        caches := caches[name := c];
      }
    }

    /** A write through one named cache leaves every other named cache as it was. */
    method PutInto(name: string, k: Key, v: User, now: nat)
      requires Valid() && name in caches
      modifies caches[name]
      ensures caches[name].entries == Written(old(caches[name].entries), k, v, now)
      ensures forall n :: n in caches && n != name ==> caches[n].entries == old(caches[n].entries)
    {
      caches[name].Put(k, v, now);
    }
  }
}
