/** The frontend's time-to-live cache (`CacheService`): a JavaScript `Map` from keys to
    entries with an expiry time, a capacity enforced by evicting the oldest key, and the
    filter applied when the persisted snapshot is read back. Time is the explicit `now`
    (milliseconds); persisting to browser storage is not modelled. */
module TtlCache {
  import opened Wrappers
  import opened OrderedMap
  import Seqs

  datatype Entry<V> = Entry(data: V, timestamp: int, expiresAt: int)

  datatype CacheConfig = CacheConfig(defaultTtl: int, maxSize: int)

  datatype Cache<V> = Cache(config: CacheConfig, store: OMap<Entry<V>>)

  /** A lookup's answer together with the cache it leaves behind (reads delete expired entries). */
  datatype Read<V, A> = Read(cache: Cache<V>, answer: A)

  datatype Stats = Stats(totalEntries: nat, validEntries: nat, expiredEntries: nat)

  const FiveMinutes := 5 * 60 * 1000

  /** The constructor's defaults. */
  const DefaultConfig := CacheConfig(FiveMinutes, 100)
  /** The three shared instances. */
  const GlobalCacheConfig := CacheConfig(FiveMinutes, 50)
  const ConfigCacheConfig := CacheConfig(30 * 60 * 1000, 10)
  const DataCacheConfig := CacheConfig(10 * 60 * 1000, 30)

  /** An entry is usable up to and including its expiry time. */
  predicate Live<V>(e: Entry<V>, now: int) {
    now <= e.expiresAt
  }

  /** The cache holds a live entry under `key`. */
  predicate LiveIn<V>(c: Cache<V>, key: string, now: int) {
    key in c.store.entries && Live(c.store.entries[key], now)
  }

  ghost predicate Valid<V>(c: Cache<V>) {
    OrderedMap.Valid(c.store)
  }

  function New<V>(config: CacheConfig): (c: Cache<V>)
    ensures Valid(c) && |c.store.keys| == 0
  {
    Cache(config, Empty())
  }

  /** `now + (ttl || defaultTTL)`: a missing or zero TTL means the default. */
  function ExpiryTime(config: CacheConfig, now: int, ttl: Option<int>): (r: int)
    ensures ttl.Some? && ttl.value != 0 ==> r == now + ttl.value
    ensures ttl.None? || ttl.value == 0 ==> r == now + config.defaultTtl
  {
    now + if ttl.Some? && ttl.value != 0 then ttl.value else config.defaultTtl
  }

  /** The insertion order left once a full cache has dropped its oldest key. */
  function AfterEviction<V>(c: Cache<V>): (r: OMap<Entry<V>>)
    requires Valid(c)
    ensures OrderedMap.Valid(r)
    ensures |c.store.keys| < c.config.maxSize || |c.store.keys| == 0 ==> r == c.store
    ensures |c.store.keys| >= c.config.maxSize && |c.store.keys| > 0 ==>
      r.keys == c.store.keys[1..] && r.entries == c.store.entries - {c.store.keys[0]}
  {
    if |c.store.keys| >= c.config.maxSize then DeleteOldest(c.store) else c.store
  }

  /** `set(key, data, ttl)`: when the cache is full the oldest key goes first, whatever `key` is;
      then `key` is written, keeping its place if it is still present. */
  function Set<V>(c: Cache<V>, key: string, data: V, ttl: Option<int>, now: int): (r: Cache<V>)
    requires Valid(c)
    ensures Valid(r) && r.config == c.config
    ensures key in r.store.entries && r.store.entries[key] == Entry(data, now, ExpiryTime(c.config, now, ttl))
    ensures |c.store.keys| < c.config.maxSize ==>
      forall k :: k in c.store.entries && k != key ==> k in r.store.entries && r.store.entries[k] == c.store.entries[k]
    ensures |c.store.keys| >= c.config.maxSize && |c.store.keys| > 0 ==>
      forall k :: k in c.store.entries && k != key ==>
        (k in r.store.entries <==> k != c.store.keys[0]) &&
        (k in r.store.entries ==> r.store.entries[k] == c.store.entries[k])
    ensures forall k :: k in r.store.entries ==> k == key || k in c.store.entries
    ensures key in AfterEviction(c).keys ==> r.store.keys == AfterEviction(c).keys
    ensures key !in AfterEviction(c).keys ==> r.store.keys == AfterEviction(c).keys + [key]
  {
    var kept := AfterEviction(c);
    var store := OrderedMap.Set(kept, key, Entry(data, now, ExpiryTime(c.config, now, ttl)));
    assert store.entries == kept.entries[key := Entry(data, now, ExpiryTime(c.config, now, ttl))];
    Cache(c.config, store)
  }

  /** A cache that respects its capacity keeps respecting it, provided it can hold anything. */
  lemma SetKeepsBound<V>(c: Cache<V>, key: string, data: V, ttl: Option<int>, now: int)
    requires Valid(c) && 1 <= c.config.maxSize && |c.store.keys| <= c.config.maxSize
    ensures |Set(c, key, data, ttl, now).store.keys| <= c.config.maxSize
  {
    assert |AfterEviction(c).keys| < c.config.maxSize;
  }

  /** `get(key)`: the data of a live entry; an expired entry is deleted and reads as absent. */
  function Get<V>(c: Cache<V>, key: string, now: int): (r: Read<V, Option<V>>)
    requires Valid(c)
    ensures Valid(r.cache) && r.cache.config == c.config && |r.cache.store.keys| <= |c.store.keys|
    ensures r.answer.Some? <==> key in c.store.entries && Live(c.store.entries[key], now)
    ensures r.answer.Some? ==> r.answer.value == c.store.entries[key].data
    ensures key in c.store.entries && !Live(c.store.entries[key], now) ==>
      r.cache.store.entries == c.store.entries - {key}
    ensures !(key in c.store.entries && !Live(c.store.entries[key], now)) ==> r.cache == c
    ensures forall k :: LiveIn(r.cache, k, now) == LiveIn(c, k, now)
  {
    if key !in c.store.entries then Read(c, None)
    else if !Live(c.store.entries[key], now) then Read(Cache(c.config, OrderedMap.Delete(c.store, key)), None)
    else Read(c, Some(c.store.entries[key].data))
  }

  /** After `set(key, data, ttl)`, `get(key)` returns `data` at any time up to the expiry. */
  lemma SetThenGet<V>(c: Cache<V>, key: string, data: V, ttl: Option<int>, now: int, later: int)
    requires Valid(c) && later <= ExpiryTime(c.config, now, ttl)
    ensures Get(Set(c, key, data, ttl, now), key, later).answer == Some(data)
  {
  }

  /** `has(key)`: whether `get(key)` would find something, with the same deletion. */
  function Has<V>(c: Cache<V>, key: string, now: int): (r: Read<V, bool>)
    requires Valid(c)
    ensures Valid(r.cache)
    ensures r.answer <==> Get(c, key, now).answer.Some?
    ensures r.cache == Get(c, key, now).cache
  {
    var g := Get(c, key, now);
    Read(g.cache, g.answer.Some?)
  }

  /** `delete(key)`: whether the key was present, and the cache without it. */
  function Delete<V>(c: Cache<V>, key: string): (r: Read<V, bool>)
    requires Valid(c)
    ensures Valid(r.cache) && r.cache.config == c.config
    ensures r.answer <==> key in c.store.entries
    ensures r.cache.store.entries == c.store.entries - {key}
  {
    Read(Cache(c.config, OrderedMap.Delete(c.store, key)), key in c.store.entries)
  }

  function Clear<V>(c: Cache<V>): (r: Cache<V>)
    ensures Valid(r) && r.config == c.config && r.store.entries == map[]
  {
    Cache(c.config, Empty())
  }

  /** `cleanup()`: every expired entry is deleted and every live one stays as it was. */
  function Cleanup<V>(c: Cache<V>, now: int): (r: Cache<V>)
    requires Valid(c)
    ensures Valid(r) && r.config == c.config
    ensures forall k :: k in r.store.entries <==> k in c.store.entries && Live(c.store.entries[k], now)
    ensures forall k :: k in r.store.entries ==> r.store.entries[k] == c.store.entries[k]
  {
    Cache(c.config, Retain(c.store, LiveAt(now)))
  }

  function LiveAt<V>(now: int): Entry<V> -> bool {
    e => Live(e, now)
  }

  /** Whether the entry under `k` is live; absent keys count as not live. */
  function LiveKey<V>(c: Cache<V>, now: int): string -> bool {
    k => LiveIn(c, k, now)
  }

  /** `getStats()`, without the hit rate (always 0) and the memory estimate. */
  function GetStats<V>(c: Cache<V>, now: int): (r: Stats)
    requires Valid(c)
    ensures r.totalEntries == |c.store.entries|
    ensures r.validEntries + r.expiredEntries == r.totalEntries
    ensures r.validEntries == Seqs.Count(c.store.keys, LiveKey(c, now))
  {
    var valid := Seqs.Count(c.store.keys, LiveKey(c, now));
    var expired := Seqs.Count(c.store.keys, Not(LiveKey(c, now)));
    CountSplit(c.store.keys, LiveKey(c, now));
    DistinctKeysCount(c.store);
    Stats(|c.store.keys|, valid, expired)
  }

  /** The valid-entry count is the number of keys whose entry has not expired. */
  lemma ValidEntriesAreLiveKeys<V>(c: Cache<V>, now: int)
    requires Valid(c)
    ensures GetStats(c, now).validEntries ==
      |set k | k in c.store.entries && Live(c.store.entries[k], now)|
  {
    var f := Seqs.Filter(c.store.keys, LiveKey(c, now));
    Seqs.FilterPairwise(c.store.keys, LiveKey(c, now), Differ());
    assert OrderedMap.Distinct(f);
    OrderedMap.DistinctCardinality(f);
    assert (set k | k in f) == set k | k in c.store.entries && Live(c.store.entries[k], now);
  }

  function Differ(): (string, string) -> bool {
    (a: string, b: string) => a != b
  }

  function Not<T>(p: T -> bool): T -> bool {
    x => !p(x)
  }

  /** Every element satisfies either a predicate or its negation. */
  lemma {:induction false} CountSplit<T>(s: seq<T>, p: T -> bool)
    ensures Seqs.Count(s, p) + Seqs.Count(s, Not(p)) == |s|
  {
    if |s| > 0 {
      CountSplit(s[1..], p);
    }
  }

  /** After `cleanup()` nothing is expired, and what is left is what `getStats()` called valid. */
  lemma CleanupStats<V>(c: Cache<V>, now: int)
    requires Valid(c)
    ensures GetStats(Cleanup(c, now), now).expiredEntries == 0
    ensures GetStats(Cleanup(c, now), now).validEntries == GetStats(c, now).validEntries
  {
    var d := Cleanup(c, now);
    KeptCount(c.store.keys, c, now);
    assert forall i :: 0 <= i < |d.store.keys| ==> LiveKey(d, now)(d.store.keys[i]);
    Seqs.FilterAll(d.store.keys, LiveKey(d, now));
    CountSplit(d.store.keys, LiveKey(d, now));
  }

  /** Keeping the live entries of a key list keeps as many keys as the live-key filter. */
  lemma {:induction false} KeptCount<V>(keys: seq<string>, c: Cache<V>, now: int)
    requires forall i :: 0 <= i < |keys| ==> keys[i] in c.store.entries
    ensures |KeptKeys(keys, c.store.entries, LiveAt(now))| == |Seqs.Filter(keys, LiveKey(c, now))|
  {
    if |keys| > 0 {
      KeptCount(keys[1..], c, now);
    }
  }

  lemma DistinctKeysCount<V>(m: OMap<V>)
    requires OrderedMap.Valid(m)
    ensures |m.entries| == |m.keys|
  {
    var ks := set i | 0 <= i < |m.keys| :: m.keys[i];
    assert ks == m.entries.Keys;
    DistinctCard(m.keys);
  }

  lemma {:induction false} DistinctCard(s: seq<string>)
    requires Distinct(s)
    ensures |set i | 0 <= i < |s| :: s[i]| == |s|
  {
    if |s| > 0 {
      var t := s[..|s| - 1];
      assert Distinct(t);
      DistinctCard(t);
      var st := set i | 0 <= i < |t| :: t[i];
      var ss := set i | 0 <= i < |s| :: s[i];
      assert ss == st + {s[|s| - 1]};
      assert s[|s| - 1] !in st;
    }
  }

  /** One member of the persisted snapshot. */
  datatype Stored<V> = Stored(key: string, entry: Entry<V>)

  /** Snapshot entry `i` is live and no later live entry carries the same key, so it is the
      one `Map.set` leaves in place. */
  predicate LastLive<V>(stored: seq<Stored<V>>, i: int, now: int)
    requires 0 <= i < |stored|
  {
    Live(stored[i].entry, now) &&
    forall j :: i < j < |stored| && stored[j].key == stored[i].key ==> !Live(stored[j].entry, now)
  }

  /** `loadFromStorage()` into a fresh cache: the snapshot's live entries in snapshot order.
      Capacity is not enforced here. */
  function Load<V>(config: CacheConfig, stored: seq<Stored<V>>, now: int): (r: Cache<V>)
    ensures Valid(r) && r.config == config
    ensures forall k :: k in r.store.entries ==> Live(r.store.entries[k], now)
    ensures forall k :: k in r.store.entries <==>
      exists i :: 0 <= i < |stored| && stored[i].key == k && Live(stored[i].entry, now)
    ensures |r.store.keys| <= |stored|
    ensures forall i :: 0 <= i < |stored| && LastLive(stored, i, now) ==>
      stored[i].key in r.store.entries && r.store.entries[stored[i].key] == stored[i].entry
  {
    if |stored| == 0 then New(config)
    else
      var prev := Load(config, stored[..|stored| - 1], now);
      var last := stored[|stored| - 1];
      assert forall i :: 0 <= i < |stored| - 1 ==> stored[..|stored| - 1][i] == stored[i];
      assert forall i :: 0 <= i < |stored| - 1 && LastLive(stored, i, now) ==>
        LastLive(stored[..|stored| - 1], i, now);
      if Live(last.entry, now) then Cache(config, OrderedMap.Set(prev.store, last.key, last.entry))
      else prev
  }

  /** The keys of a snapshot, in order. */
  function StoredKeys<V>(stored: seq<Stored<V>>): (r: seq<string>)
    ensures |r| == |stored| && forall i :: 0 <= i < |stored| ==> r[i] == stored[i].key
  {
    if |stored| == 0 then [] else StoredKeys(stored[..|stored| - 1]) + [stored[|stored| - 1].key]
  }

  /** A snapshot of live entries under distinct keys is restored completely and in order,
      however small the configured capacity. */
  lemma {:induction false} LoadKeepsEverythingLive<V>(config: CacheConfig, stored: seq<Stored<V>>, now: int)
    requires Distinct(StoredKeys(stored))
    requires forall i :: 0 <= i < |stored| ==> Live(stored[i].entry, now)
    ensures Load(config, stored, now).store.keys == StoredKeys(stored)
  {
    if |stored| > 0 {
      var init := stored[..|stored| - 1];
      assert StoredKeys(init) == StoredKeys(stored)[..|stored| - 1];
      LoadKeepsEverythingLive(config, init, now);
      var last := stored[|stored| - 1];
      var prev := Load(config, init, now);
      assert last.key !in prev.store.entries by {
        assert last.key !in StoredKeys(init);
      }
    }
  }
}
