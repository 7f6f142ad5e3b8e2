/** The cache-fronted product-data lookup (`getDataById` and `preloadCommonData` of the
    optimised data service): responses with data are kept in the shared data cache under
    `"data_" + id`, ten minutes for local data and five for API data. */
module CachedDataService {
  import opened Wrappers
  import opened Json
  import opened Config
  import opened DataService
  import opened TtlCache
  import Seqs

  datatype Fetched = Fetched(cache: Cache<Response>, response: Response)

  datatype Preloaded = Preloaded(cache: Cache<Response>, fetched: seq<string>)

  const LocalTtl := 10 * 60 * 1000
  const ApiTtl := 5 * 60 * 1000

  function CacheKey(id: string): string {
    "data_" + id
  }

  lemma CacheKeyInjective(a: string, b: string)
    ensures CacheKey(a) == CacheKey(b) <==> a == b
  {
    if CacheKey(a) == CacheKey(b) {
      assert a == CacheKey(a)[5..] && b == CacheKey(b)[5..];
    }
  }

  /** The cache holds a live response for `id`. */
  predicate Cached(c: Cache<Response>, id: string, now: int) {
    LiveIn(c, CacheKey(id), now)
  }

  /** How long a fresh response is kept. */
  function Ttl(source: DataSource): int {
    match source
    case Local => LocalTtl
    case Api => ApiTtl
  }

  /** `getDataById(id)`: a live cached response is served as coming from the cache; otherwise
      the plain lookup runs and its response is cached when it carries data. */
  function GetDataById(
    cache: Cache<Response>, source: DataSource, table: seq<Field>, id: string,
    now: int, stamp: string, outcome: ApiOutcome): (r: Fetched)
    requires Valid(cache)
    ensures Valid(r.cache) && r.cache.config == cache.config
    ensures Cached(cache, id, now) ==>
      r.cache == cache &&
      r.response == cache.store.entries[CacheKey(id)].data.(source := FromCache, cached := Some(true))
    ensures !Cached(cache, id, now) ==>
      r.response == DataService.GetDataById(source, table, id, stamp, outcome)
    ensures !Cached(cache, id, now) && HasData(r.response) ==>
      CacheKey(id) in r.cache.store.entries &&
      r.cache.store.entries[CacheKey(id)] == Entry(r.response, now, now + Ttl(source))
    ensures !Cached(cache, id, now) && !HasData(r.response) ==>
      CacheKey(id) !in r.cache.store.entries &&
      forall k :: k in r.cache.store.entries ==> k in cache.store.entries && r.cache.store.entries[k] == cache.store.entries[k]
  {
    var key := CacheKey(id);
    var read := TtlCache.Get(cache, key, now);
    if read.answer.Some? then
      Fetched(read.cache, read.answer.value.(source := FromCache, cached := Some(true)))
    else
      var response := DataService.GetDataById(source, table, id, stamp, outcome);
      if HasData(response) then Fetched(TtlCache.Set(read.cache, key, response, Some(Ttl(source)), now), response)
      else Fetched(read.cache, response)
  }

  /** A failed API call is answered with `null` data and an error, and is not cached. */
  lemma ApiFailuresNotCached(
    cache: Cache<Response>, table: seq<Field>, id: string, now: int, stamp: string, outcome: ApiOutcome)
    requires Valid(cache) && !Cached(cache, id, now) && Failed(outcome)
    ensures GetDataById(cache, Api, table, id, now, stamp, outcome).response.data == Some(JNull)
    ensures GetDataById(cache, Api, table, id, now, stamp, outcome).response.error.Some?
    ensures CacheKey(id) !in GetDataById(cache, Api, table, id, now, stamp, outcome).cache.store.entries
  {
  }

  /** A response with data is served from the cache by a second request for the same id made
      before it expires, whatever the data source says by then. */
  lemma RepeatIsServedFromCache(
    cache: Cache<Response>, source: DataSource, table: seq<Field>, id: string,
    now: int, stamp: string, outcome: ApiOutcome,
    source2: DataSource, table2: seq<Field>, later: int, stamp2: string, outcome2: ApiOutcome)
    requires Valid(cache) && !Cached(cache, id, now)
    requires HasData(GetDataById(cache, source, table, id, now, stamp, outcome).response)
    requires now <= later <= now + Ttl(source)
    ensures
      var first := GetDataById(cache, source, table, id, now, stamp, outcome);
      GetDataById(first.cache, source2, table2, id, later, stamp2, outcome2).response
        == first.response.(source := FromCache, cached := Some(true))
  {
    var first := GetDataById(cache, source, table, id, now, stamp, outcome);
    assert Cached(first.cache, id, later);
  }

  /** One id of `preloadCommonData`: looked up unless its response is cached. */
  function Visit(
    cache: Cache<Response>, id: string, source: DataSource, table: seq<Field>,
    now: int, stamp: string, outcome: ApiOutcome): (r: Preloaded)
    requires Valid(cache)
    ensures Valid(r.cache) && r.cache.config == cache.config
    ensures r.fetched == if Cached(cache, id, now) then [] else [id]
    ensures |r.cache.store.keys| <= |cache.store.keys| + 1
    ensures |cache.store.keys| < cache.config.maxSize ==>
      forall other :: other != id ==> Cached(r.cache, other, now) == Cached(cache, other, now)
  {
    var check := Has(cache, CacheKey(id), now);
    if check.answer then Preloaded(check.cache, [])
    else
      var f := GetDataById(check.cache, source, table, id, now, stamp, outcome);
      forall other | other != id
        ensures |cache.store.keys| < cache.config.maxSize ==> Cached(f.cache, other, now) == Cached(cache, other, now)
      {
        CacheKeyInjective(other, id);
      }
      Preloaded(f.cache, [id])
  }

  /** Looking up the first id or not, then a subsequence of the others, keeps list order and
      never repeats an id the list does not repeat. */
  lemma FetchedInOrder(ids: seq<string>, first: seq<string>, rest: seq<string>)
    requires |ids| > 0 && (first == [] || first == [ids[0]])
    requires Seqs.IsSubsequence(rest, ids[1..])
    requires forall i :: 0 <= i < |rest| ==> rest[i] in ids[1..]
    requires Seqs.NoDuplicates(ids[1..]) ==> Seqs.NoDuplicates(rest)
    ensures Seqs.IsSubsequence(first + rest, ids)
    ensures Seqs.NoDuplicates(ids) ==> Seqs.NoDuplicates(first + rest)
  {
    var fetched := first + rest;
    if first == [] {
      assert fetched == rest;
    } else {
      assert fetched[0] == ids[0] && fetched[1..] == rest;
    }
    if Seqs.NoDuplicates(ids) {
      assert Seqs.NoDuplicates(ids[1..]);
      assert ids[0] !in ids[1..];
    }
  }

  /** `preloadCommonData` over a list of ids, one after the other. */
  function PreloadIds(
    cache: Cache<Response>, ids: seq<string>, source: DataSource, table: seq<Field>,
    now: int, stamp: string, outcomes: string -> ApiOutcome): (r: Preloaded)
    requires Valid(cache)
    ensures Valid(r.cache) && r.cache.config == cache.config
    ensures forall i :: 0 <= i < |r.fetched| ==> r.fetched[i] in ids
    ensures |r.fetched| <= |ids|
    ensures Seqs.IsSubsequence(r.fetched, ids)
    ensures Seqs.NoDuplicates(ids) ==> Seqs.NoDuplicates(r.fetched)
    decreases |ids|
  {
    if |ids| == 0 then Preloaded(cache, [])
    else
      var v := Visit(cache, ids[0], source, table, now, stamp, outcomes(ids[0]));
      var rest := PreloadIds(v.cache, ids[1..], source, table, now, stamp, outcomes);
      var fetched := v.fetched + rest.fetched;
      FetchedInOrder(ids, v.fetched, rest.fetched);
      Preloaded(rest.cache, fetched)
  }

  /** `preloadCommonData()`. */
  function PreloadCommonData(
    cache: Cache<Response>, source: DataSource, table: seq<Field>,
    now: int, stamp: string, outcomes: string -> ApiOutcome): (r: Preloaded)
    requires Valid(cache)
    ensures Valid(r.cache)
    ensures forall i :: 0 <= i < |r.fetched| ==> r.fetched[i] in DemoIds
  {
    PreloadIds(cache, DemoIds, source, table, now, stamp, outcomes)
  }

  function NotCachedAt(c: Cache<Response>, now: int): string -> bool {
    id => !Cached(c, id, now)
  }

  /** While the cache has room for every id, preloading looks up exactly the ids that were not
      cached when it started, in order. */
  lemma {:induction false} PreloadFetchesExactlyUncached(
    cache: Cache<Response>, ids: seq<string>, source: DataSource, table: seq<Field>,
    now: int, stamp: string, outcomes: string -> ApiOutcome)
    requires Valid(cache) && Seqs.NoDuplicates(ids)
    requires |cache.store.keys| + |ids| <= cache.config.maxSize
    ensures PreloadIds(cache, ids, source, table, now, stamp, outcomes).fetched
      == Seqs.Filter(ids, NotCachedAt(cache, now))
    decreases |ids|
  {
    if |ids| > 0 {
      var id := ids[0];
      var v := Visit(cache, id, source, table, now, stamp, outcomes(id));
      forall i | 1 <= i < |ids|
        ensures NotCachedAt(v.cache, now)(ids[i]) == NotCachedAt(cache, now)(ids[i])
      {
        assert ids[i] != id;
      }
      var p := NotCachedAt(cache, now);
      Seqs.FilterCongruent(ids[1..], NotCachedAt(v.cache, now), p);
      assert Seqs.NoDuplicates(ids[1..]);
      PreloadFetchesExactlyUncached(v.cache, ids[1..], source, table, now, stamp, outcomes);
      var rest := PreloadIds(v.cache, ids[1..], source, table, now, stamp, outcomes);
      assert PreloadIds(cache, ids, source, table, now, stamp, outcomes).fetched == v.fetched + rest.fetched;
      assert Seqs.Filter(ids, p) == (if p(id) then [id] else []) + Seqs.Filter(ids[1..], p);
    }
  }

  /** When every id is cached, preloading looks nothing up and leaves the cache alone. */
  lemma {:induction false} PreloadSkipsCached(
    cache: Cache<Response>, ids: seq<string>, source: DataSource, table: seq<Field>,
    now: int, stamp: string, outcomes: string -> ApiOutcome)
    requires Valid(cache)
    requires forall i :: 0 <= i < |ids| ==> Cached(cache, ids[i], now)
    ensures PreloadIds(cache, ids, source, table, now, stamp, outcomes) == Preloaded(cache, [])
    decreases |ids|
  {
    if |ids| > 0 {
      PreloadSkipsCached(cache, ids[1..], source, table, now, stamp, outcomes);
    }
  }
}
