/** The background preloader (`PreloaderService`): a queue of ids to fetch ahead of time, the
    set of ids already preloaded, and the shared data cache. Fetched responses are cached for
    ten minutes and their linked ids are preloaded in turn. The data lookup is the parameter
    `fetch`; time is `now`; the asynchronous batches are run one id after the other. */
module Preloader {
  import opened Wrappers
  import opened LinkedIds
  import opened DataService
  import opened TtlCache
  import opened CachedDataService
  import Seqs

  datatype Settings = Settings(commonIds: seq<string>, linkedDataDepth: int)

  const DefaultSettings := Settings(DemoIds, 1)

  const PreloadTtl := 10 * 60 * 1000
  /** At most this many queued ids are preloaded per run of the queue. */
  const QueueBatch := 5
  /** At most this many linked ids are preloaded per fetched document. */
  const LinkedBatch := 3

  /** `preloadQueue` (a `Set`, so insertion-ordered without repeats), `isPreloading`,
      `preloadedIds`, and the shared data cache. */
  datatype State = State(queue: seq<string>, preloading: bool, preloaded: set<string>, cache: Cache<Response>)

  ghost predicate Valid(st: State) {
    TtlCache.Valid(st.cache) && Seqs.NoDuplicates(st.queue)
  }

  function Initial(config: CacheConfig): (st: State)
    ensures Valid(st) && st.queue == [] && st.preloaded == {}
  {
    State([], false, {}, New(config))
  }

  /** An id worth preloading: neither cached nor preloaded yet. */
  predicate Fresh(c: Cache<Response>, preloaded: set<string>, id: string, now: int) {
    !Cached(c, id, now) && id !in preloaded
  }

  function FreshAt(c: Cache<Response>, preloaded: set<string>, now: int): string -> bool {
    id => Fresh(c, preloaded, id, now)
  }

  /** `ids.filter(id => !dataCache.has("data_" + id) && !preloadedIds.has(id))`; the `has`
      calls delete the expired entries they meet. */
  function FilterFresh(c: Cache<Response>, preloaded: set<string>, ids: seq<string>, now: int): (r: Read<Response, seq<string>>)
    requires TtlCache.Valid(c)
    ensures TtlCache.Valid(r.cache) && r.cache.config == c.config
    ensures forall id :: Cached(r.cache, id, now) == Cached(c, id, now)
    ensures r.answer == Seqs.Filter(ids, FreshAt(c, preloaded, now))
    decreases |ids|
  {
    if |ids| == 0 then Read(c, [])
    else
      var h := Has(c, CacheKey(ids[0]), now);
      assert forall id :: Cached(h.cache, id, now) == Cached(c, id, now);
      var rest := FilterFresh(h.cache, preloaded, ids[1..], now);
      Seqs.FilterCongruent(ids[1..], FreshAt(h.cache, preloaded, now), FreshAt(c, preloaded, now));
      Read(rest.cache, (if !h.answer && ids[0] !in preloaded then [ids[0]] else []) + rest.answer)
  }

  /** `queuePreload(id)`: queued once, and only if it is neither preloaded nor cached. The
      timer that later runs the queue is left to the caller. */
  function QueuePreload(st: State, id: string, now: int): (r: State)
    requires Valid(st)
    ensures Valid(r) && r.preloaded == st.preloaded && r.preloading == st.preloading
    ensures Fresh(st.cache, st.preloaded, id, now) ==>
      r.queue == (if id in st.queue then st.queue else st.queue + [id])
    ensures !Fresh(st.cache, st.preloaded, id, now) ==> r.queue == st.queue
    ensures forall x :: Cached(r.cache, x, now) == Cached(st.cache, x, now)
  {
    if id in st.preloaded then st
    else
      var h := Has(st.cache, CacheKey(id), now);
      if h.answer then st.(cache := h.cache)
      else st.(cache := h.cache, queue := if id in st.queue then st.queue else st.queue + [id])
  }

  /** Queuing the same id again changes nothing. */
  lemma QueuePreloadIdempotent(st: State, id: string, now: int)
    requires Valid(st)
    ensures QueuePreload(QueuePreload(st, id, now), id, now).queue == QueuePreload(st, id, now).queue
  {
  }

  /** The ids `preloadLinkedData` considers, in order: the medication, the manufacturer and
      the first two units. */
  function LinkedCandidates(links: Links): (r: seq<string>)
    ensures |r| <= 4
  {
    (if links.medikament.Some? && links.medikament.value != "" then [links.medikament.value] else [])
    + (if links.hersteller.Some? && links.hersteller.value != "" then [links.hersteller.value] else [])
    + (if links.unit.Some? then Seqs.Take(links.unit.value, 2) else [])
  }

  // ---------------------------------------------------------------------------
  // Preloading, with the measure that makes the transitive recursion terminate
  // ---------------------------------------------------------------------------

  /** `universe` contains every id whose lookup yields data. */
  ghost predicate Bounds(fetch: string -> Response, universe: set<string>) {
    forall id :: HasData(fetch(id)) ==> id in universe
  }

  /** The ids that could still be preloaded. */
  function Remaining(universe: set<string>, preloaded: set<string>): nat {
    |universe - preloaded|
  }

  lemma RemainingShrinks(universe: set<string>, a: set<string>, b: set<string>)
    requires a <= b
    ensures Remaining(universe, b) <= Remaining(universe, a)
    ensures forall x :: x in universe && x in b && x !in a ==> Remaining(universe, b) < Remaining(universe, a)
  {
    var small := universe - b;
    var big := universe - a;
    assert big == small + (big - small);
    assert small * (big - small) == {};
    forall x | x in universe && x in b && x !in a
      ensures Remaining(universe, b) < Remaining(universe, a)
    {
      assert x in big - small;
    }
  }

  /** The first half of `preloadSingleId` on data: the response is cached for ten minutes
      and the id is marked as preloaded. */
  function Store(st: State, id: string, response: Response, now: int): (r: State)
    requires Valid(st)
    ensures Valid(r) && r.queue == st.queue && r.preloading == st.preloading
    ensures r.preloaded == st.preloaded + {id}
    ensures CacheKey(id) in r.cache.store.entries
    ensures r.cache.store.entries[CacheKey(id)] == Entry(response, now, now + PreloadTtl)
    ensures Cached(r.cache, id, now)
  {
    st.(cache := TtlCache.Set(st.cache, CacheKey(id), response, Some(PreloadTtl), now),
        preloaded := st.preloaded + {id})
  }

  /** `preloadSingleId(id)`: on data, cache it under `"data_" + id`, mark the id preloaded and
      preload its linked ids. */
  function PreloadSingle(
    st: State, id: string, settings: Settings, fetch: string -> Response, now: int,
    universe: set<string>, bound: nat): (r: State)
    requires Valid(st) && Bounds(fetch, universe) && st.preloaded <= universe
    requires Remaining(universe, st.preloaded) < bound
      || (id !in st.preloaded && Remaining(universe, st.preloaded) <= bound)
    ensures Valid(r) && r.queue == st.queue && r.preloading == st.preloading
    ensures st.preloaded <= r.preloaded <= universe
    ensures forall x :: x in r.preloaded && x !in st.preloaded ==> HasData(fetch(x))
    ensures HasData(fetch(id)) ==> id in r.preloaded
    ensures !HasData(fetch(id)) ==> r == st
    decreases bound, 0, 0
  {
    var response := fetch(id);
    if !HasData(response) then st
    else
      var stored := Store(st, id, response, now);
      RemainingShrinks(universe, st.preloaded, stored.preloaded);
      if settings.linkedDataDepth > 0 && response.linkedIds.Some? then
        PreloadLinked(stored, response.linkedIds.value, settings, fetch, now, universe, Remaining(universe, stored.preloaded))
      else stored
  }

  /** The linked ids `preloadLinkedData` goes on to preload: the fresh candidates, at most three. */
  function LinkedSelection(st: State, links: Links, now: int): (r: Read<Response, seq<string>>)
    requires Valid(st)
    ensures TtlCache.Valid(r.cache) && forall id :: Cached(r.cache, id, now) == Cached(st.cache, id, now)
    ensures r.answer == Seqs.Take(Seqs.Filter(LinkedCandidates(links), FreshAt(st.cache, st.preloaded, now)), LinkedBatch)
    ensures |r.answer| <= LinkedBatch
  {
    var f := FilterFresh(st.cache, st.preloaded, LinkedCandidates(links), now);
    Read(f.cache, Seqs.Take(f.answer, LinkedBatch))
  }

  /** `preloadLinkedData(linkedIds)`. */
  function PreloadLinked(
    st: State, links: Links, settings: Settings, fetch: string -> Response, now: int,
    universe: set<string>, bound: nat): (r: State)
    requires Valid(st) && Bounds(fetch, universe) && st.preloaded <= universe
    requires bound == Remaining(universe, st.preloaded)
    ensures Valid(r) && r.queue == st.queue && r.preloading == st.preloading
    ensures st.preloaded <= r.preloaded <= universe
    ensures forall x :: x in r.preloaded && x !in st.preloaded ==> HasData(fetch(x))
    decreases bound, 1, 0
  {
    var sel := LinkedSelection(st, links, now);
    PreloadBatch(st.(cache := sel.cache), sel.answer, settings, fetch, now, universe, st.preloaded, bound)
  }

  /** Preloading a batch chosen when the preloaded set was `chosenAt`: every member was fresh
      then, so each either is still unpreloaded or has been preloaded since. */
  function PreloadBatch(
    st: State, ids: seq<string>, settings: Settings, fetch: string -> Response, now: int,
    universe: set<string>, chosenAt: set<string>, bound: nat): (r: State)
    requires Valid(st) && Bounds(fetch, universe) && st.preloaded <= universe
    requires chosenAt <= st.preloaded && bound == Remaining(universe, chosenAt)
    requires forall i :: 0 <= i < |ids| ==> ids[i] !in chosenAt
    ensures Valid(r) && r.queue == st.queue && r.preloading == st.preloading
    ensures st.preloaded <= r.preloaded <= universe
    ensures forall x :: x in r.preloaded && x !in st.preloaded ==> HasData(fetch(x))
    ensures forall i :: 0 <= i < |ids| && HasData(fetch(ids[i])) ==> ids[i] in r.preloaded
    decreases bound, 0, |ids| + 1
  {
    if |ids| == 0 then st
    else
      RemainingShrinks(universe, chosenAt, st.preloaded);
      var first := PreloadSingle(st, ids[0], settings, fetch, now, universe, bound);
      PreloadBatch(first, ids[1..], settings, fetch, now, universe, chosenAt, bound)
  }

  /** The queued ids one run of the queue preloads: the first five fresh ones. */
  function QueueSelection(st: State, now: int): (r: Read<Response, seq<string>>)
    requires Valid(st)
    ensures TtlCache.Valid(r.cache) && forall id :: Cached(r.cache, id, now) == Cached(st.cache, id, now)
    ensures r.answer == Seqs.Take(Seqs.Filter(st.queue, FreshAt(st.cache, st.preloaded, now)), QueueBatch)
    ensures |r.answer| <= QueueBatch
  {
    var f := FilterFresh(st.cache, st.preloaded, st.queue, now);
    Read(f.cache, Seqs.Take(f.answer, QueueBatch))
  }

  /** `processPreloadQueue()`: the queue is emptied and its selection preloaded. */
  function ProcessQueue(
    st: State, settings: Settings, fetch: string -> Response, now: int, universe: set<string>): (r: State)
    requires Valid(st) && Bounds(fetch, universe) && st.preloaded <= universe
    ensures Valid(r) && r.queue == [] && r.preloading == st.preloading
    ensures st.preloaded <= r.preloaded <= universe
    ensures forall x :: x in r.preloaded && x !in st.preloaded ==> HasData(fetch(x))
    ensures forall id :: id in QueueSelection(st, now).answer && HasData(fetch(id)) ==> id in r.preloaded
  {
    var sel := QueueSelection(st, now);
    PreloadBatch(st.(queue := [], cache := sel.cache), sel.answer, settings, fetch, now,
      universe, st.preloaded, Remaining(universe, st.preloaded))
  }

  /** `preloadCommonIds()`: every fresh common id, without a limit. */
  function PreloadCommonIds(
    st: State, settings: Settings, fetch: string -> Response, now: int, universe: set<string>): (r: State)
    requires Valid(st) && Bounds(fetch, universe) && st.preloaded <= universe
    ensures Valid(r) && r.queue == st.queue && r.preloading == st.preloading
    ensures st.preloaded <= r.preloaded <= universe
    ensures forall x :: x in r.preloaded && x !in st.preloaded ==> HasData(fetch(x))
    ensures forall i :: 0 <= i < |settings.commonIds| ==>
      Fresh(st.cache, st.preloaded, settings.commonIds[i], now) && HasData(fetch(settings.commonIds[i])) ==>
      settings.commonIds[i] in r.preloaded
  {
    var f := FilterFresh(st.cache, st.preloaded, settings.commonIds, now);
    var r := PreloadBatch(st.(cache := f.cache), f.answer, settings, fetch, now,
      universe, st.preloaded, Remaining(universe, st.preloaded));
    assert forall i :: 0 <= i < |settings.commonIds| ==>
      Fresh(st.cache, st.preloaded, settings.commonIds[i], now) ==> settings.commonIds[i] in f.answer;
    r
  }

  /** `startPreloading()`: nothing while a run is in progress; otherwise the common ids, then
      the queue, and the flag is cleared at the end. */
  function StartPreloading(
    st: State, settings: Settings, fetch: string -> Response, now: int, universe: set<string>): (r: State)
    requires Valid(st) && Bounds(fetch, universe) && st.preloaded <= universe
    ensures Valid(r) && r.preloaded <= universe
    ensures st.preloading ==> r == st
    ensures !st.preloading ==> !r.preloading && r.queue == [] && st.preloaded <= r.preloaded
    ensures forall x :: x in r.preloaded && x !in st.preloaded ==> HasData(fetch(x))
  {
    if st.preloading then st
    else
      var running := st.(preloading := true);
      var common := PreloadCommonIds(running, settings, fetch, now, universe);
      var done := ProcessQueue(common, settings, fetch, now, universe);
      done.(preloading := false)
  }
}
