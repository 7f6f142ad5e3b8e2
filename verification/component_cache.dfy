/** The component render cache (`ComponentCacheService`): rendered components kept under a
    key made of the component name and a hash of its props with sorted keys, expiring and
    evicted like the data cache, invalidated when the props differ shallowly from the ones the
    component was rendered with, and counting how often each was served. */
module ComponentCache {
  import opened Wrappers
  import opened Text
  import opened Json
  import OrderedMap
  import opened TtlCache

  // ---------------------------------------------------------------------------------------
  // Canonical props: `sortObjectKeys`

  /** The members of an object ordered by key. */
  predicate KeysSorted(fs: seq<Field>) {
    forall i, j :: 0 <= i < j < |fs| ==> LexLe(fs[i].key, fs[j].key)
  }

  /** Places `f` after the leading members whose keys do not come after its key. */
  function InsertField(t: seq<Field>, f: Field): (r: seq<Field>)
    ensures multiset(r) == multiset(t) + multiset{f}
    ensures |r| == |t| + 1
  {
    if |t| == 0 then [f]
    else if LexLe(t[0].key, f.key) then
      assert t == [t[0]] + t[1..];
      [t[0]] + InsertField(t[1..], f)
    else [f] + t
  }

  /** `Object.keys(obj).sort()` applied to the members. */
  function SortFields(fs: seq<Field>): (r: seq<Field>)
    ensures multiset(r) == multiset(fs)
    ensures |r| == |fs|
  {
    if |fs| == 0 then []
    else
      assert fs == fs[..|fs| - 1] + [fs[|fs| - 1]];
      InsertField(SortFields(fs[..|fs| - 1]), fs[|fs| - 1])
  }

  lemma {:induction false} InsertFieldSorted(t: seq<Field>, f: Field)
    requires KeysSorted(t)
    ensures KeysSorted(InsertField(t, f))
  {
    if |t| > 0 && LexLe(t[0].key, f.key) {
      InsertFieldSorted(t[1..], f);
      var r := InsertField(t, f);
      var tail := InsertField(t[1..], f);
      forall j | 0 < j < |r| ensures LexLe(r[0].key, r[j].key) {
        assert r[j] in multiset(tail);
        if r[j] != f {
          assert r[j] in t[1..];
        }
      }
    } else if |t| > 0 {
      LexLeTotal(t[0].key, f.key);
      var r := InsertField(t, f);
      forall j | 0 < j < |r| ensures LexLe(r[0].key, r[j].key) {
        assert r[j] == t[j - 1];
        if j > 1 {
          LexLeTransitive(f.key, t[0].key, t[j - 1].key);
        }
      }
    }
  }

  lemma {:induction false} SortFieldsSorted(fs: seq<Field>)
    ensures KeysSorted(SortFields(fs))
  {
    if |fs| > 0 {
      SortFieldsSorted(fs[..|fs| - 1]);
      InsertFieldSorted(SortFields(fs[..|fs| - 1]), fs[|fs| - 1]);
    }
  }

  lemma {:induction false} InsertFieldAtEnd(t: seq<Field>, f: Field)
    requires forall i :: 0 <= i < |t| ==> LexLe(t[i].key, f.key)
    ensures InsertField(t, f) == t + [f]
  {
    if |t| > 0 {
      InsertFieldAtEnd(t[1..], f);
      assert t == [t[0]] + t[1..];
    }
  }

  /** Sorting members already in key order changes nothing. */
  lemma {:induction false} SortFieldsOfSorted(fs: seq<Field>)
    requires KeysSorted(fs)
    ensures SortFields(fs) == fs
  {
    if |fs| > 0 {
      var init, last := fs[..|fs| - 1], fs[|fs| - 1];
      assert fs == init + [last];
      SortedSplitLast(init, last);
      SortFieldsOfSorted(init);
      InsertFieldAtEnd(init, last);
    }
  }

  /** Members in key order: all but the last are in key order, and none comes after the last. */
  lemma SortedSplitLast(init: seq<Field>, last: Field)
    requires KeysSorted(init + [last])
    ensures KeysSorted(init)
    ensures forall i :: 0 <= i < |init| ==> LexLe(init[i].key, last.key)
  {
    var fs := init + [last];
    forall i, j | 0 <= i < j < |init| ensures LexLe(init[i].key, init[j].key) {
      assert init[i] == fs[i] && init[j] == fs[j];
    }
    forall i | 0 <= i < |init| ensures LexLe(init[i].key, last.key) {
      assert init[i] == fs[i] && last == fs[|init|];
    }
  }

  /** `sortObjectKeys(obj)`: every object's keys in order, arrays element by element, and
      every other value as it is. */
  function SortKeys(j: Json): (r: Json)
    ensures !IsObjectLike(j) ==> r == j
    ensures j.JArr? ==> r.JArr? && |r.items| == |j.items|
    ensures j.JArr? ==> forall i :: 0 <= i < |j.items| ==> r.items[i] == SortKeys(j.items[i])
    ensures j.JObj? ==> r.JObj? && |r.fields| == |j.fields| && KeysSorted(r.fields)
    ensures j.JObj? ==> multiset(r.fields) == multiset(SortValues(j.fields))
    decreases j
  {
    match j
    case JArr(items) => JArr(SortItems(items))
    case JObj(fields) =>
      SortFieldsSorted(SortValues(fields));
      JObj(SortFields(SortValues(fields)))
    case _ => j
  }

  function SortItems(items: seq<Json>): (r: seq<Json>)
    ensures |r| == |items|
    ensures forall i :: 0 <= i < |items| ==> r[i] == SortKeys(items[i])
    decreases items
  {
    if |items| == 0 then [] else [SortKeys(items[0])] + SortItems(items[1..])
  }

  /** The members with their values canonicalised, keys and order unchanged. */
  function SortValues(fields: seq<Field>): (r: seq<Field>)
    ensures |r| == |fields|
    ensures forall i :: 0 <= i < |fields| ==> r[i].key == fields[i].key
    ensures forall i :: 0 <= i < |fields| ==> r[i].value == SortKeys(fields[i].value)
    decreases fields
  {
    if |fields| == 0 then []
    else [Field(fields[0].key, SortKeys(fields[0].value))] + SortValues(fields[1..])
  }

  /** Values `sortObjectKeys` leaves alone: every object's keys in order, all the way down. */
  predicate Canonical(j: Json)
    decreases j
  {
    match j
    case JArr(items) => CanonicalItems(items)
    case JObj(fields) => KeysSorted(fields) && CanonicalFields(fields)
    case _ => true
  }

  predicate CanonicalItems(items: seq<Json>)
    decreases items
  {
    |items| == 0 || (Canonical(items[0]) && CanonicalItems(items[1..]))
  }

  predicate CanonicalFields(fields: seq<Field>)
    decreases fields
  {
    |fields| == 0 || (Canonical(fields[0].value) && CanonicalFields(fields[1..]))
  }

  /** `CanonicalFields` member by member. */
  lemma {:induction false} CanonicalFieldsAt(fields: seq<Field>)
    ensures CanonicalFields(fields) <==> forall i :: 0 <= i < |fields| ==> Canonical(fields[i].value)
    decreases |fields|
  {
    if |fields| > 0 {
      CanonicalFieldsAt(fields[1..]);
      assert forall i :: 1 <= i < |fields| ==> fields[i] == fields[1..][i - 1];
    }
  }

  /** `sortObjectKeys` yields canonical values, and leaves canonical values unchanged; so it is
      idempotent. */
  lemma {:induction false} SortKeysCanonical(j: Json)
    ensures Canonical(SortKeys(j))
    ensures Canonical(j) ==> SortKeys(j) == j
    decreases j
  {
    match j
    case JArr(items) => SortItemsCanonical(items);
    case JObj(fields) => SortObjectCanonical(fields);
    case _ =>
  }

  lemma {:induction false} SortObjectCanonical(fields: seq<Field>)
    ensures KeysSorted(SortFields(SortValues(fields))) && CanonicalFields(SortFields(SortValues(fields)))
    ensures KeysSorted(fields) && CanonicalFields(fields) ==> SortFields(SortValues(fields)) == fields
    decreases fields, 1
  {
    SortValuesCanonical(fields);
    var vs := SortValues(fields);
    SortFieldsSorted(vs);
    PermutedCanonical(vs, SortFields(vs));
    if KeysSorted(fields) && CanonicalFields(fields) {
      SortFieldsOfSorted(fields);
    }
  }

  /** Reordering members keeps them canonical. */
  lemma PermutedCanonical(a: seq<Field>, b: seq<Field>)
    requires multiset(a) == multiset(b) && CanonicalFields(a)
    ensures CanonicalFields(b)
  {
    CanonicalFieldsAt(a);
    CanonicalFieldsAt(b);
    forall i | 0 <= i < |b| ensures Canonical(b[i].value) {
      assert b[i] in multiset(a);
      var k :| 0 <= k < |a| && a[k] == b[i];
    }
  }

  lemma {:induction false} SortItemsCanonical(items: seq<Json>)
    ensures CanonicalItems(SortItems(items))
    ensures CanonicalItems(items) ==> SortItems(items) == items
    decreases items
  {
    if |items| > 0 {
      SortKeysCanonical(items[0]);
      SortItemsCanonical(items[1..]);
      assert SortItems(items)[1..] == SortItems(items[1..]);
      if CanonicalItems(items) {
        assert items == [items[0]] + items[1..];
      }
    }
  }

  lemma {:induction false} SortValuesCanonical(fields: seq<Field>)
    ensures CanonicalFields(SortValues(fields))
    ensures CanonicalFields(fields) ==> SortValues(fields) == fields
    decreases fields, 0
  {
    if |fields| > 0 {
      SortKeysCanonical(fields[0].value);
      SortValuesCanonical(fields[1..]);
      assert SortValues(fields)[1..] == SortValues(fields[1..]);
      if CanonicalFields(fields) {
        assert fields == [fields[0]] + fields[1..];
      }
    }
  }

  lemma SortKeysIdempotent(j: Json)
    ensures SortKeys(SortKeys(j)) == SortKeys(j)
  {
    SortKeysCanonical(j);
    SortKeysCanonical(SortKeys(j));
  }

  // ---------------------------------------------------------------------------------------
  // Shallow props comparison

  /** `Object.keys(p || {})`: member names of an object, indices of an array, nothing for
      other values. */
  function PropKeys(p: Json): seq<string> {
    Keys(Entries(p))
  }

  function Keys(fs: seq<Field>): (r: seq<string>)
    ensures |r| == |fs|
    ensures forall i :: 0 <= i < |fs| ==> r[i] == fs[i].key
  {
    if |fs| == 0 then [] else [fs[0].key] + Keys(fs[1..])
  }

  /** `p[key]`, `undefined` when `p` has no such own member. */
  function Prop(p: Json, key: string): Option<Json> {
    Lookup(Entries(p), key)
  }

  /** `a === b` on two possibly-undefined values. Primitives are compared by value; objects
      and arrays by reference, which the model leaves to `identical`. */
  predicate StrictEqual(a: Option<Json>, b: Option<Json>, identical: (Json, Json) -> bool) {
    if a.None? || b.None? then a.None? && b.None?
    else if IsObjectLike(a.value) || IsObjectLike(b.value) then
      IsObjectLike(a.value) && IsObjectLike(b.value) && identical(a.value, b.value)
    else a.value == b.value
  }

  /** The key reads differently in the two props. */
  predicate KeyDiffers(key: string, stored: Json, current: Json, identical: (Json, Json) -> bool) {
    !StrictEqual(Prop(stored, key), Prop(current, key), identical)
  }

  /** Whether some of the listed keys reads differently in the two props. */
  predicate SomeDiffer(keys: seq<string>, stored: Json, current: Json, identical: (Json, Json) -> bool) {
    |keys| > 0 && (KeyDiffers(keys[0], stored, current, identical) || SomeDiffer(keys[1..], stored, current, identical))
  }

  /** `propsChanged(oldProps, newProps)`: never when the comparison is switched off; otherwise
      a different number of keys, or an stored key whose value is not identical. */
  predicate PropsChanged(enabled: bool, stored: Json, current: Json, identical: (Json, Json) -> bool)
    ensures PropsChanged(enabled, stored, current, identical) <==>
      enabled &&
      (|PropKeys(stored)| != |PropKeys(current)| ||
       exists i :: 0 <= i < |PropKeys(stored)| && KeyDiffers(PropKeys(stored)[i], stored, current, identical))
  {
    SomeDifferAt(PropKeys(stored), stored, current, identical);
    enabled && (|PropKeys(stored)| != |PropKeys(current)| || SomeDiffer(PropKeys(stored), stored, current, identical))
  }

  lemma SomeDifferAt(keys: seq<string>, stored: Json, current: Json, identical: (Json, Json) -> bool)
    ensures SomeDiffer(keys, stored, current, identical) <==>
      exists i :: 0 <= i < |keys| && KeyDiffers(keys[i], stored, current, identical)
  {
    if SomeDiffer(keys, stored, current, identical) {
      var i := DifferingKey(keys, stored, current, identical);
    }
    if exists i :: 0 <= i < |keys| && KeyDiffers(keys[i], stored, current, identical) {
      var i :| 0 <= i < |keys| && KeyDiffers(keys[i], stored, current, identical);
      DifferingKeyFound(keys, i, stored, current, identical);
    }
  }

  /** The position of a key that reads differently, when some does. */
  lemma {:induction false} DifferingKey(keys: seq<string>, stored: Json, current: Json, identical: (Json, Json) -> bool)
    returns (i: nat)
    requires SomeDiffer(keys, stored, current, identical)
    ensures i < |keys| && KeyDiffers(keys[i], stored, current, identical)
    decreases |keys|
  {
    if KeyDiffers(keys[0], stored, current, identical) {
      i := 0;
    } else {
      var j := DifferingKey(keys[1..], stored, current, identical);
      i := j + 1;
      assert keys[1..][j] == keys[i];
    }
  }

  /** A key that reads differently makes the scan report a difference. */
  lemma {:induction false} DifferingKeyFound(keys: seq<string>, i: nat, stored: Json, current: Json, identical: (Json, Json) -> bool)
    requires i < |keys| && KeyDiffers(keys[i], stored, current, identical)
    ensures SomeDiffer(keys, stored, current, identical)
    decreases i
  {
    if i > 0 && !KeyDiffers(keys[0], stored, current, identical) {
      assert keys[1..][i - 1] == keys[i];
      DifferingKeyFound(keys[1..], i - 1, stored, current, identical);
    }
  }

  /** `{ ...props }`: the own members of an object, or the indices of an array, in a new
      object; nothing for other values. */
  function ShallowCopy(p: Json): (r: Json)
    ensures r.JObj? && r.fields == Entries(p)
    ensures forall k :: Prop(r, k) == Prop(p, k)
  {
    JObj(Entries(p))
  }

  /** Props compared with their own shallow copy have not changed, provided references
      compare equal to themselves. */
  lemma CopyIsUnchanged(enabled: bool, p: Json, identical: (Json, Json) -> bool)
    requires forall x :: identical(x, x)
    ensures !PropsChanged(enabled, ShallowCopy(p), p, identical)
  {
    assert PropKeys(ShallowCopy(p)) == PropKeys(p);
  }

  // ---------------------------------------------------------------------------------------
  // The cache

  /** A cached render: the element, the props it was rendered with, and how often it was
      served. */
  datatype Rendered<C> = Rendered(component: C, props: Json, renderCount: int)

  datatype Components<C> = Components(propsDiff: bool, cache: Cache<Rendered<C>>)

  datatype Served<C> = Served(components: Components<C>, answer: Option<C>)

  /** The constructor defaults, and the shared instance: ten minutes, fifty components. */
  function New<C>(defaultTtl: int, maxSize: int, propsDiff: bool): (r: Components<C>)
    ensures TtlCache.Valid(r.cache) && r.cache.store.entries == map[]
  {
    Components(propsDiff, TtlCache.New(CacheConfig(defaultTtl, maxSize)))
  }

  const DefaultTtl := 5 * 60 * 1000
  const DefaultMaxSize := 100

  function SharedInstance<C>(): Components<C> {
    New(10 * 60 * 1000, 50, true)
  }

  /** `generateCacheKey(name, props)`; `hash` stands for the base64 prefix of the JSON text. */
  function CacheKey(name: string, props: Json, hash: Json -> string): string {
    name + "_" + hash(SortKeys(props))
  }

  /** `get(name, props)`: nothing for a missing entry; an expired entry or one rendered with
      different props is deleted; otherwise the element is served and its count goes up. */
  function Get<C>(c: Components<C>, name: string, props: Json, now: int,
                  hash: Json -> string, identical: (Json, Json) -> bool): (r: Served<C>)
    requires TtlCache.Valid(c.cache)
    ensures TtlCache.Valid(r.components.cache) && r.components.propsDiff == c.propsDiff
    ensures r.components.cache.config == c.cache.config
    ensures
      var key := CacheKey(name, props, hash);
      var before := c.cache.store.entries;
      var after := r.components.cache.store.entries;
      && (key !in before ==> r == Served(c, None))
      && (key in before && !Live(before[key], now) ==> r.answer.None? && after == before - {key})
      && (key in before && Live(before[key], now) && PropsChanged(c.propsDiff, before[key].data.props, props, identical) ==>
            r.answer.None? && after == before - {key})
      && (r.answer.Some? <==>
            key in before && Live(before[key], now) && !PropsChanged(c.propsDiff, before[key].data.props, props, identical))
      && (r.answer.Some? ==>
            r.answer.value == before[key].data.component &&
            r.components.cache.store.keys == c.cache.store.keys &&
            after == before[key := before[key].(data := before[key].data.(renderCount := before[key].data.renderCount + 1))])
  {
    var key := CacheKey(name, props, hash);
    var read := TtlCache.Get(c.cache, key, now);
    if read.answer.None? then Served(Components(c.propsDiff, read.cache), None)
    else if PropsChanged(c.propsDiff, read.answer.value.props, props, identical) then
      Served(Components(c.propsDiff, TtlCache.Delete(read.cache, key).cache), None)
    else
      var e := c.cache.store.entries[key];
      var bumped := e.(data := e.data.(renderCount := e.data.renderCount + 1));
      Served(Components(c.propsDiff, Cache(c.cache.config, OrderedMap.Set(c.cache.store, key, bumped))), Some(e.data.component))
  }

  /** `set(name, props, element, ttl)`: stored with a shallow copy of the props and a count of
      one, after the data cache's expiry and eviction rules. */
  function Set<C>(c: Components<C>, name: string, props: Json, component: C, ttl: Option<int>, now: int,
                  hash: Json -> string): (r: Components<C>)
    requires TtlCache.Valid(c.cache)
    ensures TtlCache.Valid(r.cache) && r.propsDiff == c.propsDiff
    ensures r.cache == TtlCache.Set(c.cache, CacheKey(name, props, hash), Rendered(component, ShallowCopy(props), 1), ttl, now)
  {
    Components(c.propsDiff, TtlCache.Set(c.cache, CacheKey(name, props, hash), Rendered(component, ShallowCopy(props), 1), ttl, now))
  }

  /** A component stored and asked for again with the same props before it expires is served,
      and has then been served twice. */
  lemma SetThenGet<C>(c: Components<C>, name: string, props: Json, component: C, ttl: Option<int>,
                      now: int, later: int, hash: Json -> string, identical: (Json, Json) -> bool)
    requires TtlCache.Valid(c.cache) && forall x :: identical(x, x)
    requires later <= ExpiryTime(c.cache.config, now, ttl)
    ensures
      var r := Get(Set(c, name, props, component, ttl, now, hash), name, props, later, hash, identical);
      var key := CacheKey(name, props, hash);
      r.answer == Some(component) && r.components.cache.store.entries[key].data.renderCount == 2
  {
    CopyIsUnchanged(c.propsDiff, props, identical);
  }

  /** With the props comparison on, a served element was rendered with props that agree with
      the requested ones key for key, even when two different props hash alike. */
  lemma ServedPropsAgree<C>(c: Components<C>, name: string, props: Json, now: int,
                            hash: Json -> string, identical: (Json, Json) -> bool)
    requires TtlCache.Valid(c.cache) && c.propsDiff
    requires Get(c, name, props, now, hash, identical).answer.Some?
    ensures
      var stored := c.cache.store.entries[CacheKey(name, props, hash)].data.props;
      |PropKeys(stored)| == |PropKeys(props)| &&
      forall i :: 0 <= i < |PropKeys(stored)| ==>
        StrictEqual(Prop(stored, PropKeys(stored)[i]), Prop(props, PropKeys(stored)[i]), identical)
  {
  }

  /** `cleanup()` and `clear()` are the data cache's. */
  function Cleanup<C>(c: Components<C>, now: int): (r: Components<C>)
    requires TtlCache.Valid(c.cache)
    ensures TtlCache.Valid(r.cache) && r.propsDiff == c.propsDiff
    ensures forall k :: k in r.cache.store.entries <==> k in c.cache.store.entries && Live(c.cache.store.entries[k], now)
    ensures forall k :: k in r.cache.store.entries ==> r.cache.store.entries[k] == c.cache.store.entries[k]
  {
    Components(c.propsDiff, TtlCache.Cleanup(c.cache, now))
  }

  function Clear<C>(c: Components<C>): (r: Components<C>)
    ensures TtlCache.Valid(r.cache) && r.cache.store.entries == map[] && r.propsDiff == c.propsDiff
  {
    Components(c.propsDiff, TtlCache.Clear(c.cache))
  }

  /** The sum of the counts of the listed entries. */
  function RenderTotal<C>(keys: seq<string>, entries: map<string, Entry<Rendered<C>>>): int
    requires forall i :: 0 <= i < |keys| ==> keys[i] in entries
  {
    if |keys| == 0 then 0 else entries[keys[0]].data.renderCount + RenderTotal(keys[1..], entries)
  }

  datatype RenderStats = RenderStats(entries: Stats, totalRenderCount: int)

  /** `getStats()` without the averages, the hit rate and the memory estimate. */
  function GetStats<C>(c: Components<C>, now: int): (r: RenderStats)
    requires TtlCache.Valid(c.cache)
    ensures r.entries.totalEntries == |c.cache.store.entries|
    ensures r.entries.validEntries + r.entries.expiredEntries == r.entries.totalEntries
    ensures r.entries.validEntries == Seqs.Count(c.cache.store.keys, LiveKey(c.cache, now))
    ensures r.totalRenderCount == RenderTotal(c.cache.store.keys, c.cache.store.entries)
  {
    RenderStats(TtlCache.GetStats(c.cache, now), RenderTotal(c.cache.store.keys, c.cache.store.entries))
  }

  /** Serving an element adds exactly one to the total count. */
  lemma {:induction false} HitCountsOnce<C>(keys: seq<string>, entries: map<string, Entry<Rendered<C>>>, key: string)
    requires forall i :: 0 <= i < |keys| ==> keys[i] in entries
    requires key in keys && OrderedMap.Distinct(keys)
    ensures
      var e := entries[key];
      var bumped := entries[key := e.(data := e.data.(renderCount := e.data.renderCount + 1))];
      RenderTotal(keys, bumped) == RenderTotal(keys, entries) + 1
  {
    var e := entries[key];
    var bumped := entries[key := e.(data := e.data.(renderCount := e.data.renderCount + 1))];
    if keys[0] == key {
      assert key !in keys[1..];
      RenderTotalSame(keys[1..], entries, bumped);
    } else {
      HitCountsOnce(keys[1..], entries, key);
    }
  }

  lemma {:induction false} RenderTotalSame<C>(keys: seq<string>, a: map<string, Entry<Rendered<C>>>, b: map<string, Entry<Rendered<C>>>)
    requires forall i :: 0 <= i < |keys| ==> keys[i] in a && keys[i] in b && a[keys[i]] == b[keys[i]]
    ensures RenderTotal(keys, a) == RenderTotal(keys, b)
  {
    if |keys| > 0 {
      RenderTotalSame(keys[1..], a, b);
    }
  }
}
