/** A JavaScript `Map` keyed by strings: its entries together with their insertion order.
    Re-setting an existing key keeps its position; deleting and re-setting moves it to the end. */
module OrderedMap {

  datatype OMap<V> = OMap(keys: seq<string>, entries: map<string, V>)

  predicate Distinct(s: seq<string>) {
    forall i, j :: 0 <= i < j < |s| ==> s[i] != s[j]
  }

  /** The insertion order lists every key exactly once. */
  ghost predicate Valid<V>(m: OMap<V>) {
    Distinct(m.keys) && (forall k :: k in m.entries <==> k in m.keys)
  }

  function Empty<V>(): (m: OMap<V>)
    ensures Valid(m) && |m.keys| == 0
  {
    OMap([], map[])
  }

  /** `map.set(k, v)`. */
  function Set<V>(m: OMap<V>, k: string, v: V): (r: OMap<V>)
    requires Valid(m)
    ensures Valid(r)
    ensures r.entries == m.entries[k := v]
    ensures k in m.entries ==> r.keys == m.keys
    ensures k !in m.entries ==> r.keys == m.keys + [k]
  {
    if k in m.entries then OMap(m.keys, m.entries[k := v])
    else OMap(m.keys + [k], m.entries[k := v])
  }

  /** `keys` without `k`, order kept. */
  function RemoveKey(keys: seq<string>, k: string): (r: seq<string>)
    ensures forall x :: x in r <==> x in keys && x != k
    ensures Distinct(keys) ==> Distinct(r)
    ensures |r| <= |keys|
    ensures k in keys && Distinct(keys) ==> |r| == |keys| - 1
    ensures k !in keys ==> r == keys
  {
    if |keys| == 0 then []
    else if keys[0] == k then RemoveKey(keys[1..], k)
    else
      var t := RemoveKey(keys[1..], k);
      assert Distinct(keys) ==> keys[0] !in keys[1..];
      [keys[0]] + t
  }

  /** `map.delete(k)`. */
  function Delete<V>(m: OMap<V>, k: string): (r: OMap<V>)
    requires Valid(m)
    ensures Valid(r)
    ensures r.entries == m.entries - {k}
    ensures k !in m.entries ==> r == m
    ensures k in m.entries ==> |r.keys| == |m.keys| - 1
  {
    OMap(RemoveKey(m.keys, k), m.entries - {k})
  }

  /** Deleting the oldest key, `map.delete(map.keys().next().value)`; nothing on an empty map. */
  function DeleteOldest<V>(m: OMap<V>): (r: OMap<V>)
    requires Valid(m)
    ensures Valid(r)
    ensures |m.keys| > 0 ==> r.keys == m.keys[1..] && r.entries == m.entries - {m.keys[0]}
    ensures |m.keys| == 0 ==> r == m
  {
    if |m.keys| == 0 then m
    else
      assert m.keys == [m.keys[0]] + m.keys[1..];
      assert RemoveKey(m.keys[1..], m.keys[0]) == m.keys[1..];
      Delete(m, m.keys[0])
  }

  /** The keys of `keys` whose entries satisfy `keep`, in order. */
  function KeptKeys<V>(keys: seq<string>, entries: map<string, V>, keep: V -> bool): (r: seq<string>)
    requires forall i :: 0 <= i < |keys| ==> keys[i] in entries
    ensures forall x :: x in r <==> x in keys && keep(entries[x])
    ensures Distinct(keys) ==> Distinct(r)
  {
    if |keys| == 0 then []
    else (if keep(entries[keys[0]]) then [keys[0]] else []) + KeptKeys(keys[1..], entries, keep)
  }

  /** Deleting, in insertion order, every entry whose value fails `keep`. */
  function Retain<V>(m: OMap<V>, keep: V -> bool): (r: OMap<V>)
    requires Valid(m)
    ensures Valid(r)
    ensures forall k :: k in r.entries <==> k in m.entries && keep(m.entries[k])
    ensures forall k :: k in r.entries ==> r.entries[k] == m.entries[k]
  {
    var ks := KeptKeys(m.keys, m.entries, keep);
    OMap(ks, map k | k in m.entries && keep(m.entries[k]) :: m.entries[k])
  }

  /** The map's size (`map.size`) is the length of its insertion order. */
  lemma KeysCount<V>(m: OMap<V>)
    requires Valid(m)
    ensures |m.entries| == |m.keys|
  {
    DistinctCardinality(m.keys);
    assert m.entries.Keys == set k | k in m.keys;
  }

  lemma {:induction false} DistinctCardinality(keys: seq<string>)
    requires Distinct(keys)
    ensures |set k | k in keys| == |keys|
  {
    if |keys| > 0 {
      DistinctCardinality(keys[1..]);
      assert (set k | k in keys) == {keys[0]} + (set k | k in keys[1..]);
      assert keys[0] !in keys[1..];
    }
  }
}
