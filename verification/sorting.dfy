/** The stable descending sort behind every `sort((a, b) => key(b) - key(a))` of the system.
    `Array.prototype.sort` is stable, and the output of a stable sort is determined by the
    keys alone, so an insertion sort models it exactly. */
module Sorting {
  import opened Seqs

  /** A sort key compared lexicographically: `major` first, then `minor`. */
  datatype Rank = Rank(major: int, minor: int)

  predicate RankGe(a: Rank, b: Rank) {
    a.major > b.major || (a.major == b.major && a.minor >= b.minor)
  }

  /** No element is ranked below a later one. */
  predicate SortedDesc<T>(s: seq<T>, key: T -> Rank) {
    forall i, j :: 0 <= i < j < |s| ==> RankGe(key(s[i]), key(s[j]))
  }

  /** Places `x` after the leading elements ranked at least as high as `x`. */
  function Insert<T>(t: seq<T>, x: T, key: T -> Rank): (r: seq<T>)
    ensures multiset(r) == multiset(t) + multiset{x}
    ensures |r| == |t| + 1
  {
    if |t| == 0 then [x]
    else if RankGe(key(t[0]), key(x)) then
      assert t == [t[0]] + t[1..];
      [t[0]] + Insert(t[1..], x, key)
    else [x] + t
  }

  /** Stable sort, highest rank first. */
  function Sort<T>(s: seq<T>, key: T -> Rank): (r: seq<T>)
    ensures multiset(r) == multiset(s)
    ensures |r| == |s|
  {
    if |s| == 0 then []
    else
      assert s == s[..|s| - 1] + [s[|s| - 1]];
      Insert(Sort(s[..|s| - 1], key), s[|s| - 1], key)
  }

  lemma {:induction false} InsertSorted<T>(t: seq<T>, x: T, key: T -> Rank)
    requires SortedDesc(t, key)
    ensures SortedDesc(Insert(t, x, key), key)
  {
    if |t| > 0 && RankGe(key(t[0]), key(x)) {
      InsertSorted(t[1..], x, key);
      var r := Insert(t, x, key);
      var tail := Insert(t[1..], x, key);
      forall j | 0 < j < |r| ensures RankGe(key(r[0]), key(r[j])) {
        assert r[j] in multiset(tail);
        assert r[j] == x || r[j] in t[1..];
      }
    }
  }

  /** The result of `Sort` is ordered by rank, highest first. */
  lemma {:induction false} SortSorted<T>(s: seq<T>, key: T -> Rank)
    ensures SortedDesc(Sort(s, key), key)
  {
    if |s| > 0 {
      SortSorted(s[..|s| - 1], key);
      InsertSorted(Sort(s[..|s| - 1], key), s[|s| - 1], key);
    }
  }

  /** The elements of `s` whose rank is exactly `k`, in order. */
  function WithRank<T>(s: seq<T>, key: T -> Rank, k: Rank): seq<T> {
    if |s| == 0 then [] else (if key(s[0]) == k then [s[0]] else []) + WithRank(s[1..], key, k)
  }

  lemma {:induction false} WithRankAppend<T>(a: seq<T>, b: seq<T>, key: T -> Rank, k: Rank)
    ensures WithRank(a + b, key, k) == WithRank(a, key, k) + WithRank(b, key, k)
  {
    if |a| == 0 {
      assert a + b == b;
    } else {
      assert (a + b)[1..] == a[1..] + b;
      WithRankAppend(a[1..], b, key, k);
    }
  }

  lemma {:induction false} InsertWithRank<T>(t: seq<T>, x: T, key: T -> Rank, k: Rank)
    requires SortedDesc(t, key)
    ensures WithRank(Insert(t, x, key), key, k)
         == WithRank(t, key, k) + (if key(x) == k then [x] else [])
  {
    if |t| == 0 {
    } else if RankGe(key(t[0]), key(x)) {
      InsertWithRank(t[1..], x, key, k);
    } else {
      // every element of t ranks below x, so none shares x's rank
      if key(x) == k {
        NoneWithRank(t, key, k);
        assert WithRank([x] + t, key, k) == [x] + WithRank(t, key, k);
      } else {
        assert WithRank([x] + t, key, k) == WithRank(t, key, k);
      }
    }
  }

  lemma {:induction false} NoneWithRank<T>(t: seq<T>, key: T -> Rank, k: Rank)
    requires SortedDesc(t, key)
    requires |t| > 0 && !RankGe(key(t[0]), k)
    ensures WithRank(t, key, k) == []
  {
    if |t| > 1 {
      assert RankGe(key(t[0]), key(t[1]));
      NoneWithRank(t[1..], key, k);
    }
  }

  /** Stability: elements of equal rank keep their relative order. */
  lemma {:induction false} SortStable<T>(s: seq<T>, key: T -> Rank, k: Rank)
    ensures WithRank(Sort(s, key), key, k) == WithRank(s, key, k)
  {
    if |s| > 0 {
      var init, x := s[..|s| - 1], s[|s| - 1];
      SortStable(init, key, k);
      SortSorted(init, key);
      InsertStable(init, x, Sort(init, key), key, k);
      assert s == init + [x];
    }
  }

  /** Inserting into a sorted sequence that keeps the order of each rank of `init` keeps
      the order of each rank of `init + [x]`. */
  lemma InsertStable<T>(init: seq<T>, x: T, sorted: seq<T>, key: T -> Rank, k: Rank)
    requires SortedDesc(sorted, key)
    requires WithRank(sorted, key, k) == WithRank(init, key, k)
    ensures WithRank(Insert(sorted, x, key), key, k) == WithRank(init + [x], key, k)
  {
    InsertWithRank(sorted, x, key, k);
    WithRankAppend(init, [x], key, k);
    assert WithRank([x], key, k) == (if key(x) == k then [x] else []) by {
      assert [x][1..] == [];
    }
  }

  lemma {:induction false} InsertCount<T>(t: seq<T>, x: T, key: T -> Rank, p: T -> bool)
    ensures Count(Insert(t, x, key), p) == Count(t, p) + (if p(x) then 1 else 0)
  {
    if |t| > 0 && RankGe(key(t[0]), key(x)) {
      InsertCount(t[1..], x, key, p);
      FilterAppend([t[0]], Insert(t[1..], x, key), p);
      FilterAppend([t[0]], t[1..], p);
      assert t == [t[0]] + t[1..];
    } else if |t| > 0 {
      FilterAppend([x], t, p);
    }
  }

  /** Sorting does not change how many elements satisfy any predicate. */
  lemma {:induction false} SortCount<T>(s: seq<T>, key: T -> Rank, p: T -> bool)
    ensures Count(Sort(s, key), p) == Count(s, p)
  {
    if |s| > 0 {
      var init := s[..|s| - 1];
      SortCount(init, key, p);
      InsertCount(Sort(init, key), s[|s| - 1], key, p);
      FilterAppend(init, [s[|s| - 1]], p);
      assert s == init + [s[|s| - 1]];
    }
  }

  /** Inserting into an already sorted list is exactly what sorting the extended list does. */
  lemma {:induction false} SortAppendSorted<T>(t: seq<T>, x: T, key: T -> Rank)
    requires SortedDesc(t, key)
    ensures Sort(t + [x], key) == Insert(t, x, key)
  {
    assert (t + [x])[..|t|] == t;
    SortOfSorted(t, key);
  }

  /** Sorting a sorted list leaves it unchanged. */
  lemma {:induction false} SortOfSorted<T>(t: seq<T>, key: T -> Rank)
    requires SortedDesc(t, key)
    ensures Sort(t, key) == t
  {
    if |t| > 0 {
      var init, x := t[..|t| - 1], t[|t| - 1];
      assert t == init + [x];
      SortedSplitLast(init, x, key);
      SortOfSorted(init, key);
      InsertAtEnd(init, x, key);
    }
  }

  /** A sorted sequence: all but the last are sorted, and none ranks below the last. */
  lemma SortedSplitLast<T>(init: seq<T>, x: T, key: T -> Rank)
    requires SortedDesc(init + [x], key)
    ensures SortedDesc(init, key)
    ensures forall i :: 0 <= i < |init| ==> RankGe(key(init[i]), key(x))
  {
    var t := init + [x];
    forall i, j | 0 <= i < j < |init| ensures RankGe(key(init[i]), key(init[j])) {
      assert init[i] == t[i] && init[j] == t[j];
    }
    forall i | 0 <= i < |init| ensures RankGe(key(init[i]), key(x)) {
      assert init[i] == t[i] && x == t[|init|];
    }
  }

  lemma {:induction false} InsertAtEnd<T>(t: seq<T>, x: T, key: T -> Rank)
    requires forall i :: 0 <= i < |t| ==> RankGe(key(t[i]), key(x))
    ensures Insert(t, x, key) == t + [x]
  {
    if |t| > 0 {
      InsertAtEnd(t[1..], x, key);
      assert t == [t[0]] + t[1..];
    }
  }

  /** The first `n` of a descending sort are `n` of the input, and nothing left out ranks
      above anything kept: a top-`n` selection. */
  lemma TopDominates<T>(s: seq<T>, key: T -> Rank, n: nat)
    requires n <= |s|
    ensures multiset(Sort(s, key)[..n]) <= multiset(s)
    ensures forall x, c :: x in Sort(s, key)[..n] && c in multiset(s) - multiset(Sort(s, key)[..n]) ==>
      RankGe(key(x), key(c))
  {
    var sorted := Sort(s, key);
    SortSorted(s, key);
    assert sorted == sorted[..n] + sorted[n..];
    assert multiset(sorted) == multiset(sorted[..n]) + multiset(sorted[n..]);
    forall x, c | x in sorted[..n] && c in multiset(s) - multiset(sorted[..n])
      ensures RankGe(key(x), key(c))
    {
      assert c in multiset(sorted[n..]);
      var j :| 0 <= j < |sorted[n..]| && sorted[n..][j] == c;
      var i :| 0 <= i < n && sorted[..n][i] == x;
      assert sorted[i] == x && sorted[n + j] == c;
    }
  }
}
