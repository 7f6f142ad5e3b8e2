/** Generic sequence helpers: order-preserving filtering and JavaScript's `slice(0, end)`. */
module Seqs {

  /** The elements of `s` satisfying `p`, in their original order (`Array.prototype.filter`,
      Java `stream().filter`). */
  function Filter<T>(s: seq<T>, p: T -> bool): (r: seq<T>)
    ensures |r| <= |s|
    ensures forall i :: 0 <= i < |r| ==> p(r[i])
    ensures forall i :: 0 <= i < |r| ==> r[i] in s
    ensures forall i :: 0 <= i < |s| && p(s[i]) ==> s[i] in r
  {
    if |s| == 0 then [] else (if p(s[0]) then [s[0]] else []) + Filter(s[1..], p)
  }

  lemma {:induction false} FilterAppend<T>(a: seq<T>, b: seq<T>, p: T -> bool)
    ensures Filter(a + b, p) == Filter(a, p) + Filter(b, p)
  {
    if |a| == 0 {
      assert a + b == b;
    } else {
      assert (a + b)[1..] == a[1..] + b;
      FilterAppend(a[1..], b, p);
    }
  }

  /** Filtering keeps everything exactly when every element qualifies. */
  lemma {:induction false} FilterAll<T>(s: seq<T>, p: T -> bool)
    requires forall i :: 0 <= i < |s| ==> p(s[i])
    ensures Filter(s, p) == s
  {
    if |s| > 0 {
      FilterAll(s[1..], p);
    }
  }

  /** Filtering by two predicates that agree on the elements gives the same result. */
  lemma {:induction false} FilterCongruent<T>(s: seq<T>, p: T -> bool, q: T -> bool)
    requires forall i :: 0 <= i < |s| ==> p(s[i]) == q(s[i])
    ensures Filter(s, p) == Filter(s, q)
  {
    if |s| > 0 {
      FilterCongruent(s[1..], p, q);
    }
  }

  /** Filtering keeps nothing when no element qualifies. */
  lemma {:induction false} FilterNone<T>(s: seq<T>, p: T -> bool)
    requires forall i :: 0 <= i < |s| ==> !p(s[i])
    ensures Filter(s, p) == []
  {
    if |s| > 0 {
      FilterNone(s[1..], p);
    }
  }

  /** Every element satisfies exactly one of two complementary predicates. */
  lemma {:induction false} FilterComplement<T>(s: seq<T>, p: T -> bool, q: T -> bool)
    requires forall i :: 0 <= i < |s| ==> p(s[i]) != q(s[i])
    ensures |Filter(s, p)| + |Filter(s, q)| == |s|
  {
    if |s| > 0 {
      FilterComplement(s[1..], p, q);
    }
  }

  /** A relation holding between every element and every later one still holds after
      filtering: filtering keeps the order of what it keeps. */
  lemma {:induction false} FilterPairwise<T>(s: seq<T>, p: T -> bool, rel: (T, T) -> bool)
    requires forall i, j :: 0 <= i < j < |s| ==> rel(s[i], s[j])
    ensures forall i, j :: 0 <= i < j < |Filter(s, p)| ==> rel(Filter(s, p)[i], Filter(s, p)[j])
  {
    if |s| > 0 {
      FilterPairwise(s[1..], p, rel);
      var t := Filter(s[1..], p);
      if p(s[0]) {
        var f := Filter(s, p);
        assert f == [s[0]] + t;
        forall j | 0 < j < |f| ensures rel(f[0], f[j]) {
          assert f[j] == t[j - 1];
          assert t[j - 1] in s[1..];
          var b :| 0 <= b < |s[1..]| && s[1..][b] == t[j - 1];
          assert s[b + 1] == f[j];
        }
      }
    }
  }

  /** The number of elements of `s` satisfying `p`. */
  function Count<T>(s: seq<T>, p: T -> bool): nat {
    |Filter(s, p)|
  }

  /** `s.slice(0, end)` in JavaScript: a negative `end` counts from the back. */
  function SliceTo<T>(s: seq<T>, end: int): (r: seq<T>)
    ensures end >= 0 ==> |r| == if end < |s| then end else |s|
    ensures end < 0 ==> |r| == if |s| + end > 0 then |s| + end else 0
    ensures r == s[..|r|]
  {
    if end >= 0 then (if end < |s| then s[..end] else s)
    else if |s| + end > 0 then s[..|s| + end] else []
  }

  /** `s.slice(0, n)` for a count `n`. */
  function Take<T>(s: seq<T>, n: nat): (r: seq<T>)
    ensures |r| <= n && |r| <= |s| && r == s[..|r|]
    ensures |s| <= n ==> r == s
  {
    if |s| <= n then s else s[..n]
  }

  /** A prefix has at most as many elements satisfying `p` as the whole. */
  lemma {:induction false} CountPrefix<T>(s: seq<T>, k: nat, p: T -> bool)
    requires k <= |s|
    ensures Count(s[..k], p) <= Count(s, p)
  {
    assert s == s[..k] + s[k..];
    FilterAppend(s[..k], s[k..], p);
  }

  /** No element occurs twice. */
  predicate NoDuplicates<T(==)>(s: seq<T>) {
    forall i, j :: 0 <= i < j < |s| ==> s[i] != s[j]
  }

  /** No repeats means every element occurs at most once, so a permutation of a sequence
      without repeats has none either. */
  lemma {:induction false} NoDuplicatesMultiset<T>(s: seq<T>)
    ensures NoDuplicates(s) <==> forall x :: multiset(s)[x] <= 1
  {
    if |s| > 0 {
      var t := s[1..];
      NoDuplicatesMultiset(t);
      assert s == [s[0]] + t;
      assert multiset(s) == multiset{s[0]} + multiset(t);
      if NoDuplicates(s) {
        assert NoDuplicates(t) by {
          forall i, j | 0 <= i < j < |t| ensures t[i] != t[j] {
            assert t[i] == s[i + 1] && t[j] == s[j + 1];
          }
        }
        assert s[0] !in t by {
          forall i | 0 <= i < |t| ensures t[i] != s[0] {
            assert t[i] == s[i + 1];
          }
        }
      } else {
        var i, j :| 0 <= i < j < |s| && s[i] == s[j];
        if i == 0 {
          assert s[j] == t[j - 1];
          assert multiset(t)[s[0]] >= 1;
          assert multiset(s)[s[0]] >= 2;
        } else {
          assert t[i - 1] == s[i] && t[j - 1] == s[j];
          assert !NoDuplicates(t);
          var x :| multiset(t)[x] > 1;
          assert multiset(s)[x] > 1;
        }
      }
    }
  }

  /** The position of the first occurrence of `x` in `s` (`indexOf`). */
  function FirstIndex<T(==)>(s: seq<T>, x: T): (r: nat)
    requires x in s
    ensures r < |s| && s[r] == x
    ensures forall i :: 0 <= i < r ==> s[i] != x
  {
    if s[0] == x then 0 else 1 + FirstIndex(s[1..], x)
  }

  /** Appending leaves the first occurrence of an element already present where it was. */
  lemma FirstIndexAppend<T>(s: seq<T>, t: seq<T>, x: T)
    requires x in s
    ensures x in s + t && FirstIndex(s + t, x) == FirstIndex(s, x)
  {
    var i := FirstIndex(s, x);
    assert (s + t)[i] == x;
    var j := FirstIndex(s + t, x);
    assert j <= i;
  }
  /** `r` is `s` with some elements left out, the rest in their order. */
  predicate IsSubsequence<T(==)>(r: seq<T>, s: seq<T>)
    decreases |s|
  {
    |r| == 0 || (|s| > 0 && ((r[0] == s[0] && IsSubsequence(r[1..], s[1..])) || IsSubsequence(r, s[1..])))
  }

  /** Filtering yields a subsequence. */
  lemma {:induction false} FilterSubsequence<T>(s: seq<T>, p: T -> bool)
    ensures IsSubsequence(Filter(s, p), s)
  {
    if |s| > 0 {
      FilterSubsequence(s[1..], p);
      if p(s[0]) {
        var f := Filter(s, p);
        assert f == [s[0]] + Filter(s[1..], p);
        assert f[0] == s[0] && f[1..] == Filter(s[1..], p);
      } else {
        assert Filter(s, p) == Filter(s[1..], p);
      }
    }
  }

  /** Filtering twice is filtering once by both predicates. */
  lemma {:induction false} FilterFilter<T>(s: seq<T>, p: T -> bool, q: T -> bool, pq: T -> bool)
    requires forall i :: 0 <= i < |s| ==> pq(s[i]) == (p(s[i]) && q(s[i]))
    ensures Filter(Filter(s, p), q) == Filter(s, pq)
  {
    if |s| > 0 {
      FilterFilter(s[1..], p, q, pq);
      FilterAppend(if p(s[0]) then [s[0]] else [], Filter(s[1..], p), q);
    }
  }
  /** `if (apply) stream = stream.filter(p)`: a stream stage that filters only when its
      condition holds. */
  function FilterWhen<T>(apply: bool, s: seq<T>, p: T -> bool): seq<T> {
    if apply then Filter(s, p) else s
  }

  /** A conditional stage on the whole sequence filters by "the condition implies `p`". */
  lemma FilterWhenIs<T>(apply: bool, s: seq<T>, p: T -> bool, spec: T -> bool)
    requires forall i :: 0 <= i < |s| ==> spec(s[i]) == (apply ==> p(s[i]))
    ensures FilterWhen(apply, s, p) == Filter(s, spec)
  {
    if apply {
      FilterCongruent(s, p, spec);
    } else {
      FilterAll(s, spec);
    }
  }

  /** A conditional stage after a filter by `done` filters by `done` and "the condition implies
      `p`" at once. */
  lemma FilterWhenAfter<T>(apply: bool, s: seq<T>, done: T -> bool, p: T -> bool, spec: T -> bool)
    requires forall i :: 0 <= i < |s| ==> spec(s[i]) == (done(s[i]) && (apply ==> p(s[i])))
    ensures FilterWhen(apply, Filter(s, done), p) == Filter(s, spec)
  {
    if apply {
      FilterFilter(s, done, p, spec);
    } else {
      FilterCongruent(s, done, spec);
    }
  }

  /** `r` holds, in order, the elements satisfying `p` of some prefix of `s`: the first
      `|r|` matches, as `s.filter(p).slice(0, n)` yields them. */
  ghost predicate LeadingMatches<T>(r: seq<T>, s: seq<T>, p: T -> bool) {
    exists j :: 0 <= j <= |s| && r == Filter(s[..j], p)
  }

  /** Every prefix of the filtered sequence is the filter of a prefix of the sequence. */
  lemma {:induction false} FilterPrefixIsLeading<T>(s: seq<T>, p: T -> bool, k: nat)
    requires k <= |Filter(s, p)|
    ensures LeadingMatches(Filter(s, p)[..k], s, p)
  {
    if k == 0 {
      assert Filter(s, p)[..k] == Filter(s[..0], p);
    } else {
      var rest := Filter(s[1..], p);
      var k' := if p(s[0]) then k - 1 else k;
      FilterPrefixIsLeading(s[1..], p, k');
      var j' :| 0 <= j' <= |s[1..]| && rest[..k'] == Filter(s[1..][..j'], p);
      var j := j' + 1;
      assert s[..j][1..] == s[1..][..j'];
      if p(s[0]) {
        assert Filter(s, p)[..k] == [s[0]] + rest[..k'];
      }
      assert Filter(s, p)[..k] == Filter(s[..j], p);
    }
  }

  /** Conversely, leading matches are a prefix of the filtered sequence, so their number
      determines them. */
  lemma {:induction false} LeadingIsFilterPrefix<T>(r: seq<T>, s: seq<T>, p: T -> bool)
    requires LeadingMatches(r, s, p)
    ensures |r| <= Count(s, p) && r == Filter(s, p)[..|r|]
  {
    var j :| 0 <= j <= |s| && r == Filter(s[..j], p);
    assert s == s[..j] + s[j..];
    FilterAppend(s[..j], s[j..], p);
  }

  /** Two leading selections of the same length are the same. */
  lemma LeadingMatchesDetermined<T>(a: seq<T>, b: seq<T>, s: seq<T>, p: T -> bool)
    requires LeadingMatches(a, s, p) && LeadingMatches(b, s, p) && |a| == |b|
    ensures a == b
  {
    LeadingIsFilterPrefix(a, s, p);
    LeadingIsFilterPrefix(b, s, p);
  }

  /** `s.filter(p).slice(0, n)`: the first `n` matches, or all of them. */
  lemma TakeFilterLeading<T>(s: seq<T>, p: T -> bool, n: nat)
    ensures LeadingMatches(Take(Filter(s, p), n), s, p)
    ensures |Take(Filter(s, p), n)| == if Count(s, p) < n then Count(s, p) else n
  {
    FilterPrefixIsLeading(s, p, |Take(Filter(s, p), n)|);
  }
}
