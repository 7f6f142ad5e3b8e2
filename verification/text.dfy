/** Strings as sequences of characters, and the string operations the system relies on:
    ASCII case mapping, whitespace trimming, prefix/substring tests, decimal rendering,
    splitting and joining, and the `key:value` split made by the search regexes. */
module Text {
  import opened Wrappers

  /** Whitespace removed by `trim()` and ignored by "blank" tests: the six ASCII whitespace
      characters. */
  predicate IsSpace(c: char) {
    c == ' ' || c == '\t' || c == '\n' || c == '\U{000B}' || c == '\U{000C}' || c == '\r'
  }

  /** Characters a JavaScript regex `.` does not match. */
  predicate IsLineTerminator(c: char) {
    c == '\n' || c == '\r' || c == '\U{2028}' || c == '\U{2029}'
  }

  predicate IsDigit(c: char) { '0' <= c <= '9' }

  predicate IsBlank(s: string) {
    forall i :: 0 <= i < |s| ==> IsSpace(s[i])
  }

  /** `Character.isWhitespace`: the ASCII whitespace and separator controls and the Unicode
      space separators other than the no-break spaces. */
  predicate IsJavaWhitespace(c: char) {
    c == ' ' || ('\t' <= c <= '\r') || ('\U{001C}' <= c <= '\U{001F}')
    || c == '\U{1680}' || ('\U{2000}' <= c <= '\U{2006}') || ('\U{2008}' <= c <= '\U{200A}')
    || c == '\U{2028}' || c == '\U{2029}' || c == '\U{205F}' || c == '\U{3000}'
  }

  /** Java's `String.isBlank()`: nothing but `Character.isWhitespace` characters. */
  predicate IsJavaBlank(s: string) {
    forall i :: 0 <= i < |s| ==> IsJavaWhitespace(s[i])
  }

  predicate HasLineTerminator(s: string) {
    exists i :: 0 <= i < |s| && IsLineTerminator(s[i])
  }

  /** `s` with its leading whitespace removed. */
  function TrimStart(s: string): (r: string)
    ensures |r| <= |s| && r == s[|s| - |r|..]
    ensures forall i :: 0 <= i < |s| - |r| ==> IsSpace(s[i])
    ensures |r| > 0 ==> !IsSpace(r[0])
  {
    if |s| > 0 && IsSpace(s[0]) then TrimStart(s[1..]) else s
  }

  /** `s` with its trailing whitespace removed. */
  function TrimEnd(s: string): (r: string)
    ensures |r| <= |s| && r == s[..|r|]
    ensures forall i :: |r| <= i < |s| ==> IsSpace(s[i])
    ensures |r| > 0 ==> !IsSpace(r[|r| - 1])
  {
    if |s| > 0 && IsSpace(s[|s| - 1]) then TrimEnd(s[..|s| - 1]) else s
  }

  /** JavaScript `String.prototype.trim` (and Java `strip`) restricted to ASCII whitespace. */
  function Trim(s: string): (r: string)
    ensures |r| <= |s|
    ensures |r| > 0 ==> !IsSpace(r[0]) && !IsSpace(r[|r| - 1])
  {
    TrimEnd(TrimStart(s))
  }

  /** Trimming keeps every character that is not whitespace. */
  lemma TrimKeeps(s: string, c: char)
    requires !IsSpace(c)
    ensures c in Trim(s) <==> c in s
  {
    TrimStartKeeps(s, c);
    TrimEndKeeps(TrimStart(s), c);
  }

  lemma TrimStartKeeps(s: string, c: char)
    requires !IsSpace(c)
    ensures c in TrimStart(s) <==> c in s
  {
    var r := TrimStart(s);
    var d := |s| - |r|;
    if c in s {
      var i :| 0 <= i < |s| && s[i] == c;
      assert !IsSpace(s[i]);
      assert r[i - d] == c;
    }
  }

  lemma TrimEndKeeps(s: string, c: char)
    requires !IsSpace(c)
    ensures c in TrimEnd(s) <==> c in s
  {
    var r := TrimEnd(s);
    if c in s {
      var i :| 0 <= i < |s| && s[i] == c;
      assert !IsSpace(s[i]);
      assert r[i] == c;
    }
  }

  /** Trimming leaves nothing exactly when the string is blank. */
  lemma TrimEmptyIffBlank(s: string)
    ensures Trim(s) == [] <==> IsBlank(s)
  {
    var t := TrimStart(s);
    if Trim(s) != [] {
      var r := Trim(s);
      assert r[0] == t[0] == s[|s| - |t|];
    }
  }

  /** Trimming twice is trimming once. */
  lemma TrimIdempotent(s: string)
    ensures Trim(Trim(s)) == Trim(s)
  {
    var r := Trim(s);
    if |r| > 0 {
      assert TrimStart(r) == r;
      assert TrimEnd(r) == r;
    }
  }

  function LowerChar(c: char): char {
    if 'A' <= c <= 'Z' then (c as int + 32) as char else c
  }

  /** `toLowerCase()` (Java `toLowerCase(Locale.ROOT)`) restricted to ASCII letters. */
  function Lower(s: string): (r: string)
    ensures |r| == |s|
    ensures forall i :: 0 <= i < |s| ==> r[i] == LowerChar(s[i])
  {
    seq(|s|, i requires 0 <= i < |s| => LowerChar(s[i]))
  }

  lemma LowerIdempotent(s: string)
    ensures Lower(Lower(s)) == Lower(s)
  {
  }

  lemma LowerAppend(a: string, b: string)
    ensures Lower(a + b) == Lower(a) + Lower(b)
  {
  }

  lemma LowerSlice(s: string, i: nat, j: nat)
    requires i <= j <= |s|
    ensures Lower(s[i..j]) == Lower(s)[i..j]
  {
  }

  /** Case-insensitive equality (`equalsIgnoreCase`). */
  /** A string that neither starts nor ends with whitespace is its own trim. */
  lemma TrimOfTrimmed(s: string)
    requires |s| == 0 || (!IsSpace(s[0]) && !IsSpace(s[|s| - 1]))
    ensures Trim(s) == s
  {
    assert TrimStart(s) == s;
  }

  predicate EqualsIgnoreCase(a: string, b: string) {
    Lower(a) == Lower(b)
  }

  predicate StartsWith(s: string, prefix: string) {
    |prefix| <= |s| && s[..|prefix|] == prefix
  }

  /** `s.includes(t)` / `s.contains(t)`. */
  predicate Contains(s: string, t: string) {
    exists i :: 0 <= i <= |s| && OccursAt(s, t, i)
  }

  /** `t` occurs in `s` starting at index `i`. */
  predicate OccursAt(s: string, t: string, i: nat) {
    i + |t| <= |s| && s[i..i + |t|] == t
  }

  lemma ContainsEmpty(s: string)
    ensures Contains(s, [])
  {
    assert OccursAt(s, [], 0);
  }

  lemma LowerPreservesContains(s: string, t: string)
    requires Contains(s, t)
    ensures Contains(Lower(s), Lower(t))
  {
    var i :| 0 <= i <= |s| && OccursAt(s, t, i);
    LowerSlice(s, i, i + |t|);
    assert OccursAt(Lower(s), Lower(t), i);
  }

  /** The index of the first `c` in `s` at or after `from`, if any. */
  function IndexOfFrom(s: string, c: char, from: nat): (r: Option<nat>)
    ensures r.Some? ==> from <= r.value < |s| && s[r.value] == c
    ensures forall i :: from <= i < |s| && (r.None? || i < r.value) ==> s[i] != c
    decreases |s| - from
  {
    if from >= |s| then None
    else if s[from] == c then Some(from)
    else IndexOfFrom(s, c, from + 1)
  }

  /** Regex semantics of `^(.+?):(.+)$` (or `^(.+?):(.*)$` when `emptyValue`): `s` is
      `key + ":" + value` with a non-empty key, no line terminator anywhere, the lazy group
      stopping at the first colon that has at least one character before it, and a
      non-empty value unless `emptyValue`. */
  predicate IsKeyValueMatch(s: string, key: string, value: string, emptyValue: bool) {
    s == key + ":" + value && |key| >= 1 && ':' !in key[1..]
    && (emptyValue || |value| >= 1) && !HasLineTerminator(s)
  }

  /** The capture groups of `^(.+?):(.+)$` (or `^(.+?):(.*)$` when `emptyValue`). */
  function SplitKeyValue(s: string, emptyValue: bool): (r: Option<(string, string)>)
  {
    if HasLineTerminator(s) then None
    else match IndexOfFrom(s, ':', 1)
      case None => None
      case Some(i) => if emptyValue || i + 1 < |s| then Some((s[..i], s[i + 1..])) else None
  }

  /** The split succeeds with exactly the groups the regex captures. */
  lemma SplitKeyValueMatches(s: string, emptyValue: bool, key: string, value: string)
    ensures SplitKeyValue(s, emptyValue) == Some((key, value)) <==> IsKeyValueMatch(s, key, value, emptyValue)
  {
    if SplitKeyValue(s, emptyValue) == Some((key, value)) {
      var i := IndexOfFrom(s, ':', 1).value;
      assert s == s[..i] + ":" + s[i + 1..];
      forall j | 0 <= j < |key[1..]| ensures key[1..][j] != ':' {
        assert key[1..][j] == s[j + 1];
      }
    }
    if IsKeyValueMatch(s, key, value, emptyValue) {
      assert s[|key|] == ':';
      var r := IndexOfFrom(s, ':', 1);
      assert r.Some? && r.value <= |key|;
      assert s[..|key|] == key && s[|key| + 1..] == value;
    }
  }

  /** Splitting a string with no colon at index 1 or later never succeeds. */
  lemma SplitKeyValueNeedsColon(s: string, emptyValue: bool)
    requires forall i :: 1 <= i < |s| ==> s[i] != ':'
    ensures SplitKeyValue(s, emptyValue).None?
  {
  }

  /** The case-insensitive split of a lowered string is the lowered split: lowering changes
      neither colons nor line terminators. */
  lemma SplitKeyValueLower(s: string, emptyValue: bool)
    ensures SplitKeyValue(Lower(s), emptyValue).Some? == SplitKeyValue(s, emptyValue).Some?
    ensures SplitKeyValue(s, emptyValue).Some? ==>
      SplitKeyValue(Lower(s), emptyValue).value
        == (Lower(SplitKeyValue(s, emptyValue).value.0), Lower(SplitKeyValue(s, emptyValue).value.1))
  {
    var l := Lower(s);
    assert HasLineTerminator(l) == HasLineTerminator(s) by {
      if HasLineTerminator(s) {
        var i :| 0 <= i < |s| && IsLineTerminator(s[i]);
        assert IsLineTerminator(l[i]);
      }
      if HasLineTerminator(l) {
        var i :| 0 <= i < |l| && IsLineTerminator(l[i]);
        assert IsLineTerminator(s[i]);
      }
    }
    IndexOfLower(s, ':', 1);
    var r := IndexOfFrom(s, ':', 1);
    if r.Some? && !HasLineTerminator(s) {
      var i := r.value;
      LowerSlice(s, 0, i);
      LowerSlice(s, i + 1, |s|);
      if emptyValue || i + 1 < |s| {
        assert SplitKeyValue(s, emptyValue) == Some((s[..i], s[i + 1..]));
        assert SplitKeyValue(l, emptyValue) == Some((l[..i], l[i + 1..]));
        assert s[..i] == s[0..i] && l[..i] == l[0..i];
        assert s[i + 1..] == s[i + 1..|s|] && l[i + 1..] == l[i + 1..|s|];
      }
    }
  }

  lemma IndexOfLower(s: string, c: char, from: nat)
    requires !('A' <= c <= 'Z') && !('a' <= c <= 'z')
    ensures IndexOfFrom(Lower(s), c, from) == IndexOfFrom(s, c, from)
    decreases |s| - from
  {
    if from < |s| && s[from] != c {
      IndexOfLower(s, c, from + 1);
    }
  }

  function DigitChar(d: nat): (c: char)
    requires d < 10
    ensures IsDigit(c)
  {
    ('0' as int + d) as char
  }

  function DigitValue(c: char): (d: nat)
    requires IsDigit(c)
    ensures d < 10 && DigitChar(d) == c
  {
    c as int - '0' as int
  }

  predicate AllDigits(s: string) {
    forall i :: 0 <= i < |s| ==> IsDigit(s[i])
  }

  /** The value of a string of decimal digits. */
  function DecValue(s: string): nat
    requires AllDigits(s)
  {
    if |s| == 0 then 0 else DecValue(s[..|s| - 1]) * 10 + DigitValue(s[|s| - 1])
  }

  /** The decimal rendering of a natural number (`String.valueOf`, `toString()`). */
  function NatToDec(n: nat): (r: string)
    ensures |r| >= 1 && AllDigits(r)
  {
    if n < 10 then [DigitChar(n)] else NatToDec(n / 10) + [DigitChar(n % 10)]
  }

  /** The decimal rendering of an integer, with a leading `-` when negative. */
  function IntToDec(i: int): string {
    if i < 0 then "-" + NatToDec(-i) else NatToDec(i)
  }

  /** Reading back a rendered number gives the number. */
  lemma {:induction false} DecValueOfNatToDec(n: nat)
    ensures DecValue(NatToDec(n)) == n
  {
    if n >= 10 {
      var r := NatToDec(n);
      assert r[..|r| - 1] == NatToDec(n / 10);
      DecValueOfNatToDec(n / 10);
    }
  }

  function Zeros(k: nat): (r: string)
    ensures |r| == k && AllDigits(r)
    ensures forall i :: 0 <= i < k ==> r[i] == '0'
  {
    if k == 0 then [] else Zeros(k - 1) + "0"
  }

  lemma {:induction false} DecValueLeadingZeros(k: nat, d: string)
    requires AllDigits(d)
    ensures DecValue(Zeros(k) + d) == DecValue(d)
    decreases |d|, k
  {
    var z := Zeros(k) + d;
    if |d| == 0 {
      assert z == Zeros(k);
      if k > 0 {
        assert z[..|z| - 1] == Zeros(k - 1) + [];
        DecValueLeadingZeros(k - 1, []);
      }
    } else {
      assert z[..|z| - 1] == Zeros(k) + d[..|d| - 1];
      DecValueLeadingZeros(k, d[..|d| - 1]);
    }
  }

  /** `String.format("%0<width>d", n)` for a natural number: at least `width` digits, padded
      on the left with zeros. */
  function PadZeros(n: nat, width: nat): (r: string)
    ensures |r| >= width && AllDigits(r)
  {
    var d := NatToDec(n);
    if |d| >= width then d else Zeros(width - |d|) + d
  }

  /** Zero-padded renderings of distinct numbers are distinct. */
  lemma PadZerosInjective(a: nat, b: nat, width: nat)
    requires PadZeros(a, width) == PadZeros(b, width)
    ensures a == b
  {
    PadZerosValue(a, width);
    PadZerosValue(b, width);
  }

  lemma PadZerosValue(n: nat, width: nat)
    ensures DecValue(PadZeros(n, width)) == n
  {
    var d := NatToDec(n);
    DecValueOfNatToDec(n);
    if |d| < width {
      DecValueLeadingZeros(width - |d|, d);
    }
  }

  /** `parts.join(sep)`. */
  function Join(parts: seq<string>, sep: string): string {
    if |parts| == 0 then []
    else if |parts| == 1 then parts[0]
    else parts[0] + sep + Join(parts[1..], sep)
  }

  /** `s.split(sep)` for a one-character separator. */
  function Split(s: string, sep: char): (r: seq<string>)
    ensures |r| >= 1
    ensures forall k :: 0 <= k < |r| ==> sep !in r[k]
    decreases |s|
  {
    match IndexOfFrom(s, sep, 0)
    case None => [s]
    case Some(i) => [s[..i]] + Split(s[i + 1..], sep)
  }

  /** Joining the pieces of a split with the separator restores the string. */
  lemma {:induction false} JoinSplit(s: string, sep: char)
    ensures Join(Split(s, sep), [sep]) == s
    decreases |s|
  {
    match IndexOfFrom(s, sep, 0)
    case None =>
    case Some(i) =>
      var rest := s[i + 1..];
      var parts := Split(s, sep);
      assert parts == [s[..i]] + Split(rest, sep);
      assert parts[0] == s[..i] && parts[1..] == Split(rest, sep);
      assert Join(parts, [sep]) == s[..i] + [sep] + Join(Split(rest, sep), [sep]);
      JoinSplit(rest, sep);
      assert s == s[..i] + [sep] + rest;
  }

  /** Splitting the join of pieces free of the separator gives the pieces back. */
  lemma {:induction false} SplitJoin(parts: seq<string>, sep: char)
    requires |parts| >= 1
    requires forall k :: 0 <= k < |parts| ==> sep !in parts[k]
    ensures Split(Join(parts, [sep]), sep) == parts
    decreases |parts|
  {
    var s := Join(parts, [sep]);
    if |parts| == 1 {
      assert s == parts[0];
      assert IndexOfFrom(s, sep, 0).None?;
    } else {
      var p := parts[0];
      var rest := Join(parts[1..], [sep]);
      assert s == p + [sep] + rest;
      assert s[|p|] == sep;
      assert forall i :: 0 <= i < |p| ==> s[i] == p[i];
      assert IndexOfFrom(s, sep, 0) == Some(|p|);
      assert s[..|p|] == p;
      assert s[|p| + 1..] == rest;
      SplitJoin(parts[1..], sep);
    }
  }

  /** A join ends with its last piece. */
  lemma {:induction false} JoinEndsWith(parts: seq<string>, sep: string)
    requires |parts| >= 1
    ensures var r := Join(parts, sep); |r| >= |parts[|parts| - 1]| && r[|r| - |parts[|parts| - 1]|..] == parts[|parts| - 1]
    decreases |parts|
  {
    if |parts| > 1 {
      JoinEndsWith(parts[1..], sep);
      assert parts[1..][|parts| - 2] == parts[|parts| - 1];
      var tail := Join(parts[1..], sep);
      var r := parts[0] + sep + tail;
      assert r[|r| - |tail|..] == tail;
    }
  }

  /** The separators a join adds: one between each pair of pieces. */
  lemma {:induction false} JoinCountChar(parts: seq<string>, sep: char)
    requires |parts| >= 1
    requires forall k :: 0 <= k < |parts| ==> sep !in parts[k]
    ensures CountChar(Join(parts, [sep]), sep) == |parts| - 1
    decreases |parts|
  {
    if |parts| == 1 {
      CountCharAbsent(parts[0], sep);
    } else {
      JoinCountChar(parts[1..], sep);
      CountCharAbsent(parts[0], sep);
      CountCharAppend(parts[0] + [sep], Join(parts[1..], [sep]), sep);
      CountCharAppend(parts[0], [sep], sep);
      assert CountChar([sep], sep) == CountChar([sep][..0], sep) + 1;
    }
  }

  lemma {:induction false} CountCharAbsent(s: string, c: char)
    requires c !in s
    ensures CountChar(s, c) == 0
    decreases |s|
  {
    if |s| > 0 {
      assert c !in s[..|s| - 1];
      CountCharAbsent(s[..|s| - 1], c);
    }
  }

  /** The number of occurrences of `c` in `s`. */
  function CountChar(s: string, c: char): nat {
    if |s| == 0 then 0 else CountChar(s[..|s| - 1], c) + (if s[|s| - 1] == c then 1 else 0)
  }

  lemma {:induction false} CountCharAppend(a: string, b: string, c: char)
    ensures CountChar(a + b, c) == CountChar(a, c) + CountChar(b, c)
    decreases |b|
  {
    if |b| > 0 {
      assert (a + b)[..|a + b| - 1] == a + b[..|b| - 1];
      CountCharAppend(a, b[..|b| - 1], c);
    } else {
      assert a + b == a;
    }
  }

  /** The order of `Array.prototype.sort()` without a comparator on strings: character by
      character, a proper prefix first. */
  predicate LexLe(a: string, b: string)
    decreases |a|
  {
    |a| == 0 || (|b| > 0 && (a[0] < b[0] || (a[0] == b[0] && LexLe(a[1..], b[1..]))))
  }

  lemma {:induction false} LexLeTotal(a: string, b: string)
    ensures LexLe(a, b) || LexLe(b, a)
    decreases |a|
  {
    if |a| > 0 && |b| > 0 && a[0] == b[0] {
      LexLeTotal(a[1..], b[1..]);
    }
  }

  lemma {:induction false} LexLeTransitive(a: string, b: string, c: string)
    requires LexLe(a, b) && LexLe(b, c)
    ensures LexLe(a, c)
    decreases |a|
  {
    if |a| > 0 && a[0] == b[0] && b[0] == c[0] {
      LexLeTransitive(a[1..], b[1..], c[1..]);
    }
  }

  lemma {:induction false} LexLeAntisymmetric(a: string, b: string)
    requires LexLe(a, b) && LexLe(b, a)
    ensures a == b
    decreases |a|
  {
    if |a| > 0 {
      LexLeAntisymmetric(a[1..], b[1..]);
      assert a == [a[0]] + a[1..] && b == [b[0]] + b[1..];
    }
  }
}
