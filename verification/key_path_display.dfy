/** How the history dialog shows a long key path (`formatKeyPath`): at most 30 characters,
    keeping the first and last dot-separated parts where they fit. */
module KeyPathDisplay {
  import opened Text

  const MaxLength := 30

  /** `s.substring(0, 27) + "..."` for a text longer than the limit. */
  function Cut(s: string): (r: string)
    requires |s| > MaxLength
    ensures |r| == MaxLength && r[..MaxLength - 3] == s[..MaxLength - 3]
  {
    s[..MaxLength - 3] + "..."
  }

  /** `formatKeyPath(path)`. */
  function FormatKeyPath(path: string): (r: string)
    ensures |r| <= MaxLength && |r| <= |path|
    ensures r == path <==> |path| <= MaxLength
    ensures |path| > MaxLength && |Split(path, '.')| <= 2 ==> r == Cut(path)
  {
    if |path| <= MaxLength then path
    else
      var parts := Split(path, '.');
      if |parts| <= 2 then Cut(path)
      else
        var shortened := parts[0] + "..." + parts[|parts| - 1];
        if |shortened| > MaxLength then Cut(shortened) else shortened
  }

  /** A long path of three or more parts keeps the start of its first part; when first and
      last part fit together, it shows exactly those two parts of the path around "...". */
  lemma LongPathKeepsEnds(path: string)
    requires |path| > MaxLength && |Split(path, '.')| >= 3
    ensures var parts := Split(path, '.'); var first := parts[0]; var last := parts[|parts| - 1];
      StartsWith(path, first + ".") && |last| <= |path| && path[|path| - |last|..] == last && '.' !in first && '.' !in last &&
      (|first| + 3 + |last| <= MaxLength ==> FormatKeyPath(path) == first + "..." + last) &&
      (|first| + 3 + |last| > MaxLength && |first| <= MaxLength - 3 ==> StartsWith(FormatKeyPath(path), first))
  {
    var parts := Split(path, '.');
    JoinSplit(path, '.');
    JoinEndsWith(parts, ".");
    assert path == parts[0] + "." + Join(parts[1..], ".");
    assert (parts[0] + "." + Join(parts[1..], "."))[..|parts[0]| + 1] == parts[0] + ".";
    var shortened := parts[0] + "..." + parts[|parts| - 1];
    assert shortened[..|parts[0]|] == parts[0];
  }
}
