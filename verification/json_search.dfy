/** The passport viewer's search over a JSON document (`searchInJson`) and its two text
    classifiers (`isUrl`, `isProductId`). */
module JsonSearch {
  import opened Wrappers
  import opened Text
  import opened Json

  datatype MatchKind = KeyMatch | ValueMatch

  /** One reported match: where it is, what matched, and the member's key and shown value. */
  datatype SearchResult = SearchResult(
    path: seq<string>, kind: MatchKind, matchedText: string, fullKey: string, fullValue: string)

  /** How the query is interpreted: a `key:value` pair (both parts trimmed and lowered), or
      plain text (lowered, untrimmed). */
  datatype Mode = KeyValueMode(keyQuery: string, valueQuery: string) | PlainMode(query: string)

  /** `formatValue`: how a value is shown; `showNumber` is the locale's `toLocaleString`. */
  function FormatValue(v: Json, showNumber: int -> string): string {
    match v
    case JNull => "null"
    case JBool(b) => if b then "true" else "false"
    case JStr(s) => s
    case JNum(n) => showNumber(n)
    case _ => ""
  }

  /** The mode the query selects: `key:value` when `^(.+?):(.+)$` matches the raw query. */
  function QueryMode(term: string): Mode {
    match SplitKeyValue(term, false)
    case Some((k, v)) => KeyValueMode(Lower(Trim(k)), Lower(Trim(v)))
    case None => PlainMode(Lower(term))
  }

  /** What one object member at `path` contributes to the results. */
  function Hits(mode: Mode, path: seq<string>, key: string, value: Json, showNumber: int -> string)
    : seq<SearchResult>
  {
    var shown := FormatValue(value, showNumber);
    match mode
    case KeyValueMode(kq, vq) =>
      if Contains(Lower(key), kq) && Contains(Lower(shown), vq)
      then [SearchResult(path, KeyMatch, key + ":" + shown, key, shown)] else []
    case PlainMode(q) =>
      (if Contains(Lower(key), q) then [SearchResult(path, KeyMatch, key, key, shown)] else [])
      + (if Contains(Lower(shown), q) then [SearchResult(path, ValueMatch, shown, key, shown)] else [])
  }

  /** The per-member contribution for a given mode, as a function value. */
  function HitsOf(mode: Mode, showNumber: int -> string): (seq<string>, string, Json) -> seq<SearchResult> {
    (path, key, value) => Hits(mode, path, key, value, showNumber)
  }

  /** The recursive walk of `searchKeyValue` / `searchRecursive`: object members in order, each
      member's own hits before the hits inside its value; array elements under their index.
      Both source functions share this walk and differ only in `hits`. */
  function Walk(j: Json, path: seq<string>, hits: (seq<string>, string, Json) -> seq<SearchResult>)
    : seq<SearchResult>
    decreases j
  {
    match j
    case JObj(fields) => WalkFields(fields, path, hits)
    case JArr(items) => WalkItems(items, path, 0, hits)
    case _ => []
  }

  function WalkFields(fields: seq<Field>, path: seq<string>, hits: (seq<string>, string, Json) -> seq<SearchResult>)
    : seq<SearchResult>
    decreases fields
  {
    if |fields| == 0 then []
    else
      var key, value := fields[0].key, fields[0].value;
      hits(path + [key], key, value)
      + (if IsObjectLike(value) then Walk(value, path + [key], hits) else [])
      + WalkFields(fields[1..], path, hits)
  }

  function WalkItems(items: seq<Json>, path: seq<string>, from: nat, hits: (seq<string>, string, Json) -> seq<SearchResult>)
    : seq<SearchResult>
    decreases items
  {
    if |items| == 0 then []
    else Walk(items[0], path + [NatToDec(from)], hits) + WalkItems(items[1..], path, from + 1, hits)
  }

  /** `searchInJson(data, searchTerm)`: nothing for a blank query. */
  function SearchInJson(data: Json, term: string, showNumber: int -> string): (r: seq<SearchResult>)
    ensures Trim(term) == [] ==> r == []
  {
    if Trim(term) == [] then [] else Walk(data, [], HitsOf(QueryMode(term), showNumber))
  }

  // ---------------------------------------------------------------------------------------
  // Reference enumeration: which members exist, independently of any query.

  /** An object member found at `path` (whose last element is `key`). */
  datatype Member = Member(path: seq<string>, key: string, value: Json)

  /** Every object member inside `j`, depth first, each member before the members nested in
      its value. */
  function Members(j: Json, path: seq<string>): seq<Member>
    decreases j
  {
    match j
    case JObj(fields) => FieldMembers(fields, path)
    case JArr(items) => ItemMembers(items, path, 0)
    case _ => []
  }

  function FieldMembers(fields: seq<Field>, path: seq<string>): seq<Member>
    decreases fields
  {
    if |fields| == 0 then []
    else
      var p := path + [fields[0].key];
      [Member(p, fields[0].key, fields[0].value)] + Members(fields[0].value, p)
      + FieldMembers(fields[1..], path)
  }

  function ItemMembers(items: seq<Json>, path: seq<string>, from: nat): seq<Member>
    decreases items
  {
    if |items| == 0 then []
    else Members(items[0], path + [NatToDec(from)]) + ItemMembers(items[1..], path, from + 1)
  }

  /** The hits of a list of members, concatenated in order. */
  function Report(ms: seq<Member>, hits: (seq<string>, string, Json) -> seq<SearchResult>): seq<SearchResult> {
    if |ms| == 0 then [] else hits(ms[0].path, ms[0].key, ms[0].value) + Report(ms[1..], hits)
  }

  lemma {:induction false} ReportAppend(a: seq<Member>, b: seq<Member>, hits: (seq<string>, string, Json) -> seq<SearchResult>)
    ensures Report(a + b, hits) == Report(a, hits) + Report(b, hits)
  {
    if |a| == 0 {
      assert a + b == b;
    } else {
      assert (a + b)[1..] == a[1..] + b;
      ReportAppend(a[1..], b, hits);
    }
  }

  /** The search walk reports exactly the hits of every member, in enumeration order. */
  lemma {:induction false} WalkIsReport(j: Json, path: seq<string>, hits: (seq<string>, string, Json) -> seq<SearchResult>)
    ensures Walk(j, path, hits) == Report(Members(j, path), hits)
    decreases j
  {
    match j
    case JObj(fields) => WalkFieldsIsReport(fields, path, hits);
    case JArr(items) => WalkItemsIsReport(items, path, 0, hits);
    case _ =>
  }

  lemma {:induction false} WalkFieldsIsReport(fields: seq<Field>, path: seq<string>, hits: (seq<string>, string, Json) -> seq<SearchResult>)
    ensures WalkFields(fields, path, hits) == Report(FieldMembers(fields, path), hits)
    decreases fields
  {
    if |fields| > 0 {
      var key, value := fields[0].key, fields[0].value;
      var p := path + [key];
      var inner := Members(value, p);
      var rest := FieldMembers(fields[1..], path);
      WalkIsReport(value, p, hits);
      WalkFieldsIsReport(fields[1..], path, hits);
      assert Members(value, p) == [] || IsObjectLike(value);
      ReportAppend(inner, rest, hits);
      var ms := [Member(p, key, value)] + (inner + rest);
      assert FieldMembers(fields, path) == ms;
      assert ms[0] == Member(p, key, value) && ms[1..] == inner + rest;
    }
  }

  lemma {:induction false} WalkItemsIsReport(items: seq<Json>, path: seq<string>, from: nat, hits: (seq<string>, string, Json) -> seq<SearchResult>)
    ensures WalkItems(items, path, from, hits) == Report(ItemMembers(items, path, from), hits)
    decreases items
  {
    if |items| > 0 {
      WalkIsReport(items[0], path + [NatToDec(from)], hits);
      WalkItemsIsReport(items[1..], path, from + 1, hits);
      ReportAppend(Members(items[0], path + [NatToDec(from)]), ItemMembers(items[1..], path, from + 1), hits);
    }
  }

  /** A member's path extends the walk's starting path and ends with the member's own key. */
  predicate PathEndsAtKey(m: Member, path: seq<string>) {
    |m.path| > |path| && m.path[..|path|] == path && m.path[|m.path| - 1] == m.key
  }

  lemma {:induction false} MembersPaths(j: Json, path: seq<string>)
    ensures forall i :: 0 <= i < |Members(j, path)| ==> PathEndsAtKey(Members(j, path)[i], path)
    decreases j
  {
    match j
    case JObj(fields) => FieldMembersPaths(fields, path);
    case JArr(items) => ItemMembersPaths(items, path, 0);
    case _ =>
  }

  lemma {:induction false} FieldMembersPaths(fields: seq<Field>, path: seq<string>)
    ensures forall i :: 0 <= i < |FieldMembers(fields, path)| ==> PathEndsAtKey(FieldMembers(fields, path)[i], path)
    decreases fields
  {
    if |fields| > 0 {
      var p := path + [fields[0].key];
      MembersPaths(fields[0].value, p);
      FieldMembersPaths(fields[1..], path);
      var head := [Member(p, fields[0].key, fields[0].value)];
      var inner := Members(fields[0].value, p);
      var rest := FieldMembers(fields[1..], path);
      assert FieldMembers(fields, path) == head + inner + rest;
      forall i | 0 <= i < |FieldMembers(fields, path)|
        ensures PathEndsAtKey(FieldMembers(fields, path)[i], path)
      {
        var m := FieldMembers(fields, path)[i];
        if i == 0 {
        } else if i < 1 + |inner| {
          assert m == inner[i - 1];
          assert PathEndsAtKey(m, p);
          assert m.path[..|path|] == m.path[..|p|][..|path|];
        } else {
          assert m == rest[i - 1 - |inner|];
        }
      }
    }
  }

  lemma {:induction false} ItemMembersPaths(items: seq<Json>, path: seq<string>, from: nat)
    ensures forall i :: 0 <= i < |ItemMembers(items, path, from)| ==> PathEndsAtKey(ItemMembers(items, path, from)[i], path)
    decreases items
  {
    if |items| > 0 {
      var p := path + [NatToDec(from)];
      MembersPaths(items[0], p);
      ItemMembersPaths(items[1..], path, from + 1);
      var inner := Members(items[0], p);
      var rest := ItemMembers(items[1..], path, from + 1);
      forall i | 0 <= i < |ItemMembers(items, path, from)|
        ensures PathEndsAtKey(ItemMembers(items, path, from)[i], path)
      {
        var m := ItemMembers(items, path, from)[i];
        if i < |inner| {
          assert m == inner[i];
          assert PathEndsAtKey(m, p);
          assert m.path[..|path|] == m.path[..|p|][..|path|];
        } else {
          assert m == rest[i - |inner|];
        }
      }
    }
  }

  /** Each reported result comes from some member: same path, key and shown value. */
  lemma {:induction false} ReportOrigins(ms: seq<Member>, mode: Mode, showNumber: int -> string)
    ensures forall r :: r in Report(ms, HitsOf(mode, showNumber)) ==>
      exists i :: 0 <= i < |ms| && r.path == ms[i].path && r.fullKey == ms[i].key
                  && r.fullValue == FormatValue(ms[i].value, showNumber)
  {
    if |ms| > 0 {
      ReportOrigins(ms[1..], mode, showNumber);
      var hits := HitsOf(mode, showNumber);
      forall r | r in Report(ms, hits)
        ensures exists i :: 0 <= i < |ms| && r.path == ms[i].path && r.fullKey == ms[i].key
                            && r.fullValue == FormatValue(ms[i].value, showNumber)
      {
        if r !in hits(ms[0].path, ms[0].key, ms[0].value) {
          var i :| 0 <= i < |ms[1..]| && r.path == ms[1..][i].path && r.fullKey == ms[1..][i].key
                   && r.fullValue == FormatValue(ms[1..][i].value, showNumber);
          assert ms[1..][i] == ms[i + 1];
        }
      }
    }
  }

  /** Every hit of a member names the member's path and key. */
  lemma HitsName(mode: Mode, path: seq<string>, key: string, value: Json, showNumber: int -> string)
    ensures forall r :: r in Hits(mode, path, key, value, showNumber) ==> r.path == path && r.fullKey == key
  {
  }

  /** Reporting members whose paths end at their keys gives results whose paths end at their
      keys. */
  lemma {:induction false} ReportPathsEndAtKey(ms: seq<Member>, mode: Mode, showNumber: int -> string)
    requires forall i :: 0 <= i < |ms| ==> PathEndsAtKey(ms[i], [])
    ensures forall r :: r in Report(ms, HitsOf(mode, showNumber)) ==>
      |r.path| > 0 && r.path[|r.path| - 1] == r.fullKey
  {
    if |ms| > 0 {
      var hits := HitsOf(mode, showNumber);
      assert forall i :: 0 <= i < |ms[1..]| ==> ms[1..][i] == ms[i + 1];
      ReportPathsEndAtKey(ms[1..], mode, showNumber);
      assert PathEndsAtKey(ms[0], []);
      HitsName(mode, ms[0].path, ms[0].key, ms[0].value, showNumber);
      assert Report(ms, hits) == Hits(mode, ms[0].path, ms[0].key, ms[0].value, showNumber) + Report(ms[1..], hits);
    }
  }

  lemma WalkPathsEndAtKey(data: Json, mode: Mode, showNumber: int -> string)
    ensures forall r :: r in Walk(data, [], HitsOf(mode, showNumber)) ==>
      |r.path| > 0 && r.path[|r.path| - 1] == r.fullKey
  {
    WalkIsReport(data, [], HitsOf(mode, showNumber));
    MembersPaths(data, []);
    ReportPathsEndAtKey(Members(data, []), mode, showNumber);
  }

  /** Every result's path ends with the key of the member it reports. */
  lemma ResultPathsEndAtKey(data: Json, term: string, showNumber: int -> string)
    ensures forall r :: r in SearchInJson(data, term, showNumber) ==>
      |r.path| > 0 && r.path[|r.path| - 1] == r.fullKey
  {
    if Trim(term) != [] {
      WalkPathsEndAtKey(data, QueryMode(term), showNumber);
    }
  }

  /** In `key:value` mode every result is a key match whose key contains the key part and whose
      shown value contains the value part. */
  lemma {:induction false} KeyValueReportShape(ms: seq<Member>, kq: string, vq: string, showNumber: int -> string)
    ensures forall r :: r in Report(ms, HitsOf(KeyValueMode(kq, vq), showNumber)) ==>
      r.kind == KeyMatch && Contains(Lower(r.fullKey), kq) && Contains(Lower(r.fullValue), vq)
      && r.matchedText == r.fullKey + ":" + r.fullValue
  {
    if |ms| > 0 {
      KeyValueReportShape(ms[1..], kq, vq, showNumber);
    }
  }

  /** A member is reported in `key:value` mode exactly when its key and shown value match. */
  lemma {:induction false} KeyValueReportComplete(ms: seq<Member>, kq: string, vq: string, showNumber: int -> string, m: Member)
    requires m in ms
    ensures Contains(Lower(m.key), kq) && Contains(Lower(FormatValue(m.value, showNumber)), vq)
      <==> SearchResult(m.path, KeyMatch, m.key + ":" + FormatValue(m.value, showNumber), m.key,
                        FormatValue(m.value, showNumber)) in Report(ms, HitsOf(KeyValueMode(kq, vq), showNumber))
  {
    KeyValueReportShape(ms, kq, vq, showNumber);
    if ms[0] != m {
      KeyValueReportComplete(ms[1..], kq, vq, showNumber, m);
    }
  }

  /** The results in `key:value` mode: one key match per matching member, and nothing else. */
  lemma KeyValueSearch(data: Json, term: string, showNumber: int -> string, m: Member)
    requires Trim(term) != [] && QueryMode(term).KeyValueMode?
    requires m in Members(data, [])
    ensures forall r :: r in SearchInJson(data, term, showNumber) ==> r.kind == KeyMatch
    ensures var mode := QueryMode(term);
      var shown := FormatValue(m.value, showNumber);
      (Contains(Lower(m.key), mode.keyQuery) && Contains(Lower(shown), mode.valueQuery)
       <==> SearchResult(m.path, KeyMatch, m.key + ":" + shown, m.key, shown) in SearchInJson(data, term, showNumber))
  {
    var mode := QueryMode(term);
    WalkIsReport(data, [], HitsOf(mode, showNumber));
    KeyValueReportShape(Members(data, []), mode.keyQuery, mode.valueQuery, showNumber);
    KeyValueReportComplete(Members(data, []), mode.keyQuery, mode.valueQuery, showNumber, m);
  }

  /** In plain mode every result is a key match showing a key that contains the query, or a
      value match showing a shown value that contains it. */
  lemma {:induction false} PlainReportShape(ms: seq<Member>, q: string, showNumber: int -> string)
    ensures forall r :: r in Report(ms, HitsOf(PlainMode(q), showNumber)) ==>
      (r.kind == KeyMatch && r.matchedText == r.fullKey && Contains(Lower(r.fullKey), q))
      || (r.kind == ValueMatch && r.matchedText == r.fullValue && Contains(Lower(r.fullValue), q))
  {
    if |ms| > 0 {
      PlainReportShape(ms[1..], q, showNumber);
    }
  }

  /** A member is reported in plain mode as a key match exactly when its key contains the
      query, and as a value match exactly when its shown value does. */
  lemma {:induction false} PlainReportComplete(ms: seq<Member>, q: string, showNumber: int -> string, m: Member)
    requires m in ms
    ensures var shown := FormatValue(m.value, showNumber);
      var found := Report(ms, HitsOf(PlainMode(q), showNumber));
      (Contains(Lower(m.key), q) <==> SearchResult(m.path, KeyMatch, m.key, m.key, shown) in found)
      && (Contains(Lower(shown), q) <==> SearchResult(m.path, ValueMatch, shown, m.key, shown) in found)
  {
    PlainReportShape(ms, q, showNumber);
    if ms[0] != m {
      PlainReportComplete(ms[1..], q, showNumber, m);
    }
  }

  /** No text is contained in the empty string but the empty one. */
  lemma EmptyContainsOnlyEmpty(q: string)
    requires |q| > 0
    ensures !Contains("", q)
  {
  }

  /** The results of a plain query: a key match per member whose key contains the lowered
      query, a value match per member whose shown value contains it; arrays and objects show
      nothing and so never match as values. */
  lemma PlainSearch(data: Json, term: string, showNumber: int -> string, m: Member)
    requires Trim(term) != [] && QueryMode(term).PlainMode?
    requires m in Members(data, [])
    ensures var shown := FormatValue(m.value, showNumber);
      var found := SearchInJson(data, term, showNumber);
      (Contains(Lower(m.key), Lower(term)) <==> SearchResult(m.path, KeyMatch, m.key, m.key, shown) in found)
      && (Contains(Lower(shown), Lower(term)) <==> SearchResult(m.path, ValueMatch, shown, m.key, shown) in found)
    ensures IsObjectLike(m.value) ==>
      SearchResult(m.path, ValueMatch, "", m.key, "") !in SearchInJson(data, term, showNumber)
    ensures forall r :: r in SearchInJson(data, term, showNumber) ==>
      (r.kind == KeyMatch && r.matchedText == r.fullKey && Contains(Lower(r.fullKey), Lower(term)))
      || (r.kind == ValueMatch && r.matchedText == r.fullValue && Contains(Lower(r.fullValue), Lower(term)))
  {
    var mode := QueryMode(term);
    assert mode == PlainMode(Lower(term));
    WalkIsReport(data, [], HitsOf(mode, showNumber));
    PlainReportShape(Members(data, []), Lower(term), showNumber);
    PlainReportComplete(Members(data, []), Lower(term), showNumber, m);
    if IsObjectLike(m.value) {
      assert |Lower(term)| > 0;
      EmptyContainsOnlyEmpty(Lower(term));
    }
  }

  lemma TrimLower(s: string)
    ensures Trim(Lower(s)) == Lower(Trim(s))
  {
    TrimStartLower(s);
    TrimEndLower(TrimStart(s));
  }

  lemma {:induction false} TrimStartLower(s: string)
    ensures TrimStart(Lower(s)) == Lower(TrimStart(s))
    decreases |s|
  {
    var l := Lower(s);
    if |s| > 0 {
      assert IsSpace(l[0]) == IsSpace(s[0]);
      if IsSpace(s[0]) {
        assert l[1..] == Lower(s[1..]);
        TrimStartLower(s[1..]);
      }
    }
  }

  lemma {:induction false} TrimEndLower(s: string)
    ensures TrimEnd(Lower(s)) == Lower(TrimEnd(s))
    decreases |s|
  {
    var l := Lower(s);
    if |s| > 0 {
      assert IsSpace(l[|s| - 1]) == IsSpace(s[|s| - 1]);
      if IsSpace(s[|s| - 1]) {
        assert l[..|s| - 1] == Lower(s[..|s| - 1]);
        TrimEndLower(s[..|s| - 1]);
      }
    }
  }

  /** The search is case-insensitive: lowering the query changes nothing. */
  lemma SearchIgnoresQueryCase(data: Json, term: string, showNumber: int -> string)
    ensures SearchInJson(data, Lower(term), showNumber) == SearchInJson(data, term, showNumber)
  {
    TrimLower(term);
    assert (Trim(Lower(term)) == []) == (Trim(term) == []);
    SplitKeyValueLower(term, false);
    LowerIdempotent(term);
    match SplitKeyValue(term, false)
    case Some((k, v)) =>
      TrimLower(k);
      TrimLower(v);
      LowerIdempotent(Trim(k));
      LowerIdempotent(Trim(v));
      assert QueryMode(Lower(term)) == QueryMode(term);
    case None =>
  }

  /** A document without objects or arrays at its root yields nothing. */
  lemma PrimitiveRootNoResults(data: Json, term: string, showNumber: int -> string)
    requires !IsObjectLike(data)
    ensures SearchInJson(data, term, showNumber) == []
  {
  }

  // ---------------------------------------------------------------------------------------
  // Text classifiers.

  /** `text` begins with `prefix` (ignoring ASCII case) and then at least one character a regex
      `.` matches. */
  predicate PrefixThenChar(text: string, prefix: string) {
    |text| > |prefix| && EqualsIgnoreCase(text[..|prefix|], prefix) && !IsLineTerminator(text[|prefix|])
  }

  /** `/^https?:\/\/.+/i.test(text)`. */
  predicate IsUrl(text: string) {
    PrefixThenChar(text, "http://") || PrefixThenChar(text, "https://")
  }

  /** `/^(MED-|HERSTELLER-|UNIT-).+/i.test(text)`. */
  predicate IsProductId(text: string) {
    PrefixThenChar(text, "MED-") || PrefixThenChar(text, "HERSTELLER-") || PrefixThenChar(text, "UNIT-")
  }

  /** Both classifiers ignore case. */
  lemma ClassifiersIgnoreCase(text: string)
    ensures IsUrl(Lower(text)) == IsUrl(text)
    ensures IsProductId(Lower(text)) == IsProductId(text)
  {
    forall prefix: string | |prefix| < |text|
      ensures Lower(text)[..|prefix|] == Lower(text[..|prefix|])
    {
      LowerSlice(text, 0, |prefix|);
      assert text[..|prefix|] == text[0..|prefix|];
    }
    forall prefix: string ensures PrefixThenChar(Lower(text), prefix) == PrefixThenChar(text, prefix) {
      if |text| > |prefix| {
        LowerSlice(text, 0, |prefix|);
        assert text[..|prefix|] == text[0..|prefix|];
        LowerIdempotent(text[..|prefix|]);
        assert IsLineTerminator(Lower(text)[|prefix|]) == IsLineTerminator(text[|prefix|]);
      }
    }
  }
}
