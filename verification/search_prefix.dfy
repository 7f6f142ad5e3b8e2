/** The id prefixes of the search bar (header and start page): recognising a typed id that
    already carries its kind's prefix, completing one that does not with the prefix of the
    selected kind, and the inverse steps the header uses to show an id it was opened with. */
module SearchPrefix {
  import opened Wrappers
  import opened Text

  /** The keys of `searchTypes`. */
  datatype SearchKind = Hersteller | Medikament | Unit

  /** `searchTypes[kind].prefix`. */
  function PrefixOf(kind: SearchKind): string {
    match kind
    case Hersteller => "HERSTELLER-"
    case Medikament => "MED-"
    case Unit => "UNIT-"
  }

  /** The text starts with one of the three prefixes. */
  predicate HasKnownPrefix(s: string) {
    StartsWith(s, "HERSTELLER-") || StartsWith(s, "MED-") || StartsWith(s, "UNIT-")
  }

  /** The prefixes begin with different letters, so a text carries at most one of them. */
  lemma PrefixesExclusive(s: string, a: SearchKind, b: SearchKind)
    requires StartsWith(s, PrefixOf(a)) && StartsWith(s, PrefixOf(b))
    ensures a == b
  {
    assert s[0] == PrefixOf(a)[0] && s[0] == PrefixOf(b)[0];
  }

  /** The kind whose prefix the text starts with, testing HERSTELLER-, then MED-, then UNIT-. */
  function PrefixKind(t: string): (r: Option<SearchKind>)
    ensures r.Some? <==> HasKnownPrefix(t)
    ensures forall k :: StartsWith(t, PrefixOf(k)) <==> r == Some(k)
  {
    var r :=
      if StartsWith(t, "HERSTELLER-") then Some(Hersteller)
      else if StartsWith(t, "MED-") then Some(Medikament)
      else if StartsWith(t, "UNIT-") then Some(Unit)
      else None;
    forall k ensures StartsWith(t, PrefixOf(k)) <==> r == Some(k) {
      if StartsWith(t, PrefixOf(k)) && r.Some? {
        PrefixesExclusive(t, k, r.value);
      }
    }
    r
  }

  /** The result of `detectPrefixInQuery`. */
  datatype Detection = Detection(hasPrefix: bool, detectedType: Option<SearchKind>, cleanQuery: string)

  /** `detectPrefixInQuery(query)` (header.tsx and its identical copy in page.tsx). */
  function DetectPrefix(query: string): (d: Detection)
    ensures d.cleanQuery == Trim(query)
    ensures d.hasPrefix <==> d.detectedType.Some?
    ensures d.hasPrefix <==> HasKnownPrefix(Trim(query))
    ensures forall k :: StartsWith(Trim(query), PrefixOf(k)) <==> d.detectedType == Some(k)
  {
    var t := Trim(query);
    var kind := PrefixKind(t);
    Detection(kind.Some?, kind, t)
  }

  /** `buildFinalSearch(query, selectedType)` (header.tsx and its identical copy in page.tsx):
      a typed id that carries a prefix is kept (trimmed); anything else gets the selected
      kind's prefix. */
  function BuildFinalSearch(query: string, selected: SearchKind): (r: string)
    ensures HasKnownPrefix(r)
    ensures HasKnownPrefix(Trim(query)) ==> r == Trim(query)
    ensures !HasKnownPrefix(Trim(query)) ==> r == PrefixOf(selected) + Trim(query)
    ensures Trim(r) == r
  {
    var d := DetectPrefix(query);
    TrimIdempotent(query);
    var t := d.cleanQuery;
    if d.hasPrefix then
      t
    else
      Prefixed(selected, t);
      PrefixOf(selected) + t
  }

  /** A trimmed text behind a prefix stays trimmed and carries the prefix. */
  lemma Prefixed(kind: SearchKind, t: string)
    requires Trim(t) == t
    ensures HasKnownPrefix(PrefixOf(kind) + t) && StartsWith(PrefixOf(kind) + t, PrefixOf(kind))
    ensures Trim(PrefixOf(kind) + t) == PrefixOf(kind) + t
  {
    var p := PrefixOf(kind);
    var r := p + t;
    assert r[..|p|] == p;
    assert r[0] == p[0] && !IsSpace(r[0]);
    if |t| > 0 {
      assert r[|r| - 1] == t[|t| - 1];
    } else {
      assert r[|r| - 1] == p[|p| - 1];
    }
    TrimOfTrimmed(r);
  }

  /** Completing an id a second time changes nothing, whatever kind is selected then. */
  lemma BuildFinalSearchIdempotent(query: string, first: SearchKind, second: SearchKind)
    ensures BuildFinalSearch(BuildFinalSearch(query, first), second) == BuildFinalSearch(query, first)
  {
    var r := BuildFinalSearch(query, first);
    assert Trim(r) == r && HasKnownPrefix(r);
  }

  /** `getSearchTypeFromProductId(productId)`; `None` is `undefined`. A missing, empty or
      unprefixed id counts as a medication. */
  function SearchTypeFromProductId(productId: Option<string>): (r: SearchKind)
    ensures productId.Some? && HasKnownPrefix(productId.value) ==> StartsWith(productId.value, PrefixOf(r))
    ensures productId.None? || !HasKnownPrefix(productId.value) ==> r == Medikament
  {
    if productId.None? || productId.value == "" then Medikament
    else if StartsWith(productId.value, "MED-") then Medikament
    else if StartsWith(productId.value, "HERSTELLER-") then Hersteller
    else if StartsWith(productId.value, "UNIT-") then Unit
    else Medikament
  }

  /** `removePrefix(productId)`: `replace` drops the first occurrence of the prefix, which is
      the one the id starts with. */
  function RemovePrefix(productId: string): (r: string)
    ensures forall k :: StartsWith(productId, PrefixOf(k)) ==> PrefixOf(k) + r == productId
    ensures !HasKnownPrefix(productId) ==> r == productId
  {
    var r :=
      if StartsWith(productId, "MED-") then productId[4..]
      else if StartsWith(productId, "HERSTELLER-") then productId[11..]
      else if StartsWith(productId, "UNIT-") then productId[5..]
      else productId;
    assert forall k :: StartsWith(productId, PrefixOf(k)) ==> PrefixOf(k) + r == productId by {
      forall k | StartsWith(productId, PrefixOf(k)) ensures PrefixOf(k) + r == productId {
        var j := if StartsWith(productId, "MED-") then Medikament
          else if StartsWith(productId, "HERSTELLER-") then Hersteller else Unit;
        PrefixesExclusive(productId, k, j);
        assert productId == productId[..|PrefixOf(k)|] + productId[|PrefixOf(k)|..];
      }
    }
    r
  }

  /** Showing an id in the search bar and submitting it again gives back the id, as long as
      what follows its prefix has no surrounding whitespace and no prefix of its own. */
  lemma RoundTrip(productId: string)
    requires HasKnownPrefix(productId)
    requires Trim(RemovePrefix(productId)) == RemovePrefix(productId)
    requires !HasKnownPrefix(RemovePrefix(productId))
    ensures BuildFinalSearch(RemovePrefix(productId), SearchTypeFromProductId(Some(productId))) == productId
  {
    var k := SearchTypeFromProductId(Some(productId));
    assert StartsWith(productId, PrefixOf(k));
  }

  /** Without the last condition the round trip fails: `MED-UNIT-7` is shown as `UNIT-7` and
      submitted as a unit id. */
  lemma RoundTripNeedsUnprefixedRest()
    ensures BuildFinalSearch(RemovePrefix("MED-UNIT-7"), SearchTypeFromProductId(Some("MED-UNIT-7"))) == "UNIT-7"
  {
    assert StartsWith("MED-UNIT-7", "MED-");
    assert RemovePrefix("MED-UNIT-7") == "UNIT-7";
    assert StartsWith("UNIT-7", "UNIT-");
    TrimOfTrimmed("UNIT-7");
  }

  // ---------------------------------------------------------------------------------------
  // Submitting the search

  /** `handleSearchSubmit` of the header: the path it navigates to. A blank query goes to the
      start page. */
  function HeaderSubmit(query: string, selected: SearchKind): (path: string)
    ensures IsBlank(query) <==> path == "/"
    ensures !IsBlank(query) ==> path == "/" + BuildFinalSearch(query, selected)
  {
    if (TrimEmptyIffBlank(query); Trim(query) == []) then "/"
    else "/" + BuildFinalSearch(query, selected)
  }

  /** `handleSearchSubmit` of the start page: the path it navigates to, or `None` when a blank
      query leaves the page as it is. */
  function PageSubmit(query: string, selected: SearchKind): (path: Option<string>)
    ensures path.None? <==> IsBlank(query)
    ensures path.Some? ==> path.value == "/" + BuildFinalSearch(query, selected)
  {
    if (TrimEmptyIffBlank(query); Trim(query) == []) then None
    else Some("/" + BuildFinalSearch(query, selected))
  }

  /** The id the start page asks the preloader for while the user types: only for a query
      that is not blank. */
  function PreloadTarget(query: string, selected: SearchKind): (id: Option<string>)
    ensures id.None? <==> IsBlank(query)
    ensures id.Some? ==> HasKnownPrefix(id.value)
  {
    if (TrimEmptyIffBlank(query); Trim(query) == []) then None
    else Some(BuildFinalSearch(query, selected))
  }

  /** The start page preloads exactly the id a submit of the same query would open, and the
      header opens the same page for any query that is not blank. */
  lemma SubmitsAgree(query: string, selected: SearchKind)
    ensures PageSubmit(query, selected).Some? <==> PreloadTarget(query, selected).Some?
    ensures PageSubmit(query, selected).Some? ==>
      PageSubmit(query, selected).value == "/" + PreloadTarget(query, selected).value &&
      HeaderSubmit(query, selected) == PageSubmit(query, selected).value
    ensures PageSubmit(query, selected).None? ==> HeaderSubmit(query, selected) == "/"
  {
    TrimEmptyIffBlank(query);
  }
}
