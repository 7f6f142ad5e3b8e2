/** The product-data lookup of the frontend (`getDataById`, `isValidId`): a lookup in the local
    demo table with a case-insensitive fallback that reports the id it corrected to, or a
    call to the backend whose outcome is a parameter. */
module DataService {
  import opened Wrappers
  import opened Text
  import opened Json
  import opened LinkedIds
  import opened Config
  import JsonSearch

  /** `source` of a response: `"local" | "api" | "cache"`. */
  datatype Origin = FromLocal | FromApi | FromCache

  /** `DataServiceResponse`. `data` is `None` for `undefined` and `Some(JNull)` for `null`;
      optional members are `None` when absent. */
  datatype Response = Response(
    data: Option<Json>,
    error: Option<string>,
    source: Origin,
    timestamp: string,
    cached: Option<bool>,
    correctedId: Option<Json>,
    linkedIds: Option<Links>)

  /** `if (response.data)`. */
  predicate HasData(r: Response) {
    r.data.Some? && Truthy(r.data.value)
  }

  /** The ids of the demo table, in its order. */
  const DemoIds: seq<string> := ["MED-1", "HERSTELLER-1", "UNIT-1"]

  /** Every entry of a table holds a document (the demo table holds objects only). */
  predicate AllTruthy(table: seq<Field>) {
    forall i :: 0 <= i < |table| ==> Truthy(table[i].value)
  }

  // ---------------------------------------------------------------------------
  // Local mode
  // ---------------------------------------------------------------------------

  /** `k.toLowerCase().includes(id.toLowerCase())`. */
  predicate Similar(key: string, id: string) {
    Contains(Lower(key), Lower(id))
  }

  /** `Object.keys(table).find(k => Similar(k, id))`, as a position. */
  function FindSimilar(table: seq<Field>, id: string): (r: Option<nat>)
    ensures r.Some? ==> r.value < |table| && Similar(table[r.value].key, id)
    ensures r.Some? ==> forall i :: 0 <= i < r.value ==> !Similar(table[i].key, id)
    ensures r.None? ==> forall i :: 0 <= i < |table| ==> !Similar(table[i].key, id)
  {
    FindSimilarFrom(table, id, 0)
  }

  function FindSimilarFrom(table: seq<Field>, id: string, from: nat): (r: Option<nat>)
    requires from <= |table|
    ensures r.Some? ==> from <= r.value < |table| && Similar(table[r.value].key, id)
    ensures r.Some? ==> forall i :: from <= i < r.value ==> !Similar(table[i].key, id)
    ensures r.None? ==> forall i :: from <= i < |table| ==> !Similar(table[i].key, id)
    decreases |table| - from
  {
    if from == |table| then None
    else if Similar(table[from].key, id) then Some(from)
    else FindSimilarFrom(table, id, from + 1)
  }

  function NotFoundMessage(id: string): string {
    "ID \"" + id + "\" not found in local data"
  }

  /** The local branch of `getDataById`: the entry under `id` if it holds a document, else
      the first entry whose key contains `id` ignoring case, reported as the corrected id.
      `stamp` stands for `new Date().toISOString()`. */
  function LocalLookup(table: seq<Field>, id: string, stamp: string): (r: Response)
    ensures r.source == FromLocal && r.timestamp == stamp && r.cached.None?
    ensures r.error.None? <==> HasData(r)
    ensures r.error.Some? ==> r.error.value == NotFoundMessage(id) && r.linkedIds.None?
    ensures HasData(r) ==> r.linkedIds == Some(ExtractLinkedIds(r.data.value))
    ensures r.correctedId != Some(JStr(id))
    ensures r.correctedId.Some? ==> exists i :: 0 <= i < |table| && r.correctedId == Some(JStr(table[i].key))
  {
    var exact := Lookup(table, id);
    var found := if exact.Some? && Truthy(exact.value) then None else FindSimilar(table, id);
    var actualId := if found.Some? then table[found.value].key else id;
    var data := if found.Some? then Lookup(table, actualId) else exact;
    var present := data.Some? && Truthy(data.value);
    Response(
      data,
      if present then None else Some(NotFoundMessage(id)),
      FromLocal,
      stamp,
      None,
      if actualId != id then Some(JStr(actualId)) else None,
      if present then Some(ExtractLinkedIds(data.value)) else None)
  }

  /** An exact hit is returned as it is, without a correction. */
  lemma LocalExactHit(table: seq<Field>, id: string, stamp: string, v: Json)
    requires Lookup(table, id) == Some(v) && Truthy(v)
    ensures LocalLookup(table, id, stamp).data == Some(v)
    ensures LocalLookup(table, id, stamp).error.None?
    ensures LocalLookup(table, id, stamp).correctedId.None?
  {
  }

  /** On an exact miss, the first key in table order that contains the id (ignoring case)
      supplies the data and is reported as the corrected id. */
  lemma LocalCorrected(table: seq<Field>, id: string, stamp: string, i: nat)
    requires i < |table| && Similar(table[i].key, id)
    requires forall k :: 0 <= k < i ==> !Similar(table[k].key, id)
    requires !(Lookup(table, id).Some? && Truthy(Lookup(table, id).value))
    ensures LocalLookup(table, id, stamp).data == Lookup(table, table[i].key)
    ensures table[i].key != id ==> LocalLookup(table, id, stamp).correctedId == Some(JStr(table[i].key))
  {
    var f := FindSimilar(table, id);
    assert f == Some(i);
  }

  /** The empty id is contained in every key, so it resolves to the first entry. */
  lemma LocalEmptyIdMatchesFirst(table: seq<Field>, stamp: string)
    requires |table| > 0
    requires !(Lookup(table, "").Some? && Truthy(Lookup(table, "").value))
    ensures LocalLookup(table, "", stamp).data == Lookup(table, table[0].key)
    ensures table[0].key != "" ==> LocalLookup(table, "", stamp).correctedId == Some(JStr(table[0].key))
  {
    ContainsEmpty(Lower(table[0].key));
    assert Lower("") == "";
    LocalCorrected(table, "", stamp, 0);
  }

  /** With no key containing the id, the lookup reports the fixed message and nothing else. */
  lemma LocalMiss(table: seq<Field>, id: string, stamp: string)
    requires forall i :: 0 <= i < |table| ==> !Similar(table[i].key, id)
    ensures !HasData(LocalLookup(table, id, stamp))
    ensures LocalLookup(table, id, stamp).error == Some(NotFoundMessage(id))
    ensures LocalLookup(table, id, stamp).linkedIds.None?
    ensures LocalLookup(table, id, stamp).correctedId.None?
  {
    forall i | 0 <= i < |table| ensures table[i].key != id {
      SimilarToItself(table[i].key);
    }
  }

  lemma SimilarToItself(s: string)
    ensures Similar(s, s)
  {
    assert OccursAt(Lower(s), Lower(s), 0);
  }

  /** When every entry holds a document, the lookup finds data exactly when some key contains
      the id, ignoring case. */
  lemma LocalFindsIffSimilar(table: seq<Field>, id: string, stamp: string)
    requires AllTruthy(table)
    ensures HasData(LocalLookup(table, id, stamp)) <==>
      exists i :: 0 <= i < |table| && Similar(table[i].key, id)
  {
    if exists i :: 0 <= i < |table| && Similar(table[i].key, id) {
      var exact := Lookup(table, id);
      if !(exact.Some? && Truthy(exact.value)) {
        var f := FindSimilar(table, id);
        var k := table[f.value].key;
        var j :| 0 <= j < |table| && table[j] == Field(k, Lookup(table, k).value);
      }
    } else {
      LocalMiss(table, id, stamp);
    }
  }

  // ---------------------------------------------------------------------------
  // API mode
  // ---------------------------------------------------------------------------

  /** What `apiClient.searchData(id)` did: answered (`error` and `data` as sent, `fromCache`
      when the client served it from its own cache), or threw (`message` when the thrown
      value is an `Error`). */
  datatype ApiOutcome =
    | Answered(data: Option<Json>, error: Option<string>, timestamp: string, fromCache: bool)
    | Threw(message: Option<string>)

  /** `apiData?.correctedId || apiData?.corrected_id`. */
  function ReportedCorrection(data: Option<Json>): Option<Json> {
    if data.Some? then JsOr(Get(data.value, "correctedId"), Get(data.value, "corrected_id")) else None
  }

  /** A client error string counts only when non-empty (`if (response.error)`). */
  predicate Failed(outcome: ApiOutcome) {
    outcome.Threw? || (outcome.error.Some? && outcome.error.value != "")
  }

  /** The API branch of `getDataById`. Errors and exceptions become a response with `null`
      data and an error; nothing is rethrown. */
  function ApiLookup(outcome: ApiOutcome, id: string, stamp: string): (r: Response)
    ensures r.source == FromApi
    ensures r.error.Some? <==> Failed(outcome)
    ensures Failed(outcome) ==>
      r.data == Some(JNull) && r.cached.None? && r.correctedId.None? && r.linkedIds.None?
    ensures outcome.Threw? ==>
      r.timestamp == stamp && r.error == Some(outcome.message.GetOr("Unknown API error"))
    ensures outcome.Answered? && !Failed(outcome) ==>
      r.data == outcome.data && r.timestamp == outcome.timestamp && r.cached == Some(outcome.fromCache)
      && r.linkedIds == (if HasData(r) then Some(ExtractLinkedIds(r.data.value)) else None)
    ensures r.correctedId != Some(JStr(id))
    ensures r.correctedId.Some? ==> r.correctedId == ReportedCorrection(outcome.data)
    ensures outcome.Answered? && !Failed(outcome) && ReportedCorrection(outcome.data) != Some(JStr(id)) ==>
      r.correctedId == ReportedCorrection(outcome.data)
  {
    match outcome
    case Threw(message) =>
      Response(Some(JNull), Some(message.GetOr("Unknown API error")), FromApi, stamp, None, None, None)
    case Answered(data, error, timestamp, fromCache) =>
      if error.Some? && error.value != "" then
        Response(Some(JNull), error, FromApi, timestamp, None, None, None)
      else
        var corrected := ReportedCorrection(data);
        var present := data.Some? && Truthy(data.value);
        Response(
          data, None, FromApi, timestamp, Some(fromCache),
          if corrected == Some(JStr(id)) then None else corrected,
          if present then Some(ExtractLinkedIds(data.value)) else None)
  }

  /** `getDataById(id)` of the plain data service. */
  function GetDataById(source: DataSource, table: seq<Field>, id: string, stamp: string, outcome: ApiOutcome): (r: Response)
    ensures source == Local ==> r == LocalLookup(table, id, stamp)
    ensures source == Api ==> r == ApiLookup(outcome, id, stamp)
  {
    match source
    case Local => LocalLookup(table, id, stamp)
    case Api => ApiLookup(outcome, id, stamp)
  }

  // ---------------------------------------------------------------------------
  // isValidId
  // ---------------------------------------------------------------------------

  /** `prefix` begins the text, case-sensitively, followed by one more character that is not a
      line terminator (`/^prefix.+/`). */
  predicate ExactPrefixThenChar(text: string, prefix: string) {
    |text| > |prefix| && text[..|prefix|] == prefix && !IsLineTerminator(text[|prefix|])
  }

  /** `/^(MED-|HERSTELLER-|UNIT-).+/.test(id)`. */
  predicate HasIdPrefix(id: string) {
    ExactPrefixThenChar(id, "MED-") || ExactPrefixThenChar(id, "HERSTELLER-") || ExactPrefixThenChar(id, "UNIT-")
  }

  /** `isValidId(id)`: a key of the table locally, a prefixed id otherwise. */
  function IsValidId(source: DataSource, table: seq<Field>, id: string): (r: bool)
    ensures source == Local ==> (r <==> exists i :: 0 <= i < |table| && table[i].key == id)
    ensures source == Api ==> (r <==> HasIdPrefix(id))
  {
    match source
    case Local => Lookup(table, id).Some?
    case Api => HasIdPrefix(id)
  }

  /** Locally, a valid id is looked up exactly: it yields its document with no correction. */
  lemma ValidLocalIdResolves(table: seq<Field>, id: string, stamp: string)
    requires AllTruthy(table) && IsValidId(Local, table, id)
    ensures HasData(LocalLookup(table, id, stamp))
    ensures LocalLookup(table, id, stamp).correctedId.None?
  {
    var v := Lookup(table, id).value;
    var i :| 0 <= i < |table| && table[i] == Field(id, v);
    LocalExactHit(table, id, stamp, v);
  }

  /** An id valid for the API is also recognised as a product id by the document viewer,
      whose test ignores case. */
  lemma ValidApiIdIsProductId(id: string)
    requires HasIdPrefix(id)
    ensures JsonSearch.IsProductId(id)
  {
    forall prefix: string | ExactPrefixThenChar(id, prefix)
      ensures JsonSearch.PrefixThenChar(id, prefix)
    {
      assert id[..|prefix|] == prefix;
    }
  }
}
