/** The backend's searches over its cached copy of the ledger (`SearchService`): medications
    by owner, status, tags and name, actors by role, name and id, and the current actor's
    units by batch name. Each search is a pipeline of stream filters, and each keeps the
    matching records in cache order; here every pipeline is shown equal to one filter by the
    conjunction of the conditions its parameters switch on. */
module SearchService {
  import opened Wrappers
  import opened Text
  import opened Seqs
  import opened Domain
  import opened StateCache

  /** `StringUtils.hasText`: present, with a character that is not whitespace. */
  predicate HasText(s: Option<string>) {
    s.Some? && !IsJavaBlank(s.value)
  }

  // ---------------------------------------------------------------------------------------
  // Tags

  /** Some entry of the tag map whose key or value, ignoring case, contains one of the search
      tags, ignoring case. */
  predicate TagMatches(tags: seq<(string, string)>, search: seq<string>) {
    exists i, j ::
      0 <= i < |tags| && 0 <= j < |search| &&
      (Contains(Lower(tags[i].0), Lower(search[j])) || Contains(Lower(tags[i].1), Lower(search[j])))
  }

  /** The search tags mapped through `toLowerCase`. */
  function LowerAll(tags: seq<string>): (r: seq<string>)
    ensures |r| == |tags| && forall j :: 0 <= j < |tags| ==> r[j] == Lower(tags[j])
  {
    if |tags| == 0 then [] else [Lower(tags[0])] + LowerAll(tags[1..])
  }

  /** The inner `anyMatch`: some lowered search tag occurs in the lowered key or value. */
  function AnySearchTag(lowerKey: string, lowerValue: string, lowered: seq<string>): (r: bool)
    ensures r <==> exists j :: 0 <= j < |lowered| && (Contains(lowerKey, lowered[j]) || Contains(lowerValue, lowered[j]))
  {
    if |lowered| == 0 then false
    else if Contains(lowerKey, lowered[0]) || Contains(lowerValue, lowered[0]) then true
    else
      var r := AnySearchTag(lowerKey, lowerValue, lowered[1..]);
      assert forall j :: 1 <= j < |lowered| ==> lowered[j] == lowered[1..][j - 1];
      r
  }

  /** The outer `anyMatch` over the entries of the tag map. */
  function AnyTagEntry(tags: seq<(string, string)>, lowered: seq<string>): (r: bool)
    ensures r <==> exists i :: 0 <= i < |tags| && AnySearchTag(Lower(tags[i].0), Lower(tags[i].1), lowered)
  {
    if |tags| == 0 then false
    else if AnySearchTag(Lower(tags[0].0), Lower(tags[0].1), lowered) then true
    else
      var r := AnyTagEntry(tags[1..], lowered);
      assert forall i :: 1 <= i < |tags| ==> tags[i] == tags[1..][i - 1];
      r
  }

  /** `medikamentHasMatchingTags(m, search)`: a medication without tags never matches. */
  function HasMatchingTags(m: Medikament, search: seq<string>): (r: bool)
    ensures r <==> TagMatches(m.tags, search)
  {
    if |m.tags| == 0 then false
    else
      var lowered := LowerAll(search);
      var r := AnyTagEntry(m.tags, lowered);
      assert r ==> TagMatches(m.tags, search) by {
        if r {
          var i :| 0 <= i < |m.tags| && AnySearchTag(Lower(m.tags[i].0), Lower(m.tags[i].1), lowered);
          var j :| 0 <= j < |lowered| && (Contains(Lower(m.tags[i].0), lowered[j]) || Contains(Lower(m.tags[i].1), lowered[j]));
          assert lowered[j] == Lower(search[j]);
        }
      }
      assert TagMatches(m.tags, search) ==> r by {
        if TagMatches(m.tags, search) {
          var i, j :| 0 <= i < |m.tags| && 0 <= j < |search| &&
            (Contains(Lower(m.tags[i].0), Lower(search[j])) || Contains(Lower(m.tags[i].1), Lower(search[j])));
          assert AnySearchTag(Lower(m.tags[i].0), Lower(m.tags[i].1), lowered);
        }
      }
      r
  }

  // ---------------------------------------------------------------------------------------
  // Manufacturer names

  /** `"hersteller".equalsIgnoreCase(actor.getRole())`. */
  predicate IsManufacturer(a: Actor) {
    Lower(a.role) == "hersteller"
  }

  /** No two manufacturers share an id. */
  predicate ManufacturerIdsDistinct(actors: seq<Actor>) {
    forall i, j ::
      0 <= i < j < |actors| && IsManufacturer(actors[i]) && IsManufacturer(actors[j]) ==>
      actors[i].actorId != actors[j].actorId
  }

  /** The `IllegalStateException` `Collectors.toMap` throws on a repeated key. */
  datatype SearchError = DuplicateManufacturerId(actorId: string)

  /** `Collectors.toMap(Actor::getActorId, lowercased name)` over the manufacturers, in
      encounter order: a manufacturer whose id is already a key ends the collection. */
  function ManufacturerNames(actors: seq<Actor>): (r: Result<map<string, string>, SearchError>)
    ensures r.Failure? ==> exists i :: 0 <= i < |actors| && IsManufacturer(actors[i]) && actors[i].actorId == r.error.actorId
    decreases |actors|
  {
    if |actors| == 0 then Success(map[])
    else
      var n := |actors| - 1;
      match ManufacturerNames(actors[..n])
      case Failure(e) => assert forall i :: 0 <= i < n ==> actors[..n][i] == actors[i]; Failure(e)
      case Success(names) =>
        var last := actors[n];
        if !IsManufacturer(last) then Success(names)
        else if last.actorId in names then Failure(DuplicateManufacturerId(last.actorId))
        else Success(names[last.actorId := Lower(last.bezeichnung)])
  }

  /** The manufacturers of `actors` are distinct exactly when those before the last one are
      and the last one, if a manufacturer, repeats none of their ids. */
  lemma DistinctSnoc(actors: seq<Actor>)
    requires |actors| > 0
    ensures var n := |actors| - 1;
      ManufacturerIdsDistinct(actors) <==>
        ManufacturerIdsDistinct(actors[..n]) &&
        (IsManufacturer(actors[n]) ==>
          forall i :: 0 <= i < n && IsManufacturer(actors[i]) ==> actors[i].actorId != actors[n].actorId)
  {
    var n := |actors| - 1;
    assert forall i :: 0 <= i < n ==> actors[..n][i] == actors[i];
  }

  /** On success the keys are exactly the manufacturers' ids. */
  lemma {:induction false} ManufacturerNamesKeys(actors: seq<Actor>)
    requires ManufacturerNames(actors).Success?
    ensures forall k :: k in ManufacturerNames(actors).value <==>
      exists i :: 0 <= i < |actors| && IsManufacturer(actors[i]) && actors[i].actorId == k
    decreases |actors|
  {
    if |actors| > 0 {
      var n := |actors| - 1;
      ManufacturerNamesKeys(actors[..n]);
      assert forall i :: 0 <= i < n ==> actors[..n][i] == actors[i];
    }
  }

  /** `toMap` fails exactly when two manufacturers share an id. */
  lemma {:induction false} ManufacturerNamesSucceedsIff(actors: seq<Actor>)
    ensures ManufacturerNames(actors).Success? <==> ManufacturerIdsDistinct(actors)
    decreases |actors|
  {
    if |actors| > 0 {
      var n := |actors| - 1;
      ManufacturerNamesSucceedsIff(actors[..n]);
      DistinctSnoc(actors);
      if ManufacturerNames(actors[..n]).Success? {
        ManufacturerNamesKeys(actors[..n]);
        assert forall i :: 0 <= i < n ==> actors[..n][i] == actors[i];
      }
    }
  }

  /** On success every manufacturer's id maps to its lowercased name. */
  lemma {:induction false} ManufacturerNamesValues(actors: seq<Actor>)
    requires ManufacturerNames(actors).Success?
    ensures forall i ::
      0 <= i < |actors| && IsManufacturer(actors[i]) ==>
      actors[i].actorId in ManufacturerNames(actors).value &&
      ManufacturerNames(actors).value[actors[i].actorId] == Lower(actors[i].bezeichnung)
    decreases |actors|
  {
    if |actors| > 0 {
      var n := |actors| - 1;
      ManufacturerNamesValues(actors[..n]);
      ManufacturerNamesKeys(actors[..n]);
      ManufacturerNamesSucceedsIff(actors);
      DistinctSnoc(actors);
      assert forall i :: 0 <= i < n ==> actors[..n][i] == actors[i];
    }
  }

  /** `manufacturerNames.getOrDefault(herstellerId, "")`. */
  function NameOrEmpty(names: map<string, string>, herstellerId: Option<string>): string {
    if herstellerId.Some? && herstellerId.value in names then names[herstellerId.value] else ""
  }

  /** Some manufacturer with the id `herstellerId` has a name containing `lowerQuery`, ignoring
      case. */
  predicate MadeByNamed(actors: seq<Actor>, herstellerId: Option<string>, lowerQuery: string) {
    exists i ::
      0 <= i < |actors| && IsManufacturer(actors[i]) && herstellerId == Some(actors[i].actorId) &&
      Contains(Lower(actors[i].bezeichnung), lowerQuery)
  }

  /** For a query with text, looking the name up in the map is asking the actors. */
  lemma NameLookupMatches(actors: seq<Actor>, names: map<string, string>, herstellerId: Option<string>, lowerQuery: string)
    requires ManufacturerNames(actors) == Success(names)
    requires lowerQuery != []
    ensures Contains(NameOrEmpty(names, herstellerId), lowerQuery) <==> MadeByNamed(actors, herstellerId, lowerQuery)
  {
    ManufacturerNamesKeys(actors);
    ManufacturerNamesValues(actors);
    if Contains(NameOrEmpty(names, herstellerId), lowerQuery) {
      assert herstellerId.Some? && herstellerId.value in names;
      var i :| 0 <= i < |actors| && IsManufacturer(actors[i]) && actors[i].actorId == herstellerId.value;
      assert names[actors[i].actorId] == Lower(actors[i].bezeichnung);
    }
  }

  // ---------------------------------------------------------------------------------------
  // searchMedikamente

  /** The parameters of `searchMedikamente`; `None` stands for `null`, and a `null` tag list
      behaves like an empty one. */
  datatype MedikamentQuery = MedikamentQuery(query: Option<string>, status: Option<string>, tags: seq<string>, ownedByMe: bool)

  /** With `ownedByMe`, only medications made by the current actor. */
  predicate OwnerOk(q: MedikamentQuery, current: Option<string>, m: Medikament) {
    q.ownedByMe ==> m.herstellerId == current
  }

  /** With a status, only medications of that status, ignoring case. */
  predicate StatusOk(q: MedikamentQuery, m: Medikament) {
    HasText(q.status) ==> m.status.Some? && Lower(q.status.value) == Lower(m.status.value)
  }

  /** With search tags, only medications with a matching tag. */
  predicate TagsOk(q: MedikamentQuery, m: Medikament) {
    |q.tags| > 0 ==> TagMatches(m.tags, q.tags)
  }

  /** With a query, only medications whose name, or whose manufacturer's name, contains it,
      ignoring case. */
  predicate TextOk(q: MedikamentQuery, actors: seq<Actor>, m: Medikament) {
    HasText(q.query) ==>
      Contains(Lower(m.bezeichnung), Lower(q.query.value)) || MadeByNamed(actors, m.herstellerId, Lower(q.query.value))
  }

  /** Everything a medication must meet to be found. */
  predicate Selected(q: MedikamentQuery, c: Caches, m: Medikament) {
    OwnerOk(q, c.currentActorId, m) && StatusOk(q, m) && TagsOk(q, m) && TextOk(q, c.allActors, m)
  }

  function SelectedBy(q: MedikamentQuery, c: Caches): Medikament -> bool {
    (m: Medikament) => Selected(q, c, m)
  }

  function OwnedBy(current: Option<string>): Medikament -> bool {
    (m: Medikament) => m.herstellerId == current
  }

  function StatusIs(status: string): Medikament -> bool {
    (m: Medikament) => m.status.Some? && Lower(status) == Lower(m.status.value)
  }

  function TaggedWith(search: seq<string>): Medikament -> bool {
    (m: Medikament) => HasMatchingTags(m, search)
  }

  function NamedLike(lowerQuery: string, names: map<string, string>): Medikament -> bool {
    (m: Medikament) => Contains(Lower(m.bezeichnung), lowerQuery) || Contains(NameOrEmpty(names, m.herstellerId), lowerQuery)
  }

  /** `searchMedikamente(query, status, tags, ownedByMe)` over the cached medications. A
      search for one's own medications without a current actor finds nothing; a query with
      text fails when two manufacturers share an id. */
  function SearchMedikamente(c: Caches, q: MedikamentQuery): (r: Result<seq<Medikament>, SearchError>)
    ensures q.ownedByMe && !HasText(c.currentActorId) ==> r == Success([])
    ensures r.Failure? <==>
      !(q.ownedByMe && !HasText(c.currentActorId)) && HasText(q.query) && !ManufacturerIdsDistinct(c.allActors)
  {
    if q.ownedByMe && !HasText(c.currentActorId) then Success([])
    else
      var tagged := Prefiltered(c, q);
      if HasText(q.query) then
        ManufacturerNamesSucceedsIff(c.allActors);
        var names :- ManufacturerNames(c.allActors);
        Success(Filter(tagged, NamedLike(Lower(q.query.value), names)))
      else Success(tagged)
  }

  /** The stream after the owner, status and tag stages. */
  function Prefiltered(c: Caches, q: MedikamentQuery): seq<Medikament> {
    var owned := FilterWhen(q.ownedByMe, c.allMedikamente, OwnedBy(c.currentActorId));
    var withStatus := FilterWhen(HasText(q.status), owned, StatusIs(q.status.GetOr("")));
    FilterWhen(|q.tags| > 0, withStatus, TaggedWith(q.tags))
  }

  function OwnerStage(q: MedikamentQuery, c: Caches): Medikament -> bool {
    (m: Medikament) => OwnerOk(q, c.currentActorId, m)
  }

  function StatusStage(q: MedikamentQuery, c: Caches): Medikament -> bool {
    (m: Medikament) => OwnerOk(q, c.currentActorId, m) && StatusOk(q, m)
  }

  function TagsStage(q: MedikamentQuery, c: Caches): Medikament -> bool {
    (m: Medikament) => OwnerOk(q, c.currentActorId, m) && StatusOk(q, m) && TagsOk(q, m)
  }

  /** The owner, status and tag stages filter by those three conditions at once. */
  lemma PrefilteredSelects(c: Caches, q: MedikamentQuery)
    ensures Prefiltered(c, q) == Filter(c.allMedikamente, TagsStage(q, c))
  {
    var meds := c.allMedikamente;
    FilterWhenIs(q.ownedByMe, meds, OwnedBy(c.currentActorId), OwnerStage(q, c));
    FilterWhenAfter(HasText(q.status), meds, OwnerStage(q, c), StatusIs(q.status.GetOr("")), StatusStage(q, c));
    FilterWhenAfter(|q.tags| > 0, meds, StatusStage(q, c), TaggedWith(q.tags), TagsStage(q, c));
  }

  /** A successful search finds exactly the cached medications meeting every condition its
      parameters switch on, in cache order. */
  lemma SearchMedikamenteSelects(c: Caches, q: MedikamentQuery)
    requires SearchMedikamente(c, q).Success?
    requires !(q.ownedByMe && !HasText(c.currentActorId))
    ensures SearchMedikamente(c, q).value == Filter(c.allMedikamente, SelectedBy(q, c))
    ensures IsSubsequence(SearchMedikamente(c, q).value, c.allMedikamente)
  {
    var meds := c.allMedikamente;
    PrefilteredSelects(c, q);
    if HasText(q.query) {
      var names := ManufacturerNames(c.allActors).value;
      var lowerQuery := Lower(q.query.value);
      assert q.query.value != [];
      forall i | 0 <= i < |meds|
        ensures SelectedBy(q, c)(meds[i]) == (TagsStage(q, c)(meds[i]) && NamedLike(lowerQuery, names)(meds[i]))
      {
        NameLookupMatches(c.allActors, names, meds[i].herstellerId, lowerQuery);
      }
      FilterFilter(meds, TagsStage(q, c), NamedLike(lowerQuery, names), SelectedBy(q, c));
    } else {
      FilterCongruent(meds, TagsStage(q, c), SelectedBy(q, c));
    }
    FilterSubsequence(meds, SelectedBy(q, c));
  }

  /** Without filters, every cached medication is found. */
  lemma SearchWithoutFiltersFindsAll(c: Caches)
    ensures SearchMedikamente(c, MedikamentQuery(None, None, [], false)) == Success(c.allMedikamente)
  {
  }

  /** A search for one's own medications finds only medications made by the current actor. */
  lemma OwnSearchFindsOwnMedications(c: Caches, q: MedikamentQuery, m: Medikament)
    requires q.ownedByMe && SearchMedikamente(c, q).Success? && m in SearchMedikamente(c, q).value
    ensures c.currentActorId.Some? && m.herstellerId == c.currentActorId
  {
    SearchMedikamenteSelects(c, q);
  }

  // ---------------------------------------------------------------------------------------
  // searchActors and searchUnitsByCharge

  /** An actor meets each filter given with text: the role ignoring case, a name containing
      the given one ignoring case, and exactly the id. */
  predicate ActorSelected(role: Option<string>, bezeichnung: Option<string>, actorId: Option<string>, a: Actor) {
    (HasText(role) ==> Lower(a.role) == Lower(role.value))
    && (HasText(bezeichnung) ==> Contains(Lower(a.bezeichnung), Lower(bezeichnung.value)))
    && (HasText(actorId) ==> a.actorId == actorId.value)
  }

  function ActorSelectedBy(role: Option<string>, bezeichnung: Option<string>, actorId: Option<string>): Actor -> bool {
    (a: Actor) => ActorSelected(role, bezeichnung, actorId, a)
  }

  function RoleIs(role: string): Actor -> bool {
    (a: Actor) => Lower(a.role) == Lower(role)
  }

  function NameContains(bezeichnung: string): Actor -> bool {
    (a: Actor) => Contains(Lower(a.bezeichnung), Lower(bezeichnung))
  }

  function IdIs(actorId: string): Actor -> bool {
    (a: Actor) => a.actorId == actorId
  }

  function RoleStage(role: Option<string>): Actor -> bool {
    (a: Actor) => HasText(role) ==> Lower(a.role) == Lower(role.value)
  }

  function NameStage(role: Option<string>, bezeichnung: Option<string>): Actor -> bool {
    (a: Actor) => (HasText(role) ==> Lower(a.role) == Lower(role.value))
      && (HasText(bezeichnung) ==> Contains(Lower(a.bezeichnung), Lower(bezeichnung.value)))
  }

  /** `searchActors(role, bezeichnung, actorId)` over the cached actors: exactly the actors
      meeting every filter given with text, in cache order. */
  function SearchActors(c: Caches, role: Option<string>, bezeichnung: Option<string>, actorId: Option<string>): (r: seq<Actor>)
    ensures r == Filter(c.allActors, ActorSelectedBy(role, bezeichnung, actorId))
    ensures IsSubsequence(r, c.allActors)
  {
    var actors := c.allActors;
    var byRole := FilterWhen(HasText(role), actors, RoleIs(role.GetOr("")));
    FilterWhenIs(HasText(role), actors, RoleIs(role.GetOr("")), RoleStage(role));
    var byName := FilterWhen(HasText(bezeichnung), byRole, NameContains(bezeichnung.GetOr("")));
    FilterWhenAfter(HasText(bezeichnung), actors, RoleStage(role), NameContains(bezeichnung.GetOr("")), NameStage(role, bezeichnung));
    var byId := FilterWhen(HasText(actorId), byName, IdIs(actorId.GetOr("")));
    FilterWhenAfter(HasText(actorId), actors, NameStage(role, bezeichnung), IdIs(actorId.GetOr("")), ActorSelectedBy(role, bezeichnung, actorId));
    FilterSubsequence(actors, ActorSelectedBy(role, bezeichnung, actorId));
    byId
  }

  function ChargeContains(lowerQuery: string): Unit -> bool {
    (u: Unit) => u.chargeBezeichnung.Some? && Contains(Lower(u.chargeBezeichnung.value), lowerQuery)
  }

  /** `searchUnitsByCharge(query)` over the current actor's units: the units with a batch name
      containing the query, ignoring case, in cache order. */
  function SearchUnitsByCharge(c: Caches, query: string): (r: seq<Unit>)
    ensures forall u :: u in r <==>
      u in c.myUnits && u.chargeBezeichnung.Some? && Contains(Lower(u.chargeBezeichnung.value), Lower(query))
    ensures IsSubsequence(r, c.myUnits)
  {
    FilterSubsequence(c.myUnits, ChargeContains(Lower(query)));
    Filter(c.myUnits, ChargeContains(Lower(query)))
  }

  /** The batch search ignores the case of the query. */
  lemma UnitSearchIgnoresCase(c: Caches, query: string)
    ensures SearchUnitsByCharge(c, query) == SearchUnitsByCharge(c, Lower(query))
  {
    LowerIdempotent(query);
  }

  /** The empty query finds every unit that has a batch name. */
  lemma EmptyChargeQueryFindsNamedUnits(c: Caches)
    ensures forall u :: u in SearchUnitsByCharge(c, "") <==> u in c.myUnits && u.chargeBezeichnung.Some?
  {
    forall u | u in c.myUnits && u.chargeBezeichnung.Some?
      ensures Contains(Lower(u.chargeBezeichnung.value), Lower(""))
    {
      ContainsEmpty(Lower(u.chargeBezeichnung.value));
    }
  }

  /** While the cache keeps only the current actor's units, so does every batch search. */
  lemma UnitSearchFindsOwnUnits(c: Caches, query: string)
    requires MyUnitsOwned(c)
    ensures forall u :: u in SearchUnitsByCharge(c, query) ==> u.currentOwnerActorId == c.currentActorId
  {
  }
}
