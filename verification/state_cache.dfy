/** The backend's in-memory picture of the ledger (`service/state/SystemStateService`): all
    actors, all medications, the units of the current actor, and the id of that actor, kept
    up to date by chaincode events. Every read of the ledger is an oracle in `Fabric`; the
    audit log, the database snapshot and the event thread are not modelled. */
module StateCache {
  import opened Wrappers
  import opened Text
  import opened Seqs
  import opened Json
  import opened Domain
  import Ledger

  datatype Caches = Caches(
    currentActorId: Option<string>, allActors: seq<Actor>, allMedikamente: seq<Medikament>, myUnits: seq<Unit>)

  /** What the ledger answers: the enriched record with an id (`None` for an empty `Optional`),
      and the units of an owner (`None` when the query throws). */
  datatype Fabric = Fabric(
    actorById: string -> Option<Actor>,
    medikamentById: string -> Option<Medikament>,
    unitById: string -> Option<Unit>,
    unitsByOwner: string -> Option<seq<Unit>>)

  // ---------------------------------------------------------------------------------------
  // Lists keyed by id

  function IsNot<T>(id: T -> string, target: string): T -> bool {
    (x: T) => id(x) != target
  }

  /** `list.removeIf(x -> id(x).equals(target))`. */
  function RemoveId<T(==,!new)>(s: seq<T>, id: T -> string, target: string): (r: seq<T>)
    ensures forall i :: 0 <= i < |r| ==> id(r[i]) != target
    ensures forall x :: x in r <==> x in s && id(x) != target
  {
    Filter(s, IsNot(id, target))
  }

  /** How many entries of `s` carry the id `target`. */
  function Occurrences<T>(s: seq<T>, id: T -> string, target: string): nat {
    if |s| == 0 then 0 else (if id(s[0]) == target then 1 else 0) + Occurrences(s[1..], id, target)
  }

  lemma {:induction false} OccurrencesNone<T>(s: seq<T>, id: T -> string, target: string)
    requires forall i :: 0 <= i < |s| ==> id(s[i]) != target
    ensures Occurrences(s, id, target) == 0
  {
    if |s| > 0 {
      OccurrencesNone(s[1..], id, target);
    }
  }

  lemma {:induction false} OccurrencesSnoc<T>(s: seq<T>, x: T, id: T -> string, target: string)
    ensures Occurrences(s + [x], id, target) == Occurrences(s, id, target) + (if id(x) == target then 1 else 0)
  {
    if |s| > 0 {
      assert (s + [x])[1..] == s[1..] + [x];
      OccurrencesSnoc(s[1..], x, id, target);
    }
  }

  /** `removeIf` by `target` followed by `add(x)`: `x` becomes the last entry and no other entry
      keeps the id. */
  function Upsert<T(==,!new)>(s: seq<T>, id: T -> string, target: string, x: T): (r: seq<T>)
    ensures |r| > 0 && r[|r| - 1] == x
    ensures forall y :: y in r <==> y == x || (y in s && id(y) != target)
    ensures id(x) == target ==> Occurrences(r, id, target) == 1
  {
    var kept := RemoveId(s, id, target);
    OccurrencesNone(kept, id, target);
    OccurrencesSnoc(kept, x, id, target);
    kept + [x]
  }

  /** Every cached unit of "my units" belongs to the current actor. */
  predicate MyUnitsOwned(c: Caches) {
    forall u :: u in c.myUnits ==> u.currentOwnerActorId == c.currentActorId
  }

  // ---------------------------------------------------------------------------------------
  // Event handlers

  /** `handleDeletion(entityType, id)`: the entries with the id leave the list of that type;
      an unknown type changes nothing. */
  function HandleDeletion(c: Caches, entityType: string, id: string): (r: Caches)
    ensures r.currentActorId == c.currentActorId
    ensures entityType == "Actor" ==>
      (forall a :: a in r.allActors <==> a in c.allActors && a.actorId != id)
      && Occurrences(r.allActors, ActorIdOf, id) == 0
      && r.allMedikamente == c.allMedikamente && r.myUnits == c.myUnits
    ensures entityType == "Medikament" ==>
      (forall m :: m in r.allMedikamente <==> m in c.allMedikamente && m.medId != id)
      && Occurrences(r.allMedikamente, MedIdOf, id) == 0
      && r.allActors == c.allActors && r.myUnits == c.myUnits
    ensures entityType == "Unit" ==>
      (forall u :: u in r.myUnits <==> u in c.myUnits && u.unitId != id)
      && Occurrences(r.myUnits, UnitIdOf, id) == 0
      && r.allActors == c.allActors && r.allMedikamente == c.allMedikamente
    ensures entityType != "Actor" && entityType != "Medikament" && entityType != "Unit" ==> r == c
    ensures MyUnitsOwned(c) ==> MyUnitsOwned(r)
  {
    if entityType == "Actor" then
      var kept := RemoveId(c.allActors, ActorIdOf, id);
      OccurrencesNone(kept, ActorIdOf, id);
      c.(allActors := kept)
    else if entityType == "Medikament" then
      var kept := RemoveId(c.allMedikamente, MedIdOf, id);
      OccurrencesNone(kept, MedIdOf, id);
      c.(allMedikamente := kept)
    else if entityType == "Unit" then
      var kept := RemoveId(c.myUnits, UnitIdOf, id);
      OccurrencesNone(kept, UnitIdOf, id);
      c.(myUnits := kept)
    else c
  }

  /** `handleActorUpdate(id)`: a fetched actor replaces every cached entry with the id and is
      appended; an empty fetch changes nothing. */
  function HandleActorUpdate(c: Caches, id: string, fetched: Option<Actor>): (r: Caches)
    ensures fetched.None? ==> r == c
    ensures r.currentActorId == c.currentActorId && r.allMedikamente == c.allMedikamente && r.myUnits == c.myUnits
    ensures fetched.Some? ==>
      |r.allActors| > 0 && r.allActors[|r.allActors| - 1] == fetched.value
      && (forall a :: a in r.allActors <==> a == fetched.value || (a in c.allActors && a.actorId != id))
    ensures fetched.Some? && fetched.value.actorId == id ==> Occurrences(r.allActors, ActorIdOf, id) == 1
  {
    if fetched.Some? then c.(allActors := Upsert(c.allActors, ActorIdOf, id, fetched.value)) else c
  }

  /** `handleMedikamentUpdate(id)`, the same for medications. */
  function HandleMedikamentUpdate(c: Caches, id: string, fetched: Option<Medikament>): (r: Caches)
    ensures fetched.None? ==> r == c
    ensures r.currentActorId == c.currentActorId && r.allActors == c.allActors && r.myUnits == c.myUnits
    ensures fetched.Some? ==>
      |r.allMedikamente| > 0 && r.allMedikamente[|r.allMedikamente| - 1] == fetched.value
      && (forall m :: m in r.allMedikamente <==> m == fetched.value || (m in c.allMedikamente && m.medId != id))
    ensures fetched.Some? && fetched.value.medId == id ==> Occurrences(r.allMedikamente, MedIdOf, id) == 1
  {
    if fetched.Some? then c.(allMedikamente := Upsert(c.allMedikamente, MedIdOf, id, fetched.value)) else c
  }

  /** `handleUnitUpdate(id)`: a fetched unit is (re)placed in "my units" when its owner is the
      current actor (`Objects.equals`, so two absent ids are equal) and dropped from it
      otherwise. */
  function HandleUnitUpdate(c: Caches, id: string, fetched: Option<Unit>): (r: Caches)
    ensures fetched.None? ==> r == c
    ensures r.currentActorId == c.currentActorId && r.allActors == c.allActors && r.allMedikamente == c.allMedikamente
    ensures fetched.Some? ==>
      forall u :: u in r.myUnits <==>
        (u in c.myUnits && u.unitId != id) || (u == fetched.value && fetched.value.currentOwnerActorId == c.currentActorId)
    ensures fetched.Some? && fetched.value.unitId == id ==>
      Occurrences(r.myUnits, UnitIdOf, id) == if fetched.value.currentOwnerActorId == c.currentActorId then 1 else 0
    ensures MyUnitsOwned(c) ==> MyUnitsOwned(r)
  {
    match fetched
    case None => c
    case Some(unit) =>
      if unit.currentOwnerActorId == c.currentActorId then c.(myUnits := Upsert(c.myUnits, UnitIdOf, id, unit))
      else
        var kept := RemoveId(c.myUnits, UnitIdOf, id);
        OccurrencesNone(kept, UnitIdOf, id);
        c.(myUnits := kept)
  }

  // ---------------------------------------------------------------------------------------
  // Chaincode events

  /** The event body: absent or empty, not parseable as JSON (`IOException`), or a document. */
  datatype Payload = NoPayload | Malformed | Document(json: Json)

  datatype ChaincodeEvent = ChaincodeEvent(name: string, payload: Payload)

  /** `JsonNode.asText()`: the text of a string, the decimal digits of a number, `true` or
      `false`, `null` for null, and "" for arrays and objects. */
  function AsText(j: Json): string {
    match j
    case JStr(s) => s
    case JNum(n) => IntToDec(n)
    case JBool(b) => if b then "true" else "false"
    case JNull => "null"
    case _ => ""
  }

  /** The members naming the affected record, most preferred first. */
  const IdMembers: seq<string> := ["actorId", "medId", "unitId"]

  /** The text of the first of `names` the payload has as a member, or "". */
  function FirstPresent(payload: Json, names: seq<string>): (id: string)
    ensures (forall i :: 0 <= i < |names| ==> Get(payload, names[i]).None?) ==> id == ""
    ensures forall i ::
      0 <= i < |names| && Get(payload, names[i]).Some? && (forall j :: 0 <= j < i ==> Get(payload, names[j]).None?) ==>
      id == AsText(Get(payload, names[i]).value)
  {
    if |names| == 0 then ""
    else if Get(payload, names[0]).Some? then AsText(Get(payload, names[0]).value)
    else
      var id := FirstPresent(payload, names[1..]);
      assert forall i :: 1 <= i < |names| ==> names[i] == names[1..][i - 1];
      id
  }

  /** `extractIdFromPayload`: `actorId` if present, else `medId`, else `unitId`, else "". A
      payload that is not an object has no members. */
  function ExtractId(payload: Json): (id: string)
    ensures Get(payload, "actorId").Some? ==> id == AsText(Get(payload, "actorId").value)
    ensures Get(payload, "actorId").None? && Get(payload, "medId").Some? ==> id == AsText(Get(payload, "medId").value)
    ensures Get(payload, "actorId").None? && Get(payload, "medId").None? && Get(payload, "unitId").Some? ==>
      id == AsText(Get(payload, "unitId").value)
    ensures Get(payload, "actorId").None? && Get(payload, "medId").None? && Get(payload, "unitId").None? ==> id == ""
    ensures !payload.JObj? ==> id == ""
  {
    assert IdMembers[0] == "actorId" && IdMembers[1] == "medId" && IdMembers[2] == "unitId";
    FirstPresent(payload, IdMembers)
  }

  /** What the event name selects. */
  datatype Handler = UpdateActor | UpdateMedikament | UpdateUnit | Delete(entityType: string) | Unhandled

  const ActorUpdateEvents: set<string> := {"ActorInitialized", "ActorCreated", "ActorUpdated", "ActorIpfsLinkUpdated"}
  const MedikamentUpdateEvents: set<string> := {"MedikamentCreated", "MedikamentStatusUpdated", "MedikamentUpdated", "MedikamentTagAdded"}
  const UnitUpdateEvents: set<string> := {"UnitCreated", "UnitTemperatureAdded", "UnitTransferred"}
  const DeletionEvents: set<string> := {"ActorDeleted", "MedikamentDeleted", "UnitDeleted"}

  /** Every event name the service reacts to. */
  const HandledEvents: set<string> := ActorUpdateEvents + MedikamentUpdateEvents + UnitUpdateEvents + DeletionEvents

  /** The `switch` over the event name. */
  function HandlerFor(name: string): (h: Handler)
    ensures h.Unhandled? <==> name !in HandledEvents
    ensures h.Delete? ==> h.entityType in {"Actor", "Medikament", "Unit"}
    ensures h == UpdateActor <==> name in ActorUpdateEvents
    ensures h == UpdateMedikament <==> name in MedikamentUpdateEvents
    ensures h == UpdateUnit <==> name in UnitUpdateEvents
    ensures h == Delete("Actor") <==> name == "ActorDeleted"
    ensures h == Delete("Medikament") <==> name == "MedikamentDeleted"
    ensures h == Delete("Unit") <==> name == "UnitDeleted"
  {
    if name in ActorUpdateEvents then UpdateActor
    else if name == "ActorDeleted" then Delete("Actor")
    else if name in MedikamentUpdateEvents then UpdateMedikament
    else if name == "MedikamentDeleted" then Delete("Medikament")
    else if name in UnitUpdateEvents then UpdateUnit
    else if name == "UnitDeleted" then Delete("Unit")
    else Unhandled
  }

  function Apply(c: Caches, h: Handler, id: string, fabric: Fabric): (r: Caches)
    ensures r.currentActorId == c.currentActorId
    ensures MyUnitsOwned(c) ==> MyUnitsOwned(r)
  {
    match h
    case UpdateActor => HandleActorUpdate(c, id, fabric.actorById(id))
    case UpdateMedikament => HandleMedikamentUpdate(c, id, fabric.medikamentById(id))
    case UpdateUnit => HandleUnitUpdate(c, id, fabric.unitById(id))
    case Delete(entityType) => HandleDeletion(c, entityType, id)
    case Unhandled => c
  }

  /** `handleChaincodeEvent`: an event without a body, with a body that does not parse, without
      an id or with an unknown name leaves the caches as they are; otherwise the handler its
      name selects runs on the id. No event changes the current actor, and the units kept as
      "mine" stay owned by the current actor. */
  function HandleEvent(c: Caches, ev: ChaincodeEvent, fabric: Fabric): (r: Caches)
    ensures !ev.payload.Document? ==> r == c
    ensures ev.payload.Document? && ExtractId(ev.payload.json) == "" ==> r == c
    ensures ev.name !in HandledEvents ==> r == c
    ensures r.currentActorId == c.currentActorId
    ensures MyUnitsOwned(c) ==> MyUnitsOwned(r)
    ensures ev.payload.Document? && ExtractId(ev.payload.json) != "" ==>
      r == Apply(c, HandlerFor(ev.name), ExtractId(ev.payload.json), fabric)
  {
    match ev.payload
    case Document(json) =>
      var id := ExtractId(json);
      if id == "" then c else Apply(c, HandlerFor(ev.name), id, fabric)
    case _ => c
  }

  /** The chaincode names every event it emits `PharmalinkDataEvent`, a name this service does
      not react to: events from the ledger leave the caches unchanged. */
  lemma LedgerEventsChangeNothing(c: Caches, payload: Payload, fabric: Fabric)
    ensures HandleEvent(c, ChaincodeEvent(Ledger.EventName, payload), fabric) == c
  {
    assert Ledger.EventName !in HandledEvents;
  }

  /** A deletion event with an id removes every cached record with that id from the cache of
      its kind, and touches nothing else. */
  lemma DeletionEventsRemove(c: Caches, name: string, json: Json, fabric: Fabric)
    requires name in DeletionEvents && ExtractId(json) != ""
    ensures var r := HandleEvent(c, ChaincodeEvent(name, Document(json)), fabric);
      var id := ExtractId(json);
      (name == "ActorDeleted" ==> Occurrences(r.allActors, ActorIdOf, id) == 0 && r.myUnits == c.myUnits)
      && (name == "MedikamentDeleted" ==> Occurrences(r.allMedikamente, MedIdOf, id) == 0 && r.myUnits == c.myUnits)
      && (name == "UnitDeleted" ==> Occurrences(r.myUnits, UnitIdOf, id) == 0 && r.allActors == c.allActors)
  {
  }

  /** Events handled in turn. */
  function HandleEvents(c: Caches, events: seq<ChaincodeEvent>, fabric: Fabric): Caches
    decreases |events|
  {
    if |events| == 0 then c else HandleEvents(HandleEvent(c, events[0], fabric), events[1..], fabric)
  }

  /** Over any run of events, the current actor stays and "my units" stay its units. */
  lemma {:induction false} HandleEventsKeepsOwnership(c: Caches, events: seq<ChaincodeEvent>, fabric: Fabric)
    requires MyUnitsOwned(c)
    ensures MyUnitsOwned(HandleEvents(c, events, fabric))
    ensures HandleEvents(c, events, fabric).currentActorId == c.currentActorId
    decreases |events|
  {
    if |events| > 0 {
      HandleEventsKeepsOwnership(HandleEvent(c, events[0], fabric), events[1..], fabric);
    }
  }

  // ---------------------------------------------------------------------------------------
  // Loading and the current actor

  /** `loadStateFromChaincode`: the actor list, then the medication list, is replaced by what
      the ledger returns, and "my units" is emptied; a failing read ends the load where it
      happens, keeping what was replaced before it. */
  function LoadState(c: Caches, actors: Option<seq<Actor>>, medikamente: Option<seq<Medikament>>): (r: Caches)
    ensures r.currentActorId == c.currentActorId
    ensures actors.None? ==> r == c
    ensures actors.Some? ==> r.allActors == actors.value
    ensures actors.Some? && medikamente.None? ==> r.allMedikamente == c.allMedikamente && r.myUnits == c.myUnits
    ensures actors.Some? && medikamente.Some? ==> r.allMedikamente == medikamente.value && r.myUnits == []
    ensures MyUnitsOwned(c) ==> MyUnitsOwned(r)
  {
    match actors
    case None => c
    case Some(all) =>
      var withActors := c.(allActors := all);
      if medikamente.None? then withActors else withActors.(allMedikamente := medikamente.value, myUnits := [])
  }

  /** The result of `reconcileAndCacheActorId`: the caches, and whether the state was saved to
      the database. */
  datatype Reconciled = Reconciled(caches: Caches, saved: bool)

  /** `reconcileAndCacheActorId(actorId)`: a new id (`None` for `null`) becomes current and
      "my units" becomes its units, or nothing when there is no id or the query fails; the
      state is then saved. The same id again changes nothing. */
  function Reconcile(c: Caches, actorId: Option<string>, fabric: Fabric): (r: Reconciled)
    ensures r.saved <==> actorId != c.currentActorId
    ensures !r.saved ==> r.caches == c
    ensures r.caches.currentActorId == actorId
    ensures r.caches.allActors == c.allActors && r.caches.allMedikamente == c.allMedikamente
    ensures r.saved && actorId.Some? && fabric.unitsByOwner(actorId.value).Some? ==>
      r.caches.myUnits == fabric.unitsByOwner(actorId.value).value
    ensures r.saved && (actorId.None? || fabric.unitsByOwner(actorId.value).None?) ==> r.caches.myUnits == []
  {
    if actorId == c.currentActorId then Reconciled(c, false)
    else
      var units := if actorId.Some? then fabric.unitsByOwner(actorId.value).GetOr([]) else [];
      Reconciled(c.(currentActorId := actorId, myUnits := units), true)
  }

  /** Reconciling twice with the same id saves once. */
  lemma ReconcileIdempotent(c: Caches, actorId: Option<string>, fabric: Fabric)
    ensures var once := Reconcile(c, actorId, fabric).caches;
      Reconcile(once, actorId, fabric) == Reconciled(once, false)
  {
  }

  /** When the ledger's owner query answers only units of that owner, reconciling leaves "my
      units" owned by the (new) current actor. */
  lemma ReconcileEstablishesOwnership(c: Caches, actorId: Option<string>, fabric: Fabric)
    requires MyUnitsOwned(c)
    requires actorId.Some? && fabric.unitsByOwner(actorId.value).Some? ==>
      forall u :: u in fabric.unitsByOwner(actorId.value).value ==> u.currentOwnerActorId == actorId
    ensures MyUnitsOwned(Reconcile(c, actorId, fabric).caches)
  {
  }
}
