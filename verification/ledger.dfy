/** The Fabric chaincode `PharmaSupplyChainContract`: a world state from keys to records, and
    every state-changing transaction as a function from the state (plus the caller's identity)
    to either the committed new state with the events the transaction set, or the error code
    it throws. A thrown error commits nothing, so a failure carries no state. */
module Ledger {
  import opened Wrappers
  import opened Text

  // ---------------------------------------------------------------------------------------
  // Data model

  datatype Actor = Actor(actorId: string, bezeichnung: string, role: string, email: string, ipfsLink: string)

  datatype Medikament = Medikament(
    medId: string, herstellerId: string, bezeichnung: string, infoblattHash: string,
    ipfsLink: string, status: string, approvedById: Option<string>, tags: map<string, string>)

  datatype Reading = Reading(timestamp: string, temperature: string)

  datatype Transfer = Transfer(from: string, to: string, timestamp: string)

  datatype Unit = Unit(
    unitId: string, medId: string, chargeBezeichnung: string, ipfsLink: string,
    currentOwnerActorId: string, isConsumed: bool, consumedRefId: string,
    temperatureReadings: seq<Reading>, transferHistory: seq<Transfer>)

  /** What a key of the world state holds. Counters are stored under `unitCounter_<medId>`. */
  datatype Record =
    | ActorRecord(actor: Actor)
    | MedRecord(med: Medikament)
    | UnitRecord(unit: Unit)
    | CounterRecord(count: nat)

  type WorldState = map<string, Record>

  /** The payload of one `setEvent` call: entity type, entity id and operation. */
  datatype Event = Event(entityType: string, id: string, operation: string)

  /** The submitting client: MSP id, certificate id and the certificate's `role` attribute. */
  datatype Identity = Identity(mspId: string, clientId: string, roleAttribute: Option<string>)

  datatype ErrorCode =
    | ActorNotFound
    | ActorAlreadyExists
    | InvalidArgument
    | UnauthorizedAccess
    | MissingCertAttribute
    | MedikamentNotFound
    | MedikamentAlreadyExists
    | InvalidMedikamentStatusChange
    | UnitNotFound
    | UnitAlreadyExists
    | MedikamentNotApproved
    /** A key holds a record of another kind than the transaction reads there. */
    | WrongRecordKind

  /** The JSON a transaction returns. */
  datatype Output = ActorOut(actor: Actor) | MedOut(med: Medikament) | UnitOut(unit: Unit) | UnitsOut(units: seq<Unit>) | NoOutput

  datatype Committed = Committed(state: WorldState, events: seq<Event>, output: Output)

  type TxResult = Result<Committed, ErrorCode>

  /** The single event name every transaction uses. */
  const EventName := "PharmalinkDataEvent"
  const UnitCounterPrefix := "unitCounter_"
  const InitialStatus := "angelegt"

  // ---------------------------------------------------------------------------------------
  // Keys and reads

  function CounterKey(medId: string): string {
    UnitCounterPrefix + medId
  }

  /** `medId + "-" + charge + "-" + String.format("%04d", n)`. */
  function UnitKey(medId: string, charge: string, n: nat): string {
    medId + "-" + charge + "-" + PadZeros(n, 4)
  }

  /** Distinct unit numbers of one charge give distinct keys. */
  lemma UnitKeyInjective(medId: string, charge: string, a: nat, b: nat)
    ensures UnitKey(medId, charge, a) == UnitKey(medId, charge, b) <==> a == b
  {
    if UnitKey(medId, charge, a) == UnitKey(medId, charge, b) {
      var prefix := medId + "-" + charge + "-";
      assert PadZeros(a, 4) == UnitKey(medId, charge, a)[|prefix|..];
      assert PadZeros(b, 4) == UnitKey(medId, charge, b)[|prefix|..];
      PadZerosInjective(a, b, 4);
    }
  }

  /** The unit keys of one charge, by unit number. */
  function ChargeKeys(medId: string, charge: string): nat -> string {
    (n: nat) => UnitKey(medId, charge, n)
  }

  function GetActor(st: WorldState, key: string, missing: ErrorCode): (r: Result<Actor, ErrorCode>)
    ensures key !in st ==> r == Failure(missing)
    ensures r.Success? <==> key in st && st[key].ActorRecord?
    ensures r.Success? ==> st[key] == ActorRecord(r.value)
  {
    if key !in st then Failure(missing)
    else match st[key]
      case ActorRecord(a) => Success(a)
      case _ => Failure(WrongRecordKind)
  }

  function GetMed(st: WorldState, key: string): (r: Result<Medikament, ErrorCode>)
    ensures key !in st ==> r == Failure(MedikamentNotFound)
    ensures r.Success? <==> key in st && st[key].MedRecord?
    ensures r.Success? ==> st[key] == MedRecord(r.value)
  {
    if key !in st then Failure(MedikamentNotFound)
    else match st[key]
      case MedRecord(m) => Success(m)
      case _ => Failure(WrongRecordKind)
  }

  function GetUnit(st: WorldState, key: string): (r: Result<Unit, ErrorCode>)
    ensures key !in st ==> r == Failure(UnitNotFound)
    ensures r.Success? <==> key in st && st[key].UnitRecord?
    ensures r.Success? ==> st[key] == UnitRecord(r.value)
  {
    if key !in st then Failure(UnitNotFound)
    else match st[key]
      case UnitRecord(u) => Success(u)
      case _ => Failure(WrongRecordKind)
  }

  /** The stored unit counter of a medication; 0 when none is stored. */
  function GetCounter(st: WorldState, medId: string): (r: Result<nat, ErrorCode>)
    ensures CounterKey(medId) !in st ==> r == Success(0)
    ensures r.Success? && CounterKey(medId) in st ==> st[CounterKey(medId)] == CounterRecord(r.value)
  {
    var key := CounterKey(medId);
    if key !in st then Success(0)
    else match st[key]
      case CounterRecord(n) => Success(n)
      case _ => Failure(WrongRecordKind)
  }

  // ---------------------------------------------------------------------------------------
  // The caller

  /** `role` equals the lower-case name `name` ignoring case (`name.equalsIgnoreCase(role)`). */
  predicate RoleIs(role: string, name: string) {
    Lower(role) == name
  }

  /** The role named by the certificate attribute: the text before its first colon. A missing
      or empty attribute is an error. */
  function CertRole(who: Identity): (r: Result<string, ErrorCode>)
    ensures r.Failure? <==> who.roleAttribute.None? || who.roleAttribute.value == []
    ensures r.Failure? ==> r.error == MissingCertAttribute
    ensures r.Success? ==> StartsWith(who.roleAttribute.value, r.value) && ':' !in r.value
    ensures r.Success? && ':' !in who.roleAttribute.value ==> r.value == who.roleAttribute.value
    ensures r.Success? && ':' in who.roleAttribute.value ==> StartsWith(who.roleAttribute.value, r.value + ":")
  {
    match who.roleAttribute
    case None => Failure(MissingCertAttribute)
    case Some(raw) =>
      if raw == [] then Failure(MissingCertAttribute)
      else match IndexOfFrom(raw, ':', 0)
        case Some(i) => Success(raw[..i])
        case None => Success(raw)
  }

  /** `lower(role) + "-" + sha256(mspId + "-" + clientId)`: the key an identity's actor lives at. */
  function ActorKey(role: string, who: Identity, sha: string -> string): string {
    Lower(role) + "-" + sha(who.mspId + "-" + who.clientId)
  }

  /** `getCallingActorFromContext`: the stored actor of the submitting identity. */
  function CallingActor(st: WorldState, who: Identity, sha: string -> string): (r: Result<Actor, ErrorCode>)
    ensures r.Success? ==>
      CertRole(who).Success?
      && ActorKey(CertRole(who).value, who, sha) in st
      && st[ActorKey(CertRole(who).value, who, sha)] == ActorRecord(r.value)
    ensures CertRole(who).Success? && ActorKey(CertRole(who).value, who, sha) !in st ==> r == Failure(ActorNotFound)
  {
    var role :- CertRole(who);
    GetActor(st, ActorKey(role, who, sha), ActorNotFound)
  }

  /** `verifyCallingActorRole`: the caller, provided its stored role is `name` ignoring case. */
  function CallerWithRole(st: WorldState, who: Identity, sha: string -> string, name: string): (r: Result<Actor, ErrorCode>)
    ensures r.Success? <==> CallingActor(st, who, sha).Success? && RoleIs(CallingActor(st, who, sha).value.role, name)
    ensures r.Success? ==> r.value == CallingActor(st, who, sha).value
    ensures CallingActor(st, who, sha).Success? && !RoleIs(CallingActor(st, who, sha).value.role, name)
      ==> r == Failure(UnauthorizedAccess)
  {
    var caller :- CallingActor(st, who, sha);
    if RoleIs(caller.role, name) then Success(caller) else Failure(UnauthorizedAccess)
  }

  /** A role `initCall` accepts. */
  predicate IsSupplyChainRole(role: string) {
    RoleIs(role, "hersteller") || RoleIs(role, "grosshaendler") || RoleIs(role, "apotheke") || RoleIs(role, "behoerde")
  }

  /** Roles whose receipt of a unit marks it consumed. */
  predicate IsConsumerRole(role: string) {
    RoleIs(role, "apotheke") || RoleIs(role, "konsument")
  }

  // ---------------------------------------------------------------------------------------
  // Actor transactions

  /** `initCall`: registers the calling identity, or refreshes its name, e-mail and link. */
  function InitCall(st: WorldState, who: Identity, sha: string -> string, bezeichnung: string, email: string, ipfsLink: string)
    : (r: TxResult)
    ensures CertRole(who).Failure? ==> r == Failure(MissingCertAttribute)
    ensures CertRole(who).Success? && !IsSupplyChainRole(CertRole(who).value) ==> r == Failure(InvalidArgument)
    ensures r.Success? ==>
      var key := ActorKey(CertRole(who).value, who, sha);
      IsSupplyChainRole(CertRole(who).value) && r.value.output.ActorOut?
      && r.value.state.Keys == st.Keys + {key}
      && (forall k :: k in st && k != key ==> r.value.state[k] == st[k])
      && r.value.state[key] == ActorRecord(r.value.output.actor)
      && r.value.output.actor.bezeichnung == bezeichnung
      && r.value.output.actor.email == email
      && r.value.output.actor.ipfsLink == ipfsLink
    ensures r.Success? && ActorKey(CertRole(who).value, who, sha) !in st ==>
      r.value.output == ActorOut(Actor(ActorKey(CertRole(who).value, who, sha), bezeichnung, Lower(CertRole(who).value), email, ipfsLink))
      && r.value.output.actor == Actor(ActorKey(CertRole(who).value, who, sha), bezeichnung, Lower(CertRole(who).value), email, ipfsLink)
      && r.value.events == [Event("Actor", ActorKey(CertRole(who).value, who, sha), "CREATED")]
    ensures r.Success? <==>
      CertRole(who).Success? && IsSupplyChainRole(CertRole(who).value)
      && (ActorKey(CertRole(who).value, who, sha) in st ==> st[ActorKey(CertRole(who).value, who, sha)].ActorRecord?)
    ensures CertRole(who).Success? && IsSupplyChainRole(CertRole(who).value)
      && ActorKey(CertRole(who).value, who, sha) in st && !st[ActorKey(CertRole(who).value, who, sha)].ActorRecord?
      ==> r == Failure(WrongRecordKind)
    ensures r.Success? && ActorKey(CertRole(who).value, who, sha) in st ==>
      var key := ActorKey(CertRole(who).value, who, sha);
      var known := st[key].actor;
      r.value.output.actor == known.(bezeichnung := bezeichnung, email := email, ipfsLink := ipfsLink)
      && (r.value.output.actor == known ==> r.value.state == st && r.value.events == [])
      && (r.value.output.actor != known ==> r.value.events == [Event("Actor", key, "UPDATED")])
  {
    var role :- CertRole(who);
    if !IsSupplyChainRole(role) then Failure(InvalidArgument)
    else
      var key := ActorKey(role, who, sha);
      if key in st then
        var existing :- GetActor(st, key, ActorNotFound);
        var updated := existing.(bezeichnung := bezeichnung, email := email, ipfsLink := ipfsLink);
        if updated == existing then Success(Committed(st, [], ActorOut(existing)))
        else Success(Committed(st[key := ActorRecord(updated)], [Event("Actor", key, "UPDATED")], ActorOut(updated)))
      else
        var actor := Actor(key, bezeichnung, Lower(role), email, ipfsLink);
        Success(Committed(st[key := ActorRecord(actor)], [Event("Actor", key, "CREATED")], ActorOut(actor)))
  }

  /** `createActor`: an authority registers an actor under a fresh key. */
  function CreateActor(st: WorldState, who: Identity, sha: string -> string,
                       actorId: string, bezeichnung: string, role: string, email: string, ipfsLink: string)
    : (r: TxResult)
    ensures actorId in st ==> r == Failure(ActorAlreadyExists)
    ensures r.Success? <==> actorId !in st && CallerWithRole(st, who, sha, "behoerde").Success?
    ensures r.Success? ==>
      var actor := Actor(actorId, bezeichnung, role, email, ipfsLink);
      r.value == Committed(st[actorId := ActorRecord(actor)], [Event("Actor", actorId, "CREATED")], ActorOut(actor))
  {
    if actorId in st then Failure(ActorAlreadyExists)
    else
      var _ :- CallerWithRole(st, who, sha, "behoerde");
      var actor := Actor(actorId, bezeichnung, role, email, ipfsLink);
      Success(Committed(st[actorId := ActorRecord(actor)], [Event("Actor", actorId, "CREATED")], ActorOut(actor)))
  }

  /** `updateActor`: the actor itself or an authority replaces name, role, e-mail and link. */
  function UpdateActor(st: WorldState, who: Identity, sha: string -> string,
                       actorId: string, bezeichnung: string, role: string, email: string, ipfsLink: string)
    : (r: TxResult)
    ensures actorId !in st ==> r == Failure(ActorNotFound)
    ensures r.Success? <==>
      GetActor(st, actorId, ActorNotFound).Success? && CallingActor(st, who, sha).Success?
      && (CallingActor(st, who, sha).value.actorId == actorId || RoleIs(CallingActor(st, who, sha).value.role, "behoerde"))
    ensures r.Success? ==>
      var updated := st[actorId].actor.(bezeichnung := bezeichnung, role := role, email := email, ipfsLink := ipfsLink);
      r.value == Committed(st[actorId := ActorRecord(updated)], [Event("Actor", actorId, "UPDATED")], ActorOut(updated))
  {
    var existing :- GetActor(st, actorId, ActorNotFound);
    var caller :- CallingActor(st, who, sha);
    if caller.actorId != actorId && !RoleIs(caller.role, "behoerde") then Failure(UnauthorizedAccess)
    else
      var updated := existing.(bezeichnung := bezeichnung, role := role, email := email, ipfsLink := ipfsLink);
      Success(Committed(st[actorId := ActorRecord(updated)], [Event("Actor", actorId, "UPDATED")], ActorOut(updated)))
  }

  /** `updateActorIpfsLink`: only the actor itself may change its link. */
  function UpdateActorIpfsLink(st: WorldState, who: Identity, sha: string -> string, actorId: string, ipfsLink: string)
    : (r: TxResult)
    ensures actorId !in st ==> r == Failure(ActorNotFound)
    ensures r.Success? <==>
      GetActor(st, actorId, ActorNotFound).Success? && CallingActor(st, who, sha).Success?
      && CallingActor(st, who, sha).value.actorId == actorId
    ensures r.Success? ==>
      var updated := st[actorId].actor.(ipfsLink := ipfsLink);
      r.value == Committed(st[actorId := ActorRecord(updated)], [Event("Actor", actorId, "UPDATED")], ActorOut(updated))
  {
    var existing :- GetActor(st, actorId, ActorNotFound);
    var caller :- CallingActor(st, who, sha);
    if actorId != caller.actorId then Failure(UnauthorizedAccess)
    else
      var updated := existing.(ipfsLink := ipfsLink);
      Success(Committed(st[actorId := ActorRecord(updated)], [Event("Actor", actorId, "UPDATED")], ActorOut(updated)))
  }

  /** `deleteActor`: an authority deletes whatever the key holds. */
  function DeleteActor(st: WorldState, who: Identity, sha: string -> string, actorId: string): (r: TxResult)
    ensures actorId !in st ==> r == Failure(ActorNotFound)
    ensures r.Success? <==> actorId in st && CallerWithRole(st, who, sha, "behoerde").Success?
    ensures r.Success? ==> r.value == Committed(st - {actorId}, [Event("Actor", actorId, "DELETED")], NoOutput)
  {
    if actorId !in st then Failure(ActorNotFound)
    else
      var _ :- CallerWithRole(st, who, sha, "behoerde");
      Success(Committed(st - {actorId}, [Event("Actor", actorId, "DELETED")], NoOutput))
  }

  // ---------------------------------------------------------------------------------------
  // Medication transactions

  /** `"MED-" + sha256(herstellerId-bezeichnung-infoblattHash-ipfsLink)`. */
  function MedKey(herstellerId: string, bezeichnung: string, infoblattHash: string, ipfsLink: string, sha: string -> string): string {
    "MED-" + sha(herstellerId + "-" + bezeichnung + "-" + infoblattHash + "-" + ipfsLink)
  }

  /** `createMedikament`: a manufacturer creates a medication in status `angelegt` with a zero
      unit counter. */
  function CreateMedikament(st: WorldState, who: Identity, sha: string -> string,
                            bezeichnung: string, infoblattHash: string, ipfsLink: string)
    : (r: TxResult)
    ensures r.Success? <==>
      CallerWithRole(st, who, sha, "hersteller").Success?
      && MedKey(CallingActor(st, who, sha).value.actorId, bezeichnung, infoblattHash, ipfsLink, sha) !in st
    ensures r.Success? ==>
      var herstellerId := CallingActor(st, who, sha).value.actorId;
      var medId := MedKey(herstellerId, bezeichnung, infoblattHash, ipfsLink, sha);
      var med := Medikament(medId, herstellerId, bezeichnung, infoblattHash, ipfsLink, InitialStatus, None, map[]);
      r.value == Committed(st[medId := MedRecord(med)][CounterKey(medId) := CounterRecord(0)],
                           [Event("Medikament", medId, "CREATED")], MedOut(med))
  {
    var caller :- CallingActor(st, who, sha);
    if !RoleIs(caller.role, "hersteller") then Failure(UnauthorizedAccess)
    else
      var medId := MedKey(caller.actorId, bezeichnung, infoblattHash, ipfsLink, sha);
      if medId in st then Failure(MedikamentAlreadyExists)
      else
        var med := Medikament(medId, caller.actorId, bezeichnung, infoblattHash, ipfsLink, InitialStatus, None, map[]);
        Success(Committed(st[medId := MedRecord(med)][CounterKey(medId) := CounterRecord(0)],
                          [Event("Medikament", medId, "CREATED")], MedOut(med)))
  }

  /** `approveMedikament`: an authority sets the status to `freigegeben` or `abgelehnt`
      (given in any case) and records itself as approver. */
  function ApproveMedikament(st: WorldState, who: Identity, sha: string -> string, medId: string, newStatus: string)
    : (r: TxResult)
    ensures r.Success? <==>
      CallerWithRole(st, who, sha, "behoerde").Success? && GetMed(st, medId).Success?
      && (Lower(newStatus) == "freigegeben" || Lower(newStatus) == "abgelehnt")
    ensures CallerWithRole(st, who, sha, "behoerde").Success? && GetMed(st, medId).Success?
      && !(Lower(newStatus) == "freigegeben" || Lower(newStatus) == "abgelehnt")
      ==> r == Failure(InvalidMedikamentStatusChange)
    ensures r.Success? ==>
      var med := st[medId].med.(status := Lower(newStatus), approvedById := Some(CallingActor(st, who, sha).value.actorId));
      r.value == Committed(st[medId := MedRecord(med)], [Event("Medikament", medId, "UPDATED")], MedOut(med))
  {
    var caller :- CallingActor(st, who, sha);
    if !RoleIs(caller.role, "behoerde") then Failure(UnauthorizedAccess)
    else
      var med :- GetMed(st, medId);
      var status := Lower(newStatus);
      if !(status == "freigegeben" || status == "abgelehnt") then Failure(InvalidMedikamentStatusChange)
      else
        var updated := med.(status := status, approvedById := Some(caller.actorId));
        Success(Committed(st[medId := MedRecord(updated)], [Event("Medikament", medId, "UPDATED")], MedOut(updated)))
  }

  /** `newValue` unless it is empty. */
  function NonEmptyOr(newValue: string, prev: string): (r: string)
    ensures r == (if newValue == [] then prev else newValue)
  {
    if newValue != [] then newValue else prev
  }

  /** `updateMedikament`: the medication's manufacturer replaces each field given non-empty. */
  function UpdateMedikament(st: WorldState, who: Identity, sha: string -> string,
                            medId: string, bezeichnung: string, infoblattHash: string, ipfsLink: string)
    : (r: TxResult)
    ensures r.Success? <==>
      CallingActor(st, who, sha).Success? && GetMed(st, medId).Success?
      && st[medId].med.herstellerId == CallingActor(st, who, sha).value.actorId
    ensures r.Success? ==>
      var prev := st[medId].med;
      var med := prev.(bezeichnung := NonEmptyOr(bezeichnung, prev.bezeichnung),
                      infoblattHash := NonEmptyOr(infoblattHash, prev.infoblattHash),
                      ipfsLink := NonEmptyOr(ipfsLink, prev.ipfsLink));
      r.value == Committed(st[medId := MedRecord(med)], [Event("Medikament", medId, "UPDATED")], MedOut(med))
  {
    var caller :- CallingActor(st, who, sha);
    var med :- GetMed(st, medId);
    if med.herstellerId != caller.actorId then Failure(UnauthorizedAccess)
    else
      var updated := med.(bezeichnung := NonEmptyOr(bezeichnung, med.bezeichnung),
                          infoblattHash := NonEmptyOr(infoblattHash, med.infoblattHash),
                          ipfsLink := NonEmptyOr(ipfsLink, med.ipfsLink));
      Success(Committed(st[medId := MedRecord(updated)], [Event("Medikament", medId, "UPDATED")], MedOut(updated)))
  }

  /** `addMedikamentTag`: the manufacturer sets the `hersteller` tag, an authority the
      `behoerde` tag; nobody else may tag. */
  function AddMedikamentTag(st: WorldState, who: Identity, sha: string -> string, medId: string, tagValue: string)
    : (r: TxResult)
    ensures r.Success? <==>
      CallingActor(st, who, sha).Success? && GetMed(st, medId).Success?
      && ((RoleIs(CallingActor(st, who, sha).value.role, "hersteller")
           && st[medId].med.herstellerId == CallingActor(st, who, sha).value.actorId)
          || RoleIs(CallingActor(st, who, sha).value.role, "behoerde"))
    ensures r.Success? ==>
      var prev := st[medId].med;
      var tag := if RoleIs(CallingActor(st, who, sha).value.role, "hersteller") then "hersteller" else "behoerde";
      var med := prev.(tags := prev.tags[tag := tagValue]);
      r.value == Committed(st[medId := MedRecord(med)], [Event("Medikament", medId, "UPDATED")], MedOut(med))
  {
    var caller :- CallingActor(st, who, sha);
    var med :- GetMed(st, medId);
    if RoleIs(caller.role, "hersteller") then
      if med.herstellerId != caller.actorId then Failure(UnauthorizedAccess)
      else
        var updated := med.(tags := med.tags["hersteller" := tagValue]);
        Success(Committed(st[medId := MedRecord(updated)], [Event("Medikament", medId, "UPDATED")], MedOut(updated)))
    else if RoleIs(caller.role, "behoerde") then
      var updated := med.(tags := med.tags["behoerde" := tagValue]);
      Success(Committed(st[medId := MedRecord(updated)], [Event("Medikament", medId, "UPDATED")], MedOut(updated)))
    else Failure(UnauthorizedAccess)
  }

  /** Who may delete a medication: any authority, or its own manufacturer while it is still
      in status `angelegt`. */
  predicate MayDeleteMedikament(caller: Actor, med: Medikament) {
    RoleIs(caller.role, "behoerde")
    || (RoleIs(caller.role, "hersteller") && caller.actorId == med.herstellerId && Lower(med.status) == InitialStatus)
  }

  /** `deleteMedikament`: removes the medication and its unit counter. */
  function DeleteMedikament(st: WorldState, who: Identity, sha: string -> string, medId: string): (r: TxResult)
    ensures medId !in st ==> r == Failure(MedikamentNotFound)
    ensures r.Success? <==>
      GetMed(st, medId).Success? && CallingActor(st, who, sha).Success?
      && MayDeleteMedikament(CallingActor(st, who, sha).value, st[medId].med)
    ensures r.Success? ==>
      r.value == Committed(st - {medId, CounterKey(medId)}, [Event("Medikament", medId, "DELETED")], NoOutput)
  {
    var med :- GetMed(st, medId);
    var caller :- CallingActor(st, who, sha);
    if !MayDeleteMedikament(caller, med) then Failure(UnauthorizedAccess)
    else Success(Committed(st - {medId, CounterKey(medId)}, [Event("Medikament", medId, "DELETED")], NoOutput))
  }

  // ---------------------------------------------------------------------------------------
  // Unit transactions

  /** A freshly created unit: owned by its creator, not consumed, without history. */
  function NewUnit(unitId: string, medId: string, charge: string, ipfsLink: string, owner: string): Unit {
    Unit(unitId, medId, charge, ipfsLink, owner, false, "", [], [])
  }

  /** The outcome of the creation loop: state, events and units so far, and the counter. */
  datatype Minted = Minted(state: WorldState, events: seq<Event>, units: seq<Unit>, counter: nat)

  /** The loop of `createUnits` from counter value `counter` with `remaining` iterations left:
      each iteration increments the counter and creates the unit with that number, failing if
      its key is taken. */
  function MintUnits(st: WorldState, keyOf: nat -> string, medId: string, charge: string, ipfsLink: string, owner: string,
                     counter: nat, remaining: nat)
    : (r: Result<Minted, ErrorCode>)
    ensures r.Success? ==> r.value.counter == counter + remaining
    ensures r.Success? ==> |r.value.units| == remaining && |r.value.events| == remaining
    ensures r.Failure? ==> r.error == UnitAlreadyExists
    decreases remaining
  {
    if remaining == 0 then Success(Minted(st, [], [], counter))
    else
      var n := counter + 1;
      var key := keyOf(n);
      if key in st then Failure(UnitAlreadyExists)
      else
        var unit := NewUnit(key, medId, charge, ipfsLink, owner);
        var rest :- MintUnits(st[key := UnitRecord(unit)], keyOf, medId, charge, ipfsLink, owner, n, remaining - 1);
        Success(Minted(rest.state, [Event("Unit", key, "CREATED")] + rest.events, [unit] + rest.units, rest.counter))
  }

  /** `createUnits`: the medication's manufacturer creates `anzahl` numbered units of a charge
      of an approved medication; the counter advances by the number created. */
  function CreateUnits(st: WorldState, who: Identity, sha: string -> string,
                       medId: string, charge: string, anzahl: int, ipfsLink: string)
    : (r: TxResult)
    ensures medId !in st ==> r == Failure(MedikamentNotFound)
    ensures r.Success? ==>
      GetMed(st, medId).Success? && CallingActor(st, who, sha).Success?
      && st[medId].med.herstellerId == CallingActor(st, who, sha).value.actorId
      && RoleIs(st[medId].med.status, "freigegeben")
    ensures r.Success? ==>
      var count := if anzahl > 0 then anzahl else 0;
      GetCounter(st, medId).Success? && r.value.output.UnitsOut?
      && CounterKey(medId) in r.value.state
      && r.value.state[CounterKey(medId)] == CounterRecord(GetCounter(st, medId).value + count)
      && |r.value.output.units| == count && |r.value.events| == count
  {
    var med :- GetMed(st, medId);
    var caller :- CallingActor(st, who, sha);
    if caller.actorId != med.herstellerId then Failure(UnauthorizedAccess)
    else if !RoleIs(med.status, "freigegeben") then Failure(MedikamentNotApproved)
    else
      var start :- GetCounter(st, medId);
      var count := if anzahl > 0 then anzahl else 0;
      var minted :- MintUnits(st, ChargeKeys(medId, charge), medId, charge, ipfsLink, caller.actorId, start, count);
      Success(Committed(minted.state[CounterKey(medId) := CounterRecord(minted.counter)], minted.events, UnitsOut(minted.units)))
  }

  /** `addTemperatureReading`: the owner appends a reading. */
  function AddTemperatureReading(st: WorldState, who: Identity, sha: string -> string,
                                 unitId: string, temperature: string, timestamp: string)
    : (r: TxResult)
    ensures unitId !in st ==> r == Failure(UnitNotFound)
    ensures r.Success? <==>
      GetUnit(st, unitId).Success? && CallingActor(st, who, sha).Success?
      && CallingActor(st, who, sha).value.actorId == st[unitId].unit.currentOwnerActorId
    ensures r.Success? ==>
      var prev := st[unitId].unit;
      var unit := prev.(temperatureReadings := prev.temperatureReadings + [Reading(timestamp, temperature)]);
      r.value == Committed(st[unitId := UnitRecord(unit)], [Event("Unit", unitId, "UPDATED")], UnitOut(unit))
  {
    var unit :- GetUnit(st, unitId);
    var caller :- CallingActor(st, who, sha);
    if caller.actorId != unit.currentOwnerActorId then Failure(UnauthorizedAccess)
    else
      var updated := unit.(temperatureReadings := unit.temperatureReadings + [Reading(timestamp, temperature)]);
      Success(Committed(st[unitId := UnitRecord(updated)], [Event("Unit", unitId, "UPDATED")], UnitOut(updated)))
  }

  /** A change of ownership: the consumed flag and reference follow `consumed`, a transfer entry
      from the previous owner is appended, and the new owner takes over. */
  function HandOver(unit: Unit, newOwner: string, timestamp: string, consumed: bool): (u: Unit)
    ensures u.currentOwnerActorId == newOwner && u.isConsumed == consumed
    ensures u.consumedRefId == (if consumed then newOwner else "")
    ensures u.transferHistory == unit.transferHistory + [Transfer(unit.currentOwnerActorId, newOwner, timestamp)]
    ensures u.unitId == unit.unitId && u.medId == unit.medId && u.chargeBezeichnung == unit.chargeBezeichnung
    ensures u.ipfsLink == unit.ipfsLink && u.temperatureReadings == unit.temperatureReadings
  {
    unit.(isConsumed := consumed, consumedRefId := if consumed then newOwner else "",
          transferHistory := unit.transferHistory + [Transfer(unit.currentOwnerActorId, newOwner, timestamp)],
          currentOwnerActorId := newOwner)
  }

  /** `transferUnit`: the owner hands a unit to an existing actor; a pharmacy or consumer
      recipient marks it consumed. */
  function TransferUnit(st: WorldState, who: Identity, sha: string -> string,
                        unitId: string, newOwner: string, timestamp: string)
    : (r: TxResult)
    ensures unitId !in st ==> r == Failure(UnitNotFound)
    ensures r.Success? <==>
      GetUnit(st, unitId).Success? && CallingActor(st, who, sha).Success?
      && CallingActor(st, who, sha).value.actorId == st[unitId].unit.currentOwnerActorId
      && GetActor(st, newOwner, ActorNotFound).Success?
    ensures r.Success? ==>
      var unit := HandOver(st[unitId].unit, newOwner, timestamp, IsConsumerRole(st[newOwner].actor.role));
      r.value == Committed(st[unitId := UnitRecord(unit)], [Event("Unit", unitId, "UPDATED")], UnitOut(unit))
  {
    var unit :- GetUnit(st, unitId);
    var caller :- CallingActor(st, who, sha);
    if caller.actorId != unit.currentOwnerActorId then Failure(UnauthorizedAccess)
    else
      var recipient :- GetActor(st, newOwner, ActorNotFound);
      var updated := HandOver(unit, newOwner, timestamp, IsConsumerRole(recipient.role));
      Success(Committed(st[unitId := UnitRecord(updated)], [Event("Unit", unitId, "UPDATED")], UnitOut(updated)))
  }

  /** The outcome of the batch loop so far. */
  datatype Moved = Moved(state: WorldState, events: seq<Event>, units: seq<Unit>)

  /** The loop of `transferUnitsInBatch` over unit numbers `i..end`: each unit must exist and
      belong to the caller, or the whole transaction fails. */
  function MoveUnits(st: WorldState, keyOf: nat -> string, caller: string, newOwner: string,
                     timestamp: string, consumed: bool, i: nat, end: int)
    : (r: Result<Moved, ErrorCode>)
    ensures r.Failure? ==> r.error == UnitNotFound || r.error == UnauthorizedAccess || r.error == WrongRecordKind
    ensures r.Success? ==> |r.value.units| == |r.value.events| == if end < i then 0 else end - i + 1
    ensures r.Success? ==> r.value.state.Keys == st.Keys
    decreases end - i + 1
  {
    if end < i then Success(Moved(st, [], []))
    else
      var key := keyOf(i);
      var unit :- GetUnit(st, key);
      if caller != unit.currentOwnerActorId then Failure(UnauthorizedAccess)
      else
        var updated := HandOver(unit, newOwner, timestamp, consumed);
        var rest :- MoveUnits(st[key := UnitRecord(updated)], keyOf, caller, newOwner, timestamp, consumed, i + 1, end);
        Success(Moved(rest.state, [Event("Unit", key, "UPDATED")] + rest.events, [updated] + rest.units))
  }

  /** `transferUnitsInBatch`: transfers the units numbered `start..end` of one charge, all or
      nothing. */
  function TransferUnitsInBatch(st: WorldState, who: Identity, sha: string -> string,
                                medId: string, charge: string, start: int, end: int, newOwner: string, timestamp: string)
    : (r: TxResult)
    ensures r.Success? ==>
      CallingActor(st, who, sha).Success? && GetActor(st, newOwner, ActorNotFound).Success?
      && medId in st && 0 < start <= end && r.value.output.UnitsOut?
      && r.value.state.Keys == st.Keys && |r.value.output.units| == end - start + 1
    ensures CallingActor(st, who, sha).Success? && GetActor(st, newOwner, ActorNotFound).Success? && medId !in st
      ==> r == Failure(MedikamentNotFound)
    ensures (CallingActor(st, who, sha).Success? && GetActor(st, newOwner, ActorNotFound).Success? && medId in st
             && (start <= 0 || end < start)) ==> r == Failure(InvalidArgument)
  {
    var caller :- CallingActor(st, who, sha);
    var recipient :- GetActor(st, newOwner, ActorNotFound);
    var consumed := IsConsumerRole(recipient.role);
    if medId !in st then Failure(MedikamentNotFound)
    else if start <= 0 || end < start then Failure(InvalidArgument)
    else
      var moved :- MoveUnits(st, ChargeKeys(medId, charge), caller.actorId, newOwner, timestamp, consumed, start, end);
      Success(Committed(moved.state, moved.events, UnitsOut(moved.units)))
  }

  /** `transferUnitToConsumer`: a pharmacy hands a unit it owns, not yet consumed, to a
      consumer reference; the unit becomes consumed. */
  function TransferUnitToConsumer(st: WorldState, who: Identity, sha: string -> string,
                                  unitId: string, consumer: string, timestamp: string)
    : (r: TxResult)
    ensures r.Success? <==>
      CallerWithRole(st, who, sha, "apotheke").Success? && GetUnit(st, unitId).Success?
      && st[unitId].unit.currentOwnerActorId == CallingActor(st, who, sha).value.actorId
      && !st[unitId].unit.isConsumed
    ensures (CallerWithRole(st, who, sha, "apotheke").Success? && GetUnit(st, unitId).Success?
             && st[unitId].unit.currentOwnerActorId == CallingActor(st, who, sha).value.actorId
             && st[unitId].unit.isConsumed) ==> r == Failure(InvalidArgument)
    ensures r.Success? ==>
      var unit := HandOver(st[unitId].unit, consumer, timestamp, true);
      r.value == Committed(st[unitId := UnitRecord(unit)], [Event("Unit", unitId, "UPDATED")], UnitOut(unit))
  {
    var caller :- CallingActor(st, who, sha);
    var _ :- CallerWithRole(st, who, sha, "apotheke");
    var unit :- GetUnit(st, unitId);
    if caller.actorId != unit.currentOwnerActorId then Failure(UnauthorizedAccess)
    else if unit.isConsumed then Failure(InvalidArgument)
    else
      var updated := HandOver(unit, consumer, timestamp, true);
      Success(Committed(st[unitId := UnitRecord(updated)], [Event("Unit", unitId, "UPDATED")], UnitOut(updated)))
  }

  // ---------------------------------------------------------------------------------------
  // Dispatch

  /** A transaction as submitted: its name and arguments. */
  datatype Tx =
    | InitCallTx(bezeichnung: string, email: string, ipfsLink: string)
    | CreateActorTx(actorId: string, bezeichnung: string, role: string, email: string, ipfsLink: string)
    | UpdateActorTx(actorId: string, bezeichnung: string, role: string, email: string, ipfsLink: string)
    | UpdateActorIpfsLinkTx(actorId: string, ipfsLink: string)
    | DeleteActorTx(actorId: string)
    | CreateMedikamentTx(bezeichnung: string, infoblattHash: string, ipfsLink: string)
    | ApproveMedikamentTx(medId: string, newStatus: string)
    | UpdateMedikamentTx(medId: string, bezeichnung: string, infoblattHash: string, ipfsLink: string)
    | AddMedikamentTagTx(medId: string, tagValue: string)
    | DeleteMedikamentTx(medId: string)
    | CreateUnitsTx(medId: string, charge: string, anzahl: int, ipfsLink: string)
    | AddTemperatureReadingTx(unitId: string, temperature: string, timestamp: string)
    | TransferUnitTx(unitId: string, newOwner: string, timestamp: string)
    | TransferUnitsInBatchTx(medId: string, charge: string, start: int, end: int, newOwner: string, timestamp: string)
    | TransferUnitToConsumerTx(unitId: string, consumer: string, timestamp: string)

  function Submit(st: WorldState, who: Identity, sha: string -> string, tx: Tx): TxResult {
    match tx
    case InitCallTx(b, e, l) => InitCall(st, who, sha, b, e, l)
    case CreateActorTx(id, b, ro, e, l) => CreateActor(st, who, sha, id, b, ro, e, l)
    case UpdateActorTx(id, b, ro, e, l) => UpdateActor(st, who, sha, id, b, ro, e, l)
    case UpdateActorIpfsLinkTx(id, l) => UpdateActorIpfsLink(st, who, sha, id, l)
    case DeleteActorTx(id) => DeleteActor(st, who, sha, id)
    case CreateMedikamentTx(b, h, l) => CreateMedikament(st, who, sha, b, h, l)
    case ApproveMedikamentTx(m, s) => ApproveMedikament(st, who, sha, m, s)
    case UpdateMedikamentTx(m, b, h, l) => UpdateMedikament(st, who, sha, m, b, h, l)
    case AddMedikamentTagTx(m, v) => AddMedikamentTag(st, who, sha, m, v)
    case DeleteMedikamentTx(m) => DeleteMedikament(st, who, sha, m)
    case CreateUnitsTx(m, c, n, l) => CreateUnits(st, who, sha, m, c, n, l)
    case AddTemperatureReadingTx(u, t, ts) => AddTemperatureReading(st, who, sha, u, t, ts)
    case TransferUnitTx(u, o, ts) => TransferUnit(st, who, sha, u, o, ts)
    case TransferUnitsInBatchTx(m, c, a, b, o, ts) => TransferUnitsInBatch(st, who, sha, m, c, a, b, o, ts)
    case TransferUnitToConsumerTx(u, c, ts) => TransferUnitToConsumer(st, who, sha, u, c, ts)
  }
}
