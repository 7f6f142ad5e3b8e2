/** The records the backend keeps in memory: actors, medications and units as read from the
    ledger. Fields the backend code dereferences without a null check are plain strings; the
    ones it tests for `null` are `Option`s. A `null` tag map behaves like an empty one
    everywhere it is read, so it is the empty sequence here. */
module Domain {
  import opened Wrappers

  datatype Actor = Actor(actorId: string, bezeichnung: string, role: string, email: string, ipfsLink: string)

  /** `tags` lists the entries of the tag map; its keys are distinct. */
  datatype Medikament = Medikament(
    medId: string, herstellerId: Option<string>, bezeichnung: string, infoblattHash: string,
    ipfsLink: string, status: Option<string>, approvedById: Option<string>, tags: seq<(string, string)>)

  datatype Unit = Unit(
    unitId: string, medId: string, chargeBezeichnung: Option<string>, ipfsLink: string,
    currentOwnerActorId: Option<string>)

  function ActorIdOf(a: Actor): string { a.actorId }
  function MedIdOf(m: Medikament): string { m.medId }
  function UnitIdOf(u: Unit): string { u.unitId }
}
