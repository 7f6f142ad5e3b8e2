/** The actor id the backend runs as (`service/system/SystemStateService`): the id the
    chaincode's `initCall` answered, reconciled with the one stored in the database, and the
    stored id as a fallback when the chaincode cannot be reached. */
module ActorReconcile {
  import opened Wrappers

  /** The cached id (`None` while `null`) and the id held by the first stored system state
      (`None` when there is no stored state). */
  datatype Service = Service(initialActorId: Option<string>, stored: Option<string>)

  /** The service after a call, and whether the call wrote the database. */
  datatype Outcome = Outcome(service: Service, wrote: bool)

  /** `reconcileAndCacheActorId(actorIdFromChaincode)`: without a stored state one holding the
      id is saved; a stored state with another id is overwritten; a stored state with this id
      is left alone. In every case the id is cached and is the stored one afterwards. */
  function Reconcile(s: Service, actorIdFromChaincode: string): (r: Outcome)
    ensures r.service.initialActorId == Some(actorIdFromChaincode)
    ensures r.service.stored == Some(actorIdFromChaincode)
    ensures r.wrote <==> s.stored != Some(actorIdFromChaincode)
  {
    match s.stored
    case None => Outcome(Service(Some(actorIdFromChaincode), Some(actorIdFromChaincode)), true)
    case Some(existing) =>
      if existing != actorIdFromChaincode then
        Outcome(Service(Some(actorIdFromChaincode), Some(actorIdFromChaincode)), true)
      else Outcome(Service(Some(existing), s.stored), false)
  }

  /** `loadFromDatabaseOnFailure()`: a cached id stays; otherwise the stored id, if any, is
      adopted. The database is only read. */
  function LoadFromDatabaseOnFailure(s: Service): (r: Service)
    ensures r.stored == s.stored
    ensures s.initialActorId.Some? ==> r == s
    ensures s.initialActorId.None? ==> r.initialActorId == s.stored
  {
    if s.initialActorId.Some? then s else s.(initialActorId := s.stored)
  }

  /** The cached id, when there is one, is the stored one. */
  predicate Agrees(s: Service) {
    s.initialActorId.Some? ==> s.initialActorId == s.stored
  }

  /** Reconciling with the id already stored writes nothing; so a second reconciliation with
      the same id is a no-op. */
  lemma ReconcileTwiceWritesOnce(s: Service, actorId: string)
    ensures var once := Reconcile(s, actorId).service;
      Reconcile(once, actorId) == Outcome(once, false)
  {
  }

  /** Reconciliation leaves the cached id agreeing with the database from any state, and the
      fallback keeps an agreement. */
  lemma OperationsKeepAgreement(s: Service, actorId: string)
    ensures Agrees(Reconcile(s, actorId).service)
    ensures Agrees(s) ==> Agrees(LoadFromDatabaseOnFailure(s))
  {
  }

  /** After a reconciliation the fallback has nothing to do. */
  lemma FallbackAfterReconcileIsNoop(s: Service, actorId: string)
    ensures var once := Reconcile(s, actorId).service;
      LoadFromDatabaseOnFailure(once) == once
  {
  }
}
