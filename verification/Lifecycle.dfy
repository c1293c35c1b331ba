/** Runs of creations, updates and deletions: what Flux applied is also still there. */
module Lifecycle {
  import opened Wrappers
  import opened JsonValues
  import opened Labels
  import opened ServiceAccounts
  import opened ManagedFields
  import opened Inventory
  import opened InventoryVeto
  import opened Admission
  import opened RequestFacts
  import opened OwnerIdentity
  import opened OperationRules
  import opened RunSafety

  function AsDelete(cur: Payload, a: Attempt): Request {
    a.req.(operation := Delete, oldObject := cur, newObject := Payload(None, None))
  }

  ghost predicate DeletionAdmitted(cfg: Config, cur: Payload, a: Attempt) {
    Respond(cfg, Evaluate(cfg, a.store, AsDelete(cur, a), a.waiver).decision).allowed
  }

  ghost predicate CreationAdmitted(cfg: Config, a: Attempt) {
    Respond(cfg, Evaluate(cfg, a.store, a.req.(oldObject := Payload(None, None)), a.waiver).decision).allowed
  }

  /** The API server creates only what does not exist, and updates and deletes only what
      does; any other operation changes nothing. */
  ghost function Step(cfg: Config, stored: Option<Payload>, a: Attempt): Option<Payload> {
    match a.req.operation
    case Create =>
      if stored.None? && CreationAdmitted(cfg, a) then Some(a.req.newObject) else stored
    case Update =>
      if stored.Some? then Some(Next(cfg, stored.value, a)) else None
    case Delete =>
      if stored.Some? && DeletionAdmitted(cfg, stored.value, a) then None else stored
    case Other(_) => stored
  }

  ghost function Life(cfg: Config, start: Payload, attempts: seq<Attempt>): Option<Payload> {
    if attempts == [] then Some(start)
    else Step(cfg, Life(cfg, start, attempts[..|attempts| - 1]), attempts[|attempts| - 1])
  }

  // ---- Deletions ----

  /** Something other than the owner lets a deletion through: the object or its namespace
      is already going away, or the control plane asks. */
  ghost predicate DeletionExcused(cfg: Config, cur: Payload, a: Attempt)
    requires cur.meta.Some?
  {
    || cur.meta.value.deleting
    || TornDown(a.store, a.req.namespace)
    || IsSystemController(a.req.user, cfg.systemControllerSAs)
  }

  /** An armed object that Flux applied can be deleted exactly by its owner's reconciler or
      with an excuse. */
  lemma DeletionAdmittedExactly(cfg: Config, cur: Payload, a: Attempt)
    requires !cfg.auditOnly && InScope(cfg, a) && Armed(cur) && GetFluxManagementInfo(LabelsOf(cur)).Managed?
    requires FluxFields(cur.meta.value.managedFields).value != {}
    ensures DeletionAdmitted(cfg, cur, a) <==>
            || OwningFluxReconciler(cfg, a.store, a.req.user, GetFluxManagementInfo(LabelsOf(cur)))
            || DeletionExcused(cfg, cur, a)
  {
    var info := GetFluxManagementInfo(LabelsOf(cur));
    LookedExactly(cfg, a.store, AsDelete(cur, a));
    OwnerNamedExactly(LabelsOf(cur), info.kind, info.name, info.namespace);
    DeleteDeniedExactly(cfg, a.store, AsDelete(cur, a), cur.meta.value, info.kind, info.name, info.namespace, a.waiver);
  }

  /** Such an object goes away in one step exactly by such a deletion. */
  lemma RemovedExactly(cfg: Config, cur: Payload, a: Attempt)
    requires !cfg.auditOnly && InScope(cfg, a) && Armed(cur) && GetFluxManagementInfo(LabelsOf(cur)).Managed?
    requires FluxFields(cur.meta.value.managedFields).value != {}
    ensures Step(cfg, Some(cur), a) == None <==>
            && a.req.operation.Delete?
            && (OwningFluxReconciler(cfg, a.store, a.req.user, GetFluxManagementInfo(LabelsOf(cur))) ||
                DeletionExcused(cfg, cur, a))
  {
    DeletionAdmittedExactly(cfg, cur, a);
  }

  /** And what a readable inventory decides on comes to be exactly when it is not listed. */
  lemma CreatedExactly(
    cfg: Config, a: Attempt, obj: ObjectMeta, kind: OwnerKind, name: string, namespace: string, entries: seq<Value>,
    o: ObjectRef)
    requires !cfg.auditOnly && IsObject(o, a.req, obj)
    requires DecidedByInventory(cfg, a.store, a.req, obj, kind, name, namespace, entries)
    ensures Step(cfg, None, a) == if Holds(entries, IdOf(o)) then None else Some(a.req.newObject)
  {
    var req := a.req.(oldObject := Payload(None, None));
    VetoById(cfg, a.store, req, obj, kind, name, namespace, entries, o, a.waiver);
  }

  // ---- Whole lives ----

  /** What is asked of one attempt on the stored object: an update is ordinary and leaves
      the deletion timestamp, which only the API server sets; a deletion has no excuse. */
  ghost predicate OrdinaryAct(cfg: Config, cur: Payload, a: Attempt, ignored: PathSet)
    requires cur.meta.Some?
  {
    && (a.req.operation.Update? ==>
          && Ordinary(cfg, cur, a, ignored)
          && (a.req.newObject.meta.Some? ==> a.req.newObject.meta.value.deleting == cur.meta.value.deleting))
    && (a.req.operation.Delete? ==> InScope(cfg, a) && !DeletionExcused(cfg, cur, a))
  }

  ghost predicate OrdinaryLife(cfg: Config, start: Payload, attempts: seq<Attempt>, ignored: PathSet) {
    forall i | 0 <= i < |attempts| ::
      var stored := Life(cfg, start, attempts[..i]);
      stored.Some? && stored.value.meta.Some? ==> OrdinaryAct(cfg, stored.value, attempts[i], ignored)
  }

  lemma OrdinaryLifePrefix(cfg: Config, start: Payload, attempts: seq<Attempt>, ignored: PathSet)
    requires attempts != [] && OrdinaryLife(cfg, start, attempts, ignored)
    ensures OrdinaryLife(cfg, start, attempts[..|attempts| - 1], ignored)
  {
    var init := attempts[..|attempts| - 1];
    forall i | 0 <= i < |init| ensures init[..i] == attempts[..i] {
    }
  }

  /** Still stored, protected, and not being deleted. */
  ghost predicate Alive(
    start: Payload, ignored: PathSet, kind: OwnerKind, name: string, namespace: string, stored: Option<Payload>)
    requires Armed(start)
  {
    stored.Some? && Pinned(start, ignored, kind, name, namespace, stored.value) && !stored.value.meta.value.deleting
  }

  lemma StaysAlive(
    cfg: Config, start: Payload, stored: Option<Payload>, a: Attempt, ignored: PathSet, kind: OwnerKind, name: string,
    namespace: string)
    requires !cfg.auditOnly && Armed(start) && Alive(start, ignored, kind, name, namespace, stored)
    requires OrdinaryAct(cfg, stored.value, a, ignored)
    requires OwnsLabels(FluxFields(start.meta.value.managedFields).value, ignored, kind)
    requires ShadowPinned(FluxFields(start.meta.value.managedFields).value, ignored, kind, name)
    requires !OwningFluxReconciler(cfg, a.store, a.req.user, Managed(kind, name, namespace))
    requires !OwningFluxReconciler(cfg, a.store, a.req.user, ShadowOwner(LabelsOf(start)))
    ensures Alive(start, ignored, kind, name, namespace, Step(cfg, stored, a))
  {
    if a.req.operation.Update? {
      PinnedStep(cfg, start, stored.value, a, ignored, kind, name, namespace);
    } else if a.req.operation.Delete? {
      assert LabelPath(NameKey(kind)) in FluxFields(stored.value.meta.value.managedFields).value;
      DeletionAdmittedExactly(cfg, stored.value, a);
    }
  }

  /** Over any run of creations, updates and deletions by strangers, the object stays, and
      with it its owner, protection, and everything Flux owns and does not ignore. */
  lemma {:induction false} ObjectSurvives(
    cfg: Config, start: Payload, attempts: seq<Attempt>, ignored: PathSet, kind: OwnerKind, name: string,
    namespace: string)
    requires !cfg.auditOnly && Armed(start) && !start.meta.value.deleting
    requires GetFluxManagementInfo(LabelsOf(start)) == Managed(kind, name, namespace)
    requires OwnsLabels(FluxFields(start.meta.value.managedFields).value, ignored, kind)
    requires ShadowPinned(FluxFields(start.meta.value.managedFields).value, ignored, kind, name)
    requires OrdinaryLife(cfg, start, attempts, ignored)
    requires forall a | a in attempts ::
               && !OwningFluxReconciler(cfg, a.store, a.req.user, Managed(kind, name, namespace))
               && !OwningFluxReconciler(cfg, a.store, a.req.user, ShadowOwner(LabelsOf(start)))
    ensures Alive(start, ignored, kind, name, namespace, Life(cfg, start, attempts))
    decreases |attempts|
  {
    if attempts != [] {
      var init, last := attempts[..|attempts| - 1], attempts[|attempts| - 1];
      OrdinaryLifePrefix(cfg, start, attempts, ignored);
      ObjectSurvives(cfg, start, init, ignored, kind, name, namespace);
      assert last in attempts;
      StaysAlive(cfg, start, Life(cfg, start, init), last, ignored, kind, name, namespace);
    }
  }
}
