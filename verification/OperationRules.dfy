/** The protection rules the documentation tabulates, as exact conditions on the whole
    decision: for each operation and every requester, when a request that reaches the
    checks is denied, and the reason of every decision in order of precedence. */
module OperationRules {
  import opened Wrappers
  import opened JsonValues
  import opened Labels
  import opened ServiceAccounts
  import opened ManagedFields
  import opened FieldDiff
  import opened Conflicts
  import opened Inventory
  import opened Admission
  import opened RequestFacts
  import opened OwnerIdentity
  import opened InventoryVeto
  import opened UpdateSafety

  /** The request reaches the checks, for an object with these metadata and this owner. */
  predicate Reaches(
    cfg: Config, store: Store, req: Request, obj: ObjectMeta, before: ObjectMeta, kind: OwnerKind, name: string,
    namespace: string)
  {
    Looked(cfg, store, req) && About(req, obj, before) && JudgedBy(req, obj, before, kind, name, namespace)
  }

  ghost predicate ByOwner(cfg: Config, store: Store, req: Request, kind: OwnerKind, name: string, namespace: string) {
    OwningFluxReconciler(cfg, store, req.user, Managed(kind, name, namespace))
  }

  /** An annotation the object already carried switches protection off. The kind is that of
      the owner the request is judged by: on UPDATE the one the new labels name, if they
      name any. */
  predicate SwitchedOff(annotations: StringMap, kind: OwnerKind) {
    Bypassed(annotations) || (kind == Kustomization && ReconcileDisabled(annotations))
  }

  // ---- CREATE ----

  ghost predicate Available(store: Store, kind: OwnerKind, name: string, namespace: string) {
    exists entries :: HasInventory(store, kind, name, namespace, entries)
  }

  ghost predicate Listed(store: Store, kind: OwnerKind, name: string, namespace: string, id: string) {
    exists entries :: HasInventory(store, kind, name, namespace, entries) && Holds(entries, id)
  }

  lemma InventoryFacts(
    store: Store, req: Request, obj: ObjectMeta, kind: OwnerKind, name: string, namespace: string, o: ObjectRef)
    requires IsObject(o, req, obj)
    ensures var entries := OwnerEntries(store, Managed(kind, name, namespace));
            && (entries != [] <==> Available(store, kind, name, namespace))
            && (entries != [] && Lists(entries, RefOf(req, obj)) <==> Listed(store, kind, name, namespace, IdOf(o)))
  {
    var entries := OwnerEntries(store, Managed(kind, name, namespace));
    EntriesExactly(store, kind, name, namespace);
    IdExactly(o);
    assert RefOf(req, obj) == o;
    assert Lists(entries, o) <==> Holds(entries, IdOf(o));
    assert entries != [] ==> HasInventory(store, kind, name, namespace, entries);
  }

  /** Annotations of the new object never count. */
  lemma CreateReason(
    cfg: Config, store: Store, req: Request, obj: ObjectMeta, kind: OwnerKind, name: string, namespace: string,
    o: ObjectRef, waiver: PathSet)
    requires Reaches(cfg, store, req, obj, NO_META, kind, name, namespace) && req.operation.Create?
    requires IsObject(o, req, obj)
    ensures Evaluate(cfg, store, req, waiver).decision.reason ==
            if ByOwner(cfg, store, req, kind, name, namespace) then AllowedOwningFluxController
            else if Listed(store, kind, name, namespace, IdOf(o)) then DeniedCreateFluxLabels
            else if Some(true) in obj.controllers then AllowedOwnedResource
            else if IsSystemController(req.user, cfg.systemControllerSAs) then AllowedSystemController
            else if Available(store, kind, name, namespace) then AllowedNotInOwnerInventory
            else DeniedCreateInventoryUnavailable
  {
    ReachesChecks(cfg, store, req, obj, NO_META, kind, name, namespace, waiver);
    InventoryFacts(store, req, obj, kind, name, namespace, o);
  }

  /** With ids that tell objects apart: denied from everybody but the owner's reconciler
      when the inventory holds the object, or when there is no inventory to consult and
      neither a controller owner nor the control plane vouches for it. */
  lemma CreateDeniedExactly(
    cfg: Config, store: Store, req: Request, obj: ObjectMeta, kind: OwnerKind, name: string, namespace: string,
    o: ObjectRef, objects: set<ObjectRef>, waiver: PathSet)
    requires Reaches(cfg, store, req, obj, NO_META, kind, name, namespace) && req.operation.Create?
    requires IsObject(o, req, obj)
    requires forall entries | HasInventory(store, kind, name, namespace, entries) :: Inventories(entries, objects)
    requires Distinguishable(o) && forall p | p in objects :: Distinguishable(p)
    ensures !Evaluate(cfg, store, req, waiver).decision.allowed <==>
            && !ByOwner(cfg, store, req, kind, name, namespace)
            && if Available(store, kind, name, namespace) then o in objects
               else Some(true) !in obj.controllers && !IsSystemController(req.user, cfg.systemControllerSAs)
  {
    ReachesChecks(cfg, store, req, obj, NO_META, kind, name, namespace, waiver);
    InventoryFacts(store, req, obj, kind, name, namespace, o);
    if !ByOwner(cfg, store, req, kind, name, namespace) && Available(store, kind, name, namespace) {
      var entries :| HasInventory(store, kind, name, namespace, entries);
      VetoExactly(cfg, store, req, obj, kind, name, namespace, entries, o, objects, waiver);
    }
  }

  // ---- UPDATE ----

  /** Some owner label reads differently. */
  predicate Relabels(before: StringMap, after: StringMap) {
    exists key |
      key in ["kustomize.toolkit.fluxcd.io/name", "kustomize.toolkit.fluxcd.io/namespace",
              "helm.toolkit.fluxcd.io/name", "helm.toolkit.fluxcd.io/namespace"] ::
      !LabelReads(after, key, if key in before then before[key] else "")
  }

  lemma RelabelsExactly(before: StringMap, after: StringMap)
    ensures Relabels(before, after) <==> !IsOwningController(Update, after, before)
  {
    var keys := ["kustomize.toolkit.fluxcd.io/name", "kustomize.toolkit.fluxcd.io/namespace",
                 "helm.toolkit.fluxcd.io/name", "helm.toolkit.fluxcd.io/namespace"];
    assert keys[0] in keys && keys[1] in keys && keys[2] in keys && keys[3] in keys;
    assert forall key :: LabelReads(after, key, if key in before then before[key] else "") <==>
                         Get(before, key) == Get(after, key);
  }

  /** The owner's reconciler is denied exactly when an owner label comes to read
      differently; everybody else unless protection was already switched off or the edit
      is acceptable, path by path. */
  lemma UpdateDeniedExactly(
    cfg: Config, store: Store, req: Request, obj: ObjectMeta, before: ObjectMeta, kind: OwnerKind, name: string,
    namespace: string, waiver: PathSet)
    requires Reaches(cfg, store, req, obj, before, kind, name, namespace) && req.operation.Update?
    ensures !Evaluate(cfg, store, req, waiver).decision.allowed <==>
            if ByOwner(cfg, store, req, kind, name, namespace) then Relabels(before.labels, obj.labels)
            else !SwitchedOff(before.annotations, kind) && !UpdateAcceptable(req, obj, before, waiver)
  {
    ReachesChecks(cfg, store, req, obj, before, kind, name, namespace, waiver);
    RelabelsExactly(before.labels, obj.labels);
    UpdateAdmittedExactly(req, obj, before, waiver);
  }

  /** What Flux applied to the object can be read, and is something. */
  ghost predicate FluxApplied(obj: ObjectMeta) {
    FluxFields(obj.managedFields).Ok? && FluxFields(obj.managedFields).value != {}
  }

  /** Setting a protection-disabling annotation from another value is denied, to everybody
      but the owner's reconciler, exactly on an object Flux applied. */
  lemma SwitchingOffDeniedExactly(
    cfg: Config, store: Store, req: Request, obj: ObjectMeta, before: ObjectMeta, kind: OwnerKind, name: string,
    namespace: string, waiver: PathSet)
    requires Reaches(cfg, store, req, obj, before, kind, name, namespace) && req.operation.Update?
    requires !ByOwner(cfg, store, req, kind, name, namespace) && !SwitchedOff(before.annotations, kind)
    ensures Evaluate(cfg, store, req, waiver).decision.reason == DeniedBypassAnnotationAdded <==>
            FluxApplied(before) && SwitchesOff(before.annotations, obj.annotations)
  {
    ReachesChecks(cfg, store, req, obj, before, kind, name, namespace, waiver);
    SwitchesOffExactly(before.annotations, obj.annotations);
  }

  ghost predicate Meet(modified: PathSet, flux: PathSet) {
    exists m, f | m in modified && f in flux :: Overlap(m, f)
  }

  /** The field check, from the paths that differ and the paths Flux owned and owns. Rules
      count only when the two meet. */
  ghost function FieldCheckReason(modified: PathSet, flux: PathSet, newFlux: Result<PathSet>, waiver: PathSet): Reason {
    var ignore := if Meet(modified, flux) then waiver else {};
    if !Permitted(modified, flux, ignore) then DeniedUpdateFluxManaged
    else if newFlux.Err? then DeniedManagedFieldsError
    else if !OwnershipKept(flux, newFlux.value, ignore) then DeniedManagedFieldsTampered
    else if Meet(modified, flux) then AllowedDriftIgnoredField
    else AllowedNoFieldConflict
  }

  lemma FieldCheckFacts(modified: PathSet, flux: PathSet, newFlux: Result<PathSet>, ignore: PathSet)
    ensures Conflict(modified, flux) == {} <==> !Meet(modified, flux)
    ensures Waive(Conflict(modified, flux), ignore) == {} <==> Permitted(modified, flux, ignore)
    ensures newFlux.Ok? ==> (Waive(flux - newFlux.value, ignore) == {} <==> OwnershipKept(flux, newFlux.value, ignore))
  {
    NoConflictNoOverlap(modified, flux);
    VerdictPointwise(modified, flux, ignore);
    if newFlux.Ok? {
      ReleasedNothing(flux, newFlux.value, ignore);
    }
  }

  lemma FieldCheckReasonExactly(req: Request, obj: ObjectMeta, before: ObjectMeta, waiver: PathSet)
    requires FluxApplied(before) && req.oldObject.tree.Some? && req.newObject.tree.Some?
    requires !SwitchesOff(before.annotations, obj.annotations)
    ensures UpdateDecision(req, obj, before, waiver).reason ==
            FieldCheckReason(Diff(req.oldObject.tree.value, req.newObject.tree.value),
                             FluxFields(before.managedFields).value, FluxFields(obj.managedFields), waiver)
  {
    var modified := Diff(req.oldObject.tree.value, req.newObject.tree.value);
    var flux := FluxFields(before.managedFields).value;
    SwitchesOffExactly(before.annotations, obj.annotations);
    var ignore := if Conflict(modified, flux) == {} then {} else waiver;
    FieldCheckFacts(modified, flux, FluxFields(obj.managedFields), ignore);
  }

  lemma FieldCheckPrelude(req: Request, obj: ObjectMeta, before: ObjectMeta, waiver: PathSet)
    ensures var r := UpdateDecision(req, obj, before, waiver).reason;
            && (FluxFields(before.managedFields).Err? ==> r == DeniedManagedFieldsError)
            && (FluxFields(before.managedFields).Ok? && FluxFields(before.managedFields).value == {} ==>
                  r == AllowedNoFluxManagedFields)
            && (FluxApplied(before) && SwitchesOff(before.annotations, obj.annotations) ==>
                  r == DeniedBypassAnnotationAdded)
            && (FluxApplied(before) && !SwitchesOff(before.annotations, obj.annotations) ==>
                  (req.oldObject.tree.None? || req.newObject.tree.None?) ==> r == DeniedParseError)
  {
    SwitchesOffExactly(before.annotations, obj.annotations);
  }

  /** What precedes the field check. */
  lemma UpdateRoute(
    cfg: Config, store: Store, req: Request, obj: ObjectMeta, before: ObjectMeta, kind: OwnerKind, name: string,
    namespace: string, waiver: PathSet)
    requires Reaches(cfg, store, req, obj, before, kind, name, namespace) && req.operation.Update?
    ensures Evaluate(cfg, store, req, waiver).decision.reason ==
            if ByOwner(cfg, store, req, kind, name, namespace) then
              if Relabels(before.labels, obj.labels) then DeniedWrongFluxController else AllowedOwningFluxController
            else if Bypassed(before.annotations) then AllowedBypassAnnotation
            else if SwitchedOff(before.annotations, kind) then AllowedReconcileDisabled
            else UpdateDecision(req, obj, before, waiver).reason
  {
    ReachesChecks(cfg, store, req, obj, before, kind, name, namespace, waiver);
    RelabelsExactly(before.labels, obj.labels);
  }

  lemma UpdateReason(
    cfg: Config, store: Store, req: Request, obj: ObjectMeta, before: ObjectMeta, kind: OwnerKind, name: string,
    namespace: string, waiver: PathSet)
    requires Reaches(cfg, store, req, obj, before, kind, name, namespace) && req.operation.Update?
    ensures Evaluate(cfg, store, req, waiver).decision.reason ==
            if ByOwner(cfg, store, req, kind, name, namespace) then
              if Relabels(before.labels, obj.labels) then DeniedWrongFluxController else AllowedOwningFluxController
            else if Bypassed(before.annotations) then AllowedBypassAnnotation
            else if SwitchedOff(before.annotations, kind) then AllowedReconcileDisabled
            else if FluxFields(before.managedFields).Err? then DeniedManagedFieldsError
            else if !FluxApplied(before) then AllowedNoFluxManagedFields
            else if SwitchesOff(before.annotations, obj.annotations) then DeniedBypassAnnotationAdded
            else if req.oldObject.tree.None? || req.newObject.tree.None? then DeniedParseError
            else FieldCheckReason(Diff(req.oldObject.tree.value, req.newObject.tree.value),
                                  FluxFields(before.managedFields).value, FluxFields(obj.managedFields), waiver)
  {
    UpdateRoute(cfg, store, req, obj, before, kind, name, namespace, waiver);
    FieldCheckPrelude(req, obj, before, waiver);
    if FluxApplied(before) && !SwitchesOff(before.annotations, obj.annotations) &&
       req.oldObject.tree.Some? && req.newObject.tree.Some? {
      FieldCheckReasonExactly(req, obj, before, waiver);
    }
  }

  // ---- DELETE ----

  lemma DeleteReason(
    cfg: Config, store: Store, req: Request, obj: ObjectMeta, kind: OwnerKind, name: string, namespace: string,
    waiver: PathSet)
    requires Reaches(cfg, store, req, obj, NO_META, kind, name, namespace) && req.operation.Delete?
    ensures Evaluate(cfg, store, req, waiver).decision.reason ==
            if ByOwner(cfg, store, req, kind, name, namespace) then AllowedOwningFluxController
            else if Bypassed(obj.annotations) then AllowedBypassAnnotation
            else if SwitchedOff(obj.annotations, kind) then AllowedReconcileDisabled
            else if obj.deleting then AllowedDeletionInProgress
            else if TornDown(store, req.namespace) then AllowedNamespaceTerminating
            else if FluxFields(obj.managedFields).Err? then DeniedManagedFieldsError
            else if !FluxApplied(obj) then AllowedNoFluxManagedFields
            else if IsSystemController(req.user, cfg.systemControllerSAs) then AllowedSystemController
            else DeniedDeleteFluxManaged
  {
    ReachesChecks(cfg, store, req, obj, NO_META, kind, name, namespace, waiver);
  }

  /** Denied from everybody but the owner's reconciler when Flux applied the object, or that
      cannot be told, and nothing excuses it: an annotation, an ongoing deletion, a namespace
      going away or a control-plane identity. */
  lemma DeleteDeniedExactly(
    cfg: Config, store: Store, req: Request, obj: ObjectMeta, kind: OwnerKind, name: string, namespace: string,
    waiver: PathSet)
    requires Reaches(cfg, store, req, obj, NO_META, kind, name, namespace) && req.operation.Delete?
    ensures !Evaluate(cfg, store, req, waiver).decision.allowed <==>
            && !ByOwner(cfg, store, req, kind, name, namespace)
            && !SwitchedOff(obj.annotations, kind)
            && !obj.deleting && !TornDown(store, req.namespace)
            && (FluxFields(obj.managedFields).Err? ||
                (FluxApplied(obj) && !IsSystemController(req.user, cfg.systemControllerSAs)))
  {
    ReachesChecks(cfg, store, req, obj, NO_META, kind, name, namespace, waiver);
  }

  function WithTeardown(store: Store, namespaces: map<string, NamespaceMeta>): Store {
    store.(teardownNamespaces := namespaces)
  }

  /** What the cache knows of the namespace lets a deletion through exactly when it says
      that the namespace is going away; otherwise it might as well not answer. A request
      without a namespace, and any other operation, does not depend on it at all. */
  lemma TeardownExactly(cfg: Config, store: Store, req: Request, waiver: PathSet)
    ensures req.operation.Delete? && req.oldObject.meta.Some? && TornDown(store, req.namespace) ==>
              Evaluate(cfg, store, req, waiver).decision.allowed
    ensures !TornDown(store, req.namespace) ==>
              Evaluate(cfg, store, req, waiver) ==
              Evaluate(cfg, WithTeardown(store, store.teardownNamespaces - {req.namespace}), req, waiver)
    ensures req.namespace == "" || !req.operation.Delete? ==>
              forall m :: Evaluate(cfg, store, req, waiver) == Evaluate(cfg, WithTeardown(store, m), req, waiver)
  {
    TornDownAdmitted(cfg, store, req, waiver);
    forall m |
      || NamespaceIsTerminating(store, req.namespace) == NamespaceIsTerminating(WithTeardown(store, m), req.namespace)
      || !req.operation.Delete?
      ensures Evaluate(cfg, store, req, waiver) == Evaluate(cfg, WithTeardown(store, m), req, waiver)
    {
      TeardownOnly(cfg, store, m, req, waiver);
    }
  }

  lemma TornDownAdmitted(cfg: Config, store: Store, req: Request, waiver: PathSet)
    ensures req.operation.Delete? && req.oldObject.meta.Some? && TornDown(store, req.namespace) ==>
              Evaluate(cfg, store, req, waiver).decision.allowed
  {
  }

  lemma TeardownOnly(cfg: Config, store: Store, m: map<string, NamespaceMeta>, req: Request, waiver: PathSet)
    requires
      || NamespaceIsTerminating(store, req.namespace) == NamespaceIsTerminating(WithTeardown(store, m), req.namespace)
      || !req.operation.Delete?
    ensures Evaluate(cfg, store, req, waiver) == Evaluate(cfg, WithTeardown(store, m), req, waiver)
  {
    var metas, other := ExtractRequestMetadata(req), WithTeardown(store, m);
    if metas.Some? {
      var (obj, before) := metas.value;
      var info := RequestOwner(req, obj, before);
      assert Exemption(store, req, obj, before, info) == Exemption(other, req, obj, before, info);
      assert DecideOperation(cfg, store, req, obj, before, info, waiver) ==
             DecideOperation(cfg, other, req, obj, before, info, waiver);
      assert EvidenceError(store, req, obj, before, info) == EvidenceError(other, req, obj, before, info);
    }
  }
}
