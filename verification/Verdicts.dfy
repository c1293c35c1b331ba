/** What precedes the checks, and what is counted on the way to a decision. */
module Verdicts {
  import opened Wrappers
  import opened JsonValues
  import opened Labels
  import opened ServiceAccounts
  import opened ManagedFields
  import opened FieldDiff
  import opened Conflicts
  import opened Admission
  import opened RequestFacts
  import opened OwnerIdentity
  import opened OperationRules

  /** The metadata the request is judged by can be read. */
  predicate Readable(req: Request) {
    if req.operation.Delete? then req.oldObject.meta.Some?
    else req.newObject.meta.Some? && (req.operation.Update? ==> req.oldObject.meta.Some?)
  }

  /** The labels that count name an owner. */
  predicate Owned(req: Request) {
    if req.operation.Delete? then req.oldObject.meta.Some? && !NamesNobody(req.oldObject.meta.value.labels)
    else
      || (req.newObject.meta.Some? && !NamesNobody(req.newObject.meta.value.labels))
      || (req.operation.Update? && req.oldObject.meta.Some? && !NamesNobody(req.oldObject.meta.value.labels))
  }

  predicate BeforeTheChecks(r: Reason) {
    || r.AllowedSubresource? || r.AllowedExcludedGroup? || r.AllowedNamespaceFilter? || r.DeniedMetadataError?
    || r.AllowedNotManaged?
  }

  lemma ChecksHaveOtherReasons(
    cfg: Config, store: Store, req: Request, obj: ObjectMeta, before: ObjectMeta, info: Ownership, waiver: PathSet)
    ensures !BeforeTheChecks(EvaluateManaged(cfg, store, req, obj, before, info, waiver).decision.reason)
  {
    assert !BeforeTheChecks(DecideOperation(cfg, store, req, obj, before, info, waiver).reason);
  }

  /** The reasons that precede the checks, each exactly when it applies. */
  lemma EarlyReasons(cfg: Config, store: Store, req: Request, waiver: PathSet)
    ensures var r := Evaluate(cfg, store, req, waiver).decision.reason;
            && (r == AllowedSubresource <==> req.subResource != "")
            && (r == AllowedExcludedGroup <==>
                req.subResource == "" && req.resourceGroup == "admissionregistration.k8s.io")
            && (r == AllowedNamespaceFilter <==>
                req.subResource == "" && req.resourceGroup != "admissionregistration.k8s.io" &&
                !Watched(cfg, store, req.namespace))
            && (r == DeniedMetadataError <==> Looked(cfg, store, req) && !Readable(req))
            && (r == AllowedNotManaged <==> Looked(cfg, store, req) && Readable(req) && !Owned(req))
  {
    ScopeExactly(cfg, store, req.namespace);
    assert EXCLUDED_GROUPS[0] == "admissionregistration.k8s.io";
    var metas := ExtractRequestMetadata(req);
    if metas.Some? {
      var (obj, before) := metas.value;
      ChecksHaveOtherReasons(cfg, store, req, obj, before, RequestOwner(req, obj, before), waiver);
    }
  }

  /** An operation that is neither of the three is let through by the checks. */
  lemma OtherReason(
    cfg: Config, store: Store, req: Request, obj: ObjectMeta, kind: OwnerKind, name: string, namespace: string,
    waiver: PathSet)
    requires Reaches(cfg, store, req, obj, NO_META, kind, name, namespace) && req.operation.Other?
    ensures Evaluate(cfg, store, req, waiver).decision.reason ==
            if ByOwner(cfg, store, req, kind, name, namespace) then AllowedOwningFluxController
            else if Bypassed(obj.annotations) then AllowedBypassAnnotation
            else if SwitchedOff(obj.annotations, kind) then AllowedReconcileDisabled
            else AllowedUnknownOperation
  {
    ReachesChecks(cfg, store, req, obj, NO_META, kind, name, namespace, waiver);
  }

  // ---- What is counted ----

  /** How an owner is written in a label of the conflict counter. */
  ghost predicate WrittenAs(labels: StringMap, key: string) {
    if NamesNobody(labels) then key == "<none>"
    else
      exists kind, name, namespace | NamesOwner(labels, kind, name, namespace) :: key == namespace + "/" + name
  }

  /** A conflict is counted exactly when the owner's reconciler changes how an owner label
      reads: for the object's kind, from the owner recorded before to the one the request is
      judged by. */
  lemma ConflictExactly(
    cfg: Config, store: Store, req: Request, obj: ObjectMeta, before: ObjectMeta, kind: OwnerKind, name: string,
    namespace: string, waiver: PathSet)
    requires Reaches(cfg, store, req, obj, before, kind, name, namespace)
    ensures var c := Evaluate(cfg, store, req, waiver).conflict;
            && (c.Some? <==> ByOwner(cfg, store, req, kind, name, namespace) && req.operation.Update? &&
                             Relabels(before.labels, obj.labels))
            && (c.Some? ==> c.value.kind == req.kind && WrittenAs(before.labels, c.value.previousOwner) &&
                            c.value.newOwner == namespace + "/" + name)
  {
    ReachesChecks(cfg, store, req, obj, before, kind, name, namespace, waiver);
    RelabelsExactly(before.labels, obj.labels);
    var info := GetFluxManagementInfo(before.labels);
    if info.Managed? {
      OwnerNamedExactly(before.labels, info.kind, info.name, info.namespace);
    }
  }

  /** The owner is named and the cache does not answer for it. */
  predicate Unread(owners: map<OwnerKey, Fields>, kind: OwnerKind, name: string, namespace: string) {
    name != "" && namespace != "" && OwnerKey(kind, namespace, name) !in owners
  }

  /** Something lets the request through before the operation is looked at. */
  predicate Exempt(store: Store, req: Request, obj: ObjectMeta, before: ObjectMeta, kind: OwnerKind) {
    || (!req.operation.Create? && SwitchedOff((if req.operation.Update? then before else obj).annotations, kind))
    || (req.operation.Delete? && (obj.deleting || TornDown(store, req.namespace)))
  }

  /** An update that touches what Flux owns, and fails at nothing before that is looked at. */
  ghost predicate AsksRules(req: Request, obj: ObjectMeta, before: ObjectMeta) {
    && req.operation.Update? && FluxApplied(before) && !SwitchesOff(before.annotations, obj.annotations)
    && req.oldObject.tree.Some? && req.newObject.tree.Some?
    && Meet(Diff(req.oldObject.tree.value, req.newObject.tree.value), FluxFields(before.managedFields).value)
  }

  lemma AsksRulesExactly(req: Request, obj: ObjectMeta, before: ObjectMeta)
    ensures req.operation.Update? && ConsultsRules(req, obj, before) <==> AsksRules(req, obj, before)
  {
    SwitchesOffExactly(before.annotations, obj.annotations);
    if FluxApplied(before) && ModifiedFields(req).Some? {
      NoConflictNoOverlap(ModifiedFields(req).value, FluxFields(before.managedFields).value);
    }
  }

  lemma ExemptExactly(
    store: Store, req: Request, obj: ObjectMeta, before: ObjectMeta, kind: OwnerKind, name: string, namespace: string)
    ensures Exemption(store, req, obj, before, Managed(kind, name, namespace)).Some? <==>
            Exempt(store, req, obj, before, kind)
  {
  }

  /** Lookup errors are counted for a named owner the cache does not answer for: one when a
      service account other than Flux's own is identified, one more when its inventory or
      its rules are sought. */
  lemma LookupErrorsExactly(
    cfg: Config, store: Store, req: Request, obj: ObjectMeta, before: ObjectMeta, kind: OwnerKind, name: string,
    namespace: string, waiver: PathSet)
    requires Reaches(cfg, store, req, obj, before, kind, name, namespace)
    ensures var v := Evaluate(cfg, store, req, waiver);
            var decided := !ByOwner(cfg, store, req, kind, name, namespace) && !Exempt(store, req, obj, before, kind);
            && v.identityError ==
               (if !FluxCore(req.user, cfg.fluxNamespace) &&
                   (exists ns, account :: SignedInAs(req.user, ns, account)) &&
                   Unread(store.identityOwners, kind, name, namespace) then Some(kind) else None)
            && v.evidenceError ==
               (if decided && (req.operation.Create? || (AsksRules(req, obj, before) && kind == Kustomization)) &&
                   Unread(store.evidenceOwners, kind, name, namespace) then Some(kind) else None)
            && (v.consulted <==> decided && AsksRules(req, obj, before))
  {
    ReachesChecks(cfg, store, req, obj, before, kind, name, namespace, waiver);
    CoreExactly(req.user, cfg.fluxNamespace);
    SignedInExactly(req.user);
    if ParseServiceAccount(req.user).Some? {
      var sa := ParseServiceAccount(req.user).value;
      assert sa == ServiceAccount(sa.namespace, sa.name);
    }
    AsksRulesExactly(req, obj, before);
    ExemptExactly(store, req, obj, before, kind, name, namespace);
  }
}
