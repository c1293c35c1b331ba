/** The admission handler of internal/webhook/handler.go: it answers requests and
    counts what it does. Each method is tied to the decision function of Admission; the
    ghost results name the ignore set the owner's rules evaluated to. */
module Handler {
  import opened Wrappers
  import opened JsonValues
  import opened Labels
  import opened ServiceAccounts
  import opened ManagedFields
  import opened FieldDiff
  import opened Conflicts
  import opened IgnoreRules
  import opened Inventory
  import opened OwnerCache
  import opened Admission
  import opened MetricsModel

  class DriftPreventionHandler {
    const config: Config
    const matchers: Matchers
    const metrics: Metrics

    constructor (config: Config, matchers: Matchers, metrics: Metrics)
      ensures this.config == config && this.matchers == matchers && this.metrics == metrics
    {
      this.config, this.matchers, this.metrics := config, matchers, metrics;
    }

    method Handle(req: Request, store: Store) returns (resp: Response, ghost waiver: PathSet)
      modifies metrics
      ensures WaiverFor(matchers, config, store, req, waiver)
      ensures var v := Evaluate(config, store, req, waiver);
              resp == Respond(config, v.decision) && metrics.Snapshot() == Record(old(metrics.Snapshot()), req, v)
    {
      waiver := {};
      if req.subResource != "" {
        metrics.RecordRequest(req.operation, AllowedSubresource);
        return Response(true, NoWarning), waiver;
      }
      if req.resourceGroup in EXCLUDED_GROUPS {
        metrics.RecordRequest(req.operation, AllowedExcludedGroup);
        return Response(true, NoWarning), waiver;
      }
      if !ShouldProcessNamespace(config, store, req.namespace) {
        metrics.RecordRequest(req.operation, AllowedNamespaceFilter);
        return Response(true, NoWarning), waiver;
      }
      var metas := ExtractRequestMetadata(req);
      if metas.None? {
        resp := BuildResponse(req, Decision(false, DeniedMetadataError));
        return;
      }
      var (obj, before) := metas.value;
      var info := GetFluxManagementInfo(obj.labels);
      if info.Unmanaged? && req.operation.Update? {
        info := GetFluxManagementInfo(before.labels);
      }
      if info.Unmanaged? {
        metrics.RecordRequest(req.operation, AllowedNotManaged);
        return Response(true, NoWarning), waiver;
      }
      var decision;
      decision, waiver := CheckBypass(req, store, obj, before, info);
      resp := BuildResponse(req, decision);
    }

    method BuildResponse(req: Request, decision: Decision) returns (resp: Response)
      modifies metrics`requestsTotal, metrics`denialsTotal
      ensures resp == Respond(config, decision)
      ensures metrics.requestsTotal == old(metrics.requestsTotal) + multiset{(req.operation, decision.reason)}
      ensures metrics.denialsTotal ==
              Plus(old(metrics.denialsTotal), if decision.allowed then None else Some((req.operation, req.kind)))
    {
      metrics.RecordRequest(req.operation, decision.reason);
      if !decision.allowed {
        metrics.RecordDenial(req.operation, req.kind);
      }
      if config.auditOnly && !decision.allowed {
        return Response(true, WouldBeBlocked);
      }
      if decision.allowed {
        return Response(true, NoWarning);
      }
      return Response(false, Blocked);
    }

    method CheckBypass(req: Request, store: Store, obj: ObjectMeta, before: ObjectMeta, info: Ownership)
      returns (d: Decision, ghost waiver: PathSet)
      requires info.Managed?
      modifies metrics`ownershipConflictsTotal, metrics`ownerLookupErrorsTotal
      ensures var v := EvaluateManaged(config, store, req, obj, before, info, waiver);
              && d == v.decision
              && metrics.ownershipConflictsTotal == Plus(old(metrics.ownershipConflictsTotal), v.conflict)
              && metrics.ownerLookupErrorsTotal ==
                 Plus(Plus(old(metrics.ownerLookupErrorsTotal), v.identityError), v.evidenceError)
              && (v.consulted ==> PossibleWaiver(matchers, store, req, before, info, waiver))
    {
      waiver := {};
      var owning := IsOwningFluxReconciler(req.user, store, info);
      if owning {
        d := CheckFluxOwnership(req, obj, before, info);
        return;
      }
      var reason := CheckExemption(req, store, obj, before, info);
      if reason.Some? {
        return Decision(true, reason.value), waiver;
      }
      d, waiver := OperationDecision(req, store, obj, before, info);
    }

    /** The bypass annotation, disabled reconciliation and ongoing deletions. */
    method CheckExemption(req: Request, store: Store, obj: ObjectMeta, before: ObjectMeta, info: Ownership)
      returns (reason: Option<Reason>)
      ensures reason == Exemption(store, req, obj, before, info)
    {
      if BypassHonoured(req, obj, before) {
        return Some(AllowedBypassAnnotation);
      }
      if ReconcileDisabledHonoured(req, obj, before, info) {
        return Some(AllowedReconcileDisabled);
      }
      if req.operation.Delete? {
        if obj.deleting {
          return Some(AllowedDeletionInProgress);
        }
        if NamespaceIsTerminating(store, req.namespace) {
          return Some(AllowedNamespaceTerminating);
        }
      }
      return None;
    }

    method OperationDecision(req: Request, store: Store, obj: ObjectMeta, before: ObjectMeta, info: Ownership)
      returns (d: Decision, ghost waiver: PathSet)
      requires info.Managed?
      modifies metrics`ownerLookupErrorsTotal
      ensures d == DecideOperation(config, store, req, obj, before, info, waiver)
      ensures metrics.ownerLookupErrorsTotal ==
              Plus(old(metrics.ownerLookupErrorsTotal), EvidenceError(store, req, obj, before, info))
      ensures req.operation.Update? && ConsultsRules(req, obj, before) ==>
                PossibleWaiver(matchers, store, req, before, info, waiver)
    {
      waiver := {};
      match req.operation {
        case Create =>
          d := CheckDerivedResourceCreate(req, store, obj, info);
        case Update =>
          d, waiver := CheckUpdateFieldConflict(req, store, obj, before, info);
        case Delete =>
          d := CheckDeleteManaged(req, obj);
        case Other(_) =>
          d := Decision(true, AllowedUnknownOperation);
      }
    }

    method CheckFluxOwnership(req: Request, obj: ObjectMeta, before: ObjectMeta, info: Ownership) returns (d: Decision)
      modifies metrics`ownershipConflictsTotal
      ensures d == OwnershipDecision(req, obj, before)
      ensures metrics.ownershipConflictsTotal ==
              Plus(old(metrics.ownershipConflictsTotal), OwnershipConflict(req, obj, before, info))
    {
      if !IsOwningController(req.operation, obj.labels, before.labels) {
        metrics.RecordOwnershipConflict(
          req.kind, FluxOwnerKey(GetFluxManagementInfo(before.labels)), FluxOwnerKey(info));
        return Decision(false, DeniedWrongFluxController);
      }
      return Decision(true, AllowedOwningFluxController);
    }

    /** One lookup error is counted when the labels name an owner that cannot be read. */
    method GetOwner(owners: map<OwnerKey, Fields>, info: Ownership) returns (owner: Option<Fields>)
      modifies metrics`ownerLookupErrorsTotal
      ensures owner == ReadOwner(owners, info)
      ensures metrics.ownerLookupErrorsTotal == Plus(old(metrics.ownerLookupErrorsTotal), ReadError(owners, info))
    {
      if info.Unmanaged? || info.name == "" || info.namespace == "" {
        return None;
      }
      var key := OwnerKey(info.kind, info.namespace, info.name);
      if key !in owners {
        metrics.RecordOwnerLookupError(info.kind);
        return None;
      }
      return Some(owners[key]);
    }

    method IsOwningFluxReconciler(user: UserInfo, store: Store, info: Ownership) returns (owning: bool)
      requires info.Managed?
      modifies metrics`ownerLookupErrorsTotal
      ensures owning <==> OwningFluxReconciler(config, store, user, info)
      ensures metrics.ownerLookupErrorsTotal ==
              Plus(old(metrics.ownerLookupErrorsTotal), IdentityError(config, store, user, info))
    {
      if IsFluxController(user, config.fluxNamespace) {
        return true;
      }
      var sa := ParseServiceAccount(user);
      if sa.None? {
        return false;
      }
      var owner := GetOwner(store.identityOwners, info);
      if owner.Some? {
        var name := ServiceAccountNameOf(owner.value);
        if name != "" {
          return sa.value.namespace == info.namespace && sa.value.name == name;
        }
      }
      return sa.value.namespace == info.namespace && sa.value.name in FLUX_RECONCILER_SERVICE_ACCOUNTS;
    }

    method CheckDerivedResourceCreate(req: Request, store: Store, obj: ObjectMeta, info: Ownership)
      returns (d: Decision)
      modifies metrics`ownerLookupErrorsTotal
      ensures d == CreateDecision(config, store, req, obj, info)
      ensures metrics.ownerLookupErrorsTotal ==
              Plus(old(metrics.ownerLookupErrorsTotal), ReadError(store.evidenceOwners, info))
    {
      var found, available := OwnerInventoryContains(req, store, obj, info);
      if available && found {
        return Decision(false, DeniedCreateFluxLabels);
      }
      if Some(true) in obj.controllers {
        return Decision(true, AllowedOwnedResource);
      }
      if IsSystemController(req.user, config.systemControllerSAs) {
        return Decision(true, AllowedSystemController);
      }
      if available {
        return Decision(true, AllowedNotInOwnerInventory);
      }
      return Decision(false, DeniedCreateInventoryUnavailable);
    }

    method OwnerInventoryContains(req: Request, store: Store, obj: ObjectMeta, info: Ownership)
      returns (found: bool, available: bool)
      modifies metrics`ownerLookupErrorsTotal
      ensures available <==> OwnerEntries(store, info) != []
      ensures found <==> available && Lists(OwnerEntries(store, info), RefOf(req, obj))
      ensures metrics.ownerLookupErrorsTotal ==
              Plus(old(metrics.ownerLookupErrorsTotal), ReadError(store.evidenceOwners, info))
    {
      var owner := GetOwner(store.evidenceOwners, info);
      if owner.None? {
        return false, false;
      }
      var entries := InventoryOf(owner.value);
      if entries == [] {
        return false, false;
      }
      found := InventoryContains(entries, RefOf(req, obj));
      return found, true;
    }

    method CheckDeleteManaged(req: Request, obj: ObjectMeta) returns (d: Decision)
      ensures d == DeleteDecision(config, req, obj)
    {
      var flux := FluxManagedFields(obj.managedFields);
      if flux.Err? {
        return Decision(false, DeniedManagedFieldsError);
      }
      if flux.value == {} {
        return Decision(true, AllowedNoFluxManagedFields);
      }
      if IsSystemController(req.user, config.systemControllerSAs) {
        return Decision(true, AllowedSystemController);
      }
      return Decision(false, DeniedDeleteFluxManaged);
    }

    method CheckUpdateFieldConflict(req: Request, store: Store, obj: ObjectMeta, before: ObjectMeta, info: Ownership)
      returns (d: Decision, ghost waiver: PathSet)
      requires info.Managed?
      modifies metrics`ownerLookupErrorsTotal
      ensures d == UpdateDecision(req, obj, before, waiver)
      ensures ConsultsRules(req, obj, before) ==> PossibleWaiver(matchers, store, req, before, info, waiver)
      ensures metrics.ownerLookupErrorsTotal ==
              Plus(old(metrics.ownerLookupErrorsTotal),
                   if ConsultsRules(req, obj, before) && info.kind.Kustomization?
                   then ReadError(store.evidenceOwners, info) else None)
    {
      waiver := {};
      var flux := FluxManagedFields(before.managedFields);
      if flux.Err? {
        return Decision(false, DeniedManagedFieldsError), waiver;
      }
      if flux.value == {} {
        return Decision(true, AllowedNoFluxManagedFields), waiver;
      }
      if ProtectionDisablingAnnotationAdded(before.annotations, obj.annotations) {
        return Decision(false, DeniedBypassAnnotationAdded), waiver;
      }
      if req.oldObject.tree.None? || req.newObject.tree.None? {
        return Decision(false, DeniedParseError), waiver;
      }
      var modified := ComputeFieldDiff(req.oldObject.tree, req.newObject.tree);
      var conflict := GetConflictingFields(Some(modified.paths), Some(flux.value));
      var ignoreSet: PathSet := {};
      if conflict != {} {
        ignoreSet := DriftIgnoreSet(req, store, before, info);
        waiver := ignoreSet;
      }
      if WaiveIgnoredConflicts(Some(conflict), Some(ignoreSet)) != {} {
        return Decision(false, DeniedUpdateFluxManaged), waiver;
      }
      var newFlux := FluxManagedFields(obj.managedFields);
      if newFlux.Err? {
        return Decision(false, DeniedManagedFieldsError), waiver;
      }
      if WaiveIgnoredConflicts(Some(flux.value - newFlux.value), Some(ignoreSet)) != {} {
        return Decision(false, DeniedManagedFieldsTampered), waiver;
      }
      if conflict != {} {
        return Decision(true, AllowedDriftIgnoredField), waiver;
      }
      return Decision(true, AllowedNoFieldConflict), waiver;
    }

    method DriftIgnoreSet(req: Request, store: Store, before: ObjectMeta, info: Ownership)
      returns (ignoreSet: PathSet)
      requires info.Managed?
      modifies metrics`ownerLookupErrorsTotal
      ensures PossibleWaiver(matchers, store, req, before, info, ignoreSet)
      ensures metrics.ownerLookupErrorsTotal ==
              Plus(old(metrics.ownerLookupErrorsTotal),
                   if info.kind.Kustomization? then ReadError(store.evidenceOwners, info) else None)
    {
      assert SelectedPaths(matchers, [], SubjectOf(req, before)) == {};
      if !info.kind.Kustomization? {
        return {};
      }
      var owner := GetOwner(store.evidenceOwners, info);
      if owner.None? {
        return {};
      }
      var rules := ParseIgnoreRules(owner.value);
      if rules == [] {
        return {};
      }
      var res := IgnoreSetForObject(matchers, rules, SubjectOf(req, before));
      if res.Err? {
        return {};
      }
      return res.value;
    }
  }
}
