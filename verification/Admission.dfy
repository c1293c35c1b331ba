/** The admission decision of internal/webhook/handler.go as a function of the
    configuration, what the caches answer, the request, and the ignore set the owner's
    rules evaluate to. */
module Admission {
  import opened Wrappers
  import opened JsonValues
  import opened Labels
  import opened ServiceAccounts
  import opened ManagedFields
  import opened FieldDiff
  import opened Conflicts
  import opened IgnoreRules
  import opened Inventory
  import opened OwnerCache

  const EXCLUDED_NAMESPACES: seq<string> := ["kube-system", "kube-public", "kube-node-lease", "flux-system"]
  const EXCLUDED_GROUPS: seq<string> := ["admissionregistration.k8s.io"]

  datatype Operation = Create | Update | Delete | Other(name: string)

  datatype Reason =
    | AllowedNotManaged | AllowedNamespaceFilter | AllowedOwningFluxController | AllowedBypassAnnotation
    | AllowedReconcileDisabled | AllowedDeletionInProgress | AllowedNamespaceTerminating
    | AllowedNoFluxManagedFields | AllowedNoFieldConflict | AllowedDriftIgnoredField | AllowedOwnedResource
    | AllowedSystemController | AllowedNotInOwnerInventory | AllowedSubresource | AllowedExcludedGroup
    | AllowedUnknownOperation
    | DeniedMetadataError | DeniedParseError | DeniedManagedFieldsError | DeniedManagedFieldsTampered
    | DeniedBypassAnnotationAdded | DeniedCreateFluxLabels | DeniedCreateInventoryUnavailable
    | DeniedDeleteFluxManaged | DeniedUpdateFluxManaged | DeniedWrongFluxController

  predicate IsDenial(r: Reason) {
    || r.DeniedMetadataError? || r.DeniedParseError? || r.DeniedManagedFieldsError? || r.DeniedManagedFieldsTampered?
    || r.DeniedBypassAnnotationAdded? || r.DeniedCreateFluxLabels? || r.DeniedCreateInventoryUnavailable?
    || r.DeniedDeleteFluxManaged? || r.DeniedUpdateFluxManaged? || r.DeniedWrongFluxController?
  }

  datatype Decision = Decision(allowed: bool, reason: Reason)

  /** metav1.ObjectMeta, as far as it is read. `controllers` lists the controller flags of
      the owner references. */
  datatype ObjectMeta = ObjectMeta(
    name: string, namespace: string, labels: StringMap, annotations: StringMap, deleting: bool,
    controllers: seq<Option<bool>>, managedFields: seq<Entry>)

  const NO_META := ObjectMeta("", "", map[], map[], false, [], [])

  /** A raw object and its two decodings, either of which may fail. */
  datatype Payload = Payload(meta: Option<ObjectMeta>, tree: Option<Fields>)

  datatype Request = Request(
    operation: Operation, resourceGroup: string, group: string, version: string, kind: string,
    namespace: string, name: string, subResource: string, user: UserInfo, newObject: Payload, oldObject: Payload)

  datatype Config = Config(
    fluxNamespace: string, auditOnly: bool, namespaceLabel: string, namespaceLabelValue: string,
    systemControllerSAs: seq<string>)

  datatype OwnerKey = OwnerKey(kind: OwnerKind, namespace: string, name: string)

  datatype NamespaceMeta = NamespaceMeta(labels: StringMap, deleting: bool)

  /** What each cache read made while handling one request answers; a missing key is a
      read that fails. An owner may be read twice, and a namespace too, with different
      answers. */
  datatype Store = Store(
    identityOwners: map<OwnerKey, Fields>, evidenceOwners: map<OwnerKey, Fields>,
    scopeNamespaces: map<string, NamespaceMeta>, teardownNamespaces: map<string, NamespaceMeta>)

  /** The default deployment in enforcing mode, and caches that answer nothing: what the
      examples of later modules run against. */
  const ENFORCING := Config("flux-system", false, "", "", [])
  const NO_STORE := Store(map[], map[], map[], map[])

  // ---- Scope and metadata ----

  predicate ShouldProcessNamespace(cfg: Config, store: Store, namespace: string) {
    if namespace == "" then true
    else if namespace in EXCLUDED_NAMESPACES then false
    else if cfg.namespaceLabel == "" then true
    else if namespace !in store.scopeNamespaces then true
    else
      var labels := store.scopeNamespaces[namespace].labels;
      cfg.namespaceLabel in labels &&
      (cfg.namespaceLabelValue == "" || labels[cfg.namespaceLabel] == cfg.namespaceLabelValue)
  }

  /** The object's metadata (the deleted object's on DELETE) and, on UPDATE, the old
      object's. */
  function ExtractRequestMetadata(req: Request): Option<(ObjectMeta, ObjectMeta)> {
    var first := if req.operation.Delete? then req.oldObject.meta else req.newObject.meta;
    if first.None? then None
    else if !req.operation.Update? then Some((first.value, NO_META))
    else if req.oldObject.meta.None? then None
    else Some((first.value, req.oldObject.meta.value))
  }

  /** On UPDATE the old labels count when the new ones name no owner. */
  function RequestOwner(req: Request, obj: ObjectMeta, before: ObjectMeta): Ownership {
    var info := GetFluxManagementInfo(obj.labels);
    if info.Unmanaged? && req.operation.Update? then GetFluxManagementInfo(before.labels) else info
  }

  // ---- The owner ----

  function ReadOwner(owners: map<OwnerKey, Fields>, info: Ownership): Option<Fields> {
    if info.Unmanaged? || info.name == "" || info.namespace == "" then None
    else
      var key := OwnerKey(info.kind, info.namespace, info.name);
      if key in owners then Some(owners[key]) else None
  }

  /** A lookup error is counted for an owner that is named but cannot be read. */
  function ReadError(owners: map<OwnerKey, Fields>, info: Ownership): Option<OwnerKind> {
    if info.Unmanaged? || info.name == "" || info.namespace == "" || ReadOwner(owners, info).Some? then None
    else Some(info.kind)
  }

  function OwningReconcilerSA(owners: map<OwnerKey, Fields>, info: Ownership): Option<ServiceAccount> {
    var owner := ReadOwner(owners, info);
    if owner.None? || info.Unmanaged? || ServiceAccountNameOf(owner.value) == "" then None
    else Some(ServiceAccount(info.namespace, ServiceAccountNameOf(owner.value)))
  }

  ghost predicate OwningFluxReconciler(cfg: Config, store: Store, user: UserInfo, info: Ownership) {
    || IsFluxController(user, cfg.fluxNamespace)
    || (var sa := ParseServiceAccount(user);
        sa.Some? &&
        match OwningReconcilerSA(store.identityOwners, info)
        case Some(owner) => sa.value == owner
        case None => info.Managed? && sa.value.namespace == info.namespace &&
                     sa.value.name in FLUX_RECONCILER_SERVICE_ACCOUNTS)
  }

  ghost function IdentityError(cfg: Config, store: Store, user: UserInfo, info: Ownership): Option<OwnerKind> {
    if IsFluxController(user, cfg.fluxNamespace) || ParseServiceAccount(user).None? then None
    else ReadError(store.identityOwners, info)
  }

  /** The four owner labels read the same before and after. */
  predicate IsOwningController(operation: Operation, after: StringMap, before: StringMap) {
    operation.Update? ==>
      && Get(before, KUSTOMIZE_LABEL_NAME) == Get(after, KUSTOMIZE_LABEL_NAME)
      && Get(before, KUSTOMIZE_LABEL_NAMESPACE) == Get(after, KUSTOMIZE_LABEL_NAMESPACE)
      && Get(before, HELM_LABEL_NAME) == Get(after, HELM_LABEL_NAME)
      && Get(before, HELM_LABEL_NAMESPACE) == Get(after, HELM_LABEL_NAMESPACE)
  }

  function FluxOwnerKey(info: Ownership): string {
    if info.Unmanaged? then "<none>" else info.namespace + "/" + info.name
  }

  // ---- The checks ----

  function Or(a: string, b: string): string {
    if a != "" then a else b
  }

  /** Only the state before the request counts, and there is none on CREATE. */
  predicate BypassHonoured(req: Request, obj: ObjectMeta, before: ObjectMeta) {
    !req.operation.Create? && HasBypassAnnotation((if req.operation.Update? then before else obj).annotations)
  }

  predicate ReconcileDisabledHonoured(req: Request, obj: ObjectMeta, before: ObjectMeta, info: Ownership) {
    && info.Managed? && info.kind.Kustomization? && !req.operation.Create?
    && IsReconcileDisabled((if req.operation.Update? then before else obj).annotations)
  }

  predicate NamespaceIsTerminating(store: Store, namespace: string) {
    namespace != "" && namespace in store.teardownNamespaces && store.teardownNamespaces[namespace].deleting
  }

  function RefOf(req: Request, obj: ObjectMeta): ObjectRef {
    ObjectRef(req.group, req.kind, Or(obj.namespace, req.namespace), Or(obj.name, req.name))
  }

  /** The owner's inventory; empty when it cannot be read. */
  function OwnerEntries(store: Store, info: Ownership): seq<Value> {
    match ReadOwner(store.evidenceOwners, info)
    case None => []
    case Some(owner) => InventoryOf(owner)
  }

  ghost function CreateDecision(cfg: Config, store: Store, req: Request, obj: ObjectMeta, info: Ownership): Decision {
    var entries := OwnerEntries(store, info);
    if entries != [] && Lists(entries, RefOf(req, obj)) then Decision(false, DeniedCreateFluxLabels)
    else if Some(true) in obj.controllers then Decision(true, AllowedOwnedResource)
    else if IsSystemController(req.user, cfg.systemControllerSAs) then Decision(true, AllowedSystemController)
    else if entries != [] then Decision(true, AllowedNotInOwnerInventory)
    else Decision(false, DeniedCreateInventoryUnavailable)
  }

  ghost function DeleteDecision(cfg: Config, req: Request, obj: ObjectMeta): Decision {
    var flux := FluxFields(obj.managedFields);
    if flux.Err? then Decision(false, DeniedManagedFieldsError)
    else if flux.value == {} then Decision(true, AllowedNoFluxManagedFields)
    else if IsSystemController(req.user, cfg.systemControllerSAs) then Decision(true, AllowedSystemController)
    else Decision(false, DeniedDeleteFluxManaged)
  }

  ghost function ModifiedFields(req: Request): Option<PathSet> {
    if req.oldObject.tree.None? || req.newObject.tree.None? then None
    else Some(Diff(req.oldObject.tree.value, req.newObject.tree.value))
  }

  /** The owner's ignore rules are evaluated only when there is a conflict to waive. */
  ghost predicate ConsultsRules(req: Request, obj: ObjectMeta, before: ObjectMeta) {
    var flux := FluxFields(before.managedFields);
    && flux.Ok? && flux.value != {}
    && !ProtectionDisablingAnnotationAdded(before.annotations, obj.annotations)
    && ModifiedFields(req).Some? && Conflict(ModifiedFields(req).value, flux.value) != {}
  }

  ghost function UpdateDecision(req: Request, obj: ObjectMeta, before: ObjectMeta, waiver: PathSet): Decision {
    var flux := FluxFields(before.managedFields);
    if flux.Err? then Decision(false, DeniedManagedFieldsError)
    else if flux.value == {} then Decision(true, AllowedNoFluxManagedFields)
    else if ProtectionDisablingAnnotationAdded(before.annotations, obj.annotations) then
      Decision(false, DeniedBypassAnnotationAdded)
    else if ModifiedFields(req).None? then Decision(false, DeniedParseError)
    else
      var conflict := Conflict(ModifiedFields(req).value, flux.value);
      var ignore := if conflict == {} then {} else waiver;
      var newFlux := FluxFields(obj.managedFields);
      if Waive(conflict, ignore) != {} then Decision(false, DeniedUpdateFluxManaged)
      else if newFlux.Err? then Decision(false, DeniedManagedFieldsError)
      else if Waive(flux.value - newFlux.value, ignore) != {} then Decision(false, DeniedManagedFieldsTampered)
      else if conflict != {} then Decision(true, AllowedDriftIgnoredField)
      else Decision(true, AllowedNoFieldConflict)
  }

  function SubjectOf(req: Request, before: ObjectMeta): Subject {
    Subject(req.group, req.version, req.kind, Or(before.name, req.name), Or(before.namespace, req.namespace),
            before.labels, before.annotations)
  }

  /** The rules a waiver is sought in: a HelmRelease and an unreadable owner have none. */
  function RulesFor(store: Store, info: Ownership): seq<IgnoreRule> {
    var owner := ReadOwner(store.evidenceOwners, info);
    if info.Managed? && info.kind.Kustomization? && owner.Some? then RulesOf(owner.value) else []
  }

  /** What the owner's rules may evaluate to. */
  ghost predicate PossibleWaiver(
    m: Matchers, store: Store, req: Request, before: ObjectMeta, info: Ownership, w: PathSet)
  {
    PossibleIgnoreSet(m, RulesFor(store, info), SubjectOf(req, before), w)
  }

  // ---- The whole decision ----

  datatype ConflictLabels = ConflictLabels(kind: string, previousOwner: string, newOwner: string)

  /** A decision with the ownership conflict and the lookup errors counted on the way
      to it, and whether the ignore rules were evaluated. */
  datatype Verdict = Verdict(
    decision: Decision, conflict: Option<ConflictLabels>, identityError: Option<OwnerKind>,
    evidenceError: Option<OwnerKind>, consulted: bool)

  ghost function Plainly(d: Decision): Verdict {
    Verdict(d, None, None, None, false)
  }

  /** The decision that depends on the operation. */
  ghost function DecideOperation(
    cfg: Config, store: Store, req: Request, obj: ObjectMeta, before: ObjectMeta, info: Ownership, waiver: PathSet)
    : Decision
  {
    match req.operation
    case Create => CreateDecision(cfg, store, req, obj, info)
    case Update => UpdateDecision(req, obj, before, waiver)
    case Delete => DeleteDecision(cfg, req, obj)
    case Other(_) => Decision(true, AllowedUnknownOperation)
  }

  /** The owner is read again for its inventory and for its ignore rules. */
  ghost function EvidenceError(store: Store, req: Request, obj: ObjectMeta, before: ObjectMeta, info: Ownership)
    : Option<OwnerKind>
  {
    var ownerRead :=
      req.operation.Create? ||
      (req.operation.Update? && ConsultsRules(req, obj, before) && info.Managed? && info.kind.Kustomization?);
    if ownerRead then ReadError(store.evidenceOwners, info) else None
  }

  function OwnershipDecision(req: Request, obj: ObjectMeta, before: ObjectMeta): Decision {
    if IsOwningController(req.operation, obj.labels, before.labels) then Decision(true, AllowedOwningFluxController)
    else Decision(false, DeniedWrongFluxController)
  }

  function OwnershipConflict(req: Request, obj: ObjectMeta, before: ObjectMeta, info: Ownership)
    : Option<ConflictLabels>
  {
    if IsOwningController(req.operation, obj.labels, before.labels) then None
    else Some(ConflictLabels(req.kind, FluxOwnerKey(GetFluxManagementInfo(before.labels)), FluxOwnerKey(info)))
  }

  /** What lets a request through before the operation is looked at. */
  ghost function Exemption(store: Store, req: Request, obj: ObjectMeta, before: ObjectMeta, info: Ownership)
    : Option<Reason>
  {
    if BypassHonoured(req, obj, before) then Some(AllowedBypassAnnotation)
    else if ReconcileDisabledHonoured(req, obj, before, info) then Some(AllowedReconcileDisabled)
    else if req.operation.Delete? && obj.deleting then Some(AllowedDeletionInProgress)
    else if req.operation.Delete? && NamespaceIsTerminating(store, req.namespace) then Some(AllowedNamespaceTerminating)
    else None
  }

  ghost function EvaluateManaged(
    cfg: Config, store: Store, req: Request, obj: ObjectMeta, before: ObjectMeta, info: Ownership, waiver: PathSet)
    : Verdict
  {
    var error := IdentityError(cfg, store, req.user, info);
    if OwningFluxReconciler(cfg, store, req.user, info) then
      Verdict(OwnershipDecision(req, obj, before), OwnershipConflict(req, obj, before, info), error, None, false)
    else match Exemption(store, req, obj, before, info)
      case Some(reason) =>
        Verdict(Decision(true, reason), None, error, None, false)
      case None =>
        Verdict(DecideOperation(cfg, store, req, obj, before, info, waiver), None, error,
                EvidenceError(store, req, obj, before, info), req.operation.Update? && ConsultsRules(req, obj, before))
  }

  ghost function Evaluate(cfg: Config, store: Store, req: Request, waiver: PathSet): Verdict {
    var metas := ExtractRequestMetadata(req);
    if req.subResource != "" then Plainly(Decision(true, AllowedSubresource))
    else if req.resourceGroup in EXCLUDED_GROUPS then Plainly(Decision(true, AllowedExcludedGroup))
    else if !ShouldProcessNamespace(cfg, store, req.namespace) then Plainly(Decision(true, AllowedNamespaceFilter))
    else if metas.None? then Plainly(Decision(false, DeniedMetadataError))
    else
      var (obj, before) := metas.value;
      var info := RequestOwner(req, obj, before);
      if info.Unmanaged? then Plainly(Decision(true, AllowedNotManaged))
      else EvaluateManaged(cfg, store, req, obj, before, info, waiver)
  }

  /** `w` is an ignore set this request may be judged with. */
  ghost predicate WaiverFor(m: Matchers, cfg: Config, store: Store, req: Request, w: PathSet) {
    var metas := ExtractRequestMetadata(req);
    Evaluate(cfg, store, req, w).consulted && metas.Some? ==>
      PossibleWaiver(m, store, req, metas.value.1, RequestOwner(req, metas.value.0, metas.value.1), w)
  }

  datatype Warning = NoWarning | WouldBeBlocked | Blocked

  datatype Response = Response(allowed: bool, warning: Warning)

  /** In audit mode a denial becomes an allowance with a warning. */
  function Respond(cfg: Config, d: Decision): Response {
    if d.allowed then Response(true, NoWarning)
    else if cfg.auditOnly then Response(true, WouldBeBlocked)
    else Response(false, Blocked)
  }

  /** Prometheus counters: the multiplicity of a label tuple is its series' value. */
  datatype Counters = Counters(
    requests: multiset<(Operation, Reason)>, denials: multiset<(Operation, string)>,
    conflicts: multiset<ConflictLabels>, lookupErrors: multiset<OwnerKind>)

  function Plus<T>(m: multiset<T>, x: Option<T>): multiset<T> {
    if x.None? then m else m + multiset{x.value}
  }

  ghost function Record(c: Counters, req: Request, v: Verdict): Counters {
    Counters(
      c.requests + multiset{(req.operation, v.decision.reason)},
      Plus(c.denials, if v.decision.allowed then None else Some((req.operation, req.kind))),
      Plus(c.conflicts, v.conflict),
      Plus(Plus(c.lookupErrors, v.identityError), v.evidenceError))
  }
}
