/** Protection over whole runs. Each admitted UPDATE produces the old object of the next
    request; whatever non-owners send, what Flux declared stays. */
module RunSafety {
  import opened Wrappers
  import opened JsonValues
  import opened Labels
  import opened ManagedFields
  import opened FieldDiff
  import opened DiffStructure
  import opened DiffRoundTrip
  import opened Conflicts
  import opened Protection
  import opened Admission
  import opened RequestFacts
  import opened UpdateSafety

  // ---- Metadata as a view of the tree ----

  function LabelPath(key: string): Path {
    [Field("metadata"), Field("labels"), Field(key)]
  }

  /** A label value as Go decodes it: null becomes the empty string. */
  predicate ReadsAs(v: Value, s: string) {
    v == Str(s) || (v.Null? && s == "")
  }

  /** When both decodings succeed they agree on the labels. */
  ghost predicate Faithful(p: Payload) {
    p.meta.Some? && p.tree.Some? ==>
      forall key ::
        var v := Resolve(Map(p.tree.value), LabelPath(key));
        (v.Some? <==> key in p.meta.value.labels) && (v.Some? ==> ReadsAs(v.value, p.meta.value.labels[key]))
  }

  // ---- Runs ----

  /** Someone tries to update the object; only the new object counts, the old one is
      whatever is stored. */
  datatype Attempt = Attempt(req: Request, store: Store, waiver: PathSet)

  function AsUpdate(cur: Payload, a: Attempt): Request {
    a.req.(operation := Update, oldObject := cur)
  }

  ghost predicate Admitted(cfg: Config, cur: Payload, a: Attempt) {
    Respond(cfg, Evaluate(cfg, a.store, AsUpdate(cur, a), a.waiver).decision).allowed
  }

  ghost function Next(cfg: Config, cur: Payload, a: Attempt): Payload {
    if Admitted(cfg, cur, a) then a.req.newObject else cur
  }

  ghost function Run(cfg: Config, start: Payload, attempts: seq<Attempt>): Payload {
    if attempts == [] then start
    else Next(cfg, Run(cfg, start, attempts[..|attempts| - 1]), attempts[|attempts| - 1])
  }

  predicate InScope(cfg: Config, a: Attempt) {
    a.req.subResource == "" && a.req.resourceGroup !in EXCLUDED_GROUPS &&
    ShouldProcessNamespace(cfg, a.store, a.req.namespace)
  }

  /** The handler does not let the request through as the owner's own. */
  ghost predicate NotAsOwner(cfg: Config, cur: Payload, a: Attempt) {
    var req := AsUpdate(cur, a);
    var metas := ExtractRequestMetadata(req);
    metas.Some? ==>
      !(OwningFluxReconciler(cfg, a.store, req.user, RequestOwner(req, metas.value.0, metas.value.1)) &&
        IsOwningController(Update, metas.value.0.labels, metas.value.1.labels))
  }

  /** What is asked of one attempt: it is in scope, its metadata is a view of its tree,
      the diff can see all of it, and any ignore set it is judged with lies in `ignored`. */
  ghost predicate Ordinary(cfg: Config, cur: Payload, a: Attempt, ignored: PathSet) {
    && InScope(cfg, a) && Faithful(a.req.newObject)
    && (cur.tree.Some? && a.req.newObject.tree.Some? ==>
          AgreeBelow(cur.tree.value, a.req.newObject.tree.value, MAX_DIFF_DEPTH))
    && (Evaluate(cfg, a.store, AsUpdate(cur, a), a.waiver).consulted ==> a.waiver <= ignored)
  }

  // ---- The invariant ----

  function NameKey(kind: OwnerKind): string {
    if kind.Kustomization? then KUSTOMIZE_LABEL_NAME else HELM_LABEL_NAME
  }

  function NamespaceKey(kind: OwnerKind): string {
    if kind.Kustomization? then KUSTOMIZE_LABEL_NAMESPACE else HELM_LABEL_NAMESPACE
  }

  predicate Labelled(labels: StringMap, kind: OwnerKind, name: string, namespace: string) {
    NameKey(kind) in labels && labels[NameKey(kind)] == name && Get(labels, NamespaceKey(kind)) == namespace
  }

  ghost predicate Armed(p: Payload) {
    && p.meta.Some? && p.tree.Some? && Faithful(p)
    && !Bypassed(p.meta.value.annotations) && !ReconcileDisabled(p.meta.value.annotations)
    && FluxFields(p.meta.value.managedFields).Ok?
  }

  /** Every path of `flux` that is not ignored is still Flux's, and leads to what it led
      to at the start once ignored subtrees are pruned. A path inside a list keeps the
      whole list. */
  ghost predicate Kept(start: Payload, flux: PathSet, ignored: PathSet, cur: Payload)
    requires Armed(start) && Armed(cur)
  {
    && (forall f | f in flux && !Covers(ignored, f) ::
          f in FluxFields(cur.meta.value.managedFields).value &&
          PrunedAt(start.tree.value, f, ignored) == PrunedAt(cur.tree.value, f, ignored))
    && (forall f, at | f in flux && !Covers(ignored, f) && InsideList(f, at) && LeadsToList(start.tree.value, at) ::
          Resolve(Map(cur.tree.value), at) == Resolve(Map(start.tree.value), at))
  }

  ghost predicate OwnsLabels(flux: PathSet, ignored: PathSet, kind: OwnerKind) {
    && LabelPath(NameKey(kind)) in flux && !Covers(ignored, LabelPath(NameKey(kind)))
    && LabelPath(NamespaceKey(kind)) in flux && !Covers(ignored, LabelPath(NamespaceKey(kind)))
  }

  lemma CoversMore(s: PathSet, t: PathSet, p: Path)
    requires s <= t && Covers(s, p)
    ensures Covers(t, p)
  {
  }

  lemma PrunedMore(a: Fields, b: Fields, f: Path, i: PathSet, j: PathSet)
    requires i <= j && PrunedAt(a, f, i) == PrunedAt(b, f, i)
    ensures PrunedAt(a, f, j) == PrunedAt(b, f, j)
  {
    if Resolve(Map(a), f).Some? {
      PruneMore(Resolve(Map(a), f).value, Resolve(Map(b), f).value, f, i, j);
    }
  }

  /** A label whose path keeps its pruned value reads the same. */
  lemma LabelKept(p: Payload, q: Payload, key: string, ignored: PathSet)
    requires p.meta.Some? && p.tree.Some? && Faithful(p) && q.meta.Some? && q.tree.Some? && Faithful(q)
    requires PrunedAt(p.tree.value, LabelPath(key), ignored) == PrunedAt(q.tree.value, LabelPath(key), ignored)
    ensures key in p.meta.value.labels <==> key in q.meta.value.labels
    ensures key in p.meta.value.labels ==> p.meta.value.labels[key] == q.meta.value.labels[key]
  {
  }

  lemma ReachesChecks(cfg: Config, cur: Payload, a: Attempt)
    requires InScope(cfg, a) && Armed(cur) && GetFluxManagementInfo(cur.meta.value.labels).Managed?
    requires a.req.newObject.meta.Some?
    ensures var req, obj, before := AsUpdate(cur, a), a.req.newObject.meta.value, cur.meta.value;
            && RequestOwner(req, obj, before).Managed?
            && Exemption(a.store, req, obj, before, RequestOwner(req, obj, before)).None?
            && Evaluate(cfg, a.store, req, a.waiver) ==
               EvaluateManaged(cfg, a.store, req, obj, before, RequestOwner(req, obj, before), a.waiver)
  {
  }

  /** On an object that carries owner labels, an attempt is admitted exactly when the
      ownership check, or for everybody else the field check, admits it. */
  lemma AdmittedExactly(cfg: Config, cur: Payload, a: Attempt)
    requires !cfg.auditOnly && InScope(cfg, a) && Armed(cur) && GetFluxManagementInfo(cur.meta.value.labels).Managed?
    requires a.req.newObject.meta.Some?
    ensures var req, obj, before := AsUpdate(cur, a), a.req.newObject.meta.value, cur.meta.value;
            var owning := OwningFluxReconciler(cfg, a.store, a.req.user, RequestOwner(req, obj, before));
            && (Admitted(cfg, cur, a) <==>
                if owning then IsOwningController(Update, obj.labels, before.labels)
                else UpdateDecision(req, obj, before, a.waiver).allowed)
            && (Evaluate(cfg, a.store, req, a.waiver).consulted <==> !owning && ConsultsRules(req, obj, before))
  {
    ReachesChecks(cfg, cur, a);
  }

  /** An admitted attempt that is not treated as the owner's passed the field check. */
  lemma AdmittedByFieldCheck(cfg: Config, cur: Payload, a: Attempt)
    requires !cfg.auditOnly && InScope(cfg, a) && NotAsOwner(cfg, cur, a)
    requires Armed(cur) && GetFluxManagementInfo(cur.meta.value.labels).Managed?
    requires Admitted(cfg, cur, a)
    ensures a.req.newObject.meta.Some?
    ensures UpdateDecision(AsUpdate(cur, a), a.req.newObject.meta.value, cur.meta.value, a.waiver).allowed
    ensures Evaluate(cfg, a.store, AsUpdate(cur, a), a.waiver).consulted <==>
            ConsultsRules(AsUpdate(cur, a), a.req.newObject.meta.value, cur.meta.value)
  {
    if a.req.newObject.meta.Some? {
      AdmittedExactly(cfg, cur, a);
    }
  }

  /** One attempt keeps the invariant. */
  lemma StepKeeps(
    cfg: Config, start: Payload, cur: Payload, a: Attempt, flux: PathSet, ignored: PathSet,
    kind: OwnerKind, name: string, namespace: string)
    requires !cfg.auditOnly && Armed(start) && Armed(cur)
    requires Ordinary(cfg, cur, a, ignored) && NotAsOwner(cfg, cur, a)
    requires OwnsLabels(flux, ignored, kind) && Labelled(cur.meta.value.labels, kind, name, namespace)
    requires Kept(start, flux, ignored, cur)
    ensures Armed(Next(cfg, cur, a)) && Kept(start, flux, ignored, Next(cfg, cur, a))
    ensures Labelled(Next(cfg, cur, a).meta.value.labels, kind, name, namespace)
  {
    if Admitted(cfg, cur, a) {
      AdmittedByFieldCheck(cfg, cur, a);
      FieldCheckKeeps(cfg, start, cur, a, flux, ignored, kind, name, namespace);
    }
  }

  lemma FieldCheckKeeps(
    cfg: Config, start: Payload, cur: Payload, a: Attempt, flux: PathSet, ignored: PathSet,
    kind: OwnerKind, name: string, namespace: string)
    requires Armed(start) && Armed(cur) && Ordinary(cfg, cur, a, ignored)
    requires OwnsLabels(flux, ignored, kind) && Labelled(cur.meta.value.labels, kind, name, namespace)
    requires Kept(start, flux, ignored, cur) && a.req.newObject.meta.Some?
    requires UpdateDecision(AsUpdate(cur, a), a.req.newObject.meta.value, cur.meta.value, a.waiver).allowed
    requires Evaluate(cfg, a.store, AsUpdate(cur, a), a.waiver).consulted <==>
             ConsultsRules(AsUpdate(cur, a), a.req.newObject.meta.value, cur.meta.value)
    ensures Armed(a.req.newObject) && Kept(start, flux, ignored, a.req.newObject)
    ensures Labelled(a.req.newObject.meta.value.labels, kind, name, namespace)
  {
    var req, next := AsUpdate(cur, a), a.req.newObject;
    var obj, before := next.meta.value, cur.meta.value;
    var ignore := EffectiveIgnore(req, obj, before, a.waiver);
    assert ignore <= ignored;
    UpdateAdmittedExactly(req, obj, before, a.waiver);
    assert LabelPath(NameKey(kind)) in FluxFields(before.managedFields).value;
    forall f | f in flux && !Covers(ignored, f)
      ensures f in FluxFields(obj.managedFields).value
      ensures PrunedAt(cur.tree.value, f, ignored) == PrunedAt(next.tree.value, f, ignored)
    {
      if Covers(ignore, f) {
        CoversMore(ignore, ignored, f);
      }
      AdmittedUpdateKeeps(req, obj, before, a.waiver, f);
      PrunedMore(cur.tree.value, next.tree.value, f, ignore, ignored);
    }
    forall f, at | f in flux && !Covers(ignored, f) && InsideList(f, at) && LeadsToList(start.tree.value, at)
      ensures Resolve(Map(next.tree.value), at) == Resolve(Map(start.tree.value), at)
    {
      if Covers(ignore, f) {
        CoversMore(ignore, ignored, f);
      }
      AdmittedUpdateKeepsList(req, obj, before, a.waiver, f, at);
    }
    LabelKept(cur, next, NameKey(kind), ignored);
    LabelKept(cur, next, NamespaceKey(kind), ignored);
  }

  // ---- Whole runs ----

  ghost predicate OrdinaryRun(cfg: Config, start: Payload, attempts: seq<Attempt>, ignored: PathSet) {
    forall i | 0 <= i < |attempts| :: Ordinary(cfg, Run(cfg, start, attempts[..i]), attempts[i], ignored)
  }

  lemma OrdinaryPrefix(cfg: Config, start: Payload, attempts: seq<Attempt>, ignored: PathSet)
    requires attempts != [] && OrdinaryRun(cfg, start, attempts, ignored)
    ensures OrdinaryRun(cfg, start, attempts[..|attempts| - 1], ignored)
    ensures Ordinary(cfg, Run(cfg, start, attempts[..|attempts| - 1]), attempts[|attempts| - 1], ignored)
  {
    var init := attempts[..|attempts| - 1];
    forall i | 0 <= i < |init| ensures Ordinary(cfg, Run(cfg, start, init[..i]), init[i], ignored) {
      assert init[..i] == attempts[..i];
    }
  }

  /** For either kind of owner: as long as no attempt passes as the owner's own, every
      path Flux owned at the start and no rule ignores stays Flux's and keeps its value,
      protection stays armed and the owner labels keep their values. */
  lemma {:induction false} RunKeepsFluxFields(
    cfg: Config, start: Payload, attempts: seq<Attempt>, ignored: PathSet,
    kind: OwnerKind, name: string, namespace: string)
    requires !cfg.auditOnly && Armed(start) && Labelled(start.meta.value.labels, kind, name, namespace)
    requires OwnsLabels(FluxFields(start.meta.value.managedFields).value, ignored, kind)
    requires OrdinaryRun(cfg, start, attempts, ignored)
    requires forall i | 0 <= i < |attempts| :: NotAsOwner(cfg, Run(cfg, start, attempts[..i]), attempts[i])
    ensures Armed(Run(cfg, start, attempts))
    ensures Kept(start, FluxFields(start.meta.value.managedFields).value, ignored, Run(cfg, start, attempts))
    ensures Labelled(Run(cfg, start, attempts).meta.value.labels, kind, name, namespace)
    decreases |attempts|
  {
    if attempts != [] {
      var init, last := attempts[..|attempts| - 1], attempts[|attempts| - 1];
      OrdinaryPrefix(cfg, start, attempts, ignored);
      forall i | 0 <= i < |init| ensures NotAsOwner(cfg, Run(cfg, start, init[..i]), init[i]) {
        assert init[..i] == attempts[..i];
      }
      RunKeepsFluxFields(cfg, start, init, ignored, kind, name, namespace);
      StepKeeps(cfg, start, Run(cfg, start, init), last, FluxFields(start.meta.value.managedFields).value, ignored,
                kind, name, namespace);
    }
  }

  // ---- Who passes as the owner ----

  function LabelsOf(p: Payload): StringMap {
    if p.meta.Some? then p.meta.value.labels else map[]
  }

  /** Another owner the labels can be taken to name without reading differently, since an
      absent label reads like an empty one where labels are compared and does not where
      the owner is determined. */
  function ShadowOwner(labels: StringMap): Ownership {
    match GetFluxManagementInfo(labels)
    case Managed(HelmRelease, _, _) => Managed(Kustomization, "", Get(labels, KUSTOMIZE_LABEL_NAMESPACE))
    case Managed(Kustomization, name, _) =>
      if name == "" then Managed(HelmRelease, Get(labels, HELM_LABEL_NAME), Get(labels, HELM_LABEL_NAMESPACE))
      else Unmanaged
    case Unmanaged => Unmanaged
  }

  /** The same requester, submitting `next`. */
  function Submitting(a: Attempt, next: Payload): Attempt {
    a.(req := a.req.(newObject := next))
  }

  /** `labels`, rewritten to name the shadow owner. */
  function Shadowed(labels: StringMap): StringMap {
    if KUSTOMIZE_LABEL_NAME in labels then
      (labels - {KUSTOMIZE_LABEL_NAME})[HELM_LABEL_NAME := Get(labels, HELM_LABEL_NAME)]
    else labels[KUSTOMIZE_LABEL_NAME := ""]
  }

  lemma ShadowedReadsAlike(labels: StringMap)
    requires ShadowOwner(labels).Managed?
    ensures IsOwningController(Update, Shadowed(labels), labels)
    ensures GetFluxManagementInfo(Shadowed(labels)) == ShadowOwner(labels)
  {
  }

  /** Whatever is submitted, a requester who is not the recorded owner's reconciler does
      not pass as the owner's, exactly when that requester is not the shadow owner's
      reconciler either. */
  lemma StrangersAreNotOwners(cfg: Config, cur: Payload, a: Attempt)
    requires cur.meta.Some? && GetFluxManagementInfo(LabelsOf(cur)).Managed?
    requires !OwningFluxReconciler(cfg, a.store, a.req.user, GetFluxManagementInfo(LabelsOf(cur)))
    ensures (forall next :: NotAsOwner(cfg, cur, Submitting(a, next))) <==>
            !OwningFluxReconciler(cfg, a.store, a.req.user, ShadowOwner(LabelsOf(cur)))
  {
    forall next | !NotAsOwner(cfg, cur, Submitting(a, next))
      ensures OwningFluxReconciler(cfg, a.store, a.req.user, ShadowOwner(LabelsOf(cur)))
    {
      PassingNamesShadow(cfg, cur, Submitting(a, next));
    }
    if OwningFluxReconciler(cfg, a.store, a.req.user, ShadowOwner(LabelsOf(cur))) {
      ShadowedReadsAlike(LabelsOf(cur));
      var next := Payload(Some(cur.meta.value.(labels := Shadowed(LabelsOf(cur)))), None);
      assert !NotAsOwner(cfg, cur, Submitting(a, next));
    }
  }

  lemma PassingNamesShadow(cfg: Config, cur: Payload, a: Attempt)
    requires cur.meta.Some? && GetFluxManagementInfo(LabelsOf(cur)).Managed?
    requires !OwningFluxReconciler(cfg, a.store, a.req.user, GetFluxManagementInfo(LabelsOf(cur)))
    requires !NotAsOwner(cfg, cur, a)
    ensures RequestOwner(AsUpdate(cur, a), a.req.newObject.meta.value, cur.meta.value) == ShadowOwner(LabelsOf(cur))
  {
  }

  // ---- The owner stays ----

  /** Some Flux path meets `p`, and no rule waives the meeting: only the owner can set or
      clear `p`. */
  ghost predicate KeepsOut(flux: PathSet, ignored: PathSet, p: Path) {
    exists f | f in flux :: Overlap(p, f) && !Covers(ignored, Longer(p, f))
  }

  lemma LabelInMap(p: Payload, key: string)
    requires p.meta.Some? && p.tree.Some? && Faithful(p)
    ensures key in p.meta.value.labels <==> Resolve(Map(p.tree.value), LabelPath(key)).Some?
    ensures key in p.meta.value.labels ==> LeadsToMap(Map(p.tree.value), LabelPath(key)[..2])
  {
    assert LabelPath(key) == LabelPath(key)[..2] + [Field(key)];
    ResolveConcat(Map(p.tree.value), LabelPath(key)[..2], [Field(key)]);
  }

  /** A label that Flux keeps others away from stays as it is, absent or present. */
  lemma LabelStays(cur: Payload, next: Payload, other: string, key: string, flux: PathSet, ignore: PathSet)
    requires cur.meta.Some? && cur.tree.Some? && Faithful(cur) && next.meta.Some? && next.tree.Some? && Faithful(next)
    requires other in cur.meta.value.labels && other in next.meta.value.labels
    requires Permitted(Diff(cur.tree.value, next.tree.value), flux, ignore)
    requires KeepsOut(flux, ignore, LabelPath(key))
    ensures SameLabel(cur, next, key)
  {
    var p := LabelPath(key);
    LabelInMap(cur, other);
    LabelInMap(next, other);
    LabelInMap(cur, key);
    LabelInMap(next, key);
    assert p[..2] == LabelPath(other)[..2];
    DiffPointwise(cur.tree.value, next.tree.value, p);
  }

  predicate SameLabel(p: Payload, q: Payload, key: string) {
    && (key in LabelsOf(p) <==> key in LabelsOf(q))
    && (key in LabelsOf(p) ==> LabelsOf(p)[key] == LabelsOf(q)[key])
  }

  /** What whole-run safety asks: protection is armed, Flux owns the labels that name the
      owner, every attempt is ordinary and by somebody who is not that owner's reconciler. */
  ghost predicate Guarded(
    cfg: Config, start: Payload, attempts: seq<Attempt>, ignored: PathSet, kind: OwnerKind, name: string,
    namespace: string)
  {
    && !cfg.auditOnly && Armed(start)
    && GetFluxManagementInfo(LabelsOf(start)) == Managed(kind, name, namespace)
    && OwnsLabels(FluxFields(start.meta.value.managedFields).value, ignored, kind)
    && OrdinaryRun(cfg, start, attempts, ignored)
    && forall a | a in attempts :: !OwningFluxReconciler(cfg, a.store, a.req.user, Managed(kind, name, namespace))
  }

  /** No attempt is by the reconciler of the shadow owner of that moment. */
  ghost predicate NoShadows(cfg: Config, start: Payload, attempts: seq<Attempt>) {
    forall i | 0 <= i < |attempts| ::
      !OwningFluxReconciler(cfg, attempts[i].store, attempts[i].req.user,
                            ShadowOwner(LabelsOf(Run(cfg, start, attempts[..i]))))
  }

  lemma GuardedPrefix(
    cfg: Config, start: Payload, attempts: seq<Attempt>, ignored: PathSet, kind: OwnerKind, name: string,
    namespace: string)
    requires attempts != [] && Guarded(cfg, start, attempts, ignored, kind, name, namespace)
    ensures Guarded(cfg, start, attempts[..|attempts| - 1], ignored, kind, name, namespace)
  {
    OrdinaryPrefix(cfg, start, attempts, ignored);
  }

  lemma NoShadowsPrefix(cfg: Config, start: Payload, attempts: seq<Attempt>)
    requires attempts != [] && NoShadows(cfg, start, attempts)
    ensures NoShadows(cfg, start, attempts[..|attempts| - 1])
  {
    var init := attempts[..|attempts| - 1];
    forall i | 0 <= i < |init| ensures init[..i] == attempts[..i] {
    }
  }

  /** The owner, protection, and everything Flux owned at the start and no rule ignores
      are what they were. */
  ghost predicate Protected(
    start: Payload, ignored: PathSet, kind: OwnerKind, name: string, namespace: string, cur: Payload)
    requires Armed(start)
  {
    && Armed(cur) && Kept(start, FluxFields(start.meta.value.managedFields).value, ignored, cur)
    && GetFluxManagementInfo(LabelsOf(cur)) == Managed(kind, name, namespace)
  }

  /** One attempt by a stranger keeps the owner. */
  lemma OwnerStep(
    cfg: Config, start: Payload, cur: Payload, a: Attempt, ignored: PathSet, kind: OwnerKind, name: string,
    namespace: string)
    requires !cfg.auditOnly && Armed(start) && Protected(start, ignored, kind, name, namespace, cur)
    requires Ordinary(cfg, cur, a, ignored)
    requires OwnsLabels(FluxFields(start.meta.value.managedFields).value, ignored, kind)
    requires kind.HelmRelease? ==>
               KeepsOut(FluxFields(start.meta.value.managedFields).value, ignored, LabelPath(KUSTOMIZE_LABEL_NAME))
    requires !OwningFluxReconciler(cfg, a.store, a.req.user, Managed(kind, name, namespace))
    requires !OwningFluxReconciler(cfg, a.store, a.req.user, ShadowOwner(LabelsOf(cur)))
    ensures Protected(start, ignored, kind, name, namespace, Next(cfg, cur, a))
  {
    if Admitted(cfg, cur, a) {
      var flux := FluxFields(start.meta.value.managedFields).value;
      StrangersAreNotOwners(cfg, cur, a);
      assert Submitting(a, a.req.newObject) == a;
      StepKeeps(cfg, start, cur, a, flux, ignored, kind, name, namespace);
      if kind.HelmRelease? {
        KeptOutStays(cfg, start, cur, a, flux, ignored, kind, KUSTOMIZE_LABEL_NAME);
      }
    }
  }

  /** One attempt leaves alone a label that Flux keeps strangers away from. */
  lemma KeptOutStays(
    cfg: Config, start: Payload, cur: Payload, a: Attempt, flux: PathSet, ignored: PathSet, kind: OwnerKind,
    key: string)
    requires !cfg.auditOnly && Armed(start) && Armed(cur) && Ordinary(cfg, cur, a, ignored) && NotAsOwner(cfg, cur, a)
    requires Kept(start, flux, ignored, cur) && Armed(a.req.newObject) && Admitted(cfg, cur, a)
    requires NameKey(kind) in cur.meta.value.labels && NameKey(kind) in a.req.newObject.meta.value.labels
    requires KeepsOut(flux, ignored, LabelPath(key))
    ensures SameLabel(cur, a.req.newObject, key)
  {
    var p, req := LabelPath(key), AsUpdate(cur, a);
    var obj, before := a.req.newObject.meta.value, cur.meta.value;
    AdmittedByFieldCheck(cfg, cur, a);
    UpdateAdmittedExactly(req, obj, before, a.waiver);
    var f :| f in flux && Overlap(p, f) && !Covers(ignored, Longer(p, f));
    var now, ignore := FluxFields(before.managedFields).value, EffectiveIgnore(req, obj, before, a.waiver);
    assert Covers(ignored, f) ==> Covers(ignored, Longer(p, f));
    assert f in now;
    if Covers(ignore, Longer(p, f)) {
      CoversMore(ignore, ignored, Longer(p, f));
    }
    assert KeepsOut(now, ignore, p);
    LabelStays(cur, a.req.newObject, NameKey(kind), key, now, ignore);
  }

  /** Whole-run safety, for either kind of owner: over any number of attempts by strangers
      the owner, protection, and everything Flux owns and does not ignore stay. An owner
      that could be shadowed asks that no attempt is the shadow's, and a HelmRelease that
      Flux keeps others from adding the Kustomization label that would take precedence. */
  lemma {:induction false} OwnerRunSafe(
    cfg: Config, start: Payload, attempts: seq<Attempt>, ignored: PathSet, kind: OwnerKind, name: string,
    namespace: string)
    requires Guarded(cfg, start, attempts, ignored, kind, name, namespace)
    requires kind.HelmRelease? ==>
               KeepsOut(FluxFields(start.meta.value.managedFields).value, ignored, LabelPath(KUSTOMIZE_LABEL_NAME))
    requires (kind.Kustomization? && name != "") || NoShadows(cfg, start, attempts)
    ensures Protected(start, ignored, kind, name, namespace, Run(cfg, start, attempts))
    decreases |attempts|
  {
    if attempts != [] {
      var init, last := attempts[..|attempts| - 1], attempts[|attempts| - 1];
      GuardedPrefix(cfg, start, attempts, ignored, kind, name, namespace);
      OrdinaryPrefix(cfg, start, attempts, ignored);
      if NoShadows(cfg, start, attempts) {
        NoShadowsPrefix(cfg, start, attempts);
      }
      OwnerRunSafe(cfg, start, init, ignored, kind, name, namespace);
      assert last in attempts;
      OwnerStep(cfg, start, Run(cfg, start, init), last, ignored, kind, name, namespace);
    }
  }

  /** A named Kustomization has no shadow: nobody but its own reconciler changes the owner,
      disarms protection, or changes or releases anything Flux owns and does not ignore. */
  lemma KustomizationRunSafe(
    cfg: Config, start: Payload, attempts: seq<Attempt>, ignored: PathSet, name: string, namespace: string)
    requires Guarded(cfg, start, attempts, ignored, Kustomization, name, namespace) && name != ""
    ensures Protected(start, ignored, Kustomization, name, namespace, Run(cfg, start, attempts))
  {
    OwnerRunSafe(cfg, start, attempts, ignored, Kustomization, name, namespace);
  }

  /** The labels the shadow owner is read from. */
  function ShadowKeys(kind: OwnerKind, name: string): set<string> {
    if kind.HelmRelease? then {KUSTOMIZE_LABEL_NAME, KUSTOMIZE_LABEL_NAMESPACE}
    else if name == "" then {HELM_LABEL_NAME, HELM_LABEL_NAMESPACE}
    else {}
  }

  /** Flux keeps strangers away from all of them. */
  ghost predicate ShadowPinned(flux: PathSet, ignored: PathSet, kind: OwnerKind, name: string) {
    forall key | key in ShadowKeys(kind, name) :: KeepsOut(flux, ignored, LabelPath(key))
  }

  /** An object that is protected and still has the shadow owner it had at the start. */
  ghost predicate Pinned(
    start: Payload, ignored: PathSet, kind: OwnerKind, name: string, namespace: string, cur: Payload)
    requires Armed(start)
  {
    && Protected(start, ignored, kind, name, namespace, cur)
    && ShadowOwner(LabelsOf(cur)) == ShadowOwner(LabelsOf(start))
  }

  lemma ShadowStays(p: Payload, q: Payload, kind: OwnerKind, name: string, namespace: string)
    requires GetFluxManagementInfo(LabelsOf(p)) == Managed(kind, name, namespace)
    requires GetFluxManagementInfo(LabelsOf(q)) == Managed(kind, name, namespace)
    requires forall key | key in ShadowKeys(kind, name) :: SameLabel(p, q, key)
    ensures ShadowOwner(LabelsOf(p)) == ShadowOwner(LabelsOf(q))
  {
    if kind.HelmRelease? {
      assert SameLabel(p, q, KUSTOMIZE_LABEL_NAMESPACE);
    } else if name == "" {
      assert SameLabel(p, q, HELM_LABEL_NAME) && SameLabel(p, q, HELM_LABEL_NAMESPACE);
    }
  }

  /** One attempt by somebody who is neither the owner's nor the shadow's reconciler keeps
      both. */
  lemma PinnedStep(
    cfg: Config, start: Payload, cur: Payload, a: Attempt, ignored: PathSet, kind: OwnerKind, name: string,
    namespace: string)
    requires !cfg.auditOnly && Armed(start) && Pinned(start, ignored, kind, name, namespace, cur)
    requires Ordinary(cfg, cur, a, ignored)
    requires OwnsLabels(FluxFields(start.meta.value.managedFields).value, ignored, kind)
    requires ShadowPinned(FluxFields(start.meta.value.managedFields).value, ignored, kind, name)
    requires !OwningFluxReconciler(cfg, a.store, a.req.user, Managed(kind, name, namespace))
    requires !OwningFluxReconciler(cfg, a.store, a.req.user, ShadowOwner(LabelsOf(start)))
    ensures Pinned(start, ignored, kind, name, namespace, Next(cfg, cur, a))
  {
    OwnerStep(cfg, start, cur, a, ignored, kind, name, namespace);
    if Admitted(cfg, cur, a) {
      StrangersAreNotOwners(cfg, cur, a);
      assert Submitting(a, a.req.newObject) == a;
      forall key | key in ShadowKeys(kind, name) ensures SameLabel(cur, a.req.newObject, key) {
        KeptOutStays(cfg, start, cur, a, FluxFields(start.meta.value.managedFields).value, ignored, kind, key);
      }
      ShadowStays(cur, a.req.newObject, kind, name, namespace);
    }
  }

  /** Whole-run safety from conditions on the start alone: Flux keeps strangers away from
      the labels the shadow owner is read from, and nobody who acts is the shadow owner's
      reconciler. Then the shadow stays as well. */
  lemma {:induction false} PinnedRunSafe(
    cfg: Config, start: Payload, attempts: seq<Attempt>, ignored: PathSet, kind: OwnerKind, name: string,
    namespace: string)
    requires Guarded(cfg, start, attempts, ignored, kind, name, namespace)
    requires ShadowPinned(FluxFields(start.meta.value.managedFields).value, ignored, kind, name)
    requires forall a | a in attempts :: !OwningFluxReconciler(cfg, a.store, a.req.user, ShadowOwner(LabelsOf(start)))
    ensures Pinned(start, ignored, kind, name, namespace, Run(cfg, start, attempts))
    decreases |attempts|
  {
    if attempts != [] {
      var init, last := attempts[..|attempts| - 1], attempts[|attempts| - 1];
      GuardedPrefix(cfg, start, attempts, ignored, kind, name, namespace);
      OrdinaryPrefix(cfg, start, attempts, ignored);
      PinnedRunSafe(cfg, start, init, ignored, kind, name, namespace);
      assert last in attempts;
      PinnedStep(cfg, start, Run(cfg, start, init), last, ignored, kind, name, namespace);
    }
  }

  /** A HelmRelease is as safe when Flux keeps strangers away from both Kustomization
      labels, and the fallback reconciler of the namespace the second one names does not
      act. */
  lemma HelmReleaseRunSafe(
    cfg: Config, start: Payload, attempts: seq<Attempt>, ignored: PathSet, name: string, namespace: string)
    requires Guarded(cfg, start, attempts, ignored, HelmRelease, name, namespace)
    requires KeepsOut(FluxFields(start.meta.value.managedFields).value, ignored, LabelPath(KUSTOMIZE_LABEL_NAME))
    requires KeepsOut(FluxFields(start.meta.value.managedFields).value, ignored, LabelPath(KUSTOMIZE_LABEL_NAMESPACE))
    requires forall a | a in attempts ::
               !OwningFluxReconciler(cfg, a.store, a.req.user,
                                     Managed(Kustomization, "", Get(LabelsOf(start), KUSTOMIZE_LABEL_NAMESPACE)))
    ensures Protected(start, ignored, HelmRelease, name, namespace, Run(cfg, start, attempts))
  {
    HelmShadow(start, name, namespace);
    HelmShadowPinned(FluxFields(start.meta.value.managedFields).value, ignored, name);
    PinnedRunSafe(cfg, start, attempts, ignored, HelmRelease, name, namespace);
  }

  lemma HelmShadow(p: Payload, name: string, namespace: string)
    requires GetFluxManagementInfo(LabelsOf(p)) == Managed(HelmRelease, name, namespace)
    ensures ShadowOwner(LabelsOf(p)) == Managed(Kustomization, "", Get(LabelsOf(p), KUSTOMIZE_LABEL_NAMESPACE))
  {
  }

  lemma HelmShadowPinned(flux: PathSet, ignored: PathSet, name: string)
    requires KeepsOut(flux, ignored, LabelPath(KUSTOMIZE_LABEL_NAME))
    requires KeepsOut(flux, ignored, LabelPath(KUSTOMIZE_LABEL_NAMESPACE))
    ensures ShadowPinned(flux, ignored, HelmRelease, name)
  {
  }
}
