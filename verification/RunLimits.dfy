/** Where whole-run safety stops: an empty owner name, and edits below the depth cut-off.
    HelmLimits is about HelmRelease labels, RelabelLimits about ignore rules. */
module RunLimits {
  import opened Wrappers
  import opened JsonValues
  import opened Labels
  import opened ServiceAccounts
  import opened ManagedFields
  import opened FieldDiff
  import opened DiffStructure
  import opened DiffRoundTrip
  import opened Protection
  import opened Admission
  import opened UpdateSafety
  import opened RunSafety

  // ---- An object and its updates ----

  function ServiceAccountUser(namespace: string, name: string): UserInfo {
    UserInfo(SA_PREFIX + (namespace + ":" + name), [SA_GROUP])
  }

  /** Somebody who is no service account. */
  const SOMEBODY := UserInfo("somebody", [])

  lemma SomebodyOwnsNothing()
    ensures forall info, store :: !OwningFluxReconciler(ENFORCING, store, SOMEBODY, info)
  {
    assert !(SA_PREFIX <= SOMEBODY.username) by {
      assert |SOMEBODY.username| < |SA_PREFIX|;
    }
  }

  function TreeOf(labels: StringMap): Fields {
    map["metadata" := Map(map["labels" := Map(map k | k in labels :: Str(labels[k]))])]
  }

  /** An object with these labels, both decodings of it readable, on which one of Flux's
      controllers applied these paths. */
  function Applied(labels: StringMap, manager: string, paths: PathSet): Payload {
    Payload(Some(NO_META.(labels := labels, managedFields := [Entry(manager, APPLY_OPERATION, Parsed(paths))])),
            Some(TreeOf(labels)))
  }

  /** The two labels that name a Kustomization, applied by kustomize-controller. */
  const OWNER_LABELS: PathSet := {LabelPath(KUSTOMIZE_LABEL_NAME), LabelPath(KUSTOMIZE_LABEL_NAMESPACE)}

  function Labeled(labels: StringMap): Payload {
    Applied(labels, KUSTOMIZE_MANAGER, OWNER_LABELS)
  }

  function UpdateBy(user: UserInfo, store: Store, after: Payload, waiver: PathSet): Attempt {
    Attempt(Request(Update, "", "", "v1", "ConfigMap", "", "x", "", user, after, Payload(None, None)), store, waiver)
  }

  lemma LabelsDistinct()
    ensures KUSTOMIZE_LABEL_NAME != KUSTOMIZE_LABEL_NAMESPACE && KUSTOMIZE_LABEL_NAME != HELM_LABEL_NAME
    ensures KUSTOMIZE_LABEL_NAME != HELM_LABEL_NAMESPACE && KUSTOMIZE_LABEL_NAMESPACE != HELM_LABEL_NAME
    ensures KUSTOMIZE_LABEL_NAMESPACE != HELM_LABEL_NAMESPACE && HELM_LABEL_NAME != HELM_LABEL_NAMESPACE
  {
  }

  lemma ResolveLabel(labels: StringMap, key: string)
    ensures Resolve(Map(TreeOf(labels)), LabelPath(key)) == if key in labels then Some(Str(labels[key])) else None
  {
    var p := LabelPath(key);
    var t := TreeOf(labels);
    assert p == [p[0]] + p[1..] && p[1..] == [p[1]] + p[2..] && p[2..] == [p[2]] + [];
    ResolveStep(Map(t), p[0], p[1..]);
    ResolveStep(t["metadata"], p[1], p[2..]);
    ResolveStep(t["metadata"].fields["labels"], p[2], []);
  }

  /** Such an object is armed, and Flux owns exactly these paths. */
  lemma AppliedIsArmed(labels: StringMap, manager: string, paths: PathSet)
    requires IsFluxFieldManager(manager)
    ensures Armed(Applied(labels, manager, paths))
    ensures FluxFields(Applied(labels, manager, paths).meta.value.managedFields) == Ok(paths)
  {
    var p, e := Applied(labels, manager, paths), Entry(manager, APPLY_OPERATION, Parsed(paths));
    forall key ensures var v := Resolve(Map(p.tree.value), LabelPath(key));
                       (v.Some? <==> key in labels) && (v.Some? ==> ReadsAs(v.value, labels[key]))
    {
      ResolveLabel(labels, key);
    }
    assert e in [e] && AppliedByFlux(e);
    assert FluxFields([e]).value == paths;
  }

  lemma LabeledIsArmed(labels: StringMap)
    ensures Armed(Labeled(labels)) && FluxFields(Labeled(labels).meta.value.managedFields) == Ok(OWNER_LABELS)
    ensures OwnsLabels(OWNER_LABELS, {}, Kustomization)
  {
    AppliedIsArmed(labels, KUSTOMIZE_MANAGER, OWNER_LABELS);
  }

  lemma LabeledAgree(before: StringMap, after: StringMap, n: nat)
    requires n >= 3
    ensures AgreeBelow(TreeOf(before), TreeOf(after), n)
  {
    var a, b := TreeOf(before), TreeOf(after);
    var a1, b1 := a["metadata"].fields, b["metadata"].fields;
    assert AgreeBelow(a1["labels"].fields, b1["labels"].fields, n - 2);
    assert AgreeBelow(a1, b1, n - 1);
  }

  /** Any attempt to relabel such an object is ordinary, up to the ignore set. */
  lemma RelabelIsOrdinary(
    before: StringMap, manager: string, paths: PathSet, user: UserInfo, store: Store, after: StringMap, waiver: PathSet)
    requires IsFluxFieldManager(manager)
    ensures Ordinary(ENFORCING, Applied(before, manager, paths),
                     UpdateBy(user, store, Applied(after, manager, paths), waiver), waiver)
  {
    AppliedIsArmed(after, manager, paths);
    LabeledAgree(before, after, MAX_DIFF_DEPTH);
  }

  lemma RunOfOne(cfg: Config, start: Payload, a: Attempt)
    ensures Run(cfg, start, [a]) == Next(cfg, start, a)
  {
    assert [a][..0] == [] && Run(cfg, start, []) == start;
  }

  lemma GuardedOne(start: Payload, a: Attempt, ignored: PathSet, kind: OwnerKind, name: string, namespace: string)
    requires Armed(start) && GetFluxManagementInfo(LabelsOf(start)) == Managed(kind, name, namespace)
    requires OwnsLabels(FluxFields(start.meta.value.managedFields).value, ignored, kind)
    requires Ordinary(ENFORCING, start, a, ignored)
    requires !OwningFluxReconciler(ENFORCING, a.store, a.req.user, Managed(kind, name, namespace))
    ensures Guarded(ENFORCING, start, [a], ignored, kind, name, namespace)
  {
    assert [a][..0] == [] && Run(ENFORCING, start, []) == start;
  }

  // ---- An empty owner name ----

  /** The fallback reconciler of namespace `b`. */
  const RECONCILER := ServiceAccountUser("b", "flux-reconciler")

  lemma ReconcilerOwns(kind: OwnerKind, name: string)
    ensures OwningFluxReconciler(ENFORCING, NO_STORE, RECONCILER, Managed(kind, name, "b"))
    ensures forall other | other != "b" ::
              !OwningFluxReconciler(ENFORCING, NO_STORE, RECONCILER, Managed(kind, name, other))
  {
    ParseExactly(RECONCILER, ServiceAccount("b", "flux-reconciler"));
    assert |ENFORCING.fluxNamespace| == 11;
  }

  const NAME_DROPPED: StringMap :=
    map[KUSTOMIZE_LABEL_NAMESPACE := "a", HELM_LABEL_NAME := "r", HELM_LABEL_NAMESPACE := "b"]

  const EMPTY_NAME: StringMap := NAME_DROPPED[KUSTOMIZE_LABEL_NAME := ""]

  /** Where labels are compared the two read alike; where the owner is determined they do
      not. */
  lemma NameDroppedReadsAlike()
    ensures GetFluxManagementInfo(EMPTY_NAME) == Managed(Kustomization, "", "a")
    ensures GetFluxManagementInfo(NAME_DROPPED) == Managed(HelmRelease, "r", "b")
    ensures ShadowOwner(EMPTY_NAME) == Managed(HelmRelease, "r", "b") && Shadowed(EMPTY_NAME) == NAME_DROPPED
  {
    LabelsDistinct();
    assert EMPTY_NAME - {KUSTOMIZE_LABEL_NAME} == NAME_DROPPED;
  }

  lemma DropGuarded()
    ensures var a := UpdateBy(RECONCILER, NO_STORE, Labeled(NAME_DROPPED), {});
            Guarded(ENFORCING, Labeled(EMPTY_NAME), [a], {}, Kustomization, "", "a")
  {
    NameDroppedReadsAlike();
    LabeledIsArmed(EMPTY_NAME);
    RelabelIsOrdinary(EMPTY_NAME, KUSTOMIZE_MANAGER, OWNER_LABELS, RECONCILER, NO_STORE, NAME_DROPPED, {});
    ReconcilerOwns(Kustomization, "");
    assert "a"[0] != "b"[0];
    GuardedOne(Labeled(EMPTY_NAME), UpdateBy(RECONCILER, NO_STORE, Labeled(NAME_DROPPED), {}), {},
               Kustomization, "", "a");
  }

  /** The reconciler of a shadow owner may make it the recorded one, whatever else it
      submits. */
  lemma ShadowRenames(cfg: Config, cur: Payload, a: Attempt)
    requires InScope(cfg, a) && cur.meta.Some? && ShadowOwner(LabelsOf(cur)).Managed?
    requires OwningFluxReconciler(cfg, a.store, a.req.user, ShadowOwner(LabelsOf(cur)))
    requires a.req.newObject.meta.Some? && LabelsOf(a.req.newObject) == Shadowed(LabelsOf(cur))
    ensures Admitted(cfg, cur, a)
    ensures GetFluxManagementInfo(LabelsOf(a.req.newObject)) == ShadowOwner(LabelsOf(cur))
    ensures ShadowOwner(LabelsOf(cur)) != GetFluxManagementInfo(LabelsOf(cur))
  {
    ShadowedReadsAlike(LabelsOf(cur));
  }

  lemma DropAdmitted()
    ensures Admitted(ENFORCING, Labeled(EMPTY_NAME), UpdateBy(RECONCILER, NO_STORE, Labeled(NAME_DROPPED), {}))
  {
    NameDroppedReadsAlike();
    ReconcilerOwns(HelmRelease, "r");
    ShadowRenames(ENFORCING, Labeled(EMPTY_NAME), UpdateBy(RECONCILER, NO_STORE, Labeled(NAME_DROPPED), {}));
  }

  /** With an empty name, all the other hypotheses of RunSafety.KustomizationRunSafe do not
      keep the owner. */
  lemma EmptyNameNotPinned()
    ensures exists start, a ::
              && Guarded(ENFORCING, start, [a], {}, Kustomization, "", "a")
              && GetFluxManagementInfo(LabelsOf(Run(ENFORCING, start, [a]))) == Managed(HelmRelease, "r", "b")
  {
    var start, a := Labeled(EMPTY_NAME), UpdateBy(RECONCILER, NO_STORE, Labeled(NAME_DROPPED), {});
    DropGuarded();
    DropAdmitted();
    NameDroppedReadsAlike();
    RunOfOne(ENFORCING, start, a);
  }

  // ---- Below the depth cut-off ----

  /** `t` with `x` under a chain of `n` maps in its spec. */
  function Deep(t: Fields, n: nat, x: Fields): Fields {
    t["spec" := Map(Chain(n, x))]
  }

  function ChainPath(n: nat): Path {
    if n == 0 then [] else [Field("f")] + ChainPath(n - 1)
  }

  lemma {:induction false} ChainResolves(n: nat, x: Fields, rest: Path)
    ensures Resolve(Map(Chain(n, x)), ChainPath(n) + rest) == Resolve(Map(x), rest)
  {
    if n == 0 {
      assert [] + rest == rest;
    } else {
      assert ChainPath(n) + rest == [Field("f")] + (ChainPath(n - 1) + rest);
      ResolveStep(Map(Chain(n, x)), Field("f"), ChainPath(n - 1) + rest);
      ChainResolves(n - 1, x, rest);
    }
  }

  lemma DeepDiffEmpty(t: Fields, n: nat, x: Fields, y: Fields)
    ensures DiffFields(Deep(t, n, x), Deep(t, n, y), [], n + 1) == {}
  {
    var a, b := Deep(t, n, x), Deep(t, n, y);
    ChainHides(n, x, y, [] + [Field("spec")]);
    forall k | k in a.Keys + b.Keys ensures DiffKey(a, b, k, [], n + 1) == {} {
      assert k in a && k in b && (k != "spec" ==> a[k] == b[k]);
      if a[k].Map? && b[k].Map? && k != "spec" {
        EqualHaveNoDiff(a[k].fields, [] + [Field(k)], n);
      }
    }
  }

  lemma EqualHaveNoDiff(a: Fields, prefix: Path, n: nat)
    ensures DiffFields(a, a, prefix, n) == {}
  {
    forall p ensures p !in DiffFields(a, a, prefix, n) {
      DiffFieldsPointwise(a, a, prefix, n, p);
    }
  }

  lemma {:induction false} PruneNothing(v: Value, at: Path)
    ensures Prune(v, at, {}) == v
    decreases v
  {
    if v.Map? {
      forall k | k in v.fields ensures Prune(v.fields[k], at + [Field(k)], {}) == v.fields[k] {
        PruneNothing(v.fields[k], at + [Field(k)]);
      }
    }
  }

  /** An update with an empty diff that leaves the metadata alone is admitted from anybody. */
  lemma HiddenEditAdmitted(cfg: Config, cur: Payload, a: Attempt, t: Fields)
    requires cur.meta.Some? && cur.tree.Some? && FluxFields(cur.meta.value.managedFields).Ok?
    requires a.req.newObject == cur.(tree := Some(t)) && Diff(cur.tree.value, t) == {}
    ensures Admitted(cfg, cur, a)
  {
    var req, meta := AsUpdate(cur, a), cur.meta.value;
    UpdateAdmittedExactly(req, meta, meta, a.waiver);
    assert UpdateAcceptable(req, meta, meta, a.waiver);
  }

  /** Whatever Flux owns below 50 shared maps, anybody may change: the bound on the depth
      in UpdateSafety.AdmittedUpdateKeeps is needed. */
  lemma DeepEditAdmitted(cfg: Config, cur: Payload, a: Attempt, t: Fields, x: Fields, y: Fields, k: string)
    requires cur.meta.Some? && FluxFields(cur.meta.value.managedFields).Ok?
    requires cur.tree == Some(Deep(t, MAX_DIFF_DEPTH - 1, x))
    requires a.req.newObject == cur.(tree := Some(Deep(t, MAX_DIFF_DEPTH - 1, y)))
    requires Resolve(Map(x), [Field(k)]) != Resolve(Map(y), [Field(k)])
    ensures Admitted(cfg, cur, a)
    ensures var f := [Field("spec")] + (ChainPath(MAX_DIFF_DEPTH - 1) + [Field(k)]);
            PrunedAt(cur.tree.value, f, {}) != PrunedAt(a.req.newObject.tree.value, f, {})
  {
    var n := MAX_DIFF_DEPTH - 1;
    DeepDiffEmpty(t, n, x, y);
    HiddenEditAdmitted(cfg, cur, a, Deep(t, n, y));
    DeepValueDiffers(t, n, x, y, k);
  }

  lemma DeepValueDiffers(t: Fields, n: nat, x: Fields, y: Fields, k: string)
    requires Resolve(Map(x), [Field(k)]) != Resolve(Map(y), [Field(k)])
    ensures var f := [Field("spec")] + (ChainPath(n) + [Field(k)]);
            PrunedAt(Deep(t, n, x), f, {}) != PrunedAt(Deep(t, n, y), f, {})
  {
    var f := [Field("spec")] + (ChainPath(n) + [Field(k)]);
    forall z ensures PrunedAt(Deep(t, n, z), f, {}) == Resolve(Map(z), [Field(k)]) {
      ResolveStep(Map(Deep(t, n, z)), Field("spec"), ChainPath(n) + [Field(k)]);
      ChainResolves(n, z, [Field(k)]);
      if Resolve(Map(z), [Field(k)]).Some? {
        PruneNothing(Resolve(Map(z), [Field(k)]).value, f);
      }
    }
    assert PrunedAt(Deep(t, n, x), f, {}) == Resolve(Map(x), [Field(k)]);
  }
}
