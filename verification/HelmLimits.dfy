/** Objects labelled for a HelmRelease: what keeps their recorded owner, and what does not. */
module HelmLimits {
  import opened Wrappers
  import opened JsonValues
  import opened Labels
  import opened ManagedFields
  import opened FieldDiff
  import opened DiffStructure
  import opened Conflicts
  import opened Protection
  import opened IgnoreRules
  import opened Admission
  import opened RequestFacts
  import opened UpdateSafety
  import opened RuleOrder
  import opened RunSafety
  import opened RunLimits

  // ---- Adding labels ----

  ghost predicate HasLabelsMap(t: Fields) {
    && "metadata" in t && t["metadata"].Map? && "labels" in t["metadata"].fields
    && t["metadata"].fields["labels"].Map?
  }

  function LabelsMap(t: Fields): Fields
    requires HasLabelsMap(t)
  {
    t["metadata"].fields["labels"].fields
  }

  function WithLabels(t: Fields, extra: StringMap): Fields
    requires HasLabelsMap(t)
  {
    t["metadata" := Map(t["metadata"].fields["labels" := Map(LabelsMap(t) + map k | k in extra :: Str(extra[k]))])]
  }

  /** Adding absent labels changes the tree at those labels and nowhere else. */
  lemma WithLabelsParts(t: Fields, extra: StringMap, p: Path)
    requires HasLabelsMap(t) && LabelsMap(t).Keys !! extra.Keys
    ensures PartAt(Map(t), Map(WithLabels(t, extra)), p) <==> exists k | k in extra :: p == LabelPath(k)
  {
    var u := WithLabels(t, extra);
    var t1, u1 := t["metadata"].fields, u["metadata"].fields;
    var t2, u2 := LabelsMap(t), LabelsMap(u);
    if PartAt(Map(t), Map(u), p) {
      OneFieldPart(t, u, "metadata", p);
      OneFieldPart(t1, u1, "labels", p[1..]);
      AddedPart(t2, u2, p[2..]);
      assert p[1..][1..] == p[2..];
      assert p == [p[0], p[1], p[2]];
    }
    if k :| k in extra && p == LabelPath(k) {
      var q := [Field("labels"), Field(k)];
      AddedPart(t2, u2, [Field(k)]);
      assert q == [Field("labels")] + [Field(k)] && p == [Field("metadata")] + q;
      PartAtDeep(Map(t1), Map(u1), Field("labels"), [Field(k)]);
      PartAtDeep(Map(t), Map(u), Field("metadata"), q);
    }
  }

  /** Maps that are equal but for one map they share part below it. */
  lemma OneFieldPart(a: Fields, b: Fields, k: string, p: Path)
    requires PartAt(Map(a), Map(b), p)
    requires forall j | j != k :: (j in a <==> j in b) && (j in a ==> a[j] == b[j])
    requires k in a && k in b && a[k].Map? && b[k].Map?
    ensures p != [] && p[0] == Field(k) && PartAt(a[k], b[k], p[1..])
  {
    PartAtMaps(Map(a), Map(b), p);
    assert p == [p[0]] + p[1..];
    if p[1..] == [] {
      assert p == [p[0]];
      PartAtLeaf(Map(a), Map(b), p[0]);
    } else {
      PartAtDeep(Map(a), Map(b), p[0], p[1..]);
    }
  }

  /** A map and its extension part exactly at the added keys. */
  lemma AddedPart(a: Fields, b: Fields, p: Path)
    requires a.Keys <= b.Keys && forall j | j in a :: a[j] == b[j]
    ensures PartAt(Map(a), Map(b), p) <==> exists k | k in b && k !in a :: p == [Field(k)]
  {
    if p != [] {
      assert p == [p[0]] + p[1..];
      if p[1..] == [] {
        assert p == [p[0]];
        PartAtLeaf(Map(a), Map(b), p[0]);
      } else {
        PartAtDeep(Map(a), Map(b), p[0], p[1..]);
        if p[0].Field? && p[0].name in a && PartAt(a[p[0].name], b[p[0].name], p[1..]) {
          assert false;
        }
      }
    }
  }

  /** `cur` with more labels, everything else as it was. */
  ghost predicate AddsLabels(cur: Payload, next: Payload, extra: StringMap) {
    && cur.meta.Some? && cur.tree.Some? && HasLabelsMap(cur.tree.value)
    && LabelsMap(cur.tree.value).Keys !! extra.Keys && cur.meta.value.labels.Keys !! extra.Keys
    && next == Payload(Some(cur.meta.value.(labels := cur.meta.value.labels + extra)),
                       Some(WithLabels(cur.tree.value, extra)))
  }

  /** Somebody the handler does not take for the owner that the new labels name. */
  ghost predicate StrangerTo(cfg: Config, a: Attempt) {
    !OwningFluxReconciler(cfg, a.store, a.req.user, GetFluxManagementInfo(LabelsOf(a.req.newObject)))
  }

  /** Adding labels is admitted from a stranger exactly when Flux keeps none of them out. */
  lemma AddedLabelsAdmittedExactly(cfg: Config, cur: Payload, a: Attempt, extra: StringMap)
    requires !cfg.auditOnly && InScope(cfg, a) && Armed(cur) && GetFluxManagementInfo(LabelsOf(cur)).Managed?
    requires AddsLabels(cur, a.req.newObject, extra) && StrangerTo(cfg, a)
    ensures Admitted(cfg, cur, a) <==>
            forall k | k in extra :: !KeepsOut(FluxFields(cur.meta.value.managedFields).value, a.waiver, LabelPath(k))
  {
    var req, obj, before := AsUpdate(cur, a), a.req.newObject.meta.value, cur.meta.value;
    var modified, flux := Diff(cur.tree.value, a.req.newObject.tree.value), FluxFields(before.managedFields).value;
    AdmittedExactly(cfg, cur, a);
    UpdateAdmittedExactly(req, obj, before, a.waiver);
    NoConflictNoOverlap(modified, flux);
    assert UpdateAcceptable(req, obj, before, a.waiver) <==> Permitted(modified, flux, a.waiver);
    AddedLabelsPermitted(cur.tree.value, extra, flux, a.waiver);
  }

  lemma AddedLabelsPermitted(t: Fields, extra: StringMap, flux: PathSet, ignore: PathSet)
    requires HasLabelsMap(t) && LabelsMap(t).Keys !! extra.Keys
    ensures Permitted(Diff(t, WithLabels(t, extra)), flux, ignore) <==>
            forall k | k in extra :: !KeepsOut(flux, ignore, LabelPath(k))
  {
    var modified := Diff(t, WithLabels(t, extra));
    forall m ensures m in modified <==> exists k | k in extra :: m == LabelPath(k) {
      DiffPointwise(t, WithLabels(t, extra), m);
      WithLabelsParts(t, extra, m);
    }
    forall k | k in extra && KeepsOut(flux, ignore, LabelPath(k)) ensures !Permitted(modified, flux, ignore) {
      assert LabelPath(k) in modified;
    }
  }

  lemma KeptOutByLess(flux: PathSet, ignored: PathSet, w: PathSet, p: Path)
    requires w <= ignored && KeepsOut(flux, ignored, p)
    ensures KeepsOut(flux, w, p)
  {
    var f :| f in flux && Overlap(p, f) && !Covers(ignored, Longer(p, f));
    if Covers(w, Longer(p, f)) {
      CoversMore(w, ignored, Longer(p, f));
    }
  }

  /** Within a bound on ignore sets, adding labels is admitted under some of them exactly
      when Flux keeps none of the labels out under the bound. */
  lemma AddedLabelsAdmittedWithin(cfg: Config, cur: Payload, a: Attempt, extra: StringMap, ignored: PathSet)
    requires !cfg.auditOnly && InScope(cfg, a) && Armed(cur) && GetFluxManagementInfo(LabelsOf(cur)).Managed?
    requires AddsLabels(cur, a.req.newObject, extra) && StrangerTo(cfg, a)
    ensures (exists w | w <= ignored :: Admitted(cfg, cur, a.(waiver := w))) <==>
            forall k | k in extra :: !KeepsOut(FluxFields(cur.meta.value.managedFields).value, ignored, LabelPath(k))
  {
    var flux := FluxFields(cur.meta.value.managedFields).value;
    forall w | w <= ignored
      ensures Admitted(cfg, cur, a.(waiver := w)) ==> forall k | k in extra :: !KeepsOut(flux, ignored, LabelPath(k))
    {
      AddedLabelsAdmittedExactly(cfg, cur, a.(waiver := w), extra);
      forall k | k in extra && KeepsOut(flux, ignored, LabelPath(k)) ensures KeepsOut(flux, w, LabelPath(k)) {
        KeptOutByLess(flux, ignored, w, LabelPath(k));
      }
    }
    AddedLabelsAdmittedExactly(cfg, cur, a.(waiver := ignored), extra);
  }

  // ---- The Kustomization name label ----

  predicate RecordsHelmRelease(p: Payload) {
    var info := GetFluxManagementInfo(LabelsOf(p));
    info.Managed? && info.kind == HelmRelease
  }

  /** The Kustomization label comes first when the owner is determined, and Flux's Helm
      controller does not set it. Adding it, which changes the recorded owner of a
      HelmRelease-labelled object, can be admitted from a stranger exactly when Flux keeps
      none of the added labels out, given the most that the rules of the owner the new
      labels name can ignore. */
  lemma HelmOwnerPinnedExactly(m: Matchers, cfg: Config, cur: Payload, a: Attempt, extra: StringMap)
    requires !cfg.auditOnly && InScope(cfg, a) && Armed(cur) && RecordsHelmRelease(cur)
    requires AddsLabels(cur, a.req.newObject, extra) && KUSTOMIZE_LABEL_NAME in extra && StrangerTo(cfg, a)
    ensures var req, before, info := AsUpdate(cur, a), cur.meta.value, GetFluxManagementInfo(LabelsOf(a.req.newObject));
            && info == Managed(Kustomization, extra[KUSTOMIZE_LABEL_NAME],
                               Get(LabelsOf(a.req.newObject), KUSTOMIZE_LABEL_NAMESPACE))
            && ((exists w | WaiverFor(m, cfg, a.store, req, w) :: Admitted(cfg, cur, a.(waiver := w))) <==>
                forall k | k in extra ::
                  !KeepsOut(FluxFields(before.managedFields).value, Largest(m, a.store, req, before, info),
                            LabelPath(k)))
  {
    var req, obj, before := AsUpdate(cur, a), a.req.newObject.meta.value, cur.meta.value;
    var largest := Largest(m, a.store, req, before, RequestOwner(req, obj, before));
    AdmissibleExactly(m, cfg, a.store, req, obj, before);
    LargestDrawn(m, cfg, a.store, req, obj, before);
    AddedLabelsAdmittedExactly(cfg, cur, a.(waiver := largest), extra);
    forall w ensures Admitted(cfg, cur, a.(waiver := w)) <==> Evaluate(cfg, a.store, req, w).decision.allowed {
      assert AsUpdate(cur, a.(waiver := w)) == req;
    }
  }

  /** Why RunSafety.RunKeepsFluxFields asks that no attempt passes as the owner's: once
      labels that Flux does not keep out name another owner, that owner's reconciler may
      submit any object with those labels, Flux's fields included. */
  lemma NewOwnerMayRewrite(cfg: Config, start: Payload, first: Attempt, second: Attempt, extra: StringMap)
    requires !cfg.auditOnly && Armed(start) && GetFluxManagementInfo(LabelsOf(start)).Managed?
    requires AddsLabels(start, first.req.newObject, extra) && Faithful(first.req.newObject)
    requires InScope(cfg, first) && StrangerTo(cfg, first)
    requires forall k | k in extra ::
               !KeepsOut(FluxFields(start.meta.value.managedFields).value, first.waiver, LabelPath(k))
    requires InScope(cfg, second) && second.req.newObject.meta.Some?
    requires LabelsOf(second.req.newObject) == LabelsOf(first.req.newObject)
    requires OwningFluxReconciler(cfg, second.store, second.req.user,
                                  GetFluxManagementInfo(LabelsOf(first.req.newObject)))
    ensures Run(cfg, start, [first, second]) == second.req.newObject
  {
    AddedLabelsAdmittedExactly(cfg, start, first, extra);
    RunOfOne(cfg, start, first);
    assert [first, second][..1] == [first];
    AdmittedExactly(cfg, first.req.newObject, second);
  }

  lemma RunOfTwo(cfg: Config, start: Payload, first: Attempt, second: Attempt)
    ensures Run(cfg, start, [first, second]) == Next(cfg, Next(cfg, start, first), second)
  {
    RunOfOne(cfg, start, first);
    assert [first, second][..1] == [first];
  }

  // ---- The Kustomization namespace label ----

  /** Keeping the name label out is not enough. A stranger who may add the namespace label
      chooses the shadow owner, and its reconciler then submits an empty name label along
      with anything at all. */
  lemma ShadowChosen(cfg: Config, start: Payload, first: Attempt, second: Attempt, namespace: string)
    requires !cfg.auditOnly && Armed(start) && RecordsHelmRelease(start)
    requires AddsLabels(start, first.req.newObject, map[KUSTOMIZE_LABEL_NAMESPACE := namespace])
    requires InScope(cfg, first) && StrangerTo(cfg, first)
    requires !KeepsOut(FluxFields(start.meta.value.managedFields).value, first.waiver,
                       LabelPath(KUSTOMIZE_LABEL_NAMESPACE))
    requires InScope(cfg, second) && second.req.newObject.meta.Some?
    requires LabelsOf(second.req.newObject) == Shadowed(LabelsOf(first.req.newObject))
    requires OwningFluxReconciler(cfg, second.store, second.req.user, Managed(Kustomization, "", namespace))
    ensures Run(cfg, start, [first, second]) == second.req.newObject
    ensures GetFluxManagementInfo(LabelsOf(second.req.newObject)) == Managed(Kustomization, "", namespace)
  {
    var next := first.req.newObject;
    AddedLabelsAdmittedExactly(cfg, start, first, map[KUSTOMIZE_LABEL_NAMESPACE := namespace]);
    ShadowNamed(start, next, namespace);
    ShadowRenames(cfg, next, second);
    RunOfTwo(cfg, start, first, second);
  }

  lemma ShadowNamed(start: Payload, next: Payload, namespace: string)
    requires RecordsHelmRelease(start) && AddsLabels(start, next, map[KUSTOMIZE_LABEL_NAMESPACE := namespace])
    ensures ShadowOwner(LabelsOf(next)) == Managed(Kustomization, "", namespace)
  {
    LabelsDistinct();
  }

  // ---- Inputs ----

  const HELM_LABELS: PathSet := {LabelPath(HELM_LABEL_NAME), LabelPath(HELM_LABEL_NAMESPACE)}

  /** An object on which helm-controller applied the labels that name a HelmRelease and
      another label path. */
  function Released(labels: StringMap, other: string): Payload {
    Applied(labels, HELM_MANAGER, HELM_LABELS + {LabelPath(other)})
  }

  lemma TreeWithLabels(labels: StringMap, extra: StringMap)
    requires labels.Keys !! extra.Keys
    ensures HasLabelsMap(TreeOf(labels)) && LabelsMap(TreeOf(labels)).Keys == labels.Keys
    ensures WithLabels(TreeOf(labels), extra) == TreeOf(labels + extra)
  {
    var t, u := TreeOf(labels), TreeOf(labels + extra);
    assert LabelsMap(t) + (map k | k in extra :: Str(extra[k])) == LabelsMap(u);
    assert t["metadata"].fields["labels" := Map(LabelsMap(u))] == u["metadata"].fields;
    assert t["metadata" := u["metadata"]] == u;
  }

  lemma ReleasedIsArmed(labels: StringMap, other: string)
    ensures Armed(Released(labels, other)) && OwnsLabels(HELM_LABELS + {LabelPath(other)}, {}, HelmRelease)
    ensures FluxFields(Released(labels, other).meta.value.managedFields) == Ok(HELM_LABELS + {LabelPath(other)})
    ensures KeepsOut(HELM_LABELS + {LabelPath(other)}, {}, LabelPath(other))
  {
    AppliedIsArmed(labels, HELM_MANAGER, HELM_LABELS + {LabelPath(other)});
    assert LabelPath(other) in HELM_LABELS + {LabelPath(other)} && Overlap(LabelPath(other), LabelPath(other));
  }

  /** The paths of two labels do not meet. */
  lemma NotKeptOut(key: string, other: string)
    requires key !in {HELM_LABEL_NAME, HELM_LABEL_NAMESPACE, other}
    ensures !KeepsOut(HELM_LABELS + {LabelPath(other)}, {}, LabelPath(key))
  {
    forall f | f in HELM_LABELS + {LabelPath(other)} ensures !Overlap(LabelPath(key), f) {
      assert |f| == 3 && f[2] != Field(key);
    }
  }

  /** Labels that name a HelmRelease outside of namespace `b`, and no Kustomization. */
  predicate NamesRelease(labels: StringMap) {
    var info := GetFluxManagementInfo(labels);
    && info.Managed? && info.kind == HelmRelease && info.namespace != "b"
    && KUSTOMIZE_LABEL_NAMESPACE !in labels
  }

  lemma SampleRelease() returns (labels: StringMap)
    ensures NamesRelease(labels) && HELM_LABEL_NAME in labels
  {
    labels := map[HELM_LABEL_NAME := "r", HELM_LABEL_NAMESPACE := "a"];
    LabelsDistinct();
    assert "a"[0] != "b"[0];
  }

  /** Somebody adds labels to such an object. */
  function Addition(labels: StringMap, other: string, extra: StringMap): Attempt {
    UpdateBy(SOMEBODY, NO_STORE, Released(labels + extra, other), {})
  }

  lemma AdditionAdds(labels: StringMap, other: string, extra: StringMap)
    requires labels.Keys !! extra.Keys
    ensures AddsLabels(Released(labels, other), Addition(labels, other, extra).req.newObject, extra)
  {
    TreeWithLabels(labels, extra);
  }

  lemma AdditionAdmitted(labels: StringMap, other: string, extra: StringMap)
    requires labels.Keys !! extra.Keys && NamesRelease(labels)
    requires forall k | k in extra :: k !in {HELM_LABEL_NAME, HELM_LABEL_NAMESPACE, other}
    ensures Admitted(ENFORCING, Released(labels, other), Addition(labels, other, extra))
  {
    ReleasedIsArmed(labels, other);
    AdditionAdds(labels, other, extra);
    SomebodyOwnsNothing();
    forall k | k in extra ensures !KeepsOut(HELM_LABELS + {LabelPath(other)}, {}, LabelPath(k)) {
      NotKeptOut(k, other);
    }
    AddedLabelsAdmittedExactly(ENFORCING, Released(labels, other), Addition(labels, other, extra), extra);
  }

  /** The hypotheses of RunSafety.HelmReleaseRunSafe, but those that Flux keeps strangers
      away from the two Kustomization labels. */
  ghost predicate HelmGuarded(start: Payload, attempts: seq<Attempt>) {
    var owner := GetFluxManagementInfo(LabelsOf(start));
    && RecordsHelmRelease(start)
    && Guarded(ENFORCING, start, attempts, {}, HelmRelease, owner.name, owner.namespace)
    && forall a | a in attempts :: !OwningFluxReconciler(ENFORCING, a.store, a.req.user, ShadowOwner(LabelsOf(start)))
  }

  ghost predicate FluxKeepsOut(p: Payload, key: string) {
    p.meta.Some? && FluxFields(p.meta.value.managedFields).Ok? &&
    KeepsOut(FluxFields(p.meta.value.managedFields).value, {}, LabelPath(key))
  }

  ghost predicate OwnerLost(start: Payload, attempts: seq<Attempt>) {
    GetFluxManagementInfo(LabelsOf(Run(ENFORCING, start, attempts))) != GetFluxManagementInfo(LabelsOf(start))
  }

  lemma ReleasedKeepsOut(labels: StringMap, other: string)
    ensures FluxKeepsOut(Released(labels, other), other)
  {
    ReleasedIsArmed(labels, other);
  }

  lemma AdditionGuardedRun(labels: StringMap, other: string, extra: StringMap, name: string, namespace: string)
    requires GetFluxManagementInfo(labels) == Managed(HelmRelease, name, namespace)
    ensures Guarded(ENFORCING, Released(labels, other), [Addition(labels, other, extra)], {}, HelmRelease, name,
                    namespace)
  {
    ReleasedIsArmed(labels, other);
    RelabelIsOrdinary(labels, HELM_MANAGER, HELM_LABELS + {LabelPath(other)}, SOMEBODY, NO_STORE, labels + extra, {});
    SomebodyOwnsNothing();
    GuardedOne(Released(labels, other), Addition(labels, other, extra), {}, HelmRelease, name, namespace);
  }

  lemma AdditionGuarded(labels: StringMap, other: string, extra: StringMap)
    requires NamesRelease(labels)
    ensures HelmGuarded(Released(labels, other), [Addition(labels, other, extra)])
  {
    var info := GetFluxManagementInfo(labels);
    AdditionGuardedRun(labels, other, extra, info.name, info.namespace);
    SomebodyOwnsNothing();
  }

  lemma AdditionRun(labels: StringMap, other: string, extra: StringMap)
    requires labels.Keys !! extra.Keys && NamesRelease(labels)
    requires forall k | k in extra :: k !in {HELM_LABEL_NAME, HELM_LABEL_NAMESPACE, other}
    ensures Run(ENFORCING, Released(labels, other), [Addition(labels, other, extra)]) == Released(labels + extra, other)
  {
    AdditionAdmitted(labels, other, extra);
    RunOfOne(ENFORCING, Released(labels, other), Addition(labels, other, extra));
  }

  /** With only the namespace label kept out, somebody adds the name label and the owner is
      lost. */
  lemma NameLabelNeeded()
    ensures exists start, a ::
              HelmGuarded(start, [a]) && FluxKeepsOut(start, KUSTOMIZE_LABEL_NAMESPACE) && OwnerLost(start, [a])
  {
    var labels := SampleRelease();
    var extra := SampleName();
    LabelsApart();
    ReleasedKeepsOut(labels, KUSTOMIZE_LABEL_NAMESPACE);
    AdditionGuarded(labels, KUSTOMIZE_LABEL_NAMESPACE, extra);
    NameTakesOver(labels, KUSTOMIZE_LABEL_NAMESPACE, extra);
  }

  lemma SampleName() returns (extra: StringMap)
    ensures extra.Keys == {KUSTOMIZE_LABEL_NAME}
  {
    extra := map[KUSTOMIZE_LABEL_NAME := "k"];
  }

  lemma LabelsApart()
    ensures KUSTOMIZE_LABEL_NAME !in {HELM_LABEL_NAME, HELM_LABEL_NAMESPACE, KUSTOMIZE_LABEL_NAMESPACE}
    ensures KUSTOMIZE_LABEL_NAMESPACE !in {HELM_LABEL_NAME, HELM_LABEL_NAMESPACE, KUSTOMIZE_LABEL_NAME}
  {
    LabelsDistinct();
  }

  lemma NameTakesOver(labels: StringMap, other: string, extra: StringMap)
    requires NamesRelease(labels) && extra.Keys == {KUSTOMIZE_LABEL_NAME}
    requires KUSTOMIZE_LABEL_NAME !in {HELM_LABEL_NAME, HELM_LABEL_NAMESPACE, other}
    ensures OwnerLost(Released(labels, other), [Addition(labels, other, extra)])
  {
    AdditionRun(labels, other, extra);
  }

  /** The fallback reconciler of the namespace `b` submits an empty name label. */
  function EmptyNaming(labels: StringMap, other: string): Attempt {
    UpdateBy(RECONCILER, NO_STORE, Released(Shadowed(labels), other), {})
  }

  /** What RunLimits asks of somebody who adds the namespace label. */
  lemma AdditionOpen(labels: StringMap, other: string, extra: StringMap)
    requires NamesRelease(labels) && KUSTOMIZE_LABEL_NAMESPACE !in {HELM_LABEL_NAME, HELM_LABEL_NAMESPACE, other}
    ensures var start := Released(labels, other);
            && Armed(start) && RecordsHelmRelease(start) && StrangerTo(ENFORCING, Addition(labels, other, extra))
            && !KeepsOut(FluxFields(start.meta.value.managedFields).value, {}, LabelPath(KUSTOMIZE_LABEL_NAMESPACE))
  {
    ReleasedIsArmed(labels, other);
    SomebodyOwnsNothing();
    NotKeptOut(KUSTOMIZE_LABEL_NAMESPACE, other);
  }

  lemma ChoiceRun(labels: StringMap, other: string, extra: StringMap, namespace: string)
    requires NamesRelease(labels) && extra == map[KUSTOMIZE_LABEL_NAMESPACE := namespace]
    requires KUSTOMIZE_LABEL_NAMESPACE !in {HELM_LABEL_NAME, HELM_LABEL_NAMESPACE, other}
    requires OwningFluxReconciler(ENFORCING, NO_STORE, RECONCILER, Managed(Kustomization, "", namespace))
    ensures Run(ENFORCING, Released(labels, other),
                [Addition(labels, other, extra), EmptyNaming(labels + extra, other)]) ==
            Released(Shadowed(labels + extra), other)
  {
    AdditionOpen(labels, other, extra);
    AdditionAdds(labels, other, extra);
    ShadowChosen(ENFORCING, Released(labels, other), Addition(labels, other, extra),
                 EmptyNaming(labels + extra, other), namespace);
  }

  lemma ChoiceAdmitted(labels: StringMap, other: string, extra: StringMap, namespace: string)
    requires NamesRelease(labels) && extra == map[KUSTOMIZE_LABEL_NAMESPACE := namespace]
    requires KUSTOMIZE_LABEL_NAMESPACE !in {HELM_LABEL_NAME, HELM_LABEL_NAMESPACE, other}
    requires OwningFluxReconciler(ENFORCING, NO_STORE, RECONCILER, Managed(Kustomization, "", namespace))
    ensures OwnerLost(Released(labels, other), [Addition(labels, other, extra), EmptyNaming(labels + extra, other)])
  {
    ChoiceRun(labels, other, extra, namespace);
    ShadowedNamesKustomization(labels, extra);
  }

  lemma ShadowedNamesKustomization(labels: StringMap, extra: StringMap)
    requires NamesRelease(labels) && extra.Keys == {KUSTOMIZE_LABEL_NAMESPACE}
    requires KUSTOMIZE_LABEL_NAMESPACE !in {HELM_LABEL_NAME, HELM_LABEL_NAMESPACE}
    ensures GetFluxManagementInfo(Shadowed(labels + extra)) != GetFluxManagementInfo(labels)
  {
    LabelsDistinct();
  }

  lemma GuardedTwo(
    start: Payload, first: Attempt, second: Attempt, ignored: PathSet, kind: OwnerKind, name: string, namespace: string)
    requires Guarded(ENFORCING, start, [first], ignored, kind, name, namespace)
    requires Ordinary(ENFORCING, Run(ENFORCING, start, [first]), second, ignored)
    requires !OwningFluxReconciler(ENFORCING, second.store, second.req.user, Managed(kind, name, namespace))
    ensures Guarded(ENFORCING, start, [first, second], ignored, kind, name, namespace)
  {
    assert [first, second][..1] == [first] && [first, second][..0] == [] && [first][..0] == [];
    assert Ordinary(ENFORCING, Run(ENFORCING, start, [first][..0]), [first][0], ignored);
  }

  lemma ChoiceOrdinary(labels: StringMap, other: string, extra: StringMap)
    requires NamesRelease(labels) && extra.Keys == {KUSTOMIZE_LABEL_NAMESPACE}
    requires KUSTOMIZE_LABEL_NAMESPACE !in {HELM_LABEL_NAME, HELM_LABEL_NAMESPACE, other}
    ensures Ordinary(ENFORCING, Run(ENFORCING, Released(labels, other), [Addition(labels, other, extra)]),
                     EmptyNaming(labels + extra, other), {})
  {
    AdditionRun(labels, other, extra);
    RelabelIsOrdinary(labels + extra, HELM_MANAGER, HELM_LABELS + {LabelPath(other)}, RECONCILER, NO_STORE,
                      Shadowed(labels + extra), {});
  }

  lemma ChoiceGuarded(labels: StringMap, other: string, extra: StringMap)
    requires NamesRelease(labels) && extra.Keys == {KUSTOMIZE_LABEL_NAMESPACE}
    requires KUSTOMIZE_LABEL_NAMESPACE !in {HELM_LABEL_NAME, HELM_LABEL_NAMESPACE, other}
    ensures HelmGuarded(Released(labels, other), [Addition(labels, other, extra), EmptyNaming(labels + extra, other)])
  {
    var info := GetFluxManagementInfo(labels);
    AdditionGuardedRun(labels, other, extra, info.name, info.namespace);
    ChoiceOrdinary(labels, other, extra);
    ReconcilerIsNobody(labels);
    SomebodyOwnsNothing();
    GuardedTwo(Released(labels, other), Addition(labels, other, extra), EmptyNaming(labels + extra, other), {},
               HelmRelease, info.name, info.namespace);
  }

  lemma ReconcilerIsNobody(labels: StringMap)
    requires NamesRelease(labels)
    ensures !OwningFluxReconciler(ENFORCING, NO_STORE, RECONCILER, GetFluxManagementInfo(labels))
    ensures !OwningFluxReconciler(ENFORCING, NO_STORE, RECONCILER, ShadowOwner(labels))
  {
    ReconcilerOwns(HelmRelease, GetFluxManagementInfo(labels).name);
    ReconcilerOwns(Kustomization, "");
    assert ShadowOwner(labels) == Managed(Kustomization, "", "") && "" != "b";
  }

  /** With only the name label kept out, a stranger chooses the shadow, and the shadow's
      reconciler makes it the recorded owner. */
  lemma NamespaceLabelNeeded()
    ensures exists start, first, second ::
              && HelmGuarded(start, [first, second]) && FluxKeepsOut(start, KUSTOMIZE_LABEL_NAME)
              && OwnerLost(start, [first, second])
  {
    var labels := SampleRelease();
    var extra := map[KUSTOMIZE_LABEL_NAMESPACE := "b"];
    LabelsApart();
    ReconcilerOwns(Kustomization, "");
    ReleasedKeepsOut(labels, KUSTOMIZE_LABEL_NAME);
    ChoiceAdmitted(labels, KUSTOMIZE_LABEL_NAME, extra, "b");
    ChoiceGuarded(labels, KUSTOMIZE_LABEL_NAME, extra);
  }

  // ---- Reconciliation switched off ----

  /** The documentation leaves HelmRelease objects out of `reconcile: disabled`. But the
      annotation is taken from the object before the update and the kind of owner from the
      labels after it. So on an object that carries it, what a stranger's update must pass
      is the field check, unless it names a Kustomization: then it must pass nothing. */
  lemma ReconcileDisabledExactly(cfg: Config, cur: Payload, a: Attempt, obj: ObjectMeta)
    requires !cfg.auditOnly && InScope(cfg, a) && cur.meta.Some? && RecordsHelmRelease(cur)
    requires ReconcileDisabled(cur.meta.value.annotations) && !Bypassed(cur.meta.value.annotations)
    requires a.req.newObject.meta == Some(obj)
    requires !OwningFluxReconciler(cfg, a.store, a.req.user, RequestOwner(AsUpdate(cur, a), obj, cur.meta.value))
    ensures Admitted(cfg, cur, a) <==>
            KUSTOMIZE_LABEL_NAME in obj.labels || UpdateAcceptable(AsUpdate(cur, a), obj, cur.meta.value, a.waiver)
  {
    UpdateAdmittedExactly(AsUpdate(cur, a), obj, cur.meta.value, a.waiver);
  }

  /** `p` with reconciliation switched off. */
  function Suspended(p: Payload): Payload
    requires p.meta.Some?
  {
    p.(meta := Some(p.meta.value.(annotations := map[KUSTOMIZE_RECONCILE_ANNOTATION := DISABLED])))
  }

  /** An object of a HelmRelease with reconciliation switched off, on which Flux owns `f`. */
  ghost predicate SuspendedRelease(cur: Payload, f: Path) {
    && RecordsHelmRelease(cur) && cur.meta.Some? && cur.tree.Some? && Faithful(cur)
    && ReconcileDisabled(cur.meta.value.annotations) && !Bypassed(cur.meta.value.annotations)
    && FluxFields(cur.meta.value.managedFields).Ok? && f in FluxFields(cur.meta.value.managedFields).value
  }

  /** The requester reconciles no owner, and no owner's rules can be read. */
  ghost predicate ByNobody(a: Attempt) {
    forall info :: !OwningFluxReconciler(ENFORCING, a.store, a.req.user, info) && RulesFor(a.store, info) == []
  }

  ghost predicate ValueRewritten(cur: Payload, a: Attempt, f: Path) {
    && Faithful(a.req.newObject) && cur.tree.Some? && a.req.newObject.tree.Some?
    && PrunedAt(cur.tree.value, f, {}) != PrunedAt(a.req.newObject.tree.value, f, {})
  }

  lemma LabelRewritten(labels: StringMap, after: StringMap, key: string)
    requires key in labels && key in after && labels[key] != after[key]
    ensures PrunedAt(TreeOf(labels), LabelPath(key), {}) != PrunedAt(TreeOf(after), LabelPath(key), {})
  {
    ResolveLabel(labels, key);
    ResolveLabel(after, key);
  }

  lemma RewriteAdmitted(labels: StringMap, after: StringMap, other: string)
    requires NamesRelease(labels) && KUSTOMIZE_LABEL_NAME in after
    ensures Admitted(ENFORCING, Suspended(Released(labels, other)),
                     UpdateBy(SOMEBODY, NO_STORE, Released(after, other), {}))
  {
    var cur, a := Suspended(Released(labels, other)), UpdateBy(SOMEBODY, NO_STORE, Released(after, other), {});
    SomebodyOwnsNothing();
    SuspendedReads(Released(labels, other));
    ReconcileDisabledExactly(ENFORCING, cur, a, a.req.newObject.meta.value);
  }

  lemma SuspendedReads(p: Payload)
    requires p.meta.Some? && p.meta.value.annotations == map[]
    ensures ReconcileDisabled(Suspended(p).meta.value.annotations)
    ensures !Bypassed(Suspended(p).meta.value.annotations)
  {
    assert |BYPASS_ANNOTATION| != |KUSTOMIZE_RECONCILE_ANNOTATION|;
  }

  lemma ReleaseSuspended(labels: StringMap, other: string)
    requires NamesRelease(labels)
    ensures SuspendedRelease(Suspended(Released(labels, other)), LabelPath(HELM_LABEL_NAME))
  {
    ReleasedIsArmed(labels, other);
    SuspendedReads(Released(labels, other));
    assert LabelPath(HELM_LABEL_NAME) in HELM_LABELS;
  }

  /** An input: somebody names a Kustomization, and in the same update changes a value that
      Flux owns and no rule ignores. */
  lemma ReconcileDisabledNotIgnored()
    ensures exists cur, a, f ::
              SuspendedRelease(cur, f) && ByNobody(a) && ValueRewritten(cur, a, f) && Admitted(ENFORCING, cur, a)
  {
    var labels := SampleRelease();
    var after := SampleRewrite(labels);
    var other, f := KUSTOMIZE_LABEL_NAMESPACE, LabelPath(HELM_LABEL_NAME);
    var cur, a := Suspended(Released(labels, other)), UpdateBy(SOMEBODY, NO_STORE, Released(after, other), {});
    ReleaseSuspended(labels, other);
    RewriteAdmitted(labels, after, other);
    RewriteShows(labels, after, other);
    SomebodyOwnsNothing();
  }

  lemma SampleRewrite(labels: StringMap) returns (after: StringMap)
    requires HELM_LABEL_NAME in labels
    ensures KUSTOMIZE_LABEL_NAME in after && HELM_LABEL_NAME in after
    ensures labels[HELM_LABEL_NAME] != after[HELM_LABEL_NAME]
  {
    after := labels[KUSTOMIZE_LABEL_NAME := "k"][HELM_LABEL_NAME := labels[HELM_LABEL_NAME] + "x"];
  }

  lemma RewriteShows(labels: StringMap, after: StringMap, other: string)
    requires HELM_LABEL_NAME in labels && HELM_LABEL_NAME in after && labels[HELM_LABEL_NAME] != after[HELM_LABEL_NAME]
    ensures ValueRewritten(Suspended(Released(labels, other)),
                           UpdateBy(SOMEBODY, NO_STORE, Released(after, other), {}), LabelPath(HELM_LABEL_NAME))
  {
    ReleasedIsArmed(after, other);
    LabelRewritten(labels, after, HELM_LABEL_NAME);
  }
}
