/** Which ignore rules an update that renames the owner is judged with, and what the order
    in which they are tried can decide. */
module RelabelLimits {
  import opened Wrappers
  import opened JsonValues
  import opened JsonPointer
  import opened Labels
  import opened ManagedFields
  import opened FieldDiff
  import opened DiffStructure
  import opened Conflicts
  import opened IgnoreRules
  import opened Admission
  import opened UpdateSafety
  import opened RuleOrder
  import opened RuleTargets
  import opened RunSafety
  import opened RunLimits

  // ---- The rules are those of the owner the new labels name ----

  /** An update that changes how the owner labels read is admitted under some ignore set it
      can be judged with exactly when the requester is not the reconciler of the owner the
      new labels name and the field check accepts it with the most that owner's rules can
      ignore: they must cover every overlap with Flux's paths and every path Flux loses. */
  lemma RelabelAdmittedExactly(m: Matchers, cfg: Config, cur: Payload, a: Attempt, obj: ObjectMeta)
    requires !cfg.auditOnly && InScope(cfg, a) && Armed(cur) && GetFluxManagementInfo(LabelsOf(cur)).Managed?
    requires a.req.newObject.meta == Some(obj) && !IsOwningController(Update, obj.labels, LabelsOf(cur))
    ensures var req, before, named := AsUpdate(cur, a), cur.meta.value, GetFluxManagementInfo(obj.labels);
            var info := if named.Managed? then named else GetFluxManagementInfo(before.labels);
            (exists w | WaiverFor(m, cfg, a.store, req, w) :: Admitted(cfg, cur, a.(waiver := w))) <==>
            && !OwningFluxReconciler(cfg, a.store, a.req.user, info)
            && UpdateAcceptable(req, obj, before, Largest(m, a.store, req, before, info))
  {
    var req, before := AsUpdate(cur, a), cur.meta.value;
    var largest := Largest(m, a.store, req, before, RequestOwner(req, obj, before));
    AdmissibleExactly(m, cfg, a.store, req, obj, before);
    AdmittedExactly(cfg, cur, a.(waiver := largest));
    UpdateAdmittedExactly(req, obj, before, largest);
    LargestDrawn(m, cfg, a.store, req, obj, before);
    forall w ensures Admitted(cfg, cur, a.(waiver := w)) <==> Evaluate(cfg, a.store, req, w).decision.allowed {
      assert AsUpdate(cur, a.(waiver := w)) == req;
    }
  }

  const OWNED: StringMap := map[KUSTOMIZE_LABEL_NAME := "app", KUSTOMIZE_LABEL_NAMESPACE := "a"]
  const RENAMED: StringMap := map[KUSTOMIZE_LABEL_NAME := "mine", KUSTOMIZE_LABEL_NAMESPACE := "b"]
  const METADATA: PathSet := {[Field("metadata")]}

  /** Only the Kustomization `mine` in `b` can be read. */
  function StoreWith(entries: seq<Value>): Store {
    NO_STORE.(evidenceOwners :=
      map[OwnerKey(Kustomization, "b", "mine") := map["spec" := Map(map["ignore" := List(entries)])]])
  }

  function Rename(entries: seq<Value>): Attempt {
    UpdateBy(SOMEBODY, StoreWith(entries), Labeled(RENAMED), METADATA)
  }

  /** An entry of .spec.ignore without a target, and one with a target. */
  function Untargeted(ptr: string): Value {
    Map(map["paths" := List([Str(ptr)])])
  }

  function Targeted(rule: IgnoreRule): Value {
    Map(map["paths" := List(Strings(rule.paths)), "target" := Map(rule.target)])
  }

  lemma UntargetedRead(ptr: string)
    ensures RuleFrom(Untargeted(ptr)) == [IgnoreRule([ptr], map[])]
  {
    assert Strings([ptr]) == [Str(ptr)];
    RuleReadAs(Untargeted(ptr), IgnoreRule([ptr], map[]));
  }

  lemma TargetedRead(rule: IgnoreRule)
    requires rule.paths != []
    ensures RuleFrom(Targeted(rule)) == [rule]
  {
    RuleReadAs(Targeted(rule), rule);
  }

  lemma RulesFromTwo(d: Value, e: Value)
    ensures RulesFrom([e]) == RuleFrom(e)
    ensures RulesFrom([d, e]) == RuleFrom(d) + RuleFrom(e)
  {
    assert [e][..0] == [] && [d, e][..1] == [d] && [d][..0] == [];
    assert RulesFrom([d]) == RuleFrom(d);
  }

  lemma StoreRules(entries: seq<Value>)
    ensures RulesFor(StoreWith(entries), Managed(Kustomization, "mine", "b")) == RulesFrom(entries)
  {
    var owner: Fields := map["spec" := Map(map["ignore" := List(entries)])];
    assert HasIgnoreList(owner, entries);
    IgnoreListRead(owner);
  }

  /** A rule without a target selects every object. */
  lemma UntargetedSelects(m: Matchers, ptr: string, p: Path, s: Subject)
    requires PathOf(ptr) == Ok(p) && p != []
    ensures var rule := IgnoreRule([ptr], map[]);
            && CanPass(m, rule, s) && !CanFail(m, rule, s) && Selects(m, rule, s)
            && PointerPaths(rule.paths) == {p}
  {
    var rule := IgnoreRule([ptr], map[]);
    assert ptr in rule.paths && forall q | q in rule.paths :: q == ptr;
  }

  lemma PointerToMetadata() returns (ptr: string)
    ensures PathOf(ptr) == Ok([Field("metadata")])
  {
    ptr := Render(["metadata"]);
    PointerRoundTrip(["metadata"]);
    assert AsFields(["metadata"]) == [Field("metadata")];
  }

  /** Renaming the owner is covered by ignoring `metadata`. */
  lemma RenamePermitted()
    ensures Permitted(Diff(TreeOf(OWNED), TreeOf(RENAMED)), OWNER_LABELS, METADATA)
  {
    var modified := Diff(TreeOf(OWNED), TreeOf(RENAMED));
    forall x, f | x in modified && f in OWNER_LABELS && Overlap(x, f) ensures Covers(METADATA, Longer(x, f)) {
      DiffPointwise(TreeOf(OWNED), TreeOf(RENAMED), x);
      BelowMetadata(x, f);
    }
  }

  lemma RenameConflicts()
    ensures Conflict(Diff(TreeOf(OWNED), TreeOf(RENAMED)), OWNER_LABELS) != {}
  {
    var p := LabelPath(KUSTOMIZE_LABEL_NAME);
    RenameTouchesOwner();
    NoConflictNoOverlap(Diff(TreeOf(OWNED), TreeOf(RENAMED)), OWNER_LABELS);
    assert p in OWNER_LABELS && Overlap(p, p);
  }

  lemma BelowMetadata(x: Path, f: Path)
    requires x != [] && Overlap(x, f) && f in OWNER_LABELS
    ensures Covers(METADATA, Longer(x, f))
  {
    assert f[0] == Field("metadata") && x[0] == f[0];
    assert [Field("metadata")] <= Longer(x, f) && [Field("metadata")] in METADATA;
  }

  lemma RenameAcceptable(entries: seq<Value>)
    ensures var a := Rename(entries);
            var req, obj, before := AsUpdate(Labeled(OWNED), a), a.req.newObject.meta.value, Labeled(OWNED).meta.value;
            UpdateAcceptable(req, obj, before, METADATA) && ConsultsRules(req, obj, before)
  {
    LabeledIsArmed(OWNED);
    RenamePermitted();
    RenameConflicts();
  }

  lemma RenameTouchesOwner()
    ensures LabelPath(KUSTOMIZE_LABEL_NAME) in Diff(TreeOf(OWNED), TreeOf(RENAMED))
  {
    var key := KUSTOMIZE_LABEL_NAME;
    var p := LabelPath(key);
    LabelsDistinct();
    LabeledIsArmed(OWNED);
    LabeledIsArmed(RENAMED);
    LabelInMap(Labeled(OWNED), key);
    LabelInMap(Labeled(RENAMED), key);
    ResolveLabel(OWNED, key);
    ResolveLabel(RENAMED, key);
    assert "app"[0] != "mine"[0];
    DiffPointwise(TreeOf(OWNED), TreeOf(RENAMED), p);
  }

  lemma RenameNamesOwner()
    ensures GetFluxManagementInfo(OWNED) == Managed(Kustomization, "app", "a")
    ensures GetFluxManagementInfo(RENAMED) == Managed(Kustomization, "mine", "b")
    ensures forall info, store :: !OwningFluxReconciler(ENFORCING, store, SOMEBODY, info)
  {
    LabelsDistinct();
    SomebodyOwnsNothing();
  }

  /** Somebody's renaming reaches the rules of the owner the new labels name. */
  lemma RenameConsults(entries: seq<Value>)
    ensures var a := Rename(entries);
            && Consulted(ENFORCING, a.store, AsUpdate(Labeled(OWNED), a))
            && Admitted(ENFORCING, Labeled(OWNED), a)
  {
    var a := Rename(entries);
    RenameNamesOwner();
    RenameAcceptable(entries);
    LabeledIsArmed(OWNED);
    AdmittedExactly(ENFORCING, Labeled(OWNED), a);
    AdmittedExactly(ENFORCING, Labeled(OWNED), a.(waiver := {}));
    UpdateAdmittedExactly(AsUpdate(Labeled(OWNED), a), a.req.newObject.meta.value, Labeled(OWNED).meta.value, METADATA);
  }

  /** What the owner's rules may evaluate to is what the renaming can be judged with. */
  lemma RenameDrawn(m: Matchers, entries: seq<Value>, w: PathSet)
    ensures var a := Rename(entries);
            var req, before := AsUpdate(Labeled(OWNED), a), Labeled(OWNED).meta.value;
            && RequestOwner(req, a.req.newObject.meta.value, before) == Managed(Kustomization, "mine", "b")
            && (WaiverFor(m, ENFORCING, a.store, req, w) <==>
                PossibleIgnoreSet(m, RulesFrom(entries), SubjectOf(req, before), w))
  {
    var a := Rename(entries);
    RenameNamesOwner();
    RenameConsults(entries);
    StoreRules(entries);
    DrawnSets(m, ENFORCING, a.store, AsUpdate(Labeled(OWNED), a), w);
  }

  lemma MetadataSelected(m: Matchers, ptr: string, s: Subject)
    requires PathOf(ptr) == Ok([Field("metadata")])
    ensures PossibleIgnoreSet(m, RulesFrom([Untargeted(ptr)]), s, METADATA)
  {
    var e, rule := Untargeted(ptr), IgnoreRule([ptr], map[]);
    UntargetedRead(ptr);
    RulesFromTwo(e, e);
    UntargetedSelects(m, ptr, [Field("metadata")], s);
    SelectedPathsAdd(m, [], rule, s);
    assert [] + [rule] == [rule];
  }

  /** Somebody who is not the owner's reconciler renames the owner in one ordinary update,
      with an ignore set the update can be judged with, although Flux owns the labels that
      name the owner and that owner ignores nothing. */
  ghost predicate RenamedByStranger(m: Matchers, start: Payload, a: Attempt) {
    && Armed(start) && OwnsLabels(FluxFields(start.meta.value.managedFields).value, {}, Kustomization)
    && Ordinary(ENFORCING, start, a, a.waiver) && WaiverFor(m, ENFORCING, a.store, AsUpdate(start, a), a.waiver)
    && var owner := GetFluxManagementInfo(LabelsOf(start));
       && owner.Managed? && owner.kind == Kustomization && owner.name != ""
       && !OwningFluxReconciler(ENFORCING, a.store, a.req.user, owner) && RulesFor(a.store, owner) == []
       && GetFluxManagementInfo(LabelsOf(Run(ENFORCING, start, [a]))) != owner
  }

  /** The rules asked are those of the owner the new labels name, so the bound on ignore
      sets in RunSafety.Ordinary is needed. */
  lemma RulesFollowNewLabels(m: Matchers)
    ensures exists start, a :: RenamedByStranger(m, start, a)
  {
    var ptr := PointerToMetadata();
    RenameByStranger(m, ptr);
  }

  lemma RenameByStranger(m: Matchers, ptr: string)
    requires PathOf(ptr) == Ok([Field("metadata")])
    ensures RenamedByStranger(m, Labeled(OWNED), Rename([Untargeted(ptr)]))
  {
    var entries := [Untargeted(ptr)];
    var start, a := Labeled(OWNED), Rename(entries);
    LabeledIsArmed(OWNED);
    RelabelIsOrdinary(OWNED, KUSTOMIZE_MANAGER, OWNER_LABELS, SOMEBODY, a.store, RENAMED, METADATA);
    RenameNamesOwner();
    MetadataSelected(m, ptr, SubjectOf(AsUpdate(start, a), start.meta.value));
    RenameDrawn(m, entries, METADATA);
    OthersIgnoreNothing(entries);
    RenameChangesOwner(entries);
  }

  lemma OthersIgnoreNothing(entries: seq<Value>)
    ensures RulesFor(StoreWith(entries), Managed(Kustomization, "app", "a")) == []
  {
    assert "app"[0] != "mine"[0];
  }

  lemma RenameChangesOwner(entries: seq<Value>)
    ensures GetFluxManagementInfo(LabelsOf(Run(ENFORCING, Labeled(OWNED), [Rename(entries)]))) !=
            GetFluxManagementInfo(OWNED)
  {
    RenameNamesOwner();
    RenameConsults(entries);
    RunOfOne(ENFORCING, Labeled(OWNED), Rename(entries));
    assert "app"[0] != "mine"[0];
  }

  // ---- The order of the patterns can decide ----

  lemma OpenNotSelected(m: Matchers, rule: IgnoreRule, s: Subject)
    requires CanFail(m, rule, s) && CanPass(m, rule, s)
    ensures !Selects(m, rule, s)
  {
    OrderMattersExactly(m, rule, s);
  }

  lemma SelectedOfTwo(m: Matchers, bad: IgnoreRule, good: IgnoreRule, s: Subject)
    requires !Selects(m, bad, s) && Selects(m, good, s)
    ensures SelectedPaths(m, [bad, good], s) == PointerPaths(good.paths)
  {
    SelectedPathsAdd(m, [], bad, s);
    SelectedPathsAdd(m, [bad], good, s);
    assert [] + [bad] == [bad] && [bad] + [good] == [bad, good];
  }

  lemma OneOrderDependentRule(m: Matchers, bad: IgnoreRule, ptr: string, s: Subject)
    requires PathOf(ptr) == Ok([Field("metadata")]) && CanFail(m, bad, s) && CanPass(m, bad, s)
    ensures var rules := [bad, IgnoreRule([ptr], map[])];
            OrderDependent(m, rules, s) && LargestIgnoreSet(m, rules, s) == METADATA
  {
    var good := IgnoreRule([ptr], map[]);
    UntargetedSelects(m, ptr, [Field("metadata")], s);
    OpenNotSelected(m, bad, s);
    SelectedOfTwo(m, bad, good, s);
    assert bad in [bad, good];
    assert forall rule | rule in [bad, good] :: CanPass(m, rule, s);
  }

  /** The renamed object, as rule targets see it. */
  function RenamedSubject(): Subject {
    SubjectOf(AsUpdate(Labeled(OWNED), Rename([])), Labeled(OWNED).meta.value)
  }

  /** The evaluation of these rules can fail or give METADATA, for the renamed object. */
  ghost predicate OpenForRename(m: Matchers, rules: seq<IgnoreRule>) {
    var s := RenamedSubject();
    OrderDependent(m, rules, s) && LargestIgnoreSet(m, rules, s) == METADATA
  }

  lemma RenameOpen(m: Matchers, entries: seq<Value>)
    requires OpenForRename(m, RulesFrom(entries))
    ensures var a := Rename(entries);
            var req, before := AsUpdate(Labeled(OWNED), a), Labeled(OWNED).meta.value;
            && OrderOpen(m, ENFORCING, a.store, req)
            && Largest(m, a.store, req, before, RequestOwner(req, a.req.newObject.meta.value, before)) == METADATA
  {
    RenameDrawn(m, entries, {});
    StoreRules(entries);
    RenameConsults(entries);
  }

  lemma RenameOrderDecides(m: Matchers, entries: seq<Value>)
    requires OpenForRename(m, RulesFrom(entries))
    ensures OrderDecidesAnswer(m, ENFORCING, Rename(entries).store, AsUpdate(Labeled(OWNED), Rename(entries)))
  {
    RenameOpen(m, entries);
    RenameAcceptable(entries);
  }

  lemma TwoEntriesRead(bad: IgnoreRule, ptr: string)
    requires bad.paths != []
    ensures RulesFrom([Targeted(bad), Untargeted(ptr)]) == [bad, IgnoreRule([ptr], map[])]
  {
    TargetedRead(bad);
    UntargetedRead(ptr);
    RulesFromTwo(Targeted(bad), Untargeted(ptr));
  }

  /** Whatever rule leaves its outcome for an object to the order: next to a rule that
      ignores what is renamed, it lets two handlers answer differently on the same cache
      answers. */
  lemma OrderCanDecideAnswer(m: Matchers, bad: IgnoreRule)
    requires bad.paths != [] && CanFail(m, bad, RenamedSubject()) && CanPass(m, bad, RenamedSubject())
    ensures exists store, req :: OrderDecidesAnswer(m, ENFORCING, store, req)
  {
    var ptr := PointerToMetadata();
    OneOrderDependentRule(m, bad, ptr, RenamedSubject());
    TwoEntriesRead(bad, ptr);
    RenameOrderDecides(m, [Targeted(bad), Untargeted(ptr)]);
  }

  /** And there is such a rule, so there are such requests. */
  lemma OrderDecidesSomewhere()
    ensures exists m, store, req :: OrderDecidesAnswer(m, ENFORCING, store, req)
  {
    OrderCanMatter(RenamedSubject());
    OrderCanDecideAnswer(SAMPLE_MATCHERS, SAMPLE_RULE);
  }
}
