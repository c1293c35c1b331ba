/** Which objects an ignore rule selects, read off the owner's tree and the request. */
module RuleTargets {
  import opened Wrappers
  import opened JsonValues
  import opened JsonPointer
  import opened Labels
  import opened IgnoreRules
  import opened Admission
  import opened RequestFacts
  import opened OwnerIdentity
  import opened OperationRules
  import opened Verdicts
  import opened RuleOrder

  // ---- The rules of an owner ----

  function Strings(paths: seq<string>): seq<Value> {
    seq(|paths|, i requires 0 <= i < |paths| => Str(paths[i]))
  }

  /** The entry is a rule: an object with a list of strings, at least one, as paths. */
  predicate ReadsAsRule(e: Value, rule: IgnoreRule) {
    && e.Map? && rule.paths != []
    && "paths" in e.fields && e.fields["paths"] == List(Strings(rule.paths))
    && rule.target == if "target" in e.fields && e.fields["target"].Map? then e.fields["target"].fields else map[]
  }

  lemma StringsRead(v: Value, paths: seq<string>)
    requires paths != []
    ensures NestedStringSlice(v, []) == paths <==> v == List(Strings(paths))
  {
    if v == List(Strings(paths)) {
      forall x | x in Strings(paths) ensures x.Str? {
        var i :| 0 <= i < |paths| && Strings(paths)[i] == x;
      }
      assert NestedStringSlice(v, []) == paths;
    }
    if NestedStringSlice(v, []) == paths {
      assert v.List? && forall x | x in v.items :: x.Str?;
      assert |v.items| == |paths|;
      forall i | 0 <= i < |paths| ensures v.items[i] == Str(paths[i]) {
        assert v.items[i] in v.items && NestedStringSlice(v, [])[i] == v.items[i].s;
      }
      assert v.items == Strings(paths);
    }
  }

  lemma PathsRead(e: Value, paths: seq<string>)
    requires e.Map? && paths != []
    ensures NestedStringSlice(e, ["paths"]) == paths <==>
            "paths" in e.fields && e.fields["paths"] == List(Strings(paths))
  {
    assert ["paths"] == ["paths"] + [];
    NestedStep(e, "paths", []);
    if "paths" in e.fields {
      StringsRead(e.fields["paths"], paths);
    }
  }

  lemma TargetRead(e: Value)
    requires e.Map?
    ensures NestedMap(e, ["target"]) ==
            if "target" in e.fields && e.fields["target"].Map? then e.fields["target"].fields else map[]
  {
    assert ["target"] == ["target"] + [];
    NestedStep(e, "target", []);
  }

  lemma RuleRead(e: Value, rule: IgnoreRule)
    ensures rule in RuleFrom(e) <==> ReadsAsRule(e, rule)
  {
    if e.Map? {
      TargetRead(e);
      if rule.paths != [] {
        PathsRead(e, rule.paths);
      }
    }
  }

  lemma RuleReadAs(e: Value, rule: IgnoreRule)
    requires ReadsAsRule(e, rule)
    ensures RuleFrom(e) == [rule]
  {
    RuleRead(e, rule);
    assert |RuleFrom(e)| <= 1;
  }

  lemma {:induction false} RulesRead(entries: seq<Value>, rule: IgnoreRule)
    ensures rule in RulesFrom(entries) <==> exists e | e in entries :: ReadsAsRule(e, rule)
  {
    if entries != [] {
      var init, last := entries[..|entries| - 1], entries[|entries| - 1];
      RulesRead(init, rule);
      RuleRead(last, rule);
      assert forall e :: e in entries <==> e in init || e == last;
    }
  }

  predicate HasIgnoreList(tree: Fields, entries: seq<Value>) {
    && "spec" in tree && tree["spec"].Map? && "ignore" in tree["spec"].fields
    && tree["spec"].fields["ignore"] == List(entries)
  }

  lemma IgnoreListRead(tree: Fields)
    ensures forall entries | HasIgnoreList(tree, entries) :: RulesOf(tree) == RulesFrom(entries)
    ensures (forall entries :: !HasIgnoreList(tree, entries)) ==> RulesOf(tree) == []
  {
    assert ["spec", "ignore"] == ["spec"] + ["ignore"] && ["ignore"] == ["ignore"] + [];
    NestedStep(Map(tree), "spec", ["ignore"]);
    if "spec" in tree && tree["spec"].Map? {
      NestedStep(tree["spec"], "ignore", []);
      if "ignore" in tree["spec"].fields && tree["spec"].fields["ignore"].List? {
        assert HasIgnoreList(tree, tree["spec"].fields["ignore"].items);
      }
    }
  }

  /** An entry of the owner's spec.ignore reads as this rule. */
  ghost predicate OwnerIgnores(store: Store, name: string, namespace: string, rule: IgnoreRule) {
    exists tree, entries, e ::
      && Answers(store.evidenceOwners, Kustomization, name, namespace, tree) && HasIgnoreList(tree, entries)
      && e in entries && ReadsAsRule(e, rule)
  }

  lemma RulesExactly(store: Store, kind: OwnerKind, name: string, namespace: string, rule: IgnoreRule)
    ensures rule in RulesFor(store, Managed(kind, name, namespace)) <==>
            kind == Kustomization && OwnerIgnores(store, name, namespace, rule)
  {
    var read := ReadOwner(store.evidenceOwners, Managed(kind, name, namespace));
    if kind == Kustomization && read.Some? {
      var tree := read.value;
      assert Answers(store.evidenceOwners, Kustomization, name, namespace, tree);
      IgnoreListRead(tree);
      if entries :| HasIgnoreList(tree, entries) {
        RulesRead(entries, rule);
      }
    }
  }

  // ---- Targets ----

  /** What a field of the target says of a value: nothing, if it is absent or empty. */
  function FieldSays(m: Matchers, target: Fields, key: string, value: string): MatchResult {
    if key in target && target[key].Str? && target[key].s != ""
    then m.regex("^(?:" + target[key].s + ")$", value)
    else Matches
  }

  function SelectorSays(m: Matchers, target: Fields, key: string, values: StringMap): MatchResult {
    if key in target && target[key].Str? && target[key].s != "" then m.selector(target[key].s, values) else Matches
  }

  /** What the five patterns can say of the request's object: its group, version and kind,
      and the name and namespace it had, or else the request's. */
  predicate PatternsSay(m: Matchers, target: Fields, req: Request, before: ObjectMeta, r: MatchResult) {
    || FieldSays(m, target, "group", req.group) == r
    || FieldSays(m, target, "version", req.version) == r
    || FieldSays(m, target, "kind", req.kind) == r
    || FieldSays(m, target, "name", if before.name == "" then req.name else before.name) == r
    || FieldSays(m, target, "namespace", if before.namespace == "" then req.namespace else before.namespace) == r
  }

  /** No pattern differs or is invalid; then the labels and after them the annotations the
      object had decide. */
  predicate TargetSays(m: Matchers, target: Fields, req: Request, before: ObjectMeta, r: MatchResult) {
    var byLabels := SelectorSays(m, target, "labelSelector", before.labels);
    if target == map[] then r == Matches
    else if PatternsSay(m, target, req, before, Differs) || PatternsSay(m, target, req, before, Invalid) then
      r != Matches && PatternsSay(m, target, req, before, r)
    else if byLabels != Matches then r == byLabels
    else r == SelectorSays(m, target, "annotationSelector", before.annotations)
  }

  lemma FieldRead(m: Matchers, target: Fields, key: string, value: string, values: StringMap)
    ensures PatternResult(m, target, key, value) == FieldSays(m, target, key, value)
    ensures SelectorMatches(m, target, key, values) == SelectorSays(m, target, key, values)
  {
    NestedStringOne(Map(target), key);
  }

  lemma FiveSay(m: Matchers, target: Fields, values: StringMap, r: MatchResult)
    requires values.Keys == {"group", "version", "kind", "name", "namespace"}
    ensures (exists key | key in values :: PatternResult(m, target, key, values[key]) == r) <==>
            || FieldSays(m, target, "group", values["group"]) == r
            || FieldSays(m, target, "version", values["version"]) == r
            || FieldSays(m, target, "kind", values["kind"]) == r
            || FieldSays(m, target, "name", values["name"]) == r
            || FieldSays(m, target, "namespace", values["namespace"]) == r
  {
    forall key | key in values
      ensures PatternResult(m, target, key, values[key]) == FieldSays(m, target, key, values[key])
    {
      FieldRead(m, target, key, values[key], map[]);
    }
  }

  lemma PatternValues(s: Subject)
    ensures Patterns(s).Keys == {"group", "version", "kind", "name", "namespace"}
    ensures Patterns(s)["group"] == s.group && Patterns(s)["version"] == s.version && Patterns(s)["kind"] == s.kind
    ensures Patterns(s)["name"] == s.name && Patterns(s)["namespace"] == s.namespace
  {
    FieldKeysDistinct();
  }

  lemma PatternsExactly(m: Matchers, target: Fields, req: Request, before: ObjectMeta, r: MatchResult)
    ensures var s := SubjectOf(req, before);
            (exists key | key in Patterns(s) :: PatternResult(m, target, key, Patterns(s)[key]) == r) <==>
            PatternsSay(m, target, req, before, r)
  {
    PatternValues(SubjectOf(req, before));
    FiveSay(m, target, Patterns(SubjectOf(req, before)), r);
  }

  /** The outcomes a target can have for the request's object. */
  lemma OutcomeExactly(m: Matchers, target: Fields, req: Request, before: ObjectMeta, r: MatchResult)
    ensures RuleOutcome(m, target, SubjectOf(req, before), r) <==> TargetSays(m, target, req, before, r)
  {
    var s := SubjectOf(req, before);
    PatternsExactly(m, target, req, before, Differs);
    PatternsExactly(m, target, req, before, Invalid);
    PatternsExactly(m, target, req, before, r);
    FieldRead(m, target, "labelSelector", "", before.labels);
    FieldRead(m, target, "annotationSelector", "", before.annotations);
    assert AllPatternsMatch(m, target, s) <==>
      !PatternsSay(m, target, req, before, Differs) && !PatternsSay(m, target, req, before, Invalid);
  }

  // ---- What is ignored ----

  /** The paths the owner's rules select for an object are exactly those of the pointers of
      the entries whose target says so. */
  lemma SelectedExactly(
    m: Matchers, store: Store, req: Request, before: ObjectMeta, kind: OwnerKind, name: string, namespace: string,
    p: Path)
    ensures p in SelectedPaths(m, RulesFor(store, Managed(kind, name, namespace)), SubjectOf(req, before)) <==>
            && kind == Kustomization && p != []
            && exists rule, ptr ::
                 && OwnerIgnores(store, name, namespace, rule) && ptr in rule.paths && PathOf(ptr) == Ok(p)
                 && TargetSays(m, rule.target, req, before, Matches)
  {
    forall rule ensures rule in RulesFor(store, Managed(kind, name, namespace)) <==>
                        kind == Kustomization && OwnerIgnores(store, name, namespace, rule)
    {
      RulesExactly(store, kind, name, namespace, rule);
    }
    forall rule: IgnoreRule
      ensures Selects(m, rule, SubjectOf(req, before)) <==> TargetSays(m, rule.target, req, before, Matches)
    {
      OutcomeExactly(m, rule.target, req, before, Matches);
    }
  }

  ghost predicate OnlyRule(store: Store, name: string, namespace: string, rule: IgnoreRule) {
    exists tree, e ::
      && Answers(store.evidenceOwners, Kustomization, name, namespace, tree) && HasIgnoreList(tree, [e])
      && ReadsAsRule(e, rule)
  }

  lemma OnlyRuleRead(store: Store, name: string, namespace: string, rule: IgnoreRule)
    requires OnlyRule(store, name, namespace, rule)
    ensures RulesFor(store, Managed(Kustomization, name, namespace)) == [rule]
  {
    var tree, e :| Answers(store.evidenceOwners, Kustomization, name, namespace, tree) && HasIgnoreList(tree, [e]) &&
                   ReadsAsRule(e, rule);
    IgnoreListRead(tree);
    RuleReadAs(e, rule);
    assert [e][..0] == [];
    assert RulesFrom([e]) == RulesFrom([]) + [rule] == [rule];
  }

  /** A conflicting update of an object whose Kustomization has one rule can be judged with
      the paths of its pointers exactly when the rule's target says so. */
  lemma OneRuleDrawn(
    m: Matchers, cfg: Config, store: Store, req: Request, obj: ObjectMeta, before: ObjectMeta, name: string,
    namespace: string, rule: IgnoreRule)
    requires Reaches(cfg, store, req, obj, before, Kustomization, name, namespace)
    requires !ByOwner(cfg, store, req, Kustomization, name, namespace)
    requires !Exempt(store, req, obj, before, Kustomization) && AsksRules(req, obj, before)
    requires OnlyRule(store, name, namespace, rule) && ValidPointers(rule) && PointerPaths(rule.paths) != {}
    ensures WaiverFor(m, cfg, store, req, PointerPaths(rule.paths)) <==>
            TargetSays(m, rule.target, req, before, Matches)
  {
    var s, paths := SubjectOf(req, before), PointerPaths(rule.paths);
    LookupErrorsExactly(cfg, store, req, obj, before, Kustomization, name, namespace, {});
    MetadataExactly(req, obj, before);
    OwnerJudged(req, obj, before, Kustomization, name, namespace);
    DrawnSets(m, cfg, store, req, paths);
    OnlyRuleRead(store, name, namespace, rule);
    OutcomeExactly(m, rule.target, req, before, Matches);
    OneRulePossible(m, rule, s);
  }

  lemma OneRulePossible(m: Matchers, rule: IgnoreRule, s: Subject)
    requires ValidPointers(rule) && PointerPaths(rule.paths) != {}
    ensures PossibleIgnoreSet(m, [rule], s, PointerPaths(rule.paths)) <==> Selects(m, rule, s)
  {
    SelectedPathsAdd(m, [], rule, s);
    assert [] + [rule] == [rule] && SelectedPaths(m, [], s) == {};
    assert forall r | r in [rule] :: r == rule;
  }

  /** A target with a single field leaves the other fields open. */
  lemma SingleField(m: Matchers, key: string, p: string, other: string, value: string, values: StringMap)
    requires p != ""
    ensures var target := map[key := Str(p)];
            && FieldSays(m, target, other, value) ==
               (if other == key then m.regex("^(?:" + p + ")$", value) else Matches)
            && SelectorSays(m, target, other, values) == (if other == key then m.selector(p, values) else Matches)
  {
  }

  /** The value of the request's object that a pattern is tried on. */
  function ValueFor(req: Request, before: ObjectMeta, key: string): string {
    if key == "group" then req.group
    else if key == "version" then req.version
    else if key == "kind" then req.kind
    else if key == "name" then (if before.name == "" then req.name else before.name)
    else if before.namespace == "" then req.namespace
    else before.namespace
  }

  lemma SinglePatternSays(m: Matchers, key: string, p: string, req: Request, before: ObjectMeta, r: MatchResult)
    requires p != "" && r != Matches && key in ["group", "version", "kind", "name", "namespace"]
    ensures PatternsSay(m, map[key := Str(p)], req, before, r) <==>
            m.regex("^(?:" + p + ")$", ValueFor(req, before, key)) == r
  {
    FieldKeysDistinct();
    SingleField(m, key, p, "group", req.group, map[]);
    SingleField(m, key, p, "version", req.version, map[]);
    SingleField(m, key, p, "kind", req.kind, map[]);
    SingleField(m, key, p, "name", ValueFor(req, before, "name"), map[]);
    SingleField(m, key, p, "namespace", ValueFor(req, before, "namespace"), map[]);
  }

  /** A target with one pattern selects by that pattern, anchored. */
  lemma PatternTarget(m: Matchers, key: string, p: string, req: Request, before: ObjectMeta)
    requires p != "" && key in ["group", "version", "kind", "name", "namespace"]
    ensures TargetSays(m, map[key := Str(p)], req, before, Matches) <==>
            m.regex("^(?:" + p + ")$", ValueFor(req, before, key)) == Matches
  {
    FieldKeysDistinct();
    SinglePatternSays(m, key, p, req, before, Differs);
    SinglePatternSays(m, key, p, req, before, Invalid);
    SingleField(m, key, p, "labelSelector", "", before.labels);
    SingleField(m, key, p, "annotationSelector", "", before.annotations);
  }

  /** A target with one selector selects by the labels or the annotations the object had. */
  lemma SelectorTarget(m: Matchers, key: string, p: string, req: Request, before: ObjectMeta)
    requires p != "" && key in ["labelSelector", "annotationSelector"]
    ensures TargetSays(m, map[key := Str(p)], req, before, Matches) <==>
            m.selector(p, if key == "labelSelector" then before.labels else before.annotations) == Matches
  {
    FieldKeysDistinct();
    SelectorsLeavePatternsOpen(m, key, p, req, before);
    SingleField(m, key, p, "labelSelector", "", before.labels);
    SingleField(m, key, p, "annotationSelector", "", before.annotations);
  }

  lemma SelectorsLeavePatternsOpen(m: Matchers, key: string, p: string, req: Request, before: ObjectMeta)
    requires p != "" && key in ["labelSelector", "annotationSelector"]
    ensures forall r | r != Matches :: !PatternsSay(m, map[key := Str(p)], req, before, r)
  {
    FieldKeysDistinct();
    SingleField(m, key, p, "group", req.group, map[]);
    SingleField(m, key, p, "version", req.version, map[]);
    SingleField(m, key, p, "kind", req.kind, map[]);
    SingleField(m, key, p, "name", ValueFor(req, before, "name"), map[]);
    SingleField(m, key, p, "namespace", ValueFor(req, before, "namespace"), map[]);
  }

  lemma FieldKeysDistinct()
    ensures |"group"| == 5 && |"version"| == 7 && |"kind"| == 4 && |"name"| == 4 && |"namespace"| == 9
    ensures |"labelSelector"| == 13 && |"annotationSelector"| == 18 && "kind" != "name"
  {
    assert "kind"[0] == 'k' && "name"[0] == 'n';
  }
}
