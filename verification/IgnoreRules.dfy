/** The drift-ignore rules of the owning Kustomization (internal/webhook/ignore.go). */
module IgnoreRules {
  import opened Wrappers
  import opened JsonValues
  import opened FieldDiff
  import opened JsonPointer
  import opened Labels
  import opened Text

  datatype MatchResult = Matches | Differs | Invalid

  /** The regular-expression engine and the Kubernetes selector parser. */
  datatype Matchers = Matchers(
    regex: (string, string) -> MatchResult,
    selector: (string, StringMap) -> MatchResult)

  datatype IgnoreRule = IgnoreRule(paths: seq<string>, target: Fields)

  /** The object under admission, as rule targets see it. */
  datatype Subject = Subject(
    group: string, version: string, kind: string, name: string, namespace: string,
    labels: StringMap, annotations: StringMap)

  // ---- Reading the rules ----

  /** Entries that are not objects or list no path yield no rule. */
  function RuleFrom(e: Value): seq<IgnoreRule> {
    var paths := NestedStringSlice(e, ["paths"]);
    if e.Map? && paths != [] then [IgnoreRule(paths, NestedMap(e, ["target"]))] else []
  }

  function RulesFrom(entries: seq<Value>): seq<IgnoreRule> {
    if entries == [] then [] else RulesFrom(entries[..|entries| - 1]) + RuleFrom(entries[|entries| - 1])
  }

  function RulesOf(owner: Fields): seq<IgnoreRule> {
    match NestedSlice(Map(owner), ["spec", "ignore"])
    case None => []
    case Some(entries) => RulesFrom(entries)
  }

  method ParseIgnoreRules(owner: Fields) returns (rules: seq<IgnoreRule>)
    ensures rules == RulesOf(owner)
  {
    rules := [];
    var found := NestedSlice(Map(owner), ["spec", "ignore"]);
    if found.None? || found.value == [] {
      return;
    }
    var entries := found.value;
    for i := 0 to |entries|
      invariant rules == RulesFrom(entries[..i])
    {
      var entry := entries[i];
      assert entries[..i + 1][..i] == entries[..i];
      assert RulesFrom(entries[..i + 1]) == rules + RuleFrom(entry);
      if !entry.Map? {
        continue;
      }
      var paths := NestedStringSlice(entry, ["paths"]);
      if paths == [] {
        continue;
      }
      rules := rules + [IgnoreRule(paths, NestedMap(entry, ["target"]))];
    }
    assert entries[..|entries|] == entries;
  }

  // ---- Matching a rule ----

  function Patterns(s: Subject): StringMap {
    map["group" := s.group, "version" := s.version, "kind" := s.kind, "name" := s.name, "namespace" := s.namespace]
  }

  /** An empty pattern matches anything; any other is anchored. */
  function AnchoredRegexMatch(m: Matchers, pattern: string, value: string): MatchResult {
    if pattern == "" then Matches else m.regex("^(?:" + pattern + ")$", value)
  }

  function PatternResult(m: Matchers, target: Fields, key: string, value: string): MatchResult {
    AnchoredRegexMatch(m, NestedString(Map(target), [key]), value)
  }

  function SelectorMatches(m: Matchers, target: Fields, key: string, values: StringMap): MatchResult {
    var expr := NestedString(Map(target), [key]);
    if expr == "" then Matches else m.selector(expr, values)
  }

  function SelectorsResult(m: Matchers, target: Fields, s: Subject): MatchResult {
    var byLabels := SelectorMatches(m, target, "labelSelector", s.labels);
    if byLabels != Matches then byLabels else SelectorMatches(m, target, "annotationSelector", s.annotations)
  }

  ghost predicate AllPatternsMatch(m: Matchers, target: Fields, s: Subject) {
    forall key | key in Patterns(s) :: PatternResult(m, target, key, Patterns(s)[key]) == Matches
  }

  /** The outcomes a rule can have. The five patterns are tried in any order and the
      first that does not match decides, so when one is invalid and another differs both
      outcomes are possible. */
  ghost predicate RuleOutcome(m: Matchers, target: Fields, s: Subject, r: MatchResult) {
    if target == map[] then r == Matches
    else if AllPatternsMatch(m, target, s) then r == SelectorsResult(m, target, s)
    else r != Matches && exists key | key in Patterns(s) :: PatternResult(m, target, key, Patterns(s)[key]) == r
  }

  method RuleMatchesObject(m: Matchers, target: Fields, s: Subject) returns (r: MatchResult)
    ensures RuleOutcome(m, target, s, r)
  {
    if |target| == 0 {
      return Matches;
    }
    var patterns := Patterns(s);
    var todo := patterns.Keys;
    while todo != {}
      invariant todo <= patterns.Keys
      invariant forall key | key in patterns.Keys - todo :: PatternResult(m, target, key, patterns[key]) == Matches
      decreases todo
    {
      var key :| key in todo;
      todo := todo - {key};
      var pattern := NestedString(Map(target), [key]);
      var ok := AnchoredRegexMatch(m, pattern, patterns[key]);
      if ok != Matches {
        assert PatternResult(m, target, key, patterns[key]) == ok;
        return ok;
      }
    }
    r := SelectorMatches(m, target, "labelSelector", s.labels);
    if r != Matches {
      return;
    }
    r := SelectorMatches(m, target, "annotationSelector", s.annotations);
  }

  // ---- Iteration orders ----

  /** The patterns tried one after the other: the first that does not match decides. */
  ghost function FirstMismatch(m: Matchers, target: Fields, s: Subject, order: seq<string>): MatchResult
    requires forall key | key in order :: key in Patterns(s)
  {
    if order == [] then Matches
    else
      var r := PatternResult(m, target, order[0], Patterns(s)[order[0]]);
      if r != Matches then r else FirstMismatch(m, target, s, order[1..])
  }

  /** What matching a rule gives when the map of patterns is visited in this order. */
  ghost function OutcomeInOrder(m: Matchers, target: Fields, s: Subject, order: seq<string>): MatchResult
    requires forall key | key in order :: key in Patterns(s)
  {
    if target == map[] then Matches
    else if FirstMismatch(m, target, s, order) != Matches then FirstMismatch(m, target, s, order)
    else SelectorsResult(m, target, s)
  }

  /** Every pattern is visited, once. */
  ghost predicate IterationOrder(s: Subject, order: seq<string>) {
    NoDuplicates(order) && forall key :: key in order <==> key in Patterns(s)
  }

  ghost function Arrange(keys: set<string>): (order: seq<string>)
    ensures NoDuplicates(order) && forall key :: key in order <==> key in keys
  {
    if keys == {} then []
    else
      var key :| key in keys;
      [key] + Arrange(keys - {key})
  }

  lemma {:induction false} MismatchFound(m: Matchers, target: Fields, s: Subject, order: seq<string>)
    requires forall key | key in order :: key in Patterns(s)
    ensures var r := FirstMismatch(m, target, s, order);
            if r == Matches then forall key | key in order :: PatternResult(m, target, key, Patterns(s)[key]) == Matches
            else exists key | key in order :: PatternResult(m, target, key, Patterns(s)[key]) == r
  {
    if order != [] {
      MismatchFound(m, target, s, order[1..]);
      assert forall key | key in order :: key == order[0] || key in order[1..];
    }
  }

  /** Whichever pattern decides can come first. */
  lemma OutcomeHasOrder(m: Matchers, target: Fields, s: Subject, r: MatchResult) returns (order: seq<string>)
    requires RuleOutcome(m, target, s, r)
    ensures IterationOrder(s, order) && OutcomeInOrder(m, target, s, order) == r
  {
    if target == map[] || AllPatternsMatch(m, target, s) {
      order := Arrange(Patterns(s).Keys);
      MismatchFound(m, target, s, order);
    } else {
      var key :| key in Patterns(s) && PatternResult(m, target, key, Patterns(s)[key]) == r;
      order := Foremost(s, key);
    }
  }

  lemma Foremost(s: Subject, key: string) returns (order: seq<string>)
    requires key in Patterns(s)
    ensures IterationOrder(s, order) && order != [] && order[0] == key
  {
    var keys := Patterns(s).Keys;
    order := [key] + Arrange(keys - {key});
    assert forall k :: k in order <==> k in keys;
  }

  lemma OrderHasOutcome(m: Matchers, target: Fields, s: Subject, order: seq<string>)
    requires IterationOrder(s, order)
    ensures RuleOutcome(m, target, s, OutcomeInOrder(m, target, s, order))
  {
    MismatchFound(m, target, s, order);
    assert AllPatternsMatch(m, target, s) <==> FirstMismatch(m, target, s, order) == Matches;
  }

  /** The outcomes of a rule are exactly those of some iteration order. */
  lemma OutcomesAreOrders(m: Matchers, target: Fields, s: Subject, r: MatchResult)
    ensures RuleOutcome(m, target, s, r) <==>
            exists order | IterationOrder(s, order) :: OutcomeInOrder(m, target, s, order) == r
  {
    if RuleOutcome(m, target, s, r) {
      var order := OutcomeHasOrder(m, target, s, r);
    }
    if order :| IterationOrder(s, order) && OutcomeInOrder(m, target, s, order) == r {
      OrderHasOutcome(m, target, s, order);
    }
  }

  // ---- The ignore set ----

  ghost predicate Selects(m: Matchers, rule: IgnoreRule, s: Subject) {
    RuleOutcome(m, rule.target, s, Matches)
  }

  ghost predicate ValidPointers(rule: IgnoreRule) {
    forall ptr | ptr in rule.paths :: PathOf(ptr).Ok?
  }

  /** The rule can make the evaluation fail. */
  ghost predicate CanFail(m: Matchers, rule: IgnoreRule, s: Subject) {
    RuleOutcome(m, rule.target, s, Invalid) || (Selects(m, rule, s) && !ValidPointers(rule))
  }

  ghost predicate CanPass(m: Matchers, rule: IgnoreRule, s: Subject) {
    RuleOutcome(m, rule.target, s, Differs) || (Selects(m, rule, s) && ValidPointers(rule))
  }

  /** The paths of the non-empty pointers of the rules that select the object. */
  ghost function SelectedPaths(m: Matchers, rules: seq<IgnoreRule>, s: Subject): PathSet {
    set rule, ptr |
      rule in rules && ptr in rule.paths && Selects(m, rule, s) && PathOf(ptr).Ok? && PathOf(ptr).value != []
      :: PathOf(ptr).value
  }

  method IgnoreSetForObject(m: Matchers, rules: seq<IgnoreRule>, s: Subject) returns (res: Result<PathSet>)
    ensures res.Ok? ==> (forall rule | rule in rules :: CanPass(m, rule, s)) && res.value == SelectedPaths(m, rules, s)
    ensures res.Err? ==> exists rule | rule in rules :: CanFail(m, rule, s)
  {
    var acc := new FieldSet();
    for i := 0 to |rules|
      invariant forall rule | rule in rules[..i] :: CanPass(m, rule, s)
      invariant acc.paths == SelectedPaths(m, rules[..i], s)
    {
      var rule := rules[i];
      assert rule in rules;
      assert rules[..i + 1] == rules[..i] + [rule];
      SelectedPathsAdd(m, rules[..i], rule, s);
      var outcome := RuleMatchesObject(m, rule.target, s);
      if outcome == Invalid {
        assert CanFail(m, rule, s);
        return Err;
      }
      if outcome == Differs {
        NotSelected(m, rule, s);
        continue;
      }
      ghost var before := acc.paths;
      for j := 0 to |rule.paths|
        invariant forall ptr | ptr in rule.paths[..j] :: PathOf(ptr).Ok?
        invariant acc.paths == before + PointerPaths(rule.paths[..j])
      {
        var ptr := rule.paths[j];
        var path := JsonPointerToPath(ptr);
        PointerPathsAdd(rule.paths[..j], ptr);
        assert rule.paths[..j + 1] == rule.paths[..j] + [ptr];
        if path.Err? {
          assert ptr in rule.paths && CanFail(m, rule, s);
          return Err;
        }
        acc.Insert(path.value);
      }
      assert rule.paths[..|rule.paths|] == rule.paths;
    }
    assert rules[..|rules|] == rules;
    return Ok(acc.paths);
  }

  lemma PointerPathsAdd(ptrs: seq<string>, ptr: string)
    ensures PointerPaths(ptrs + [ptr]) ==
            PointerPaths(ptrs) + if PathOf(ptr).Ok? && PathOf(ptr).value != [] then {PathOf(ptr).value} else {}
  {
  }

  ghost function PointerPaths(ptrs: seq<string>): PathSet {
    set ptr | ptr in ptrs && PathOf(ptr).Ok? && PathOf(ptr).value != [] :: PathOf(ptr).value
  }

  lemma SelectedPathsAdd(m: Matchers, rules: seq<IgnoreRule>, rule: IgnoreRule, s: Subject)
    ensures SelectedPaths(m, rules + [rule], s) ==
            SelectedPaths(m, rules, s) + if Selects(m, rule, s) then PointerPaths(rule.paths) else {}
  {
  }

  lemma NotSelected(m: Matchers, rule: IgnoreRule, s: Subject)
    requires RuleOutcome(m, rule.target, s, Differs)
    ensures !Selects(m, rule, s)
  {
  }

  /** What driftIgnoreSet may return for these rules: nothing when the evaluation can
      fail, the selected paths when it can succeed. */
  ghost predicate PossibleIgnoreSet(m: Matchers, rules: seq<IgnoreRule>, s: Subject, w: PathSet) {
    || (w == {} && exists rule | rule in rules :: CanFail(m, rule, s))
    || (w == SelectedPaths(m, rules, s) && forall rule | rule in rules :: CanPass(m, rule, s))
  }

  /** A rule's outcome depends on the order exactly when one of its patterns is invalid
      and another one differs. */
  lemma OrderMattersExactly(m: Matchers, rule: IgnoreRule, s: Subject)
    ensures CanFail(m, rule, s) && CanPass(m, rule, s) <==>
            && rule.target != map[]
            && (exists k | k in Patterns(s) :: PatternResult(m, rule.target, k, Patterns(s)[k]) == Invalid)
            && (exists k | k in Patterns(s) :: PatternResult(m, rule.target, k, Patterns(s)[k]) == Differs)
    ensures CanFail(m, rule, s) || CanPass(m, rule, s)
  {
  }

  ghost predicate WellFormedRule(m: Matchers, rule: IgnoreRule, s: Subject) {
    && ValidPointers(rule)
    && (forall k | k in Patterns(s) :: PatternResult(m, rule.target, k, Patterns(s)[k]) != Invalid)
    && SelectorMatches(m, rule.target, "labelSelector", s.labels) != Invalid
    && SelectorMatches(m, rule.target, "annotationSelector", s.annotations) != Invalid
  }

  /** With valid patterns, selectors and pointers the set is the selected paths, in
      every order. */
  lemma WellFormedRulesDecide(m: Matchers, rules: seq<IgnoreRule>, s: Subject, w: PathSet)
    requires forall rule | rule in rules :: WellFormedRule(m, rule, s)
    ensures PossibleIgnoreSet(m, rules, s, w) <==> w == SelectedPaths(m, rules, s)
  {
  }

  // ---- Every possible set, and no other ----

  ghost function AfterRule(acc: PathSet, rule: IgnoreRule, outcome: MatchResult): Result<PathSet> {
    match outcome
    case Invalid => Err
    case Differs => Ok(acc)
    case Matches => if ValidPointers(rule) then Ok(acc + PointerPaths(rule.paths)) else Err
  }

  /** The rules taken in turn, each with an outcome it can have; the first error ends it. */
  ghost predicate Evaluates(m: Matchers, rules: seq<IgnoreRule>, s: Subject, res: Result<PathSet>)
    decreases |rules|
  {
    if rules == [] then res == Ok({})
    else
      var init, last := rules[..|rules| - 1], rules[|rules| - 1];
      || (res.Err? && Evaluates(m, init, s, Err))
      || exists acc | Evaluates(m, init, s, Ok(acc)) :: StepTo(m, last, s, acc, res)
  }

  ghost predicate StepTo(m: Matchers, rule: IgnoreRule, s: Subject, acc: PathSet, res: Result<PathSet>) {
    exists outcome | RuleOutcome(m, rule.target, s, outcome) :: res == AfterRule(acc, rule, outcome)
  }

  lemma StepExactly(m: Matchers, rule: IgnoreRule, s: Subject, acc: PathSet, res: Result<PathSet>)
    ensures StepTo(m, rule, s, acc, res) <==>
            if res.Err? then CanFail(m, rule, s)
            else CanPass(m, rule, s) && res.value == acc + if Selects(m, rule, s) then PointerPaths(rule.paths) else {}
  {
    if RuleOutcome(m, rule.target, s, Differs) {
      NotSelected(m, rule, s);
    }
    assert acc + {} == acc;
    assert StepTo(m, rule, s, acc, res) <==>
      || (RuleOutcome(m, rule.target, s, Matches) && res == AfterRule(acc, rule, Matches))
      || (RuleOutcome(m, rule.target, s, Differs) && res == AfterRule(acc, rule, Differs))
      || (RuleOutcome(m, rule.target, s, Invalid) && res == AfterRule(acc, rule, Invalid));
  }

  lemma {:induction false} EvaluatesExactly(m: Matchers, rules: seq<IgnoreRule>, s: Subject, res: Result<PathSet>)
    ensures Evaluates(m, rules, s, res) <==>
            if res.Err? then exists rule | rule in rules :: CanFail(m, rule, s)
            else res.value == SelectedPaths(m, rules, s) && forall rule | rule in rules :: CanPass(m, rule, s)
    decreases |rules|
  {
    if rules == [] {
      assert SelectedPaths(m, rules, s) == {};
    } else {
      var init, last := rules[..|rules| - 1], rules[|rules| - 1];
      forall r ensures Evaluates(m, init, s, r) <==>
            if r.Err? then exists rule | rule in init :: CanFail(m, rule, s)
            else r.value == SelectedPaths(m, init, s) && forall rule | rule in init :: CanPass(m, rule, s)
      {
        EvaluatesExactly(m, init, s, r);
      }
      SelectedPathsAdd(m, init, last, s);
      StepExactly(m, last, s, SelectedPaths(m, init, s), res);
      assert rules == init + [last];
      assert forall rule :: rule in rules <==> rule in init || rule == last;
      SomeOutcome(m, init, s);
    }
  }

  /** Every rule can fail or pass, so every list of rules evaluates to something. */
  lemma SomeOutcome(m: Matchers, rules: seq<IgnoreRule>, s: Subject)
    ensures (exists rule | rule in rules :: CanFail(m, rule, s)) || forall rule | rule in rules :: CanPass(m, rule, s)
  {
    if rule :| rule in rules && !CanPass(m, rule, s) {
      OrderMattersExactly(m, rule, s);
    }
  }

  /** PossibleIgnoreSet holds of exactly the sets driftIgnoreSet can return, an error
      counting as the empty one. */
  lemma PossibleSetsExactly(m: Matchers, rules: seq<IgnoreRule>, s: Subject, w: PathSet)
    ensures PossibleIgnoreSet(m, rules, s, w) <==>
            Evaluates(m, rules, s, Ok(w)) || (w == {} && Evaluates(m, rules, s, Err))
  {
    EvaluatesExactly(m, rules, s, Ok(w));
    EvaluatesExactly(m, rules, s, Err);
  }

  /** The largest of the possible sets. */
  ghost function LargestIgnoreSet(m: Matchers, rules: seq<IgnoreRule>, s: Subject): PathSet {
    if forall rule | rule in rules :: CanPass(m, rule, s) then SelectedPaths(m, rules, s) else {}
  }

  /** Some rule can fail, and all can pass. */
  ghost predicate OrderDependent(m: Matchers, rules: seq<IgnoreRule>, s: Subject) {
    && (exists rule | rule in rules :: CanFail(m, rule, s))
    && (forall rule | rule in rules :: CanPass(m, rule, s))
  }

  lemma LargestIsPossible(m: Matchers, rules: seq<IgnoreRule>, s: Subject)
    ensures PossibleIgnoreSet(m, rules, s, LargestIgnoreSet(m, rules, s))
  {
    SomeOutcome(m, rules, s);
  }

  /** The order decides the set exactly when some rule can fail, all can pass, and they
      select a path; the other possible set is then the empty one. */
  lemma OrderDecidesSetExactly(m: Matchers, rules: seq<IgnoreRule>, s: Subject)
    ensures (exists v, w | PossibleIgnoreSet(m, rules, s, v) && PossibleIgnoreSet(m, rules, s, w) :: v != w) <==>
            OrderDependent(m, rules, s) && SelectedPaths(m, rules, s) != {}
    ensures OrderDependent(m, rules, s) ==> PossibleIgnoreSet(m, rules, s, {})
  {
    var all := SelectedPaths(m, rules, s);
    if OrderDependent(m, rules, s) && all != {} {
      assert PossibleIgnoreSet(m, rules, s, {}) && PossibleIgnoreSet(m, rules, s, all);
    }
  }

  // ---- An order-dependent rule ----

  /** `[` is no regular expression; other patterns differ from what they are tried on. */
  const SAMPLE_MATCHERS := Matchers(
    (pattern: string, value: string) => if pattern == "^(?:[)$" then Invalid else Differs,
    (expr: string, values: StringMap) => Matches)

  const SAMPLE_RULE := IgnoreRule(["/a"], map["name" := Str("["), "kind" := Str("Job")])

  /** Such a rule: an invalid name pattern next to a kind that differs. */
  lemma OrderCanMatter(s: Subject)
    ensures CanFail(SAMPLE_MATCHERS, SAMPLE_RULE, s)
    ensures CanPass(SAMPLE_MATCHERS, SAMPLE_RULE, s)
  {
    var m, target := SAMPLE_MATCHERS, SAMPLE_RULE.target;
    assert "name" in target && "kind" in target;
    NestedStringOne(Map(target), "name");
    NestedStringOne(Map(target), "kind");
    assert "^(?:" + "[" + ")$" == "^(?:[)$";
    assert ("^(?:" + "Job" + ")$")[4] == 'J' && "^(?:[)$"[4] == '[';
    assert PatternResult(m, target, "name", Patterns(s)["name"]) == Invalid;
    assert PatternResult(m, target, "kind", Patterns(s)["kind"]) == Differs;
    OrderMattersExactly(m, SAMPLE_RULE, s);
  }
}
