# flux-drift-webhook: a model of its admission decision

flux-drift-webhook is a Kubernetes validating webhook. It decides whether a change to an
object that Flux applied may pass. This project models that decision and proves what it
protects, over single requests and over whole runs.

Run `dafny verify dfyconfig.toml` to check it.

## What is modelled

- **Trees and paths** (`JsonValues`, `Text`): JSON values as Go decodes them, field paths,
  the unstructured accessors, the string functions the code uses. A `fieldpath.Set` is a
  set of paths; `RecursiveDifference` drops every path at or below one of the other set;
  inserting the zero-length path does nothing (so the JSON pointer `""` waives nothing).
- **The field diff** (`FieldDiff`, `DiffStructure`, `DiffRoundTrip`): the recursive diff
  with its shared accumulator, arbitrary key order, fresh path buffers and depth limit.
- **Ownership and conflicts** (`ManagedFields`, `Conflicts`, `Protection`): the fields Flux
  applied, their overlap with an edit, the waiver, and what a permitted edit leaves alone.
- **JSON pointers and ignore rules** (`JsonPointer`, `IgnoreRules`): the regular-expression
  engine and the selector parser are parameters that answer match, no match or error. Map
  iteration order is arbitrary, so a rule is related to its possible outcomes.
- **Identities** (`ServiceAccounts`, `Inventory`): service-account usernames, the
  control-plane allow-list, inventory ids.
- **The decision** (`Labels`, `Admission`, `Handler`, `MetricsModel`): a decision function of
  configuration, cache answers, request and ignore set, and the handler class that computes
  it while it counts. Every cache read of a request may answer or fail on its own.
- **Facts about inputs** (`RequestFacts`): what labels, annotations, a username, an owner's
  tree, a request and the cache hold, read off them directly. `OwnerIdentity`, `RuleTargets`,
  `InventoryVeto`, `OperationRules` and `Verdicts` tie the decision to these facts: who owns
  and who passes as owner, what a rule selects, what a CREATE is checked against, and the
  reason of every decision in order of precedence.
- **Results over the decision** (`UpdateSafety`, `RunSafety`, `RunLimits`, `HelmLimits`,
  `RelabelLimits`, `Lifecycle`, `RuleOrder`, `OperationRules`, `InventoryVeto`, `Counting`, `AuditMode`, `OwnerCache`,
  `CacheRefinement`, `PreFilter`).

A request carries two decodings of each raw object, metadata and tree; either may fail.
Where labels matter to a result, `RunSafety.Faithful` states the assumption that both
decodings of one document agree on the labels.

Go visits a map in any order, so a request has possible ignore sets rather than one: a
handler draws one of them (`Admission.WaiverFor`), and another handler, or the same one
asked again, may draw another. The relation is exact in both directions
(`IgnoreRules.OutcomesAreOrders`, `IgnoreRules.PossibleSetsExactly`).

## Where the code is narrower than its documentation

The model follows the code. Each of these has its exact condition and an input that meets
everything else:

- The diff sees everything if and only if the maps both trees share below depth 50 are equal
  (`DiffRoundTrip.DiffPatchRoundTrip`, `CutOffTight`). After an admitted update the value at
  one path Flux owns is kept if and only if the maps hidden along or under that path agree
  (`UpdateSafety.AdmittedUpdateKeepsExactly`); hidden ones anybody may change
  (`RunLimits.DeepEditAdmitted`).
- An invalid pattern in a rule does not always "waive nothing": next to a pattern that
  differs, the rule is skipped or fails depending on map order
  (`IgnoreRules.OrderMattersExactly`, `OrderCanMatter`). That decides the ignore set if and
  only if some rule can fail, all can pass and they select a path
  (`IgnoreRules.OrderDecidesSetExactly`), the reason of a decision if and only if, besides,
  the selected paths cover the conflict (`RuleOrder.VerdictsDifferExactly`), and the answer
  if and only if nothing else speaks against the update (`RuleOrder.AnswersDifferExactly`,
  `RelabelLimits.OrderDecidesSomewhere`).
- So an audit and an enforcing handler do not always count alike, nor does the audit one
  always warn where the other denies: they do if and only if no call is of that kind
  (`AuditMode.AuditLockStep`, `AuditMode.AuditWarnsExactly`).
- A requester who is not the recorded owner's reconciler can pass as the owner's if and only
  if that requester is the reconciler of the shadow owner: the one the labels also name once
  an absent label and an empty one are taken for the same
  (`RunSafety.StrangersAreNotOwners`). A Kustomization with a name has none
  (`RunSafety.KustomizationRunSafe`); one with an empty name does, and its owner can change
  (`RunLimits.ShadowRenames`, `RunLimits.EmptyNameNotPinned`).
- A Kustomization label takes precedence over HelmRelease labels, and Flux's Helm controller
  does not set it; an empty one beside a Kustomization namespace label names a shadow owner.
  The recorded owner of a HelmRelease-labelled object stays if Flux keeps strangers away from
  both labels and that shadow's reconciler does not act (`RunSafety.HelmReleaseRunSafe`). All
  three are needed. If the name label is open, strangers may add it
  (`HelmLimits.HelmOwnerPinnedExactly`, `NameLabelNeeded`), after which the newly named owner's
  reconciler may rewrite Flux's fields (`HelmLimits.NewOwnerMayRewrite`). If the namespace
  label is open, a stranger chooses the shadow, and its reconciler then submits anything
  (`HelmLimits.ShadowChosen`, `NamespaceLabelNeeded`). And the shadow's reconciler that acts is
  let through (`RunLimits.ShadowRenames`).
- `reconcile: disabled` is said to leave HelmRelease-owned objects unaffected. But the
  annotation is read before the update and the kind of owner after it: on a HelmRelease object
  that carries it, an update by a stranger is admitted if and only if it names a Kustomization
  or passes the field check (`HelmLimits.ReconcileDisabledExactly`,
  `ReconcileDisabledNotIgnored`).
- The ignore rules are those of the owner the new labels name. An update that renames the
  owner is admitted if and only if that owner's rules cover what it touches and releases
  (`RelabelLimits.RelabelAdmittedExactly`, `RulesFollowNewLabels`); so whole-run safety asks
  that no ignore set a request is judged with covers the owner labels
  (`RunSafety.OwnsLabels`, `RunSafety.Ordinary`).
- Inventory ids identify objects up to the transcoding of RBAC names: an underscore in such a
  name can collide with a colon (`Inventory.IDExactly`, `Inventory.IDCollision`).
- The pre-filter changes no verdict if and only if it excludes no namespace the handler does
  not and no Namespace object comes in a request without its name as the namespace
  (`PreFilter.FilterTransparentExactly`, `PreFilter.MatchedElsewhere`); name by name,
  `PreFilter.FilterTransparentAt`.

## Model

| member | source | states |
|---|---|---|
| `FieldDiff.FieldSet.Insert` | internal/webhook/fields.go:102 | The accumulator gains exactly the inserted path, nothing for the zero-length one. |
| `FieldDiff.ComputeFieldDiff` | internal/webhook/fields.go:81-89 | The set of differing paths; empty when an object is nil. |
| `FieldDiff.DiffMaps` | internal/webhook/fields.go:91-116 | Adds the same set of paths to the shared accumulator in every key order, and terminates. |
| `FieldDiff.DiffRemoved` | internal/webhook/fields.go:109-115 | The second pass adds exactly the keys only the old map has. |
| `FieldDiff.DiffValues` | internal/webhook/fields.go:118-139 | Adds the path itself exactly when the values differ and are not both maps. |
| `FieldDiff.CopyAppend` | internal/webhook/fields.go:181-186 | A fresh buffer holding the prefix and the element; the prefix is untouched. |
| `FieldDiff.SlicesEqual` | internal/webhook/fields.go:141-151 | Decides deep equality of lists. |
| `FieldDiff.ValuesEqual` | internal/webhook/fields.go:153-176 | Decides deep equality of values, at any depth and in any key order. |
| `DiffStructure.DiffPointwise` | internal/webhook/fields.go:81-139 | A path is recorded iff it has at most 50 elements, its parent is a map in both trees and it leads to different values that are not both maps; recorded paths hold field names only. |
| `DiffStructure.DiffSymmetric` | internal/webhook/fields.go:81-139 | Swapping old and new gives the same set. |
| `DiffStructure.DiffAntichain` | internal/webhook/fields.go:81-139 | No recorded path is a proper prefix of another. |
| `DiffRoundTrip.DiffPatchRoundTrip` | internal/webhook/fields.go:81-139 | Replacing or deleting in the old tree, at exactly the recorded paths, what the new tree has gives the new tree, iff the maps shared below 50 levels are equal; so always for maps nested at most 50 levels. |
| `DiffRoundTrip.DiffEmptyExactly` | internal/webhook/fields.go:78-89 | Above the cut-off, nothing is recorded iff the trees are equal. |
| `DiffRoundTrip.CutOffTight` | internal/webhook/fields.go:91-94 | Trees that differ only in a map under 50 maps have an empty diff. |
| `ManagedFields.FluxManagedFields` | internal/webhook/fields.go:44-67 | The union over exactly the Apply entries of a Flux manager; an error iff one of those is malformed. |
| `ManagedFields.FluxFieldsExactly` | internal/webhook/fields.go:44-76 | A path is Flux's iff an Apply entry of kustomize-controller or helm-controller, by name or name with a version, holds it; that cannot be told iff such an entry is malformed. |
| `ManagedFields.FluxFieldsSameEntries` | internal/webhook/fields.go:47-64 | Order, repetition and other managers' entries do not matter. |
| `Conflicts.ConflictMembers` | internal/webhook/fields.go:207-218 | A path conflicts iff it is the longer of a modified and a Flux path one of which is a prefix of the other. |
| `Conflicts.VerdictPointwise` | internal/webhook/fields.go:207-235 | Nothing is left after waiving iff every such longer path has an ignored prefix; the conflict is symmetric. |
| `Conflicts.VerdictMonotone` | internal/webhook/fields.go:207-235 | Fewer edits, fewer Flux paths or more ignored paths keep an empty verdict empty. |
| `Conflicts.WaiveTwice` | internal/webhook/fields.go:227-235 | Waiving two sets in turn is waiving their union. |
| `Conflicts.NilIsEmpty` | internal/webhook/fields.go:207-235 | A nil set counts like the empty one, in the conflict and in the waiver. |
| `Protection.FluxValueKeptExactly` | internal/webhook/fields.go:194-235 | A permitted edit keeps the pruned value at a Flux path with no ignored prefix iff the maps the diff does not see along or under the path agree. |
| `Protection.FluxValueKept` | internal/webhook/fields.go:194-235 | A permitted edit keeps the value at every Flux path with no ignored prefix, once ignored subtrees are pruned. |
| `Protection.ListKept` | internal/webhook/fields.go:125-131 | A permitted edit leaves a list deep-equal when Flux owns a member of it that is not ignored. |
| `Protection.PointersStopAtLists` | internal/webhook/ignore.go:91-96 | Field-name paths cover a list member iff they cover the list. |
| `JsonPointer.JsonPointerToPath` | internal/webhook/ignore.go:97-112 | Rejects exactly the non-empty pointers without a leading slash; otherwise one field per segment. |
| `JsonPointer.UnescapeIsOneScan` | internal/webhook/ignore.go:114-120 | On every string the two replacement passes equal one left-to-right decoding scan (section 4 of RFC 6901). |
| `JsonPointer.PointerRoundTrip` | internal/webhook/ignore.go:97-120 | Any field names, rendered as an escaped pointer (section 3 of RFC 6901), come back. |
| `JsonPointer.PointerRecovered` | internal/webhook/ignore.go:97-120 | Every syntactically valid pointer is recovered from its path. |
| `IgnoreRules.ParseIgnoreRules` | internal/webhook/ignore.go:40-60 | The rules of the well-formed entries that list a path, in order. |
| `IgnoreRules.RuleMatchesObject` | internal/webhook/ignore.go:129-155 | One of the outcomes the rule can have over all iteration orders. |
| `IgnoreRules.IgnoreSetForObject` | internal/webhook/ignore.go:65-89 | Fails only if some rule can fail; otherwise exactly the non-empty paths of the selecting rules. |
| `IgnoreRules.OutcomesAreOrders` | internal/webhook/ignore.go:129-155 | The outcomes of a rule are exactly those of some order in which the five patterns are visited. |
| `IgnoreRules.PossibleSetsExactly` | internal/webhook/ignore.go:65-89 | The sets driftIgnoreSet can return are exactly: the selected paths when every rule can pass, the empty set when some rule can fail. |
| `IgnoreRules.OrderMattersExactly` | internal/webhook/ignore.go:143-149 | A rule's outcome depends on the order iff one pattern is invalid and another differs; some outcome always exists. |
| `IgnoreRules.OrderDecidesSetExactly` | internal/webhook/ignore.go:65-89 | Map order decides the ignore set iff some rule can fail, all can pass and they select a path; the other set is then empty. |
| `IgnoreRules.OrderCanMatter` | internal/webhook/ignore.go:139-149 | Such a rule exists. |
| `IgnoreRules.WellFormedRulesDecide` | internal/webhook/ignore.go:65-155 | With valid patterns, selectors and pointers the set is the selected paths in every order. |
| `RuleTargets.RulesExactly` | internal/webhook/ignore.go:40-60 | The rules are those entries of the owner's spec.ignore that are objects with a non-empty list of strings as paths. |
| `RuleTargets.OutcomeExactly` | internal/webhook/ignore.go:129-155 | What a target says of the request's object: five anchored patterns on its group, version, kind, name and namespace, then the label and the annotation selector, on what the object was before. |
| `RuleTargets.SelectedExactly` | internal/webhook/ignore.go:65-89 | A path is selected iff a pointer of an entry whose target says so stands for it. |
| `RuleTargets.OneRuleDrawn` | internal/webhook/handler.go:773-803 | With one rule, a conflicting update can be judged with its paths iff its target says so. |
| `RuleTargets.PatternTarget` | internal/webhook/ignore.go:135-149 | A target with one pattern selects by that pattern on the one value it is for. |
| `RuleTargets.SelectorTarget` | internal/webhook/ignore.go:151-154 | A target with one selector selects by the labels or the annotations. |
| `ServiceAccounts.ParseExactly` | internal/webhook/auth.go:30-45 | A service account is parsed iff the username is its one canonical spelling and the group is present. |
| `Text.TrimExactly` | cmd/webhook/main.go:380-388 | Trimming takes away the space around a token, all of it and nothing else. |
| `ServiceAccounts.SplitCSV` | cmd/webhook/main.go:380-388 | The trimmed non-empty tokens, in order. |
| `ServiceAccounts.CSVRoundTrip` | cmd/webhook/main.go:380-388 | Trimmed comma-free tokens survive joining and splitting; every list yields such tokens. |
| `ServiceAccounts.MergeSystemControllerSAs` | cmd/webhook/main.go:400-428 | An error iff a token that is not a default is invalid; otherwise the defaults followed by the new tokens. |
| `ServiceAccounts.ExtendKeeps` | cmd/webhook/main.go:400-428 | The defaults stay as a prefix, nothing is lost, invented or repeated. |
| `ServiceAccounts.ExtendInOrder` | cmd/webhook/main.go:406-426 | New entries come in the order of their first appearance. |
| `ServiceAccounts.ValidEntryExactly` | cmd/webhook/main.go:400-428 | An entry is accepted iff it is a reserved username that is no service account's, or a namespace and a name, neither empty, around the one colon. |
| `ServiceAccounts.CanonicalInjective` | internal/webhook/auth.go:65-69 | Two accepted entries never stand for the same username. |
| `ServiceAccounts.RecognitionExact` | internal/webhook/auth.go:70-102 | A user is recognised iff the username is the canonical form of an entry, with the group for shorthands. |
| `ServiceAccounts.MergedListRecognises` | cmd/webhook/main.go:400-428 | All of this for every list the flag accepts. |
| `ServiceAccounts.DefaultsExactly` | internal/webhook/auth.go:70-102 | With nothing configured, the control plane is the API server, the controller manager, and six service accounts of kube-system with the group. |
| `OwnerIdentity.OwnerNamedExactly` | internal/webhook/labels.go:39-60 | The owner an object's labels name, from the label entries; a Kustomization comes first. |
| `OwnerIdentity.OwningExactly` | internal/webhook/handler.go:290-338 | The owner's reconciler is, by username and group, one of Flux's six controllers in the Flux namespace, the account in the owner's spec.serviceAccountName in the owner's namespace, or, without a readable one, `flux-reconciler` there. |
| `OwnerIdentity.ReachesChecks` | internal/webhook/handler.go:68-129 | A request in scope about an object with an owner, by its labels or on UPDATE else the labels before, is decided by the checks for that owner. |
| `Inventory.InventoryContains` | internal/webhook/handler.go:554-567 | Finds the id iff a well-formed entry holds it; malformed entries are skipped. |
| `Inventory.IDExactly` | internal/webhook/handler.go:576-586 | Ids are equal iff namespace, group, kind and encoded name are, when the first three hold no underscore. |
| `Inventory.IDInjective` | internal/webhook/handler.go:570-586 | Ids are injective when RBAC names hold no underscore either. |
| `Inventory.IDCollision` | internal/webhook/handler.go:579-586 | In an RBAC name, a colon and a double underscore give the same id. |
| `InventoryVeto.VetoById` | internal/webhook/handler.go:499-568 | With status.inventory.entries to consult, a non-owner's CREATE is denied iff an entry is an object whose id is the namespace, name (transcoded for the four RBAC kinds), group and kind of the object, whatever the owner references, annotations or requester. |
| `InventoryVeto.VetoExactly` | internal/webhook/handler.go:499-586 | With distinguishable names, denied iff the object is one of the inventory's. |
| `OperationRules.CreateReason` | internal/webhook/handler.go:499-534 | The reason of every CREATE that reaches the checks, in order of precedence. |
| `OperationRules.CreateDeniedExactly` | internal/webhook/handler.go:210-586 | A CREATE is denied iff it is not by the owner's reconciler and the inventory holds the object, or there is no inventory and nothing vouches for the object. |
| `OperationRules.UpdateReason` | internal/webhook/handler.go:661-763 | The reason of every UPDATE that reaches the checks, in order of precedence, the field check said on the sets of paths. |
| `OperationRules.UpdateDeniedExactly` | internal/webhook/handler.go:210-275 | An UPDATE is denied iff the owner's reconciler changes how an owner label reads, or somebody else's edit, no annotation having switched protection off, is not acceptable path by path. |
| `OperationRules.SwitchingOffDeniedExactly` | internal/webhook/labels.go:80-92 | A non-owner's UPDATE that sets either annotation to `disabled` from another value is denied for that, iff Flux applied the object. |
| `OperationRules.DeleteReason` | internal/webhook/handler.go:620-652 | The reason of every DELETE that reaches the checks, in order of precedence. |
| `OperationRules.DeleteDeniedExactly` | internal/webhook/handler.go:210-249 | The exact condition for denying a DELETE, over all requesters. |
| `OperationRules.TeardownExactly` | internal/webhook/handler.go:588-612 | A namespace known to be going away lets a deletion through; one known not to be counts like one that cannot be read; nothing else depends on it. |
| `Verdicts.EarlyReasons` | internal/webhook/handler.go:80-122 | The five reasons before the checks, each iff it applies; scope follows the excluded namespaces and the configured label, an unreadable namespace being in scope. |
| `Verdicts.OtherReason` | internal/webhook/handler.go:454-473 | The reason for any other operation. |
| `Verdicts.ConflictExactly` | internal/webhook/handler.go:251-283 | An ownership conflict is counted iff the owner's reconciler relabels; for the object's kind, from the owner recorded before to the one judged by. |
| `Verdicts.LookupErrorsExactly` | internal/webhook/handler.go:341-365 | Lookup errors are counted iff a named owner is not in the cache, once for identity and once for inventory or rules; and rules are consulted iff the update meets what Flux owns. |
| `UpdateSafety.UpdateAdmittedExactly` | internal/webhook/handler.go:661-763 | The field check admits iff Flux owns nothing, or no protection-disabling annotation is added, every overlap is ignored and every Flux path not ignored is still Flux's. |
| `UpdateSafety.AdmittedUpdateKeepsExactly` | internal/webhook/handler.go:704-762 | After an admitted update the pruned value at a Flux path that is not ignored is the same iff the hidden maps along or under it agree. |
| `UpdateSafety.AdmittedUpdateKeeps` | internal/webhook/handler.go:704-762 | After an admitted update every Flux path that is not ignored is still Flux's and has the same pruned value. |
| `UpdateSafety.NoConflictKeepsEverything` | internal/webhook/handler.go:753-762 | With reason `allowed_no_field_conflict` the new Flux set contains the old one and no edit overlaps it. |
| `UpdateSafety.AdmittedUpdateKeepsList` | internal/webhook/handler.go:704-728 | Owning one member protects the whole list. |
| `UpdateSafety.RulesStopAtLists` | internal/webhook/handler.go:773-803 | An ignore rule covers a list member iff it covers the list. |
| `RunSafety.StepKeeps` | internal/webhook/handler.go:661-763 | One attempt, admitted or not, keeps the whole-run invariant. |
| `RunSafety.RunKeepsFluxFields` | internal/webhook/handler.go:661-763 | For either owner kind, over any run of attempts not taken for the owner's, Flux's paths, their values, the lists they lie in, the owner labels and protection stay. |
| `RunSafety.StrangersAreNotOwners` | internal/webhook/handler.go:829-848 | Nothing a stranger submits passes as the owner's, iff that stranger is not the shadow owner's reconciler either. |
| `RunSafety.OwnerRunSafe` | internal/webhook/handler.go:114-763 | For either owner kind, over any run of attempts by strangers, the owner, protection, and everything Flux owns and does not ignore stay; given that no attempt is by the shadow owner of that moment and, for a HelmRelease, that Flux keeps the Kustomization name label out. |
| `RunSafety.PinnedRunSafe` | internal/webhook/handler.go:114-763 | The same, and the shadow owner stays too, from conditions on the start: Flux keeps strangers away from the labels the shadow is read from, and its reconciler does not act. |
| `RunSafety.KustomizationRunSafe` | internal/webhook/handler.go:114-763 | A Kustomization with a name needs neither. |
| `RunSafety.HelmReleaseRunSafe` | internal/webhook/labels.go:39-60 | A recorded HelmRelease stays over any run when Flux keeps strangers away from both Kustomization labels, and the fallback reconciler of the namespace the second one names at the start does not act. |
| `Lifecycle.DeletionAdmittedExactly` | internal/webhook/handler.go:210-249 | An armed object that Flux applied can be deleted iff by its owner's reconciler, by the control plane, or when it or its namespace is going away already. |
| `Lifecycle.RemovedExactly` | internal/webhook/handler.go:210-249 | In one step it goes away iff by such a deletion. |
| `Lifecycle.CreatedExactly` | internal/webhook/handler.go:499-568 | What a readable inventory decides on comes to be iff it is not listed. |
| `Lifecycle.ObjectSurvives` | internal/webhook/handler.go:114-763 | Over any run of creations, updates and deletions by strangers, without such an excuse, the object still exists, with its owner, protection and Flux's values. |
| `RunLimits.ShadowRenames` | internal/webhook/handler.go:829-848 | The shadow owner's reconciler may make it the recorded owner, whatever else it submits. |
| `RunLimits.EmptyNameNotPinned` | internal/webhook/labels.go:41-60 | With an empty name, all other hypotheses of whole-run safety do not keep the owner. |
| `HelmLimits.AddedLabelsAdmittedExactly` | internal/webhook/handler.go:704-728 | Adding labels is admitted from a stranger iff Flux keeps none of them out. |
| `HelmLimits.AddedLabelsAdmittedWithin` | internal/webhook/handler.go:704-728 | Within a bound on ignore sets, some of them admits the addition iff Flux keeps none of the labels out under the bound. |
| `HelmLimits.HelmOwnerPinnedExactly` | internal/webhook/labels.go:39-60 | A stranger's addition of a Kustomization label, which changes the recorded HelmRelease, can be admitted iff Flux keeps none of the added labels out, given the most that the newly named owner's rules can ignore. |
| `HelmLimits.NameLabelNeeded` | internal/webhook/labels.go:39-60 | An input: with only the namespace label kept out, the owner is lost. |
| `HelmLimits.ShadowChosen` | internal/webhook/handler.go:290-318 | Whether or not the name label is kept out: a stranger adds the namespace label, and the fallback reconciler of that namespace submits an empty name label with any content. |
| `HelmLimits.NamespaceLabelNeeded` | internal/webhook/handler.go:829-848 | An input: with only the name label kept out, the owner is lost. |
| `HelmLimits.ReconcileDisabledExactly` | internal/webhook/handler.go:430-452 | On a HelmRelease object with `reconcile: disabled`, a stranger's update is admitted iff it carries the Kustomization name label or passes the field check. |
| `HelmLimits.ReconcileDisabledNotIgnored` | internal/webhook/handler.go:430-452 | An input: somebody changes a value Flux owns and no rule ignores. |
| `HelmLimits.NewOwnerMayRewrite` | internal/webhook/handler.go:290-318 | After labels naming another owner were added, that owner's reconciler may submit any object with those labels. |
| `RunLimits.DeepEditAdmitted` | internal/webhook/fields.go:91-94 | A value Flux owns below 50 shared maps may be changed by anybody. |
| `RelabelLimits.RelabelAdmittedExactly` | internal/webhook/handler.go:114-119 | An update that changes the owner labels can be admitted iff the requester is not the newly named owner's reconciler and that owner's rules cover every overlap and every released path. |
| `RelabelLimits.RulesFollowNewLabels` | internal/webhook/handler.go:773-803 | A stranger renames an owner that ignores nothing, with the rules of the named owner; all other hypotheses of whole-run safety hold. |
| `RelabelLimits.OrderCanDecideAnswer` | internal/webhook/ignore.go:139-149 | Whatever rule with a path leaves its outcome to the order for an object of the model: there is a request for that object that two handlers can answer differently. |
| `RelabelLimits.OrderDecidesSomewhere` | internal/webhook/ignore.go:139-149 | Such a rule and such a request exist. |
| `RuleOrder.DrawsExactly` | internal/webhook/handler.go:722-728 | A consulted request is judged with the most the rules can ignore or, when the order is open, with nothing; no other set. |
| `RuleOrder.VerdictsDifferExactly` | internal/webhook/handler.go:704-762 | Two possible verdicts differ iff some rule can fail, all can pass and the selected paths cover the conflict. |
| `RuleOrder.AnswersDifferExactly` | internal/webhook/handler.go:704-762 | Two possible answers differ iff, besides, the update is acceptable with the selected paths. |
| `RuleOrder.AdmissibleExactly` | internal/webhook/handler.go:704-762 | Some draw admits iff the largest does; every draw does iff the order does not decide the answer. |
| `Counting.FlagMatchesReason` | internal/webhook/reasons.go:25-52 | Every decision's flag agrees with the class of its reason. |
| `Counting.CountersConserved` | internal/metrics/metrics.go:129-137 | Over any run, requests sum to the calls, and denials to the requests with a denied reason, per operation. |
| `Counting.ConflictsConserved` | internal/metrics/metrics.go:139-145 | Ownership conflicts sum to the requests denied for them. |
| `Counting.Serve` | internal/webhook/handler.go:68-129 | A handler that serves a run answers and counts as the decision function says, with ignore sets it can draw. |
| `AuditMode.AuditLockStep` | internal/webhook/handler.go:167-198 | Audit and enforcing handlers, each drawing its own ignore sets, count alike after every call of a run iff no call leaves its reason to map order. |
| `AuditMode.AuditWarnsExactly` | internal/webhook/handler.go:167-198 | The audit handler never denies; it warns exactly where the other denies iff map order does not decide the answer. |
| `MetricsModel.Metrics.RecordRequest` | internal/metrics/metrics.go:129-131 | One series goes up by one. |
| `MetricsModel.Metrics.RecordDenial` | internal/metrics/metrics.go:135-137 | One series goes up by one. |
| `MetricsModel.Metrics.RecordOwnershipConflict` | internal/metrics/metrics.go:143-145 | One series goes up by one. |
| `MetricsModel.Metrics.RecordOwnerLookupError` | internal/metrics/metrics.go:150-155 | One series goes up by one. |
| `Handler.DriftPreventionHandler.Handle` | internal/webhook/handler.go:68-129 | Answers and counts as the decision function says, for an ignore set the owner's rules can give. |
| `Handler.DriftPreventionHandler.BuildResponse` | internal/webhook/handler.go:167-198 | Response and both counters, in either mode. |
| `Handler.DriftPreventionHandler.CheckBypass` | internal/webhook/handler.go:210-249 | The decision for a managed object, with the conflict and lookup errors counted. |
| `Handler.DriftPreventionHandler.CheckExemption` | internal/webhook/handler.go:222-246 | The exemption, from the state before the request only. |
| `Handler.DriftPreventionHandler.OperationDecision` | internal/webhook/handler.go:454-473 | The decision by operation. |
| `Handler.DriftPreventionHandler.CheckFluxOwnership` | internal/webhook/handler.go:251-275 | The ownership decision and its conflict count. |
| `Handler.DriftPreventionHandler.GetOwner` | internal/webhook/handler.go:341-365 | The owner, and one lookup error iff it is named but unreadable. |
| `Handler.DriftPreventionHandler.IsOwningFluxReconciler` | internal/webhook/handler.go:290-318 | Whether the requester is the owner's reconciler, and the lookup error counted. |
| `Handler.DriftPreventionHandler.CheckDerivedResourceCreate` | internal/webhook/handler.go:499-534 | The CREATE decision. |
| `Handler.DriftPreventionHandler.OwnerInventoryContains` | internal/webhook/handler.go:540-568 | Availability and membership in the inventory. |
| `Handler.DriftPreventionHandler.CheckDeleteManaged` | internal/webhook/handler.go:620-652 | The DELETE decision. |
| `Handler.DriftPreventionHandler.CheckUpdateFieldConflict` | internal/webhook/handler.go:661-763 | The UPDATE decision; rules are consulted only on a conflict. |
| `Handler.DriftPreventionHandler.DriftIgnoreSet` | internal/webhook/handler.go:773-803 | A set the rules can give, empty when anything is unreadable. |
| `OwnerCache.StripOwnerForCache` | internal/webhook/cache.go:102-121 | A fresh object: identity without managed fields, plus the read fields of spec and status; the input loses its managed fields too. |
| `OwnerCache.TransformForCache` | internal/webhook/cache.go:58-63 | Owners are replaced by their stripped image, anything else loses its managed fields in place. |
| `OwnerCache.CopyFields` | internal/webhook/cache.go:126-143 | The section appears only with a field in it. |
| `OwnerCache.CacheTransformExactly` | internal/webhook/cache.go:58-73 | Below the top level, a Kustomization or HelmRelease of the handled version keeps exactly the kept fields, anything else everything but metadata.managedFields. |
| `OwnerCache.CacheKeepsReads` | internal/webhook/cache.go:58-63 | Every read of an owner is unchanged by the cache, malformed sections included. |
| `OwnerCache.StripTwice` | internal/webhook/cache.go:97-121 | Stripping twice is stripping once. |
| `OwnerCache.StripExactly` | internal/webhook/cache.go:89-121 | Below the top level, exactly the paths under the kept fields lead anywhere, and to what they led to. |
| `CacheRefinement.CacheRefines` | internal/webhook/cache.go:44-63 | Every request gets the same verdict and counts, and has the same possible ignore sets, from cached owners. |
| `PreFilter.ExcludedNamespaces` | internal/controller/webhook_config.go:231-241 | The exclusion list the loop builds. |
| `PreFilter.ExcludedContents` | internal/controller/webhook_config.go:225-241 | Control plane first; exactly the built-in, own and extra namespaces, each once. |
| `PreFilter.SelectedExactly` | internal/controller/webhook_config.go:157-283 | The filter lets through exactly creations, updates and deletions of objects Flux-labelled before or after, outside of the admission API and the namespaces left alone. |
| `PreFilter.UnselectedIsAllowed` | internal/controller/webhook_config.go:157-283 | A request with readable metadata that the filter drops is allowed by the handler, when only the handler's exclusions are configured and the request is not stray. |
| `PreFilter.FilterTransparentAt` | internal/controller/webhook_config.go:202-241 | For requests matched by one namespace and carrying another, the verdicts survive the filter iff the first is not excluded or the handler excludes the second. |
| `PreFilter.FilterTransparentExactly` | internal/controller/webhook_config.go:202-241 | Filtering changes no verdict iff it excludes only namespaces the handler excludes and no stray request is in play. |
| `PreFilter.DefaultFilterTransparent` | internal/config/config.go:106-111 | The default deployment filters transparently. |
| `PreFilter.MatchedElsewhere` | internal/controller/webhook_config.go:202-210 | The creation of a Namespace with an excluded name, in a request without a namespace, is dropped and would be denied. |

## Left out

- Handler.DriftPreventionHandler.Handle: message texts, log lines, the latency timer and a nil client are not modelled; a read that times out is one that fails.
- OwnerCache.StripOwnerForCache: trees are values held by an object; that nested maps other than `metadata` are shared between input and result is not captured. An input that is not an unstructured object, passed through by the code, is not modelled.
- MetricsModel.Metrics.RecordOwnerLookupError: the method does nothing on a nil receiver, which exists for tests; here the receiver always exists.
- FieldDiff.DiffMaps: its second loop is the separate method DiffRemoved, which the code writes inline.
- Text.TrimExactly: what counts as space is the table of Go's `unicode` package, given here as `Text.IsSpace`.
- IgnoreRules.RuleMatchesObject: the regular-expression engine and the selector parser are parameters, with nothing assumed of them.
- ManagedFields.FluxManagedFields: decoding a fieldsV1 document is a given outcome (absent, malformed, a set of paths); the trie inside `fieldpath.Set` is library code.
- RunSafety.OwnerRunSafe: ignore sets that cover the owner labels, acting shadow owners and differences hidden below depth 50 are excluded by hypothesis; RunLimits, HelmLimits and RelabelLimits show why.
- Lifecycle.ObjectSurvives: that an update cannot set a deletion timestamp, and that only existing objects are updated or deleted, is the API server's doing and assumed; a deletion that waits for finalizers counts as done.
- Counting.Serve: hands a handler its requests one after the other; concurrent requests are not modelled, as they share nothing but the counters.
- PreFilter.Selected: selection follows the rules, the two selectors and the match conditions, with the namespace selector read against the object's own name for a Namespace object and against the request's namespace otherwise (how the API server does it is not part of the repository), and the match conditions read by their meaning; match policy, failure policy and timeouts are not part of this model.
- JSON decoding and its quirks (case-insensitive keys, number ranges): payloads start from their two decodings, and numbers are reals.
- Reconciling and applying the webhook configuration, Events, leader election, TLS, probes, informer warm-up, flags and environment.
- `HasFluxManagedFieldConflict`, `CachedObjectTypes` and `ownerGVKs`: used by tests or start-up only.
