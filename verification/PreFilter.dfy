/** The API server's pre-filter, as internal/controller/webhook_config.go configures it,
    and when dropping a request there changes no verdict. */
module PreFilter {
  import opened Wrappers
  import opened JsonValues
  import opened Labels
  import opened ServiceAccounts
  import opened Text
  import opened Admission
  import opened RequestFacts

  const CONTROL_PLANE_NAMESPACES: seq<string> := ["kube-system", "kube-public", "kube-node-lease"]

  datatype WebhookConfig = WebhookConfig(webhookNamespace: string, extraExcludedNamespaces: seq<string>)

  function AddNew(list: seq<string>, ns: string): seq<string> {
    if ns == "" || ns in list then list else list + [ns]
  }

  function AddAll(list: seq<string>, more: seq<string>): seq<string> {
    if more == [] then list
    else AddNew(AddAll(list, more[..|more| - 1]), more[|more| - 1])
  }

  function Excluded(w: WebhookConfig): seq<string> {
    AddAll(AddNew(CONTROL_PLANE_NAMESPACES, w.webhookNamespace), w.extraExcludedNamespaces)
  }

  method ExcludedNamespaces(w: WebhookConfig) returns (excluded: seq<string>)
    ensures excluded == Excluded(w)
  {
    excluded := CONTROL_PLANE_NAMESPACES;
    if w.webhookNamespace != "" && w.webhookNamespace !in excluded {
      excluded := excluded + [w.webhookNamespace];
    }
    var extras := w.extraExcludedNamespaces;
    for i := 0 to |extras|
      invariant excluded == AddAll(AddNew(CONTROL_PLANE_NAMESPACES, w.webhookNamespace), extras[..i])
    {
      assert extras[..i + 1][..i] == extras[..i];
      if extras[i] != "" && extras[i] !in excluded {
        excluded := excluded + [extras[i]];
      }
    }
    assert extras[..|extras|] == extras;
  }

  lemma {:induction false} AddAllKeeps(list: seq<string>, more: seq<string>)
    ensures list <= AddAll(list, more)
    ensures forall ns :: ns in AddAll(list, more) <==> ns in list || (ns in more && ns != "")
    ensures NoDuplicates(list) ==> NoDuplicates(AddAll(list, more))
  {
    if more != [] {
      var init, last := more[..|more| - 1], more[|more| - 1];
      AddAllKeeps(list, init);
      assert more == init + [last];
    }
  }

  /** The control plane first, then the webhook's namespace and the extras, each once. */
  lemma ExcludedContents(w: WebhookConfig)
    ensures CONTROL_PLANE_NAMESPACES <= Excluded(w) && NoDuplicates(Excluded(w))
    ensures forall ns :: ns in Excluded(w) <==>
              || ns in CONTROL_PLANE_NAMESPACES
              || (ns != "" && (ns == w.webhookNamespace || ns in w.extraExcludedNamespaces))
  {
    var c := CONTROL_PLANE_NAMESPACES;
    assert |c[0]| == 11 && |c[1]| == 11 && |c[2]| == 15 && c[0][5] == 's' && c[1][5] == 'p';
    AddAllKeeps(AddNew(c, w.webhookNamespace), w.extraExcludedNamespaces);
  }

  // ---- Selection ----

  /** One wildcard rule for the three operations; `*` names no subresource. */
  predicate RuleSelects(req: Request) {
    !req.operation.Other? && req.subResource == ""
  }

  /** The value of `kubernetes.io/metadata.name` on the namespace the request is
      matched by; none for cluster-scoped objects. */
  predicate NamespaceSelected(w: WebhookConfig, matched: Option<string>) {
    matched.None? || matched.value !in Excluded(w)
  }

  predicate Carries(p: Payload, key: string) {
    p.meta.Some? && key in p.meta.value.labels
  }

  /** The object selector looks at the old and at the new object; CREATE has no old
      one, DELETE no new one. */
  predicate ObjectSelected(req: Request, key: string) {
    || (!req.operation.Delete? && Carries(req.newObject, key))
    || (!req.operation.Create? && Carries(req.oldObject, key))
  }

  predicate MatchConditions(req: Request) {
    req.resourceGroup !in EXCLUDED_GROUPS
  }

  /** One of the two webhook entries selects the request. */
  predicate Selected(w: WebhookConfig, req: Request, matched: Option<string>) {
    && RuleSelects(req) && NamespaceSelected(w, matched) && MatchConditions(req)
    && (ObjectSelected(req, KUSTOMIZE_LABEL_NAME) || ObjectSelected(req, HELM_LABEL_NAME))
  }

  predicate IsNamespaceObject(req: Request) {
    req.group == "" && req.kind == "Namespace"
  }

  /** The object's own name: that of the deleted object on DELETE. */
  function OwnName(req: Request): string {
    var p := if req.operation.Delete? then req.oldObject else req.newObject;
    if p.meta.Some? then Or(p.meta.value.name, req.name) else req.name
  }

  /** The namespace whose labels the namespace selector is read against: a Namespace object
      is matched by its own labels, anything else by those of its namespace. */
  function MatchedNamespace(req: Request): Option<string> {
    if IsNamespaceObject(req) then Some(OwnName(req))
    else if req.namespace == "" then None
    else Some(req.namespace)
  }

  /** The two names can only differ where the metadata give none. */
  lemma MatchedExactly(req: Request, obj: ObjectMeta)
    requires (if req.operation.Delete? then req.oldObject.meta else req.newObject.meta) == Some(obj)
    ensures req.group == "" && req.kind == "Namespace" ==>
              MatchedNamespace(req) == Some(if obj.name == "" then req.name else obj.name)
    ensures !(req.group == "" && req.kind == "Namespace") ==>
              (MatchedNamespace(req) == Some(req.namespace) || (MatchedNamespace(req) == None && req.namespace == ""))
  {
  }

  /** A request for a Namespace object that does not carry the object's name as its
      namespace. */
  predicate Stray(req: Request) {
    IsNamespaceObject(req) && req.namespace != OwnName(req)
  }

  /** The namespaces the webhook is configured to leave alone. */
  predicate LeavesAlone(w: WebhookConfig, ns: string) {
    || ns == "kube-system" || ns == "kube-public" || ns == "kube-node-lease"
    || (ns != "" && (ns == w.webhookNamespace || ns in w.extraExcludedNamespaces))
  }

  predicate NamesSomebody(p: Payload) {
    p.meta.Some? && !NamesNobody(p.meta.value.labels)
  }

  /** The filter lets through exactly the creations, updates and deletions of objects that
      are, were or become Flux-labelled, outside of the admission API and of the namespaces
      left alone. */
  lemma SelectedExactly(w: WebhookConfig, req: Request, matched: Option<string>)
    ensures Selected(w, req, matched) <==>
            && !req.operation.Other? && req.subResource == "" && req.resourceGroup != "admissionregistration.k8s.io"
            && (matched.Some? ==> !LeavesAlone(w, matched.value))
            && (|| (!req.operation.Delete? && NamesSomebody(req.newObject))
                || (!req.operation.Create? && NamesSomebody(req.oldObject)))
  {
    ExcludedContents(w);
    assert EXCLUDED_GROUPS[0] == "admissionregistration.k8s.io";
    var c := CONTROL_PLANE_NAMESPACES;
    assert forall ns :: ns in c <==> ns == c[0] || ns == c[1] || ns == c[2];
  }

  ghost predicate OnlyHandlerExclusions(w: WebhookConfig) {
    forall ns | ns in Excluded(w) :: ns in EXCLUDED_NAMESPACES
  }

  /** A request the filter drops is one the handler allows. */
  lemma UnselectedIsAllowed(w: WebhookConfig, cfg: Config, store: Store, req: Request, waiver: PathSet)
    requires OnlyHandlerExclusions(w) && !Stray(req)
    requires ExtractRequestMetadata(req).Some? && !Selected(w, req, MatchedNamespace(req))
    ensures Evaluate(cfg, store, req, waiver).decision.allowed
  {
    UnselectedAt(w, cfg, store, req, waiver);
  }

  // ---- The condition is exact ----

  const NOBODY := UserInfo("", [])

  /** A Flux-labelled object nobody in particular creates. */
  function Creation(kind: string, ns: string, name: string): Request {
    var meta := NO_META.(name := name, labels := map[KUSTOMIZE_LABEL_NAME := "apps"]);
    Request(Create, "", "", "v1", kind, ns, name, "", NOBODY, Payload(Some(meta), None), Payload(None, None))
  }

  lemma CreationIsDenied(kind: string, ns: string, name: string)
    requires ns !in EXCLUDED_NAMESPACES
    ensures !Evaluate(ENFORCING, NO_STORE, Creation(kind, ns, name), {}).decision.allowed
  {
  }

  /** Filtering changes no verdict on requests that carry `ns` and are matched by
      `matched`. */
  ghost predicate TransparentAt(w: WebhookConfig, matched: Option<string>, ns: string) {
    forall cfg: Config, store: Store, req: Request, waiver: PathSet |
      && req.namespace == ns && MatchedNamespace(req) == matched
      && ExtractRequestMetadata(req).Some? && !Selected(w, req, matched) ::
      Evaluate(cfg, store, req, waiver).decision.allowed
  }

  /** Name by name: the verdicts survive exactly when the matched name is not excluded or
      the handler excludes the namespace the request carries. */
  lemma FilterTransparentAt(w: WebhookConfig, matched: Option<string>, ns: string)
    ensures TransparentAt(w, matched, ns) <==>
            matched.None? || matched.value !in Excluded(w) || ns in EXCLUDED_NAMESPACES
  {
    if matched.Some? && matched.value in Excluded(w) && ns !in EXCLUDED_NAMESPACES {
      var req := Creation("Namespace", ns, matched.value);
      ExcludedContents(w);
      CreationIsDenied("Namespace", ns, matched.value);
      assert MatchedNamespace(req) == matched && !Selected(w, req, matched);
      assert req.namespace == ns && ExtractRequestMetadata(req).Some?;
    } else {
      forall cfg: Config, store: Store, req: Request, waiver: PathSet |
        && req.namespace == ns && MatchedNamespace(req) == matched
        && ExtractRequestMetadata(req).Some? && !Selected(w, req, matched)
        ensures Evaluate(cfg, store, req, waiver).decision.allowed
      {
        UnselectedAt(w, cfg, store, req, waiver);
      }
    }
  }

  lemma UnselectedAt(w: WebhookConfig, cfg: Config, store: Store, req: Request, waiver: PathSet)
    requires ExtractRequestMetadata(req).Some? && !Selected(w, req, MatchedNamespace(req))
    requires NamespaceSelected(w, MatchedNamespace(req)) || req.namespace in EXCLUDED_NAMESPACES
    ensures Evaluate(cfg, store, req, waiver).decision.allowed
  {
    assert forall i | 0 <= i < |EXCLUDED_NAMESPACES| :: |EXCLUDED_NAMESPACES[i]| > 0;
  }

  /** Filtering changes no verdict, on requests that may be stray or not. */
  ghost predicate FilterIsTransparent(w: WebhookConfig, strays: bool) {
    forall cfg, store, req, waiver |
      (strays || !Stray(req)) && ExtractRequestMetadata(req).Some? && !Selected(w, req, MatchedNamespace(req)) ::
      Evaluate(cfg, store, req, waiver).decision.allowed
  }

  /** Filtering never changes a verdict if and only if it excludes no namespace the
      handler does not and no stray request is in play. */
  lemma FilterTransparentExactly(w: WebhookConfig, strays: bool)
    ensures FilterIsTransparent(w, strays) <==> OnlyHandlerExclusions(w) && !strays
  {
    if OnlyHandlerExclusions(w) && !strays {
      forall cfg, store, req, waiver |
        !Stray(req) && ExtractRequestMetadata(req).Some? && !Selected(w, req, MatchedNamespace(req))
        ensures Evaluate(cfg, store, req, waiver).decision.allowed
      {
        UnselectedIsAllowed(w, cfg, store, req, waiver);
      }
    } else if strays {
      MatchedElsewhere(w);
    } else {
      var ns :| ns in Excluded(w) && ns !in EXCLUDED_NAMESPACES;
      var req := Creation("ConfigMap", ns, "x");
      ExcludedContents(w);
      CreationIsDenied("ConfigMap", ns, "x");
      assert !Stray(req) && !Selected(w, req, MatchedNamespace(req));
    }
  }

  /** The default deployment filters transparently. */
  lemma DefaultFilterTransparent()
    ensures FilterIsTransparent(WebhookConfig("flux-system", []), false)
  {
    FilterTransparentExactly(WebhookConfig("flux-system", []), false);
  }

  /** A stray one: the creation of a Namespace with an excluded name, in a request without
      a namespace, is dropped by the filter and denied by the handler. */
  lemma MatchedElsewhere(w: WebhookConfig)
    ensures var req := Creation("Namespace", "", "kube-system");
            && Stray(req) && !Selected(w, req, MatchedNamespace(req))
            && !Evaluate(ENFORCING, NO_STORE, req, {}).decision.allowed
  {
    ExcludedContents(w);
    assert CONTROL_PLANE_NAMESPACES[0] == "kube-system";
    assert forall i | 0 <= i < |EXCLUDED_NAMESPACES| :: |EXCLUDED_NAMESPACES[i]| > 0;
    CreationIsDenied("Namespace", "", "kube-system");
  }
}
