/** Facts about a request, a tree or the cache, read off them directly and in the
    documentation's own strings. The exact results are stated in these terms. */
module RequestFacts {
  import opened Wrappers
  import opened JsonValues
  import opened Labels
  import opened ServiceAccounts
  import opened Inventory
  import opened Admission

  // ---- Labels and annotations ----

  /** What a Go map read of the label gives. */
  predicate LabelReads(labels: StringMap, key: string, value: string) {
    if key in labels then labels[key] == value else value == ""
  }

  /** The labels name this owner; a Kustomization comes first. */
  predicate NamesOwner(labels: StringMap, kind: OwnerKind, name: string, namespace: string) {
    if kind == Kustomization then
      && "kustomize.toolkit.fluxcd.io/name" in labels && labels["kustomize.toolkit.fluxcd.io/name"] == name
      && LabelReads(labels, "kustomize.toolkit.fluxcd.io/namespace", namespace)
    else
      && "kustomize.toolkit.fluxcd.io/name" !in labels
      && "helm.toolkit.fluxcd.io/name" in labels && labels["helm.toolkit.fluxcd.io/name"] == name
      && LabelReads(labels, "helm.toolkit.fluxcd.io/namespace", namespace)
  }

  predicate NamesNobody(labels: StringMap) {
    "kustomize.toolkit.fluxcd.io/name" !in labels && "helm.toolkit.fluxcd.io/name" !in labels
  }

  /** The two annotations that switch protection off. */
  predicate Bypassed(annotations: StringMap) {
    && "fluxcd.io/drift-prevention-bypass" in annotations
    && annotations["fluxcd.io/drift-prevention-bypass"] == "disabled"
  }

  predicate ReconcileDisabled(annotations: StringMap) {
    && "kustomize.toolkit.fluxcd.io/reconcile" in annotations
    && annotations["kustomize.toolkit.fluxcd.io/reconcile"] == "disabled"
  }

  /** Protection is switched off where it was on. */
  predicate SwitchesOff(before: StringMap, after: StringMap) {
    (Bypassed(after) && !Bypassed(before)) || (ReconcileDisabled(after) && !ReconcileDisabled(before))
  }

  lemma SwitchesOffExactly(before: StringMap, after: StringMap)
    ensures ProtectionDisablingAnnotationAdded(before, after) <==> SwitchesOff(before, after)
  {
  }

  // ---- Identities ----

  /** The request carries the service account's token. */
  ghost predicate SignedInAs(user: UserInfo, namespace: string, name: string) {
    && user.username == "system:serviceaccount:" + (namespace + ":" + name)
    && ':' !in namespace && ':' !in name && "system:serviceaccounts" in user.groups
  }

  /** One of Flux's own controllers. */
  ghost predicate FluxCore(user: UserInfo, fluxNamespace: string) {
    || SignedInAs(user, fluxNamespace, "kustomize-controller")
    || SignedInAs(user, fluxNamespace, "helm-controller")
    || SignedInAs(user, fluxNamespace, "source-controller")
    || SignedInAs(user, fluxNamespace, "notification-controller")
    || SignedInAs(user, fluxNamespace, "image-reflector-controller")
    || SignedInAs(user, fluxNamespace, "image-automation-controller")
  }

  // ---- Owners in the cache ----

  /** The cache answers for this owner with this tree; it is not asked without a name or a
      namespace. */
  predicate Answers(owners: map<OwnerKey, Fields>, kind: OwnerKind, name: string, namespace: string, tree: Fields) {
    && name != "" && namespace != ""
    && OwnerKey(kind, namespace, name) in owners && owners[OwnerKey(kind, namespace, name)] == tree
  }

  predicate SetsAccount(tree: Fields, account: string) {
    && account != "" && "spec" in tree && tree["spec"].Map?
    && "serviceAccountName" in tree["spec"].fields && tree["spec"].fields["serviceAccountName"] == Str(account)
  }

  predicate HasEntries(tree: Fields, entries: seq<Value>) {
    && "status" in tree && tree["status"].Map?
    && "inventory" in tree["status"].fields && tree["status"].fields["inventory"].Map?
    && "entries" in tree["status"].fields["inventory"].fields
    && tree["status"].fields["inventory"].fields["entries"] == List(entries)
  }

  /** The owner can be read and its inventory lists these entries, some at least. */
  predicate HasInventory(store: Store, kind: OwnerKind, name: string, namespace: string, entries: seq<Value>) {
    && entries != [] && name != "" && namespace != "" && OwnerKey(kind, namespace, name) in store.evidenceOwners
    && HasEntries(store.evidenceOwners[OwnerKey(kind, namespace, name)], entries)
  }

  // ---- Requests ----

  /** The namespace is in scope: not one of the control plane's, and carrying the configured
      label, where one is configured and the namespace can be read. */
  predicate Watched(cfg: Config, store: Store, namespace: string) {
    || namespace == ""
    || (&& namespace != "kube-system" && namespace != "kube-public" && namespace != "kube-node-lease"
        && namespace != "flux-system"
        && (cfg.namespaceLabel != "" && namespace in store.scopeNamespaces ==>
              && cfg.namespaceLabel in store.scopeNamespaces[namespace].labels
              && (cfg.namespaceLabelValue != "" ==>
                    store.scopeNamespaces[namespace].labels[cfg.namespaceLabel] == cfg.namespaceLabelValue)))
  }

  /** The request is looked at: no subresource, not the admission API's own objects, and
      in scope. */
  predicate Looked(cfg: Config, store: Store, req: Request) {
    && req.subResource == "" && req.resourceGroup != "admissionregistration.k8s.io"
    && Watched(cfg, store, req.namespace)
  }

  /** The request is about an object with these metadata, on UPDATE with those before. */
  predicate About(req: Request, obj: ObjectMeta, before: ObjectMeta) {
    if req.operation.Delete? then req.oldObject.meta == Some(obj) && before == NO_META
    else req.newObject.meta == Some(obj) &&
         if req.operation.Update? then req.oldObject.meta == Some(before) else before == NO_META
  }

  /** The request is judged by this owner: the one its labels name, or on UPDATE else the
      one they named. */
  predicate JudgedBy(
    req: Request, obj: ObjectMeta, before: ObjectMeta, kind: OwnerKind, name: string, namespace: string)
  {
    || NamesOwner(obj.labels, kind, name, namespace)
    || (req.operation.Update? && NamesNobody(obj.labels) && NamesOwner(before.labels, kind, name, namespace))
  }

  /** The request's object: the metadata's own namespace and name, else the request's. */
  predicate IsObject(o: ObjectRef, req: Request, obj: ObjectMeta) {
    && o.group == req.group && o.kind == req.kind
    && o.namespace == (if obj.namespace == "" then req.namespace else obj.namespace)
    && o.name == (if obj.name == "" then req.name else obj.name)
  }

  /** The id an inventory lists an object by. */
  function IdOf(o: ObjectRef): string {
    var rbac :=
      && o.group == "rbac.authorization.k8s.io"
      && (o.kind == "Role" || o.kind == "ClusterRole" || o.kind == "RoleBinding" || o.kind == "ClusterRoleBinding");
    o.namespace + "_" + (if rbac then Transcoded(o.name) else o.name) + "_" + o.group + "_" + o.kind
  }

  ghost predicate Holds(entries: seq<Value>, id: string) {
    exists e | e in entries :: e.Map? && "id" in e.fields && e.fields["id"] == Str(id)
  }

  /** The namespace is going away. */
  predicate TornDown(store: Store, namespace: string) {
    && namespace != "" && namespace in store.teardownNamespaces
    && store.teardownNamespaces[namespace].deleting
  }
}
