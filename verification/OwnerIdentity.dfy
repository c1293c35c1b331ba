/** Who owns an object, and who passes as its owner: exactly, from the labels, the
    username and the owner's tree. */
module OwnerIdentity {
  import opened Wrappers
  import opened JsonValues
  import opened Labels
  import opened ServiceAccounts
  import opened OwnerCache
  import opened Admission
  import opened RequestFacts

  /** The owner an object's labels name. */
  lemma OwnerNamedExactly(labels: StringMap, kind: OwnerKind, name: string, namespace: string)
    ensures GetFluxManagementInfo(labels) == Managed(kind, name, namespace) <==>
            NamesOwner(labels, kind, name, namespace)
    ensures GetFluxManagementInfo(labels).Unmanaged? <==> NamesNobody(labels)
  {
  }

  /** The metadata a request is judged by, and whether there are any. */
  lemma MetadataExactly(req: Request, obj: ObjectMeta, before: ObjectMeta)
    ensures ExtractRequestMetadata(req) == Some((obj, before)) <==> About(req, obj, before)
    ensures ExtractRequestMetadata(req).Some? <==>
            if req.operation.Delete? then req.oldObject.meta.Some?
            else req.newObject.meta.Some? && (req.operation.Update? ==> req.oldObject.meta.Some?)
  {
  }

  lemma ScopeExactly(cfg: Config, store: Store, namespace: string)
    ensures ShouldProcessNamespace(cfg, store, namespace) <==> Watched(cfg, store, namespace)
  {
    var e := EXCLUDED_NAMESPACES;
    assert namespace in e <==> namespace == e[0] || namespace == e[1] || namespace == e[2] || namespace == e[3];
  }

  // ---- The owner's reconciler ----

  lemma AccountRead(tree: Fields, account: string)
    ensures ServiceAccountNameOf(tree) == account && account != "" <==> SetsAccount(tree, account)
  {
    assert ["spec", "serviceAccountName"] == ["spec"] + ["serviceAccountName"];
    assert ["serviceAccountName"] == ["serviceAccountName"] + [];
    NestedStep(Map(tree), "spec", ["serviceAccountName"]);
    if "spec" in tree {
      NestedStep(tree["spec"], "serviceAccountName", []);
    }
  }

  lemma SignedInExactly(user: UserInfo)
    ensures forall namespace, name ::
              ParseServiceAccount(user) == Some(ServiceAccount(namespace, name)) <==> SignedInAs(user, namespace, name)
  {
    forall namespace, name
      ensures ParseServiceAccount(user) == Some(ServiceAccount(namespace, name)) <==> SignedInAs(user, namespace, name)
    {
      ParseExactly(user, ServiceAccount(namespace, name));
    }
  }

  lemma CoreExactly(user: UserInfo, fluxNamespace: string)
    ensures IsFluxController(user, fluxNamespace) <==> FluxCore(user, fluxNamespace)
  {
    SignedInExactly(user);
    var f := FLUX_SERVICE_ACCOUNTS;
    assert forall name :: name in f <==>
      name == f[0] || name == f[1] || name == f[2] || name == f[3] || name == f[4] || name == f[5];
    if ParseServiceAccount(user).Some? {
      var sa := ParseServiceAccount(user).value;
      assert sa == ServiceAccount(sa.namespace, sa.name);
    }
  }

  /** The user is the owner's reconciler exactly as one of Flux's own controllers, as the
      account the owner's spec names, in the owner's namespace, or, when that cannot be read
      or names none, as `flux-reconciler` there. */
  ghost predicate Reconciles(
    cfg: Config, store: Store, user: UserInfo, kind: OwnerKind, name: string, namespace: string)
  {
    || FluxCore(user, cfg.fluxNamespace)
    || (exists tree, account :: Answers(store.identityOwners, kind, name, namespace, tree) &&
          SetsAccount(tree, account) && SignedInAs(user, namespace, account))
    || ((forall tree, account ::
           !(Answers(store.identityOwners, kind, name, namespace, tree) && SetsAccount(tree, account))) &&
        SignedInAs(user, namespace, "flux-reconciler"))
  }

  lemma OwningExactly(cfg: Config, store: Store, user: UserInfo, kind: OwnerKind, name: string, namespace: string)
    ensures OwningFluxReconciler(cfg, store, user, Managed(kind, name, namespace)) <==>
            Reconciles(cfg, store, user, kind, name, namespace)
  {
    var info := Managed(kind, name, namespace);
    CoreExactly(user, cfg.fluxNamespace);
    SignedInExactly(user);
    var configured := OwningReconcilerSA(store.identityOwners, info);
    ConfiguredExactly(store, kind, name, namespace);
    assert FLUX_RECONCILER_SERVICE_ACCOUNTS[0] == "flux-reconciler";
    if ParseServiceAccount(user).Some? {
      var sa := ParseServiceAccount(user).value;
      assert sa == ServiceAccount(sa.namespace, sa.name);
    }
  }

  lemma ConfiguredExactly(store: Store, kind: OwnerKind, name: string, namespace: string)
    ensures forall account ::
              OwningReconcilerSA(store.identityOwners, Managed(kind, name, namespace)) ==
              Some(ServiceAccount(namespace, account)) <==>
              exists tree :: Answers(store.identityOwners, kind, name, namespace, tree) && SetsAccount(tree, account)
    ensures var sa := OwningReconcilerSA(store.identityOwners, Managed(kind, name, namespace));
            sa.Some? ==> sa.value.namespace == namespace
  {
    forall tree, account
      ensures ServiceAccountNameOf(tree) == account && account != "" <==> SetsAccount(tree, account)
    {
      AccountRead(tree, account);
    }
    var read := ReadOwner(store.identityOwners, Managed(kind, name, namespace));
    if read.Some? {
      assert Answers(store.identityOwners, kind, name, namespace, read.value);
      assert SetsAccount(read.value, ServiceAccountNameOf(read.value)) <==> ServiceAccountNameOf(read.value) != "";
    }
  }

  // ---- Requests that reach the checks ----

  lemma OwnerJudged(req: Request, obj: ObjectMeta, before: ObjectMeta, kind: OwnerKind, name: string, namespace: string)
    ensures RequestOwner(req, obj, before) == Managed(kind, name, namespace) <==>
            JudgedBy(req, obj, before, kind, name, namespace)
  {
    OwnerNamedExactly(obj.labels, kind, name, namespace);
    OwnerNamedExactly(before.labels, kind, name, namespace);
  }

  lemma LookedExactly(cfg: Config, store: Store, req: Request)
    ensures Looked(cfg, store, req) <==>
            req.subResource == "" && req.resourceGroup !in EXCLUDED_GROUPS &&
            ShouldProcessNamespace(cfg, store, req.namespace)
  {
    ScopeExactly(cfg, store, req.namespace);
    assert EXCLUDED_GROUPS[0] == "admissionregistration.k8s.io";
  }

  /** A request that is looked at, about an object with an owner, is decided by the checks. */
  lemma ReachesChecks(
    cfg: Config, store: Store, req: Request, obj: ObjectMeta, before: ObjectMeta, kind: OwnerKind, name: string,
    namespace: string, waiver: PathSet)
    requires Looked(cfg, store, req) && About(req, obj, before) && JudgedBy(req, obj, before, kind, name, namespace)
    ensures Evaluate(cfg, store, req, waiver) ==
            EvaluateManaged(cfg, store, req, obj, before, Managed(kind, name, namespace), waiver)
  {
    LookedExactly(cfg, store, req);
    MetadataExactly(req, obj, before);
    OwnerJudged(req, obj, before, kind, name, namespace);
  }
}
