/** Stripping owners in the cache changes no verdict and no counter. */
module CacheRefinement {
  import opened JsonValues
  import opened Labels
  import opened ServiceAccounts
  import opened IgnoreRules
  import opened OwnerCache
  import opened Admission

  function CachedOwners(owners: map<OwnerKey, Fields>): map<OwnerKey, Fields> {
    map k | k in owners :: CacheTransform(owners[k])
  }

  /** The store with every owner as the informer cache keeps it. */
  function Cached(store: Store): Store {
    store.(identityOwners := CachedOwners(store.identityOwners), evidenceOwners := CachedOwners(store.evidenceOwners))
  }

  lemma ReadsThroughCache(owners: map<OwnerKey, Fields>, info: Ownership)
    ensures ReadOwner(CachedOwners(owners), info).Some? <==> ReadOwner(owners, info).Some?
    ensures ReadOwner(owners, info).Some? ==>
              SameReads(ReadOwner(owners, info).value, ReadOwner(CachedOwners(owners), info).value)
  {
    if ReadOwner(owners, info).Some? {
      CacheKeepsReads(ReadOwner(owners, info).value);
    }
  }

  lemma IdentityThroughCache(cfg: Config, store: Store, user: UserInfo, info: Ownership)
    ensures OwningFluxReconciler(cfg, Cached(store), user, info) <==> OwningFluxReconciler(cfg, store, user, info)
    ensures IdentityError(cfg, Cached(store), user, info) == IdentityError(cfg, store, user, info)
  {
    ReadsThroughCache(store.identityOwners, info);
    assert OwningReconcilerSA(CachedOwners(store.identityOwners), info) ==
           OwningReconcilerSA(store.identityOwners, info);
  }

  lemma EvidenceThroughCache(
    cfg: Config, store: Store, req: Request, obj: ObjectMeta, before: ObjectMeta, info: Ownership)
    ensures CreateDecision(cfg, Cached(store), req, obj, info) == CreateDecision(cfg, store, req, obj, info)
    ensures EvidenceError(Cached(store), req, obj, before, info) == EvidenceError(store, req, obj, before, info)
  {
    ReadsThroughCache(store.evidenceOwners, info);
    assert OwnerEntries(Cached(store), info) == OwnerEntries(store, info);
  }

  lemma ManagedThroughCache(
    cfg: Config, store: Store, req: Request, obj: ObjectMeta, before: ObjectMeta, info: Ownership, waiver: PathSet)
    ensures EvaluateManaged(cfg, Cached(store), req, obj, before, info, waiver) ==
            EvaluateManaged(cfg, store, req, obj, before, info, waiver)
  {
    IdentityThroughCache(cfg, store, req.user, info);
    EvidenceThroughCache(cfg, store, req, obj, before, info);
    assert Exemption(Cached(store), req, obj, before, info) == Exemption(store, req, obj, before, info);
    assert DecideOperation(cfg, Cached(store), req, obj, before, info, waiver) ==
           DecideOperation(cfg, store, req, obj, before, info, waiver);
  }

  /** Every request gets the same verdict, counts the same, and can be judged with the
      same ignore sets, from cached owners as from whole ones. */
  lemma CacheRefines(m: Matchers, cfg: Config, store: Store, req: Request, waiver: PathSet)
    ensures Evaluate(cfg, Cached(store), req, waiver) == Evaluate(cfg, store, req, waiver)
    ensures WaiverFor(m, cfg, Cached(store), req, waiver) <==> WaiverFor(m, cfg, store, req, waiver)
  {
    var metas := ExtractRequestMetadata(req);
    if metas.Some? {
      var info := RequestOwner(req, metas.value.0, metas.value.1);
      ManagedThroughCache(cfg, store, req, metas.value.0, metas.value.1, info, waiver);
      ReadsThroughCache(store.evidenceOwners, info);
    }
  }
}
