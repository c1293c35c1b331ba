/** When a CREATE is vetoed by the owner's inventory. */
module InventoryVeto {
  import opened Wrappers
  import opened JsonValues
  import opened Labels
  import opened Inventory
  import opened OwnerCache
  import opened Admission
  import opened RequestFacts
  import opened OwnerIdentity

  lemma InventoryRead(tree: Fields, entries: seq<Value>)
    requires entries != []
    ensures InventoryOf(tree) == entries <==> HasEntries(tree, entries)
  {
    assert ["status", "inventory", "entries"] == ["status"] + ["inventory", "entries"];
    assert ["inventory", "entries"] == ["inventory"] + ["entries"] && ["entries"] == ["entries"] + [];
    NestedStep(Map(tree), "status", ["inventory", "entries"]);
    if "status" in tree {
      NestedStep(tree["status"], "inventory", ["entries"]);
      if tree["status"].Map? && "inventory" in tree["status"].fields {
        NestedStep(tree["status"].fields["inventory"], "entries", []);
      }
    }
  }

  /** The inventory a request is checked against: the owner's status.inventory.entries. */
  lemma EntriesExactly(store: Store, kind: OwnerKind, name: string, namespace: string)
    ensures forall entries | entries != [] ::
              OwnerEntries(store, Managed(kind, name, namespace)) == entries <==>
              HasInventory(store, kind, name, namespace, entries)
  {
    forall entries | entries != []
      ensures OwnerEntries(store, Managed(kind, name, namespace)) == entries <==>
              HasInventory(store, kind, name, namespace, entries)
    {
      if OwnerKey(kind, namespace, name) in store.evidenceOwners {
        InventoryRead(store.evidenceOwners[OwnerKey(kind, namespace, name)], entries);
      }
    }
  }

  lemma IdExactly(o: ObjectRef)
    ensures InventoryID(o) == IdOf(o)
  {
    ReplacesColons(o.name);
  }

  /** A CREATE the inventory decides: looked at, owned, not by the owner's reconciler, with
      an inventory to consult. */
  ghost predicate DecidedByInventory(
    cfg: Config, store: Store, req: Request, obj: ObjectMeta, kind: OwnerKind, name: string, namespace: string,
    entries: seq<Value>)
  {
    && req.operation.Create? && Looked(cfg, store, req) && req.newObject.meta == Some(obj)
    && NamesOwner(obj.labels, kind, name, namespace) && HasInventory(store, kind, name, namespace, entries)
    && !OwningFluxReconciler(cfg, store, req.user, Managed(kind, name, namespace))
  }

  /** Such a CREATE is denied exactly when an entry of the inventory is an object with the
      id of the request's object, whatever its owner references, annotations or requester. */
  lemma VetoById(
    cfg: Config, store: Store, req: Request, obj: ObjectMeta, kind: OwnerKind, name: string, namespace: string,
    entries: seq<Value>, o: ObjectRef, waiver: PathSet)
    requires DecidedByInventory(cfg, store, req, obj, kind, name, namespace, entries) && IsObject(o, req, obj)
    ensures var d := Evaluate(cfg, store, req, waiver).decision;
            && (!d.allowed <==> Holds(entries, IdOf(o)))
            && (!d.allowed ==> d.reason == DeniedCreateFluxLabels)
  {
    ReachesChecks(cfg, store, req, obj, NO_META, kind, name, namespace, waiver);
    EntriesExactly(store, kind, name, namespace);
    IdExactly(o);
    assert RefOf(req, obj) == o;
    assert Lists(entries, o) <==> Holds(entries, IdOf(o));
  }

  /** With ids that tell objects apart, exactly the inventory's objects are vetoed. */
  lemma VetoExactly(
    cfg: Config, store: Store, req: Request, obj: ObjectMeta, kind: OwnerKind, name: string, namespace: string,
    entries: seq<Value>, o: ObjectRef, objects: set<ObjectRef>, waiver: PathSet)
    requires DecidedByInventory(cfg, store, req, obj, kind, name, namespace, entries) && IsObject(o, req, obj)
    requires Inventories(entries, objects)
    requires Distinguishable(o) && forall p | p in objects :: Distinguishable(p)
    ensures !Evaluate(cfg, store, req, waiver).decision.allowed <==> o in objects
  {
    VetoById(cfg, store, req, obj, kind, name, namespace, entries, o, waiver);
    IdExactly(o);
    assert Lists(entries, o) <==> Holds(entries, IdOf(o));
    ListsExactly(entries, objects, o);
  }
}
