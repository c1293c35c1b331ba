/** The CREATE veto's lookup in the owner's inventory (internal/webhook/handler.go). */
module Inventory {
  import opened JsonValues
  import opened Text

  const RBAC_GROUP := "rbac.authorization.k8s.io"
  const RBAC_KINDS: set<string> := {"Role", "ClusterRole", "RoleBinding", "ClusterRoleBinding"}

  datatype ObjectRef = ObjectRef(group: string, kind: string, namespace: string, name: string)

  predicate IsRbac(o: ObjectRef) {
    o.group == RBAC_GROUP && o.kind in RBAC_KINDS
  }

  /** Names of RBAC kinds have their colons transcoded. */
  function EncodedName(o: ObjectRef): string {
    if IsRbac(o) then ReplaceAll(o.name, ":", "__") else o.name
  }

  function InventoryID(o: ObjectRef): string {
    o.namespace + "_" + EncodedName(o) + "_" + o.group + "_" + o.kind
  }

  predicate IsEntryFor(e: Value, id: string) {
    e.Map? && "id" in e.fields && e.fields["id"] == Str(id)
  }

  ghost predicate HasID(entries: seq<Value>, id: string) {
    exists e | e in entries :: IsEntryFor(e, id)
  }

  ghost predicate Lists(entries: seq<Value>, o: ObjectRef) {
    HasID(entries, InventoryID(o))
  }

  /** Malformed entries are skipped: the search finds exactly the well-formed ones. A
      missing or non-string id reads as the empty string, which no object's id is. */
  method InventoryContains(entries: seq<Value>, o: ObjectRef) returns (found: bool)
    ensures found <==> Lists(entries, o)
  {
    var id := InventoryID(o);
    assert |id| >= 3;
    for i := 0 to |entries|
      invariant forall e | e in entries[..i] :: !IsEntryFor(e, id)
    {
      var entry := entries[i];
      assert entries[..i + 1] == entries[..i] + [entry];
      if !entry.Map? {
        continue;
      }
      var entryID := NestedString(entry, ["id"]);
      NestedStringOne(entry, "id");
      if entryID == id {
        assert entry in entries;
        return true;
      }
    }
    assert entries[..|entries|] == entries;
    return false;
  }

  /** Character by character, a colon becomes two underscores. */
  function Transcoded(name: string): string {
    if name == "" then "" else (if name[0] == ':' then "__" else [name[0]]) + Transcoded(name[1..])
  }

  lemma {:induction false} ReplacesColons(name: string)
    ensures ReplaceAll(name, ":", "__") == Transcoded(name)
  {
    if name != "" {
      ReplacesColons(name[1..]);
      assert name == [name[0]] + name[1..];
      assert ":" <= name <==> name[0] == ':';
    }
  }

  // ---- Ids tell objects apart ----

  /** No underscore in namespace, group and kind; Kubernetes allows none there. */
  predicate Plain(o: ObjectRef) {
    '_' !in o.namespace && '_' !in o.group && '_' !in o.kind
  }

  lemma {:induction false} SplitConcat(a: string, sep: char, b: string)
    ensures Split(a + [sep] + b, sep) == Split(a, sep) + Split(b, sep)
  {
    var s := a + [sep] + b;
    if a == "" {
      assert s[1..] == b;
    } else {
      assert s[1..] == a[1..] + [sep] + b;
      SplitConcat(a[1..], sep, b);
    }
  }

  lemma SplitID(o: ObjectRef)
    requires Plain(o)
    ensures Split(InventoryID(o), '_') == [o.namespace] + Split(EncodedName(o), '_') + [o.group, o.kind]
  {
    var n := EncodedName(o);
    var tail := o.group + ['_'] + o.kind;
    assert InventoryID(o) == o.namespace + ['_'] + (n + ['_'] + tail);
    SplitHead(o.namespace, '_', n + ['_'] + tail);
    SplitConcat(n, '_', tail);
    SplitHead(o.group, '_', o.kind);
    SplitWhole(o.kind, '_');
  }

  /** An id determines everything but the transcoding of the name. */
  lemma IDExactly(o: ObjectRef, p: ObjectRef)
    requires Plain(o) && Plain(p)
    ensures InventoryID(o) == InventoryID(p) <==>
            o.namespace == p.namespace && o.group == p.group && o.kind == p.kind && EncodedName(o) == EncodedName(p)
  {
    if InventoryID(o) == InventoryID(p) {
      SplitID(o);
      SplitID(p);
      var s := Split(InventoryID(o), '_');
      assert s[0] == o.namespace && s[0] == p.namespace;
      assert s[|s| - 1] == o.kind && s[|s| - 1] == p.kind;
      assert s[|s| - 2] == o.group && s[|s| - 2] == p.group;
      assert s[1..|s| - 2] == Split(EncodedName(o), '_');
      assert s[1..|s| - 2] == Split(EncodedName(p), '_');
      JoinSplit(EncodedName(o), '_');
      JoinSplit(EncodedName(p), '_');
    }
  }

  lemma {:induction false} TranscodingUndone(name: string)
    requires '_' !in name
    ensures ReplaceAll(ReplaceAll(name, ":", "__"), "__", ":") == name
  {
    if name != "" {
      var rest := ReplaceAll(name[1..], ":", "__");
      TranscodingUndone(name[1..]);
      assert name == [name[0]] + name[1..];
      if name[0] == ':' {
        assert ":" <= name;
        ReplaceAllHit(rest, "__", ":");
      } else {
        assert !(":" <= name);
        ReplaceAllConcatChar(name[0], rest, "__", ":");
      }
    }
  }

  /** The id is injective on objects whose RBAC names hold no underscore. */
  lemma IDInjective(o: ObjectRef, p: ObjectRef)
    requires Plain(o) && Plain(p)
    requires (IsRbac(o) ==> '_' !in o.name) && (IsRbac(p) ==> '_' !in p.name)
    requires InventoryID(o) == InventoryID(p)
    ensures o == p
  {
    IDExactly(o, p);
    if IsRbac(o) {
      TranscodingUndone(o.name);
      TranscodingUndone(p.name);
    }
  }

  lemma {:induction false} PlainPrefixKept(x: string, s: string)
    requires ':' !in x
    ensures ReplaceAll(x + s, ":", "__") == x + ReplaceAll(s, ":", "__")
  {
    if x == "" {
      assert x + s == s;
    } else {
      assert x + s == [x[0]] + (x[1..] + s);
      PlainPrefixKept(x[1..], s);
      ReplaceAllConcatChar(x[0], x[1..] + s, ":", "__");
      assert x == [x[0]] + x[1..];
    }
  }

  lemma PlainKept(x: string)
    requires ':' !in x
    ensures ReplaceAll(x, ":", "__") == x
  {
    PlainPrefixKept(x, "");
    assert x + "" == x;
  }

  lemma CollidingNames(x: string, y: string)
    requires ':' !in x && ':' !in y
    ensures ReplaceAll(x + (":" + y), ":", "__") == x + ("__" + y)
    ensures ReplaceAll(x + ("__" + y), ":", "__") == x + ("__" + y)
  {
    PlainPrefixKept(x, ":" + y);
    ReplaceAllHit(y, ":", "__");
    PlainKept(y);
    PlainKept(x + ("__" + y));
  }

  /** With underscores in RBAC names it is not: writing `__` for a colon keeps the id. */
  lemma IDCollision(namespace: string, x: string, y: string)
    requires ':' !in x && ':' !in y
    ensures InventoryID(ObjectRef(RBAC_GROUP, "Role", namespace, x + (":" + y))) ==
            InventoryID(ObjectRef(RBAC_GROUP, "Role", namespace, x + ("__" + y)))
  {
    CollidingNames(x, y);
    var o, p := ObjectRef(RBAC_GROUP, "Role", namespace, x + (":" + y)),
                ObjectRef(RBAC_GROUP, "Role", namespace, x + ("__" + y));
    assert EncodedName(o) == EncodedName(p);
  }

  /** The inventory holds the ids of exactly these objects, among any other entries. */
  ghost predicate Inventories(entries: seq<Value>, objects: set<ObjectRef>) {
    forall id :: HasID(entries, id) <==> exists o | o in objects :: InventoryID(o) == id
  }

  ghost predicate Distinguishable(o: ObjectRef) {
    Plain(o) && (IsRbac(o) ==> '_' !in o.name)
  }

  lemma ListsExactly(entries: seq<Value>, objects: set<ObjectRef>, o: ObjectRef)
    requires Inventories(entries, objects)
    requires Distinguishable(o) && forall p | p in objects :: Distinguishable(p)
    ensures Lists(entries, o) <==> o in objects
  {
    if Lists(entries, o) {
      var p :| p in objects && InventoryID(p) == InventoryID(o);
      IDInjective(p, o);
    }
    if o in objects {
      assert exists p | p in objects :: InventoryID(p) == InventoryID(o);
    }
  }
}
