/** What survives of an owner in the informer cache (internal/webhook/cache.go), and
    why that is all the handler reads. */
module OwnerCache {
  import opened Wrappers
  import opened JsonValues
  import opened IgnoreRules

  const IDENTITY_FIELDS: seq<string> := ["apiVersion", "kind", "metadata"]
  const SPEC_FIELDS: seq<string> := ["serviceAccountName", "ignore"]
  const STATUS_FIELDS: seq<string> := ["inventory"]

  // ---- What the handler reads of an owner ----

  function ServiceAccountNameOf(owner: Fields): string {
    NestedString(Map(owner), ["spec", "serviceAccountName"])
  }

  /** A missing, malformed or empty inventory all read as no entries. */
  function InventoryOf(owner: Fields): seq<Value> {
    match NestedSlice(Map(owner), ["status", "inventory", "entries"])
    case None => []
    case Some(entries) => entries
  }

  /** The two owners cannot be told apart by the handler. */
  ghost predicate SameReads(o: Fields, p: Fields) {
    && ServiceAccountNameOf(o) == ServiceAccountNameOf(p)
    && RulesOf(o) == RulesOf(p)
    && InventoryOf(o) == InventoryOf(p)
  }

  // ---- The transform ----

  function Only(m: Fields, names: seq<string>): Fields {
    map k | k in m && k in names :: m[k]
  }

  /** The kept part of a section, when there is one. */
  function Section(src: Fields, section: string, names: seq<string>): Fields {
    if section in src && src[section].Map? && Only(src[section].fields, names) != map[]
    then map[section := Map(Only(src[section].fields, names))]
    else map[]
  }

  function WithoutManagedFields(m: Fields): Fields {
    if "metadata" in m && m["metadata"].Map?
    then m["metadata" := Map(m["metadata"].fields - {"managedFields"})]
    else m
  }

  function Stripped(owner: Fields): Fields {
    WithoutManagedFields(Only(owner, IDENTITY_FIELDS))
    + Section(owner, "spec", SPEC_FIELDS) + Section(owner, "status", STATUS_FIELDS)
  }

  /** unstructured.Unstructured: an object whose tree is changed in place. */
  class Unstructured {
    var tree: Fields

    constructor (tree: Fields)
      ensures this.tree == tree
    {
      this.tree := tree;
    }
  }

  /** The metadata map is shared with the input, which loses its managed fields too. */
  method StripOwnerForCache(owner: Unstructured) returns (res: Unstructured)
    modifies owner
    ensures fresh(res) && res.tree == Stripped(old(owner.tree))
    ensures owner.tree == WithoutManagedFields(old(owner.tree))
  {
    var src := owner.tree;
    var slim: Fields := map[];
    for i := 0 to |IDENTITY_FIELDS|
      invariant slim == Only(src, IDENTITY_FIELDS[..i]) && owner.tree == src
    {
      var key := IDENTITY_FIELDS[i];
      OnlyAdd(src, IDENTITY_FIELDS[..i], key);
      assert IDENTITY_FIELDS[..i + 1] == IDENTITY_FIELDS[..i] + [key];
      if key in src {
        slim := slim[key := src[key]];
      }
    }
    assert IDENTITY_FIELDS[..|IDENTITY_FIELDS|] == IDENTITY_FIELDS;
    if "metadata" in slim && slim["metadata"].Map? {
      var meta := slim["metadata"].fields - {"managedFields"};
      slim := slim["metadata" := Map(meta)];
      owner.tree := src["metadata" := Map(meta)];
    }
    slim := CopyFields(src, slim, "spec", SPEC_FIELDS);
    slim := CopyFields(src, slim, "status", STATUS_FIELDS);
    res := new Unstructured(slim);
  }

  /** Creates the section only when a field of it is there. */
  method CopyFields(src: Fields, dst: Fields, section: string, names: seq<string>) returns (out: Fields)
    ensures out == dst + Section(src, section, names)
  {
    out := dst;
    if section !in src || !src[section].Map? {
      return;
    }
    var from := src[section].fields;
    // Go's nil map is the empty one here: a section that exists has a field.
    var to: Fields := map[];
    for i := 0 to |names|
      invariant to == Only(from, names[..i])
      invariant out == if to == map[] then dst else dst[section := Map(to)]
    {
      var f := names[i];
      OnlyAdd(from, names[..i], f);
      assert names[..i + 1] == names[..i] + [f];
      if f !in from {
        continue;
      }
      to := to[f := from[f]];
      out := out[section := Map(to)];
    }
    assert names[..|names|] == names;
  }

  lemma OnlyAdd(m: Fields, names: seq<string>, f: string)
    ensures Only(m, names + [f]) == if f in m then Only(m, names)[f := m[f]] else Only(m, names)
    ensures f in m ==> Only(m, names)[f := m[f]] != map[]
  {
    assert f in m ==> f in Only(m, names)[f := m[f]];
  }

  predicate IsOwnerGVK(obj: Fields) {
    var apiVersion, kind := NestedString(Map(obj), ["apiVersion"]), NestedString(Map(obj), ["kind"]);
    || (apiVersion == "kustomize.toolkit.fluxcd.io/v1" && kind == "Kustomization")
    || (apiVersion == "helm.toolkit.fluxcd.io/v2" && kind == "HelmRelease")
  }

  /** Every other object keeps its shape minus the managed fields. */
  function CacheTransform(obj: Fields): Fields {
    if IsOwnerGVK(obj) then Stripped(obj) else WithoutManagedFields(obj)
  }

  /** The informer transform: owners are replaced, anything else is changed in place. */
  method TransformForCache(obj: Unstructured) returns (res: Unstructured)
    modifies obj
    ensures res.tree == CacheTransform(old(obj.tree))
    ensures obj.tree == WithoutManagedFields(old(obj.tree))
    ensures if IsOwnerGVK(old(obj.tree)) then fresh(res) else res == obj
  {
    if IsOwnerGVK(obj.tree) {
      res := StripOwnerForCache(obj);
      return;
    }
    if "metadata" in obj.tree && obj.tree["metadata"].Map? {
      obj.tree := obj.tree["metadata" := Map(obj.tree["metadata"].fields - {"managedFields"})];
    }
    return obj;
  }

  // ---- Nothing read is lost ----

  lemma StrippedSections(o: Fields)
    ensures KeepsSection(o, Stripped(o), "spec", SPEC_FIELDS)
    ensures KeepsSection(o, Stripped(o), "status", STATUS_FIELDS)
  {
  }

  lemma NestedTwo(o: Fields, a: string, b: string, rest: seq<string>)
    ensures NestedField(Map(o), [a, b] + rest) ==
            if a !in o || o[a].Null? then Missing
            else if !o[a].Map? then WrongType
            else if b in o[a].fields then NestedField(o[a].fields[b], rest)
            else Missing
  {
  }

  /** A read below a kept field is unchanged, except that an error may become "missing". */
  lemma SectionRead(o: Fields, p: Fields, a: string, b: string, rest: seq<string>, names: seq<string>)
    requires b in names
    requires KeepsSection(o, p, a, names)
    ensures var x, y := NestedField(Map(o), [a, b] + rest), NestedField(Map(p), [a, b] + rest);
            x == y || (x == WrongType && y == Missing)
  {
    NestedTwo(o, a, b, rest);
    NestedTwo(p, a, b, rest);
    if a in o && o[a].Map? && b in o[a].fields {
      assert b in Only(o[a].fields, names) && a in Section(o, a, names);
    }
  }

  /** `p` has the kept part of every section of `o`. */
  ghost predicate KeepsSection(o: Fields, p: Fields, section: string, names: seq<string>) {
    && (section in p <==> Section(o, section, names) != map[])
    && (section in p ==> p[section] == Map(Only(o[section].fields, names)))
  }

  lemma SpecReadsKept(o: Fields, p: Fields)
    requires KeepsSection(o, p, "spec", SPEC_FIELDS)
    ensures ServiceAccountNameOf(o) == ServiceAccountNameOf(p) && RulesOf(o) == RulesOf(p)
  {
    SectionRead(o, p, "spec", "serviceAccountName", [], SPEC_FIELDS);
    SectionRead(o, p, "spec", "ignore", [], SPEC_FIELDS);
    assert ["spec", "serviceAccountName"] == ["spec", "serviceAccountName"] + [];
    assert ["spec", "ignore"] == ["spec", "ignore"] + [];
  }

  lemma StatusReadsKept(o: Fields, p: Fields)
    requires KeepsSection(o, p, "status", STATUS_FIELDS)
    ensures InventoryOf(o) == InventoryOf(p)
  {
    SectionRead(o, p, "status", "inventory", ["entries"], STATUS_FIELDS);
    assert ["status", "inventory", "entries"] == ["status", "inventory"] + ["entries"];
  }

  lemma StripKeepsReads(o: Fields)
    ensures SameReads(o, Stripped(o))
  {
    StrippedSections(o);
    SpecReadsKept(o, Stripped(o));
    StatusReadsKept(o, Stripped(o));
  }

  lemma ManagedFieldsNotRead(o: Fields)
    ensures SameReads(o, WithoutManagedFields(o))
  {
  }

  /** Everything the handler reads of an owner survives the cache. */
  lemma CacheKeepsReads(obj: Fields)
    ensures SameReads(obj, CacheTransform(obj))
  {
    StripKeepsReads(obj);
    ManagedFieldsNotRead(obj);
  }

  lemma WithoutTwice(m: Fields)
    ensures WithoutManagedFields(WithoutManagedFields(m)) == WithoutManagedFields(m)
  {
    if "metadata" in m && m["metadata"].Map? {
      var f := m["metadata"].fields;
      assert (f - {"managedFields"}) - {"managedFields"} == f - {"managedFields"};
    }
  }

  lemma StrippedIdentity(o: Fields)
    ensures Only(Stripped(o), IDENTITY_FIELDS) == WithoutManagedFields(Only(o, IDENTITY_FIELDS))
  {
  }

  lemma SectionTwice(o: Fields, p: Fields, section: string, names: seq<string>)
    requires KeepsSection(o, p, section, names)
    ensures Section(p, section, names) == Section(o, section, names)
  {
    if section in p {
      assert Only(p[section].fields, names) == p[section].fields;
    }
  }

  lemma StripTwice(o: Fields)
    ensures Stripped(Stripped(o)) == Stripped(o)
  {
    StrippedSections(o);
    StrippedIdentity(o);
    WithoutTwice(Only(o, IDENTITY_FIELDS));
    SectionTwice(o, Stripped(o), "spec", SPEC_FIELDS);
    SectionTwice(o, Stripped(o), "status", STATUS_FIELDS);
  }

  // ---- Nothing else is kept ----

  /** The value two fields down. */
  function At(m: Fields, a: string, b: string): Option<Value> {
    if a in m && m[a].Map? && b in m[a].fields then Some(m[a].fields[b]) else None
  }

  /** What survives of an owner two levels down. */
  predicate Survives(a: string, b: string) {
    || a in ["apiVersion", "kind"] || (a == "metadata" && b != "managedFields")
    || (a == "spec" && b in ["serviceAccountName", "ignore"]) || (a == "status" && b == "inventory")
  }

  lemma StrippedAt(o: Fields, a: string, b: string)
    ensures At(Stripped(o), a, b) == if Survives(a, b) then At(o, a, b) else None
  {
    if a in IDENTITY_FIELDS {
      IdentityKept(o, a);
    } else if a == "spec" {
      StrippedSections(o);
      SectionKept(o, Stripped(o), a, SPEC_FIELDS);
    } else if a == "status" {
      StrippedSections(o);
      SectionKept(o, Stripped(o), a, STATUS_FIELDS);
    } else {
      assert a !in Stripped(o);
    }
  }

  lemma IdentityKept(o: Fields, k: string)
    requires k in IDENTITY_FIELDS
    ensures k in Stripped(o) <==> k in o
    ensures k in o && !(k == "metadata" && o[k].Map?) ==> Stripped(o)[k] == o[k]
    ensures k in o && k == "metadata" && o[k].Map? ==> Stripped(o)[k] == Map(o[k].fields - {"managedFields"})
  {
  }

  lemma SectionKept(o: Fields, p: Fields, k: string, names: seq<string>)
    requires KeepsSection(o, p, k, names)
    ensures forall f :: k in p && p[k].Map? && f in p[k].fields <==>
                        k in o && o[k].Map? && f in o[k].fields && f in names
    ensures k in p ==>
              k in o && o[k].Map? && p[k].Map? && forall f | f in p[k].fields :: p[k].fields[f] == o[k].fields[f]
  {
    forall f | k in o && o[k].Map? && f in o[k].fields && f in names ensures k in p && f in p[k].fields {
      assert f in Only(o[k].fields, names) && k in Section(o, k, names);
    }
  }

  lemma ResolveTwo(m: Fields, p: Path)
    requires |p| >= 2
    ensures Resolve(Map(m), p) ==
            if p[0].Field? && p[1].Field? && At(m, p[0].name, p[1].name).Some?
            then Resolve(At(m, p[0].name, p[1].name).value, p[2..])
            else None
  {
    assert p[1..][1..] == p[2..];
  }

  /** Below the top level, whatever path leads somewhere in a stripped owner leads to what
      it leads to in the owner, and exactly the paths whose first two fields survive do. */
  lemma StripExactly(o: Fields, p: Path)
    requires |p| >= 2
    ensures Resolve(Map(Stripped(o)), p) ==
            if p[0].Field? && p[1].Field? && Survives(p[0].name, p[1].name) then Resolve(Map(o), p) else None
  {
    ResolveTwo(Stripped(o), p);
    ResolveTwo(o, p);
    if p[0].Field? && p[1].Field? {
      StrippedAt(o, p[0].name, p[1].name);
    }
  }

  /** A Kustomization or a HelmRelease of the version the handler reads. */
  predicate IsOwner(o: Fields) {
    && "apiVersion" in o && "kind" in o
    && (|| (o["apiVersion"] == Str("kustomize.toolkit.fluxcd.io/v1") && o["kind"] == Str("Kustomization"))
        || (o["apiVersion"] == Str("helm.toolkit.fluxcd.io/v2") && o["kind"] == Str("HelmRelease")))
  }

  lemma OwnerExactly(o: Fields)
    ensures IsOwnerGVK(o) <==> IsOwner(o)
  {
    NestedStringOne(Map(o), "apiVersion");
    NestedStringOne(Map(o), "kind");
    assert |"kustomize.toolkit.fluxcd.io/v1"| > 0 && |"helm.toolkit.fluxcd.io/v2"| > 0 &&
           |"Kustomization"| > 0 && |"HelmRelease"| > 0;
  }

  lemma WithoutManagedFieldsAt(o: Fields, a: string, b: string)
    ensures At(WithoutManagedFields(o), a, b) == if a == "metadata" && b == "managedFields" then None else At(o, a, b)
  {
  }

  /** What an object looks like in the cache, below the top level: an owner keeps what the
      handler reads, anything else everything but its managed fields. */
  lemma CacheTransformExactly(o: Fields, p: Path)
    requires |p| >= 2
    ensures Resolve(Map(CacheTransform(o)), p) ==
            var kept := p[0].Field? && p[1].Field? &&
                        if IsOwner(o) then Survives(p[0].name, p[1].name)
                        else !(p[0].name == "metadata" && p[1].name == "managedFields");
            if kept then Resolve(Map(o), p) else None
  {
    OwnerExactly(o);
    if IsOwner(o) {
      StripExactly(o, p);
    } else {
      ResolveTwo(WithoutManagedFields(o), p);
      ResolveTwo(o, p);
      if p[0].Field? && p[1].Field? {
        WithoutManagedFieldsAt(o, p[0].name, p[1].name);
      }
    }
  }
}
