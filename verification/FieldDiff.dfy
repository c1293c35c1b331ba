/** The schema-blind value diff of internal/webhook/fields.go. */
module FieldDiff {
  import opened Wrappers
  import opened JsonValues

  const MAX_DIFF_DEPTH: nat := 50

  /** fieldpath.Set as the diff uses it: a set it inserts into. */
  class FieldSet {
    var paths: PathSet

    constructor ()
      ensures paths == {}
    {
      paths := {};
    }

    /** The library ignores the zero-length path, which names the whole object. */
    method Insert(p: Path)
      modifies this
      ensures paths == old(paths) + if p == [] then {} else {p}
    {
      if p != [] {
        paths := paths + {p};
      }
    }
  }

  // ---- Specification ----

  function Remaining(depth: nat): nat {
    if depth >= MAX_DIFF_DEPTH then 0 else MAX_DIFF_DEPTH - depth
  }

  /** Paths recorded below `prefix` for two maps, `n` levels of maps from there. */
  function DiffFields(a: Fields, b: Fields, prefix: Path, n: nat): PathSet
    decreases n, 3
  {
    DiffOver(a, b, a.Keys + b.Keys, prefix, n)
  }

  function DiffOver(a: Fields, b: Fields, ks: set<string>, prefix: Path, n: nat): PathSet
    requires ks <= a.Keys + b.Keys
    decreases n, 2
  {
    if n == 0 then {} else set k, p | k in ks && p in DiffKey(a, b, k, prefix, n) :: p
  }

  function DiffKey(a: Fields, b: Fields, k: string, prefix: Path, n: nat): PathSet
    requires k in a.Keys + b.Keys && n > 0
    decreases n, 1
  {
    var at := prefix + [Field(k)];
    if k !in a || k !in b then {at} else DiffValue(a[k], b[k], at, n - 1)
  }

  function DiffValue(x: Value, y: Value, at: Path, n: nat): PathSet
    decreases n, 4
  {
    if x.Map? && y.Map? then DiffFields(x.fields, y.fields, at, n)
    else if x == y then {} else {at}
  }

  function Diff(a: Fields, b: Fields): PathSet {
    DiffFields(a, b, [], MAX_DIFF_DEPTH)
  }

  // ---- The algorithm ----

  /** A nil object yields the empty set. */
  method ComputeFieldDiff(oldObj: Option<Fields>, newObj: Option<Fields>) returns (res: FieldSet)
    ensures fresh(res)
    ensures res.paths == if oldObj.Some? && newObj.Some? then Diff(oldObj.value, newObj.value) else {}
  {
    res := new FieldSet();
    if oldObj.None? || newObj.None? {
      return;
    }
    var root := new PathElement[0];
    DiffMaps(oldObj.value, newObj.value, root, res, 0);
    assert root[..] == [];
  }

  /** Map keys are visited in any order. */
  method DiffMaps(oldMap: Fields, newMap: Fields, prefix: array<PathElement>, acc: FieldSet, depth: nat)
    modifies acc
    ensures acc.paths == old(acc.paths) + DiffFields(oldMap, newMap, prefix[..], Remaining(depth))
    decreases Map(oldMap), 0
  {
    if depth >= MAX_DIFF_DEPTH {
      return;
    }
    ghost var n, at, before := Remaining(depth), prefix[..], acc.paths;
    ghost var done: set<string> := {};
    var todo := newMap.Keys;
    while todo != {}
      invariant done !! todo && done + todo == newMap.Keys
      invariant acc.paths == before + DiffOver(oldMap, newMap, done, at, n)
      decreases todo
    {
      var key :| key in todo;
      var currentPath := CopyAppend(prefix, Field(key));
      DiffOverAdd(oldMap, newMap, done, key, at, n);
      if key !in oldMap {
        acc.Insert(currentPath[..]);
      } else {
        DiffValues(oldMap[key], newMap[key], currentPath, acc, depth + 1);
      }
      todo, done := todo - {key}, done + {key};
    }
    DiffRemoved(oldMap, newMap, prefix, acc, depth);
    DiffOverUnion(oldMap, newMap, newMap.Keys, oldMap.Keys - newMap.Keys, at, n);
    assert newMap.Keys + (oldMap.Keys - newMap.Keys) == oldMap.Keys + newMap.Keys;
  }

  /** The second pass of diffMaps: the keys only the old map has. */
  method DiffRemoved(oldMap: Fields, newMap: Fields, prefix: array<PathElement>, acc: FieldSet, depth: nat)
    requires depth < MAX_DIFF_DEPTH
    modifies acc
    ensures acc.paths ==
            old(acc.paths) + DiffOver(oldMap, newMap, oldMap.Keys - newMap.Keys, prefix[..], Remaining(depth))
  {
    ghost var n, at, before := Remaining(depth), prefix[..], acc.paths;
    ghost var removed: set<string> := {};
    var todo := oldMap.Keys;
    while todo != {}
      invariant todo <= oldMap.Keys && removed == (oldMap.Keys - todo) - newMap.Keys
      invariant acc.paths == before + DiffOver(oldMap, newMap, removed, at, n)
      decreases todo
    {
      var key :| key in todo;
      todo := todo - {key};
      if key !in newMap {
        var currentPath := CopyAppend(prefix, Field(key));
        DiffOverAdd(oldMap, newMap, removed, key, at, n);
        acc.Insert(currentPath[..]);
        removed := removed + {key};
      }
    }
  }

  lemma DiffOverUnion(a: Fields, b: Fields, ks: set<string>, js: set<string>, prefix: Path, n: nat)
    requires ks <= a.Keys + b.Keys && js <= a.Keys + b.Keys && n > 0
    ensures DiffOver(a, b, ks + js, prefix, n) == DiffOver(a, b, ks, prefix, n) + DiffOver(a, b, js, prefix, n)
  {
  }

  method DiffValues(oldVal: Value, newVal: Value, path: array<PathElement>, acc: FieldSet, depth: nat)
    requires path.Length > 0
    modifies acc
    ensures acc.paths == old(acc.paths) + DiffValue(oldVal, newVal, path[..], Remaining(depth))
    decreases oldVal, 1
  {
    match oldVal {
      case Map(oldTyped) =>
        if newVal.Map? {
          DiffMaps(oldTyped, newVal.fields, path, acc, depth);
          return;
        }
      case List(oldTyped) =>
        if newVal.List? {
          var same := SlicesEqual(oldTyped, newVal.items);
          if !same {
            acc.Insert(path[..]);
          }
          return;
        }
      case _ =>
        if oldVal == newVal {
          return;
        }
    }
    acc.Insert(path[..]);
  }

  /** Fills a fresh buffer, so sibling keys never share one. */
  method CopyAppend(prefix: array<PathElement>, elem: PathElement) returns (res: array<PathElement>)
    ensures fresh(res) && res[..] == prefix[..] + [elem]
  {
    res := new PathElement[prefix.Length + 1];
    for i := 0 to prefix.Length
      invariant res[..i] == prefix[..i]
    {
      res[i] := prefix[i];
    }
    res[prefix.Length] := elem;
  }

  method SlicesEqual(a: seq<Value>, b: seq<Value>) returns (eq: bool)
    ensures eq <==> a == b
    decreases a
  {
    if |a| != |b| {
      return false;
    }
    for i := 0 to |a|
      invariant a[..i] == b[..i]
    {
      var same := ValuesEqual(a[i], b[i]);
      if !same {
        return false;
      }
    }
    return true;
  }

  method ValuesEqual(a: Value, b: Value) returns (eq: bool)
    ensures eq <==> a == b
    decreases a
  {
    match a {
      case Map(aTyped) =>
        if !b.Map? || |aTyped| != |b.fields| {
          return false;
        }
        var todo := aTyped.Keys;
        while todo != {}
          invariant todo <= aTyped.Keys
          invariant forall k | k in aTyped.Keys - todo :: k in b.fields && aTyped[k] == b.fields[k]
          decreases todo
        {
          var k :| k in todo;
          todo := todo - {k};
          if k !in b.fields {
            return false;
          }
          var same := ValuesEqual(aTyped[k], b.fields[k]);
          if !same {
            return false;
          }
        }
        SameSizeKeys(aTyped, b.fields);
        return true;
      case List(aTyped) =>
        if !b.List? {
          return false;
        }
        eq := SlicesEqual(aTyped, b.items);
      case _ =>
        return a == b;
    }
  }

  lemma SameSizeKeys(a: Fields, b: Fields)
    requires |a| == |b| && forall k | k in a :: k in b && a[k] == b[k]
    ensures a == b
  {
    assert |a.Keys| == |b.Keys| && a.Keys <= b.Keys;
    assert |b.Keys - a.Keys| == 0;
    assert b.Keys - a.Keys == {};
  }

  lemma DiffOverAdd(a: Fields, b: Fields, ks: set<string>, k: string, prefix: Path, n: nat)
    requires ks <= a.Keys + b.Keys && k in a.Keys + b.Keys && n > 0
    ensures DiffOver(a, b, ks + {k}, prefix, n) == DiffOver(a, b, ks, prefix, n) + DiffKey(a, b, k, prefix, n)
  {
  }
}
