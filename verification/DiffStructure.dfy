/** What the recorded paths are, said without the recursion: a path is recorded when
    its parent is a map in both trees and the path leads to different values that are
    not both maps. Symmetry, the antichain and the depth bound follow. That the result
    is the same for every key order is the contract of FieldDiff.DiffMaps. */
module DiffStructure {
  import opened Wrappers
  import opened JsonValues
  import opened FieldDiff

  ghost predicate LeadsToMap(v: Value, p: Path) {
    Resolve(v, p).Some? && Resolve(v, p).value.Map?
  }

  /** The two trees part ways exactly at `p`. A missing value differs from any other. */
  ghost predicate PartAt(x: Value, y: Value, p: Path) {
    && p != []
    && LeadsToMap(x, p[..|p| - 1]) && LeadsToMap(y, p[..|p| - 1])
    && Resolve(x, p) != Resolve(y, p)
    && !(LeadsToMap(x, p) && LeadsToMap(y, p))
  }

  lemma ResolveStep(v: Value, e: PathElement, r: Path)
    ensures Resolve(v, [e] + r) ==
            if v.Map? && e.Field? && e.name in v.fields then Resolve(v.fields[e.name], r) else None
  {
  }

  lemma PartAtLeaf(x: Value, y: Value, e: PathElement)
    ensures PartAt(x, y, [e]) <==>
            && e.Field? && x.Map? && y.Map? && (e.name in x.fields || e.name in y.fields)
            && (e.name in x.fields && e.name in y.fields ==>
                  x.fields[e.name] != y.fields[e.name] &&
                  !(x.fields[e.name].Map? && y.fields[e.name].Map?))
  {
    assert [e] == [e] + [] && [e][..0] == [];
    ResolveStep(x, e, []);
    ResolveStep(y, e, []);
  }

  lemma PartAtDeep(x: Value, y: Value, e: PathElement, r: Path)
    requires r != []
    ensures PartAt(x, y, [e] + r) <==>
            && e.Field? && x.Map? && y.Map? && e.name in x.fields && e.name in y.fields
            && PartAt(x.fields[e.name], y.fields[e.name], r)
  {
    var p := [e] + r;
    assert p[..|p| - 1] == [e] + r[..|r| - 1];
    ResolveStep(x, e, r);
    ResolveStep(y, e, r);
    ResolveStep(x, e, r[..|r| - 1]);
    ResolveStep(y, e, r[..|r| - 1]);
  }

  lemma PartAtMaps(x: Value, y: Value, p: Path)
    requires PartAt(x, y, p)
    ensures x.Map? && y.Map? && p[0].Field?
  {
  }

  /** Independent reference for the diff, at every prefix and every depth budget. */
  lemma {:induction false} DiffFieldsPointwise(a: Fields, b: Fields, prefix: Path, n: nat, p: Path)
    ensures p in DiffFields(a, b, prefix, n) <==>
            prefix <= p && |p| <= |prefix| + n && PartAt(Map(a), Map(b), p[|prefix|..])
    decreases n, 1
  {
    if prefix <= p && |prefix| < |p| <= |prefix| + n {
      var r := p[|prefix|..];
      var e, rest := r[0], r[1..];
      var at := prefix + [e];
      assert r == [e] + rest && p == at + rest;
      if e.Field? && e.name in a.Keys + b.Keys {
        DiffAtKey(a, b, prefix, n, e.name, p);
        DiffKeyPointwise(a, b, prefix, n, e.name, rest);
      } else {
        if p in DiffFields(a, b, prefix, n) {
          DiffHasKey(a, b, prefix, n, p);
        }
        if rest == [] { PartAtLeaf(Map(a), Map(b), e); } else { PartAtDeep(Map(a), Map(b), e, rest); }
      }
    } else if p in DiffFields(a, b, prefix, n) {
      DiffHasKey(a, b, prefix, n, p);
      assert false;
    }
  }

  lemma {:induction false} DiffKeyPointwise(a: Fields, b: Fields, prefix: Path, n: nat, k: string, rest: Path)
    requires k in a.Keys + b.Keys && |rest| < n
    ensures prefix + [Field(k)] + rest in DiffKey(a, b, k, prefix, n) <==>
            PartAt(Map(a), Map(b), [Field(k)] + rest)
    decreases n, 0
  {
    var at := prefix + [Field(k)];
    var p := at + rest;
    assert p == at <==> rest == [] by {
      assert |p| == |at| + |rest|;
    }
    if rest == [] {
      assert [Field(k)] + rest == [Field(k)];
      PartAtLeaf(Map(a), Map(b), Field(k));
    } else {
      PartAtDeep(Map(a), Map(b), Field(k), rest);
    }
    if k in a && k in b {
      var x, y := a[k], b[k];
      assert DiffKey(a, b, k, prefix, n) == DiffValue(x, y, at, n - 1);
      if x.Map? && y.Map? {
        DiffFieldsPointwise(x.fields, y.fields, at, n - 1, p);
        assert p[|at|..] == rest;
      } else if rest != [] && PartAt(x, y, rest) {
        PartAtMaps(x, y, rest);
        assert false;
      }
    }
  }

  lemma {:induction false} DiffHasKey(a: Fields, b: Fields, prefix: Path, n: nat, p: Path)
    requires p in DiffFields(a, b, prefix, n)
    ensures prefix <= p && |prefix| < |p| <= |prefix| + n
    ensures p[|prefix|].Field? && p[|prefix|].name in a.Keys + b.Keys
    decreases n
  {
    assert p in DiffOver(a, b, a.Keys + b.Keys, prefix, n);
    var k :| k in a.Keys + b.Keys && p in DiffKey(a, b, k, prefix, n);
    var at := prefix + [Field(k)];
    if p != at {
      assert p in DiffValue(a[k], b[k], at, n - 1);
      DiffHasKey(a[k].fields, b[k].fields, at, n - 1, p);
      assert p[..|at|] == at;
    }
    assert p[|prefix|] == Field(k);
    assert prefix == p[..|prefix|];
  }

  lemma DiffAtKey(a: Fields, b: Fields, prefix: Path, n: nat, k: string, p: Path)
    requires k in a.Keys + b.Keys && n > 0 && prefix + [Field(k)] <= p
    ensures p in DiffFields(a, b, prefix, n) <==> p in DiffKey(a, b, k, prefix, n)
  {
    assert DiffFields(a, b, prefix, n) == DiffOver(a, b, a.Keys + b.Keys, prefix, n);
    if p in DiffFields(a, b, prefix, n) {
      var k' :| k' in a.Keys + b.Keys && p in DiffKey(a, b, k', prefix, n);
      var at := prefix + [Field(k')];
      if p != at {
        assert p in DiffValue(a[k'], b[k'], at, n - 1);
        DiffHasKey(a[k'].fields, b[k'].fields, at, n - 1, p);
      }
      assert p[|prefix|] == Field(k') && p[|prefix|] == Field(k);
    }
  }

  lemma {:induction false} ResolvesFieldsOnly(v: Value, p: Path)
    requires Resolve(v, p).Some?
    ensures AllFields(p)
  {
    if p != [] {
      ResolvesFieldsOnly(v.fields[p[0].name], p[1..]);
      assert forall i | 0 < i < |p| :: p[i] == p[1..][i - 1];
    }
  }

  /** ComputeFieldDiff records exactly the paths of length at most 50 at which the
      two trees part. */
  lemma DiffPointwise(a: Fields, b: Fields, p: Path)
    ensures p in Diff(a, b) <==> |p| <= 50 && PartAt(Map(a), Map(b), p)
    ensures p in Diff(a, b) ==> AllFields(p)
  {
    DiffFieldsPointwise(a, b, [], MAX_DIFF_DEPTH, p);
    assert p[0..] == p;
    if Resolve(Map(a), p).Some? {
      ResolvesFieldsOnly(Map(a), p);
    } else if Resolve(Map(b), p).Some? {
      ResolvesFieldsOnly(Map(b), p);
    }
  }

  lemma DiffSymmetric(a: Fields, b: Fields)
    ensures Diff(a, b) == Diff(b, a)
  {
    forall p ensures p in Diff(a, b) <==> p in Diff(b, a) {
      DiffPointwise(a, b, p);
      DiffPointwise(b, a, p);
    }
  }

  lemma PartAtNested(x: Value, y: Value, p: Path, q: Path)
    requires PartAt(x, y, p) && PartAt(x, y, q) && p <= q
    ensures p == q
  {
    if p != q {
      var parent := q[..|q| - 1];
      assert parent == p + parent[|p|..];
      ResolveConcat(x, p, parent[|p|..]);
      ResolveConcat(y, p, parent[|p|..]);
      assert false;
    }
  }

  /** No recorded path is a proper prefix of another. */
  lemma DiffAntichain(a: Fields, b: Fields, p: Path, q: Path)
    requires p in Diff(a, b) && q in Diff(a, b) && p <= q
    ensures p == q
  {
    DiffPointwise(a, b, p);
    DiffPointwise(a, b, q);
    PartAtNested(Map(a), Map(b), p, q);
  }
}
