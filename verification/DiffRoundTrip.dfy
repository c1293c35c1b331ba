/** The diff loses nothing above its depth cut-off: writing what the new tree has at
    exactly the recorded paths turns the old tree into the new one, and this holds if
    and only if the maps both trees share below the cut-off are equal. */
module DiffRoundTrip {
  import opened JsonValues
  import opened FieldDiff
  import opened DiffStructure

  /** The fields under `k`, or none when there is no map there. */
  function Below(m: Fields, k: string): Fields {
    if k in m && m[k].Map? then m[k].fields else map[]
  }

  /** Replaces or deletes in `a`, at exactly the paths of `d` below `prefix`, what `b`
      has there. */
  ghost function Patch(a: Fields, b: Fields, d: PathSet, prefix: Path): Fields
    decreases Map(a)
  {
    map k | k in a.Keys + b.Keys && (if prefix + [Field(k)] in d then k in b else k in a) ::
      if prefix + [Field(k)] in d then b[k]
      else if a[k].Map? then Map(Patch(a[k].fields, Below(b, k), d, prefix + [Field(k)]))
      else a[k]
  }

  /** The maps both trees share after `n` levels are equal. */
  ghost predicate AgreeBelow(a: Fields, b: Fields, n: nat)
    decreases n
  {
    if n == 0 then a == b
    else forall k | k in a && k in b && a[k].Map? && b[k].Map? :: AgreeBelow(a[k].fields, b[k].fields, n - 1)
  }

  /** The maps shared by the two trees nest at most `n` levels. */
  ghost predicate NestsWithin(a: Fields, b: Fields, n: nat)
    decreases n
  {
    n > 0 && forall k | k in a && k in b && a[k].Map? && b[k].Map? :: NestsWithin(a[k].fields, b[k].fields, n - 1)
  }

  lemma {:induction false} NestingAgrees(a: Fields, b: Fields, n: nat)
    requires NestsWithin(a, b, n)
    ensures AgreeBelow(a, b, n)
    decreases n
  {
    forall k | k in a && k in b && a[k].Map? && b[k].Map? ensures AgreeBelow(a[k].fields, b[k].fields, n - 1) {
      NestingAgrees(a[k].fields, b[k].fields, n - 1);
    }
  }

  /** `d` holds, among the paths properly below `prefix`, exactly those of `e`. */
  ghost predicate SameBelow(d: PathSet, e: PathSet, prefix: Path) {
    forall p | prefix <= p && p != prefix :: p in d <==> p in e
  }

  lemma {:induction false} PatchNothing(a: Fields, b: Fields, d: PathSet, prefix: Path)
    requires SameBelow(d, {}, prefix)
    ensures Patch(a, b, d, prefix) == a
    decreases Map(a)
  {
    forall k | k in a && a[k].Map?
      ensures Patch(a[k].fields, Below(b, k), d, prefix + [Field(k)]) == a[k].fields
    {
      PatchNothing(a[k].fields, Below(b, k), d, prefix + [Field(k)]);
    }
    assert forall k | k in a.Keys + b.Keys :: prefix <= prefix + [Field(k)] && prefix + [Field(k)] != prefix;
  }

  lemma {:induction false} PatchGivesNew(a: Fields, b: Fields, d: PathSet, prefix: Path, n: nat)
    requires SameBelow(d, DiffFields(a, b, prefix, n), prefix)
    ensures Patch(a, b, d, prefix) == b <==> AgreeBelow(a, b, n)
    decreases n
  {
    if n == 0 {
      PatchNothing(a, b, d, prefix);
    } else {
      var r := Patch(a, b, d, prefix);
      forall k | k in a.Keys + b.Keys
        ensures k in r <==> k in b
        ensures k in r && k in b ==>
                  (r[k] == b[k] <==>
                   (k in a && a[k].Map? && b[k].Map? ==> AgreeBelow(a[k].fields, b[k].fields, n - 1)))
      {
        PatchKey(a, b, d, prefix, n, k);
        if k in a && k in b && a[k].Map? && b[k].Map? {
          PatchGivesNew(a[k].fields, b[k].fields, d, prefix + [Field(k)], n - 1);
        }
      }
      assert r.Keys == b.Keys;
    }
  }

  lemma PatchKey(a: Fields, b: Fields, d: PathSet, prefix: Path, n: nat, k: string)
    requires SameBelow(d, DiffFields(a, b, prefix, n), prefix) && n > 0 && k in a.Keys + b.Keys
    ensures prefix + [Field(k)] in d <==> k !in a || k !in b || (a[k] != b[k] && !(a[k].Map? && b[k].Map?))
    ensures k in a && k in b && a[k].Map? && b[k].Map? ==>
              SameBelow(d, DiffFields(a[k].fields, b[k].fields, prefix + [Field(k)], n - 1), prefix + [Field(k)])
  {
    var at := prefix + [Field(k)];
    assert prefix <= at && at != prefix;
    DiffAtKey(a, b, prefix, n, k, at);
    assert at in d <==> at in DiffKey(a, b, k, prefix, n);
    if k in a && k in b {
      var x, y := a[k], b[k];
      assert DiffKey(a, b, k, prefix, n) == DiffValue(x, y, at, n - 1);
      if x.Map? && y.Map? {
        var below := DiffFields(x.fields, y.fields, at, n - 1);
        forall p | at <= p && p != at
          ensures p in d <==> p in below
        {
          assert prefix <= p && p != prefix;
          DiffAtKey(a, b, prefix, n, k, p);
        }
        if at in below {
          DiffHasKey(x.fields, y.fields, at, n - 1, at);
        }
      }
    }
  }

  lemma PatchedWithin(a: Fields, b: Fields, n: nat)
    ensures Patch(a, b, DiffFields(a, b, [], n), []) == b <==> AgreeBelow(a, b, n)
    ensures NestsWithin(a, b, n) ==> AgreeBelow(a, b, n)
  {
    PatchGivesNew(a, b, DiffFields(a, b, [], n), [], n);
    if NestsWithin(a, b, n) {
      NestingAgrees(a, b, n);
    }
  }

  /** Diff and patch round trip, with its exact condition. */
  lemma DiffPatchRoundTrip(a: Fields, b: Fields)
    ensures Patch(a, b, Diff(a, b), []) == b <==> AgreeBelow(a, b, MAX_DIFF_DEPTH)
    ensures NestsWithin(a, b, MAX_DIFF_DEPTH) ==> Patch(a, b, Diff(a, b), []) == b
  {
    PatchedWithin(a, b, MAX_DIFF_DEPTH);
  }

  /** Nothing is recorded exactly when nothing changed, above the cut-off. */
  lemma DiffEmptyExactly(a: Fields, b: Fields)
    requires AgreeBelow(a, b, MAX_DIFF_DEPTH)
    ensures Diff(a, b) == {} <==> a == b
  {
    if Diff(a, b) == {} {
      PatchNothing(a, b, {}, []);
      DiffPatchRoundTrip(a, b);
    }
    if a == b {
      forall p ensures p !in Diff(a, b) {
        DiffPointwise(a, b, p);
      }
    }
  }

  /** `m` under a chain of `n` nested maps. */
  function Chain(n: nat, m: Fields): Fields {
    if n == 0 then m else map["f" := Map(Chain(n - 1, m))]
  }

  lemma {:induction false} ChainHides(n: nat, x: Fields, y: Fields, prefix: Path)
    ensures DiffFields(Chain(n, x), Chain(n, y), prefix, n) == {}
    ensures x != y ==> Chain(n, x) != Chain(n, y)
  {
    if n > 0 {
      var at := prefix + [Field("f")];
      ChainHides(n - 1, x, y, at);
      var a, b := Chain(n, x), Chain(n, y);
      assert a.Keys == {"f"} && b.Keys == {"f"} && a["f"].fields == Chain(n - 1, x);
      assert DiffKey(a, b, "f", prefix, n) == DiffValue(a["f"], b["f"], at, n - 1) == {};
      assert forall k | k in a.Keys + b.Keys :: DiffKey(a, b, k, prefix, n) == {};
    }
  }

  /** The bound is tight: trees that differ only inside a map under 50 maps have an
      empty diff. */
  lemma CutOffTight(x: Fields, y: Fields)
    requires x != y
    ensures Chain(MAX_DIFF_DEPTH, x) != Chain(MAX_DIFF_DEPTH, y)
    ensures Diff(Chain(MAX_DIFF_DEPTH, x), Chain(MAX_DIFF_DEPTH, y)) == {}
  {
    ChainHides(MAX_DIFF_DEPTH, x, y, []);
  }
}
