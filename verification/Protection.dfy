/** What a permitted edit cannot change: the meaning of the conflict verdict. */
module Protection {
  import opened Wrappers
  import opened JsonValues
  import opened FieldDiff
  import opened DiffStructure
  import opened DiffRoundTrip
  import opened Conflicts

  /** The subtree at `at` without the subtrees at ignored paths. */
  ghost function Prune(v: Value, at: Path, ignore: PathSet): Value
    decreases v, 1
  {
    if v.Map? then Map(PruneFields(v.fields, at, ignore)) else v
  }

  ghost function PruneFields(m: Fields, at: Path, ignore: PathSet): Fields
    decreases Map(m), 0
  {
    map k | k in m && at + [Field(k)] !in ignore :: Prune(m[k], at + [Field(k)], ignore)
  }

  ghost function PrunedAt(m: Fields, p: Path, ignore: PathSet): Option<Value> {
    match Resolve(Map(m), p)
    case None => None
    case Some(v) => Some(Prune(v, p, ignore))
  }

  lemma CoversLast(ignore: PathSet, at: Path, e: PathElement)
    requires !Covers(ignore, at)
    ensures Covers(ignore, at + [e]) <==> at + [e] in ignore
  {
    if Covers(ignore, at + [e]) {
      var q :| q in ignore && q <= at + [e];
      assert q == at + [e] || q <= at;
    }
  }

  /** After pruning, the maps that both trees share `n` levels below `at` are equal: what
      the diff does not look at. */
  ghost predicate HiddenAgree(a: Fields, b: Fields, at: Path, n: nat, ignore: PathSet)
    decreases n
  {
    if n == 0 then PruneFields(a, at, ignore) == PruneFields(b, at, ignore)
    else forall k | k in a && k in b && a[k].Map? && b[k].Map? && at + [Field(k)] !in ignore ::
           HiddenAgree(a[k].fields, b[k].fields, at + [Field(k)], n - 1, ignore)
  }

  /** If every recorded path below `at` is ignored, what is left after pruning is equal
      exactly when the hidden maps agree. */
  lemma {:induction false} IgnoredEditsPruned(a: Fields, b: Fields, at: Path, n: nat, ignore: PathSet)
    requires !Covers(ignore, at)
    requires forall m | m in DiffFields(a, b, at, n) :: Covers(ignore, m)
    ensures PruneFields(a, at, ignore) == PruneFields(b, at, ignore) <==> HiddenAgree(a, b, at, n, ignore)
    decreases n
  {
    if n > 0 {
      forall k | k in a.Keys + b.Keys && at + [Field(k)] !in ignore
        ensures k in a && k in b
        ensures Prune(a[k], at + [Field(k)], ignore) == Prune(b[k], at + [Field(k)], ignore) <==>
                (a[k].Map? && b[k].Map? ==> HiddenAgree(a[k].fields, b[k].fields, at + [Field(k)], n - 1, ignore))
      {
        var here := at + [Field(k)];
        CoversLast(ignore, at, Field(k));
        DiffAtKey(a, b, at, n, k, here);
        assert k in a && k in b;
        assert DiffKey(a, b, k, at, n) == DiffValue(a[k], b[k], here, n - 1);
        if a[k].Map? && b[k].Map? {
          DiffKeyBelow(a, b, at, n, k);
          IgnoredEditsPruned(a[k].fields, b[k].fields, here, n - 1, ignore);
        }
      }
      PrunedKeywise(a, b, at, ignore);
    }
  }

  /** Pruned maps are equal exactly when they are at every key that is not ignored. */
  lemma PrunedKeywise(a: Fields, b: Fields, at: Path, ignore: PathSet)
    requires forall k | k in a.Keys + b.Keys && at + [Field(k)] !in ignore :: k in a && k in b
    ensures PruneFields(a, at, ignore) == PruneFields(b, at, ignore) <==>
            forall k | k in a && k in b && at + [Field(k)] !in ignore ::
              Prune(a[k], at + [Field(k)], ignore) == Prune(b[k], at + [Field(k)], ignore)
  {
    var p, q := PruneFields(a, at, ignore), PruneFields(b, at, ignore);
    assert p.Keys == q.Keys;
    if p == q {
      forall k | k in a && k in b && at + [Field(k)] !in ignore
        ensures Prune(a[k], at + [Field(k)], ignore) == Prune(b[k], at + [Field(k)], ignore)
      {
        assert p[k] == q[k];
      }
    }
  }

  lemma DiffKeyBelow(a: Fields, b: Fields, at: Path, n: nat, k: string)
    requires n > 0 && k in a && k in b && a[k].Map? && b[k].Map?
    ensures DiffFields(a[k].fields, b[k].fields, at + [Field(k)], n - 1) <= DiffFields(a, b, at, n)
  {
    var here := at + [Field(k)];
    forall p | p in DiffFields(a[k].fields, b[k].fields, here, n - 1) ensures p in DiffFields(a, b, at, n) {
      DiffHasKey(a[k].fields, b[k].fields, here, n - 1, p);
      DiffAtKey(a, b, at, n, k, p);
      assert DiffKey(a, b, k, at, n) == DiffValue(a[k], b[k], here, n - 1);
    }
  }

  ghost predicate PermittedFor(a: Fields, b: Fields, prefix: Path, n: nat, f: Path, ignore: PathSet) {
    forall m | m in DiffFields(a, b, prefix, n) && Overlap(m, f) :: Covers(ignore, Longer(m, f))
  }

  /** The pruned value that `rest` leads to from the map at `prefix`. */
  ghost function PrunedFrom(m: Fields, prefix: Path, rest: Path, ignore: PathSet): Option<Value> {
    match Resolve(Map(m), rest)
    case None => None
    case Some(v) => Some(Prune(v, prefix + rest, ignore))
  }

  /** Along a path the hidden maps are those it passes or leads into: the maps both trees
      share below the cut-off agree, for a path that ends above it as a whole, and for one
      that goes on below it at what the rest of the path leads to. */
  ghost predicate HiddenAgreeAt(a: Fields, b: Fields, prefix: Path, n: nat, rest: Path, ignore: PathSet)
    decreases n
  {
    if rest == [] then HiddenAgree(a, b, prefix, n, ignore)
    else if n == 0 then PrunedFrom(a, prefix, rest, ignore) == PrunedFrom(b, prefix, rest, ignore)
    else if rest[0].Field? && rest[0].name in a && rest[0].name in b &&
            a[rest[0].name].Map? && b[rest[0].name].Map? then
      HiddenAgreeAt(a[rest[0].name].fields, b[rest[0].name].fields, prefix + [rest[0]], n - 1, rest[1..], ignore)
    else true
  }

  lemma {:induction false} ValueKept(a: Fields, b: Fields, prefix: Path, n: nat, rest: Path, ignore: PathSet)
    requires !Covers(ignore, prefix + rest)
    requires PermittedFor(a, b, prefix, n, prefix + rest, ignore)
    ensures PrunedFrom(a, prefix, rest, ignore) == PrunedFrom(b, prefix, rest, ignore) <==>
            HiddenAgreeAt(a, b, prefix, n, rest, ignore)
    decreases n
  {
    var f := prefix + rest;
    if rest == [] {
      assert f == prefix;
      forall m | m in DiffFields(a, b, prefix, n) ensures Covers(ignore, m) {
        DiffHasKey(a, b, prefix, n, m);
      }
      IgnoredEditsPruned(a, b, prefix, n, ignore);
    } else if n > 0 && rest[0].Field? && rest[0].name in a.Keys + b.Keys {
      var k := rest[0].name;
      var here := prefix + [Field(k)];
      assert f == here + rest[1..];
      DiffAtKey(a, b, prefix, n, k, here);
      assert here <= f && Longer(here, f) == f by { assert |here| <= |f|; }
      assert k in a && k in b;
      assert DiffKey(a, b, k, prefix, n) == DiffValue(a[k], b[k], here, n - 1);
      if a[k].Map? && b[k].Map? {
        DiffKeyBelow(a, b, prefix, n, k);
        ValueKept(a[k].fields, b[k].fields, here, n - 1, rest[1..], ignore);
        assert Field(k) == rest[0];
      } else {
        assert a[k] == b[k];
      }
    }
  }

  /** A permitted edit leaves a Flux field path with no ignored prefix at the same value,
      once ignored subtrees are pruned, exactly when the maps hidden along or under the
      path agree. */
  lemma FluxValueKeptExactly(a: Fields, b: Fields, flux: PathSet, ignore: PathSet, f: Path)
    requires Permitted(Diff(a, b), flux, ignore)
    requires f in flux && !Covers(ignore, f)
    ensures PrunedAt(a, f, ignore) == PrunedAt(b, f, ignore) <==> HiddenAgreeAt(a, b, [], MAX_DIFF_DEPTH, f, ignore)
  {
    assert [] + f == f;
    ValueKept(a, b, [], MAX_DIFF_DEPTH, f, ignore);
  }

  lemma {:induction false} AgreeingHidesNothing(a: Fields, b: Fields, at: Path, n: nat, ignore: PathSet)
    requires AgreeBelow(a, b, n)
    ensures HiddenAgree(a, b, at, n, ignore)
    decreases n
  {
    if n > 0 {
      forall k | k in a && k in b && a[k].Map? && b[k].Map?
        ensures HiddenAgree(a[k].fields, b[k].fields, at + [Field(k)], n - 1, ignore)
      {
        AgreeingHidesNothing(a[k].fields, b[k].fields, at + [Field(k)], n - 1, ignore);
      }
    }
  }

  lemma {:induction false} AgreeingHidesNothingAt(
    a: Fields, b: Fields, prefix: Path, n: nat, rest: Path, ignore: PathSet)
    requires AgreeBelow(a, b, n)
    ensures HiddenAgreeAt(a, b, prefix, n, rest, ignore)
    decreases n
  {
    if rest == [] {
      AgreeingHidesNothing(a, b, prefix, n, ignore);
    } else if n > 0 && rest[0].Field? {
      var k := rest[0].name;
      if k in a && k in b && a[k].Map? && b[k].Map? {
        AgreeingHidesNothingAt(a[k].fields, b[k].fields, prefix + [rest[0]], n - 1, rest[1..], ignore);
      }
    }
  }

  /** Whatever the path, when no shared map is hidden with a difference. */
  lemma FluxValueKept(a: Fields, b: Fields, flux: PathSet, ignore: PathSet, f: Path)
    requires AgreeBelow(a, b, MAX_DIFF_DEPTH)
    requires Permitted(Diff(a, b), flux, ignore)
    requires f in flux && !Covers(ignore, f)
    ensures PrunedAt(a, f, ignore) == PrunedAt(b, f, ignore)
  {
    AgreeingHidesNothingAt(a, b, [], MAX_DIFF_DEPTH, f, ignore);
    FluxValueKeptExactly(a, b, flux, ignore, f);
  }

  /** A larger ignore set sees less: equality after pruning is kept. */
  lemma {:induction false} PruneMore(v: Value, w: Value, at: Path, i: PathSet, j: PathSet)
    requires i <= j && Prune(v, at, i) == Prune(w, at, i)
    ensures Prune(v, at, j) == Prune(w, at, j)
    decreases v
  {
    if v.Map? {
      assert w.Map?;
      var a, b := v.fields, w.fields;
      assert PruneFields(a, at, i) == PruneFields(b, at, i);
      forall k | at + [Field(k)] !in j && (k in a || k in b)
        ensures k in a && k in b && Prune(a[k], at + [Field(k)], j) == Prune(b[k], at + [Field(k)], j)
      {
        assert k in PruneFields(a, at, i) <==> k in a;
        assert k in PruneFields(b, at, i) <==> k in b;
        assert PruneFields(a, at, i)[k] == Prune(a[k], at + [Field(k)], i);
        assert PruneFields(b, at, i)[k] == Prune(b[k], at + [Field(k)], i);
        PruneMore(a[k], b[k], at + [Field(k)], i, j);
      }
      assert PruneFields(a, at, j) == PruneFields(b, at, j);
    }
  }

  // ---- Lists ----

  /** `member` lies inside the list at `at`: a key, value or index element follows. */
  ghost predicate InsideList(member: Path, at: Path) {
    at < member && !member[|at|].Field?
  }

  ghost predicate LeadsToList(m: Fields, at: Path) {
    Resolve(Map(m), at).Some? && Resolve(Map(m), at).value.List?
  }

  /** A pointer that goes below the list path covers no member of the list: only one at
      or above the list path does. */
  lemma PointersStopAtLists(ignore: PathSet, member: Path, at: Path)
    requires forall q | q in ignore :: AllFields(q)
    requires InsideList(member, at)
    ensures Covers(ignore, member) <==> Covers(ignore, at)
  {
  }

  /** Owning one member of a list protects the whole list. */
  lemma ListKept(a: Fields, b: Fields, flux: PathSet, ignore: PathSet, member: Path, at: Path)
    requires AgreeBelow(a, b, MAX_DIFF_DEPTH)
    requires Permitted(Diff(a, b), flux, ignore)
    requires member in flux && InsideList(member, at) && !Covers(ignore, member)
    requires LeadsToList(a, at)
    ensures Resolve(Map(b), at) == Resolve(Map(a), at)
  {
    forall m | m in Diff(a, b) ensures !Overlap(m, at) {
      OutsideList(a, b, flux, ignore, member, at, m);
    }
    UntouchedKept(a, b, at);
  }

  lemma OutsideList(a: Fields, b: Fields, flux: PathSet, ignore: PathSet, member: Path, at: Path, m: Path)
    requires Permitted(Diff(a, b), flux, ignore) && m in Diff(a, b)
    requires member in flux && InsideList(member, at) && !Covers(ignore, member)
    requires LeadsToList(a, at)
    ensures !Overlap(m, at)
  {
    if at <= m && at != m {
      NothingUnderList(a, b, at, m);
    }
    assert m <= at ==> m <= member && |m| <= |member|;
  }

  lemma UntouchedKept(a: Fields, b: Fields, at: Path)
    requires AgreeBelow(a, b, MAX_DIFF_DEPTH)
    requires forall m | m in Diff(a, b) :: !Overlap(m, at)
    requires Resolve(Map(a), at).Some? && !Resolve(Map(a), at).value.Map?
    ensures Resolve(Map(b), at) == Resolve(Map(a), at)
  {
    FluxValueKept(a, b, {at}, {}, at);
  }

  lemma NothingUnderList(a: Fields, b: Fields, at: Path, m: Path)
    requires m in Diff(a, b) && at <= m && at != m
    ensures !LeadsToList(a, at)
  {
    DiffPointwise(a, b, m);
    var parent := m[..|m| - 1];
    assert parent == at + parent[|at|..];
    PathsPassMaps(Map(a), at, parent[|at|..]);
  }

  lemma PathsPassMaps(v: Value, p: Path, rest: Path)
    requires LeadsToMap(v, p + rest)
    ensures LeadsToMap(v, p)
  {
    ResolveConcat(v, p, rest);
  }
}
