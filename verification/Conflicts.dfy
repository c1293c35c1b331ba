/** Which modified paths meet the paths Flux owns, and which of those are waived
    (internal/webhook/fields.go). fieldpath.Set is a set of paths. */
module Conflicts {
  import opened Wrappers
  import opened JsonValues

  /** fieldpath.Set.RecursiveDifference: drops every path at or below one of `t`. */
  function RecursiveDifference(s: PathSet, t: PathSet): PathSet {
    set p | p in s && !exists q | q in t :: q <= p
  }

  /** A nil set conflicts with nothing. */
  function GetConflictingFields(modified: Option<PathSet>, flux: Option<PathSet>): PathSet {
    if modified.None? || flux.None? then {}
    else
      var m, f := modified.value, flux.value;
      var fluxUnderModified := f - RecursiveDifference(f, m);
      var modifiedUnderFlux := m - RecursiveDifference(m, f);
      fluxUnderModified + modifiedUnderFlux
  }

  /** A nil ignore set waives nothing. */
  function WaiveIgnoredConflicts(conflict: Option<PathSet>, ignore: Option<PathSet>): PathSet {
    if conflict.None? then {}
    else if ignore.None? then conflict.value
    else RecursiveDifference(conflict.value, ignore.value)
  }

  function Conflict(modified: PathSet, flux: PathSet): PathSet {
    GetConflictingFields(Some(modified), Some(flux))
  }

  function Waive(conflict: PathSet, ignore: PathSet): PathSet {
    WaiveIgnoredConflicts(Some(conflict), Some(ignore))
  }

  /** A nil set counts like the empty one. */
  lemma NilIsEmpty(m: Option<PathSet>, f: Option<PathSet>)
    ensures GetConflictingFields(m, f) ==
            Conflict(if m.Some? then m.value else {}, if f.Some? then f.value else {})
    ensures WaiveIgnoredConflicts(m, f) == Waive(if m.Some? then m.value else {}, if f.Some? then f.value else {})
  {
    var s := if m.Some? then m.value else {};
    assert RecursiveDifference({}, s) == {} && RecursiveDifference(s, {}) == s;
    if f.Some? {
      assert RecursiveDifference(f.value, {}) == f.value && RecursiveDifference({}, f.value) == {};
    }
  }

  // ---- The verdict, pointwise ----

  ghost predicate Overlap(m: Path, f: Path) {
    m <= f || f <= m
  }

  function Longer(m: Path, f: Path): Path {
    if |m| <= |f| then f else m
  }

  /** Wherever a modified path and a Flux path overlap, the longer one is ignored. */
  ghost predicate Permitted(modified: PathSet, flux: PathSet, ignore: PathSet) {
    forall m, f | m in modified && f in flux && Overlap(m, f) :: Covers(ignore, Longer(m, f))
  }

  lemma ConflictMembers(modified: PathSet, flux: PathSet, p: Path)
    ensures p in Conflict(modified, flux) <==>
            exists m, f | m in modified && f in flux :: Overlap(m, f) && p == Longer(m, f)
  {
  }

  lemma NoConflictNoOverlap(modified: PathSet, flux: PathSet)
    ensures Conflict(modified, flux) == {} <==> forall m, f | m in modified && f in flux :: !Overlap(m, f)
  {
    if Conflict(modified, flux) == {} {
      forall m, f | m in modified && f in flux ensures !Overlap(m, f) {
        ConflictMembers(modified, flux, Longer(m, f));
      }
    }
  }

  lemma VerdictPointwise(modified: PathSet, flux: PathSet, ignore: PathSet)
    ensures Waive(Conflict(modified, flux), ignore) == {} <==> Permitted(modified, flux, ignore)
    ensures Conflict(modified, flux) == Conflict(flux, modified)
  {
    var left := Waive(Conflict(modified, flux), ignore);
    if left == {} {
      forall m, f | m in modified && f in flux && Overlap(m, f) ensures Covers(ignore, Longer(m, f)) {
        var p := Longer(m, f);
        ConflictMembers(modified, flux, p);
        assert p in Conflict(modified, flux) && p !in left;
      }
    }
    if Permitted(modified, flux, ignore) {
      forall p ensures p !in left {
        ConflictMembers(modified, flux, p);
      }
    }
  }

  /** More edits or more Flux paths never help; a larger ignore set never hurts. */
  lemma VerdictMonotone(m: PathSet, m': PathSet, f: PathSet, f': PathSet, i: PathSet, i': PathSet)
    requires m <= m' && f <= f' && i' <= i
    requires Waive(Conflict(m', f'), i') == {}
    ensures Waive(Conflict(m, f), i) == {}
  {
  }

  lemma WaiveTwice(conflict: PathSet, i: PathSet, j: PathSet)
    ensures Waive(Waive(conflict, i), j) == Waive(conflict, i + j)
  {
  }
}
