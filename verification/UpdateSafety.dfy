/** What one admitted UPDATE means for the object it changes. */
module UpdateSafety {
  import opened JsonValues
  import opened Labels
  import opened ManagedFields
  import opened FieldDiff
  import opened DiffRoundTrip
  import opened Conflicts
  import opened Protection
  import opened IgnoreRules
  import opened Admission
  import opened RequestFacts

  /** The ignore set the check works with: the rules are not evaluated without a
      conflict, and the tamper check then tolerates nothing. */
  ghost function EffectiveIgnore(req: Request, obj: ObjectMeta, before: ObjectMeta, waiver: PathSet): PathSet {
    if ConsultsRules(req, obj, before) then waiver else {}
  }

  /** Every path Flux owned is still Flux's, except ignored ones. */
  ghost predicate OwnershipKept(before: PathSet, after: PathSet, ignore: PathSet) {
    forall p | p in before :: p in after || Covers(ignore, p)
  }

  /** The field check, said pointwise: exactly when a non-owner's UPDATE is admitted. */
  ghost predicate UpdateAcceptable(req: Request, obj: ObjectMeta, before: ObjectMeta, waiver: PathSet) {
    var flux, newFlux := FluxFields(before.managedFields), FluxFields(obj.managedFields);
    var ignore := EffectiveIgnore(req, obj, before, waiver);
    && flux.Ok?
    && (flux.value != {} ==>
          && !SwitchesOff(before.annotations, obj.annotations)
          && req.oldObject.tree.Some? && req.newObject.tree.Some?
          && Permitted(Diff(req.oldObject.tree.value, req.newObject.tree.value), flux.value, ignore)
          && newFlux.Ok? && OwnershipKept(flux.value, newFlux.value, ignore))
  }

  lemma ReleasedNothing(before: PathSet, after: PathSet, ignore: PathSet)
    ensures Waive(before - after, ignore) == {} <==> OwnershipKept(before, after, ignore)
  {
    if Waive(before - after, ignore) == {} {
      forall p | p in before && p !in after ensures Covers(ignore, p) {
        assert p in before - after && p !in Waive(before - after, ignore);
      }
    }
  }

  lemma UpdateAdmittedExactly(req: Request, obj: ObjectMeta, before: ObjectMeta, waiver: PathSet)
    ensures UpdateDecision(req, obj, before, waiver).allowed <==> UpdateAcceptable(req, obj, before, waiver)
  {
    var flux, newFlux := FluxFields(before.managedFields), FluxFields(obj.managedFields);
    SwitchesOffExactly(before.annotations, obj.annotations);
    if flux.Ok? && flux.value != {} && ModifiedFields(req).Some? {
      var modified := ModifiedFields(req).value;
      var ignore := if Conflict(modified, flux.value) == {} then {} else waiver;
      VerdictPointwise(modified, flux.value, ignore);
      if newFlux.Ok? {
        ReleasedNothing(flux.value, newFlux.value, ignore);
      }
    }
  }

  /** After a non-owner's admitted UPDATE a Flux path that is not ignored leads to the same
      pruned value exactly when the maps the diff does not see along or under it agree. */
  lemma AdmittedUpdateKeepsExactly(req: Request, obj: ObjectMeta, before: ObjectMeta, waiver: PathSet, f: Path)
    requires UpdateDecision(req, obj, before, waiver).allowed
    requires FluxFields(before.managedFields).Ok? && f in FluxFields(before.managedFields).value
    requires !Covers(EffectiveIgnore(req, obj, before, waiver), f)
    ensures req.oldObject.tree.Some? && req.newObject.tree.Some?
    ensures var ignore := EffectiveIgnore(req, obj, before, waiver);
            PrunedAt(req.oldObject.tree.value, f, ignore) == PrunedAt(req.newObject.tree.value, f, ignore) <==>
            HiddenAgreeAt(req.oldObject.tree.value, req.newObject.tree.value, [], MAX_DIFF_DEPTH, f, ignore)
  {
    UpdateAdmittedExactly(req, obj, before, waiver);
    FluxValueKeptExactly(req.oldObject.tree.value, req.newObject.tree.value, FluxFields(before.managedFields).value,
                         EffectiveIgnore(req, obj, before, waiver), f);
  }

  /** What a non-owner's admitted UPDATE leaves alone on an object Flux applied. */
  lemma AdmittedUpdateKeeps(req: Request, obj: ObjectMeta, before: ObjectMeta, waiver: PathSet, f: Path)
    requires UpdateDecision(req, obj, before, waiver).allowed
    requires FluxFields(before.managedFields).Ok? && f in FluxFields(before.managedFields).value
    requires !Covers(EffectiveIgnore(req, obj, before, waiver), f)
    requires req.oldObject.tree.Some? && req.newObject.tree.Some? ==>
               AgreeBelow(req.oldObject.tree.value, req.newObject.tree.value, MAX_DIFF_DEPTH)
    ensures FluxFields(obj.managedFields).Ok? && f in FluxFields(obj.managedFields).value
    ensures req.oldObject.tree.Some? && req.newObject.tree.Some?
    ensures PrunedAt(req.oldObject.tree.value, f, EffectiveIgnore(req, obj, before, waiver)) ==
            PrunedAt(req.newObject.tree.value, f, EffectiveIgnore(req, obj, before, waiver))
  {
    UpdateAdmittedExactly(req, obj, before, waiver);
    FluxValueKept(req.oldObject.tree.value, req.newObject.tree.value, FluxFields(before.managedFields).value,
                  EffectiveIgnore(req, obj, before, waiver), f);
  }

  /** Without a waived conflict nothing of Flux's is touched or released at all. */
  lemma NoConflictKeepsEverything(req: Request, obj: ObjectMeta, before: ObjectMeta, waiver: PathSet)
    requires UpdateDecision(req, obj, before, waiver) == Decision(true, AllowedNoFieldConflict)
    ensures FluxFields(before.managedFields).Ok? && FluxFields(obj.managedFields).Ok?
    ensures FluxFields(before.managedFields).value <= FluxFields(obj.managedFields).value
    ensures forall m, f | m in ModifiedFields(req).value && f in FluxFields(before.managedFields).value ::
              !Overlap(m, f)
  {
    UpdateAdmittedExactly(req, obj, before, waiver);
    var flux := FluxFields(before.managedFields).value;
    assert EffectiveIgnore(req, obj, before, waiver) == {};
    NoConflictNoOverlap(ModifiedFields(req).value, flux);
  }

  /** Keyed-list atomicity: with one member of a list owned and not ignored, the whole
      list stays. */
  lemma AdmittedUpdateKeepsList(
    req: Request, obj: ObjectMeta, before: ObjectMeta, waiver: PathSet, member: Path, at: Path)
    requires UpdateDecision(req, obj, before, waiver).allowed
    requires FluxFields(before.managedFields).Ok? && member in FluxFields(before.managedFields).value
    requires InsideList(member, at) && !Covers(EffectiveIgnore(req, obj, before, waiver), member)
    requires req.oldObject.tree.Some? && req.newObject.tree.Some?
    requires AgreeBelow(req.oldObject.tree.value, req.newObject.tree.value, MAX_DIFF_DEPTH)
    requires LeadsToList(req.oldObject.tree.value, at)
    ensures Resolve(Map(req.newObject.tree.value), at) == Resolve(Map(req.oldObject.tree.value), at)
  {
    UpdateAdmittedExactly(req, obj, before, waiver);
    ListKept(req.oldObject.tree.value, req.newObject.tree.value, FluxFields(before.managedFields).value,
             EffectiveIgnore(req, obj, before, waiver), member, at);
  }

  /** The owner's rules cover a list member exactly when they cover the list: a pointer
      that descends into the list never waives. */
  lemma RulesStopAtLists(
    m: Matchers, store: Store, req: Request, obj: ObjectMeta, before: ObjectMeta, info: Ownership, waiver: PathSet,
    member: Path, at: Path)
    requires ConsultsRules(req, obj, before) ==> PossibleWaiver(m, store, req, before, info, waiver)
    requires InsideList(member, at)
    ensures Covers(EffectiveIgnore(req, obj, before, waiver), member) <==>
            Covers(EffectiveIgnore(req, obj, before, waiver), at)
  {
  }

}
