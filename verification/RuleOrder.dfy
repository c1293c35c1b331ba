/** What the iteration order of Go's maps can decide. A handler draws one of the ignore
    sets the owner's rules can evaluate to; two handlers, or one handler asked twice, may
    draw different ones. */
module RuleOrder {
  import opened Wrappers
  import opened JsonValues
  import opened Labels
  import opened ManagedFields
  import opened Conflicts
  import opened IgnoreRules
  import opened Admission
  import opened UpdateSafety

  /** The largest ignore set the request may be judged with. */
  ghost function Largest(m: Matchers, store: Store, req: Request, before: ObjectMeta, info: Ownership): PathSet {
    LargestIgnoreSet(m, RulesFor(store, info), SubjectOf(req, before))
  }

  /** The request gets as far as having a conflict looked up in the owner's rules. */
  ghost predicate Consulted(cfg: Config, store: Store, req: Request) {
    Evaluate(cfg, store, req, {}).consulted
  }

  /** An ignore set is drawn, some rule can fail, and all can pass. */
  ghost predicate OrderOpen(m: Matchers, cfg: Config, store: Store, req: Request) {
    var metas := ExtractRequestMetadata(req);
    && Consulted(cfg, store, req) && metas.Some?
    && OrderDependent(m, RulesFor(store, RequestOwner(req, metas.value.0, metas.value.1)),
                      SubjectOf(req, metas.value.1))
  }

  /** Then the selected paths cover the whole conflict, so that the reason depends on
      the order. */
  ghost predicate OrderDecidesReason(m: Matchers, cfg: Config, store: Store, req: Request) {
    var metas := ExtractRequestMetadata(req);
    && OrderOpen(m, cfg, store, req)
    && var (obj, before) := metas.value;
       var largest := Largest(m, store, req, before, RequestOwner(req, obj, before));
       ConsultsRules(req, obj, before) &&
       Permitted(ModifiedFields(req).value, FluxFields(before.managedFields).value, largest)
  }

  /** Moreover nothing else speaks against the update, so that the answer does. */
  ghost predicate OrderDecidesAnswer(m: Matchers, cfg: Config, store: Store, req: Request) {
    var metas := ExtractRequestMetadata(req);
    && OrderOpen(m, cfg, store, req)
    && var (obj, before) := metas.value;
       UpdateAcceptable(req, obj, before, Largest(m, store, req, before, RequestOwner(req, obj, before)))
  }

  /** Only a consulted request's verdict depends on the ignore set, and only through the
      field check. */
  lemma WaiverMatters(cfg: Config, store: Store, req: Request, w: PathSet)
    ensures !Consulted(cfg, store, req) ==> Evaluate(cfg, store, req, w) == Evaluate(cfg, store, req, {})
    ensures Consulted(cfg, store, req) ==>
              var metas := ExtractRequestMetadata(req);
              && metas.Some? && ConsultsRules(req, metas.value.0, metas.value.1)
              && Evaluate(cfg, store, req, w) ==
                 Evaluate(cfg, store, req, {}).(decision := UpdateDecision(req, metas.value.0, metas.value.1, w))
  {
  }

  /** An ignore set that does not cover the conflict leads to the same denial whatever it
      is; the empty one never does. */
  lemma ConflictDenied(req: Request, obj: ObjectMeta, before: ObjectMeta, w: PathSet)
    requires ConsultsRules(req, obj, before)
    ensures var covered := Permitted(ModifiedFields(req).value, FluxFields(before.managedFields).value, w);
            && (w == {} ==> !covered)
            && (UpdateDecision(req, obj, before, w) == Decision(false, DeniedUpdateFluxManaged) <==> !covered)
  {
    var modified, flux := ModifiedFields(req).value, FluxFields(before.managedFields).value;
    VerdictPointwise(modified, flux, w);
    assert w == {} ==> Waive(Conflict(modified, flux), w) == Conflict(modified, flux);
  }

  lemma DrawnSets(m: Matchers, cfg: Config, store: Store, req: Request, w: PathSet)
    requires Consulted(cfg, store, req)
    ensures ExtractRequestMetadata(req).Some?
    ensures var (obj, before) := ExtractRequestMetadata(req).value;
            WaiverFor(m, cfg, store, req, w) <==>
            PossibleWaiver(m, store, req, before, RequestOwner(req, obj, before), w)
  {
    WaiverMatters(cfg, store, req, w);
  }

  /** The largest set can always be drawn. */
  lemma LargestDrawn(m: Matchers, cfg: Config, store: Store, req: Request, obj: ObjectMeta, before: ObjectMeta)
    requires ExtractRequestMetadata(req) == Some((obj, before))
    ensures WaiverFor(m, cfg, store, req, Largest(m, store, req, before, RequestOwner(req, obj, before)))
  {
    LargestIsPossible(m, RulesFor(store, RequestOwner(req, obj, before)), SubjectOf(req, before));
  }

  /** When the order is open, the empty set and the largest one can be drawn; when it is
      not, one set only. */
  lemma DrawsExactly(
    m: Matchers, cfg: Config, store: Store, req: Request, obj: ObjectMeta, before: ObjectMeta, w: PathSet)
    requires Consulted(cfg, store, req) && ExtractRequestMetadata(req) == Some((obj, before))
    ensures var largest := Largest(m, store, req, before, RequestOwner(req, obj, before));
            WaiverFor(m, cfg, store, req, w) <==> w == largest || (w == {} && OrderOpen(m, cfg, store, req))
  {
    DrawnSets(m, cfg, store, req, w);
    LargestDrawn(m, cfg, store, req, obj, before);
    DrawnSets(m, cfg, store, req, Largest(m, store, req, before, RequestOwner(req, obj, before)));
    assert SelectedPaths(m, [], SubjectOf(req, before)) == {};
  }

  /** Two handlers that draw their own ignore sets can come to different verdicts on a
      request exactly when the order decides the reason. */
  lemma VerdictsDifferExactly(m: Matchers, cfg: Config, store: Store, req: Request)
    ensures (exists v, w | WaiverFor(m, cfg, store, req, v) && WaiverFor(m, cfg, store, req, w) ::
               Evaluate(cfg, store, req, v) != Evaluate(cfg, store, req, w)) <==>
            OrderDecidesReason(m, cfg, store, req)
  {
    if Consulted(cfg, store, req) {
      WaiverMatters(cfg, store, req, {});
      var (obj, before) := ExtractRequestMetadata(req).value;
      var largest := Largest(m, store, req, before, RequestOwner(req, obj, before));
      ConflictDenied(req, obj, before, {});
      ConflictDenied(req, obj, before, largest);
      WaiverMatters(cfg, store, req, largest);
      DrawsExactly(m, cfg, store, req, obj, before, {});
      DrawsExactly(m, cfg, store, req, obj, before, largest);
      forall w | WaiverFor(m, cfg, store, req, w) ensures w == largest || (w == {} && OrderOpen(m, cfg, store, req)) {
        DrawsExactly(m, cfg, store, req, obj, before, w);
      }
    } else {
      forall w ensures Evaluate(cfg, store, req, w) == Evaluate(cfg, store, req, {}) {
        WaiverMatters(cfg, store, req, w);
      }
    }
  }

  /** They can answer differently exactly when the order decides the answer. */
  lemma AnswersDifferExactly(m: Matchers, cfg: Config, store: Store, req: Request)
    ensures (exists v, w | WaiverFor(m, cfg, store, req, v) && WaiverFor(m, cfg, store, req, w) ::
               Evaluate(cfg, store, req, v).decision.allowed && !Evaluate(cfg, store, req, w).decision.allowed) <==>
            OrderDecidesAnswer(m, cfg, store, req)
    ensures OrderDecidesAnswer(m, cfg, store, req) ==> OrderDecidesReason(m, cfg, store, req)
  {
    if Consulted(cfg, store, req) {
      WaiverMatters(cfg, store, req, {});
      var (obj, before) := ExtractRequestMetadata(req).value;
      var largest := Largest(m, store, req, before, RequestOwner(req, obj, before));
      ConflictDenied(req, obj, before, {});
      UpdateAdmittedExactly(req, obj, before, largest);
      WaiverMatters(cfg, store, req, largest);
      DrawsExactly(m, cfg, store, req, obj, before, {});
      DrawsExactly(m, cfg, store, req, obj, before, largest);
      forall w | WaiverFor(m, cfg, store, req, w) ensures w == largest || (w == {} && OrderOpen(m, cfg, store, req)) {
        DrawsExactly(m, cfg, store, req, obj, before, w);
      }
    } else {
      forall w ensures Evaluate(cfg, store, req, w) == Evaluate(cfg, store, req, {}) {
        WaiverMatters(cfg, store, req, w);
      }
    }
  }

  /** Some draw admits the request exactly when the largest one does; every draw does
      unless, besides, the order decides the answer. */
  lemma AdmissibleExactly(m: Matchers, cfg: Config, store: Store, req: Request, obj: ObjectMeta, before: ObjectMeta)
    requires ExtractRequestMetadata(req) == Some((obj, before))
    ensures var best := Evaluate(cfg, store, req, Largest(m, store, req, before, RequestOwner(req, obj, before)));
            && ((exists w | WaiverFor(m, cfg, store, req, w) :: Evaluate(cfg, store, req, w).decision.allowed) <==>
                best.decision.allowed)
            && ((forall w | WaiverFor(m, cfg, store, req, w) :: Evaluate(cfg, store, req, w).decision.allowed) <==>
                best.decision.allowed && !OrderDecidesAnswer(m, cfg, store, req))
  {
    var largest := Largest(m, store, req, before, RequestOwner(req, obj, before));
    LargestDrawn(m, cfg, store, req, obj, before);
    AnswersDifferExactly(m, cfg, store, req);
    forall w | WaiverFor(m, cfg, store, req, w) && Evaluate(cfg, store, req, w).decision.allowed
      ensures Evaluate(cfg, store, req, largest).decision.allowed
    {
      WaiverMatters(cfg, store, req, w);
      WaiverMatters(cfg, store, req, largest);
      if Consulted(cfg, store, req) {
        DrawsExactly(m, cfg, store, req, obj, before, w);
        ConflictDenied(req, obj, before, {});
      }
    }
  }
}
