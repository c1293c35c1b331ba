/** Two handlers that differ only in audit mode, fed the same run against the same cache
    answers. Each draws its own ignore sets. */
module AuditMode {
  import opened JsonValues
  import opened IgnoreRules
  import opened Admission
  import opened RuleOrder
  import opened Counting

  function Auditing(cfg: Config): Config {
    cfg.(auditOnly := true)
  }

  function Enforcing(cfg: Config): Config {
    cfg.(auditOnly := false)
  }

  /** The two handlers count alike after every call of the run, whatever each draws. */
  ghost predicate InLockStep(m: Matchers, cfg: Config, calls: seq<Call>) {
    forall n, v, w |
      0 <= n <= |calls| && Drawn(m, Auditing(cfg), calls[..n], v) && Drawn(m, Enforcing(cfg), calls[..n], w) ::
      CountersAfter(Auditing(cfg), calls[..n], v) == CountersAfter(Enforcing(cfg), calls[..n], w)
  }

  /** The audit handler lets the request through, and warns exactly where the other
      handler denies, whatever each draws. */
  ghost predicate WarnsWhereDenied(m: Matchers, cfg: Config, call: Call) {
    forall v, w :: WarnsAgainst(m, cfg, call, v, w)
  }

  ghost predicate WarnsAgainst(m: Matchers, cfg: Config, call: Call, v: PathSet, w: PathSet) {
    WaiverFor(m, Auditing(cfg), call.store, call.req, v) && WaiverFor(m, Enforcing(cfg), call.store, call.req, w) ==>
      var audit := Respond(Auditing(cfg), VerdictOn(Auditing(cfg), call, v).decision);
      var enforce := Respond(Enforcing(cfg), VerdictOn(Enforcing(cfg), call, w).decision);
      audit.allowed && (audit.warning == WouldBeBlocked <==> !enforce.allowed)
  }

  lemma AuditDecidesAlike(m: Matchers, cfg: Config, store: Store, req: Request, w: PathSet, audit: bool)
    ensures Evaluate(cfg.(auditOnly := audit), store, req, w) == Evaluate(cfg, store, req, w)
    ensures WaiverFor(m, cfg.(auditOnly := audit), store, req, w) <==> WaiverFor(m, cfg, store, req, w)
  {
  }

  lemma {:induction false} AlikeUnlessOpen(m: Matchers, cfg: Config, calls: seq<Call>, v: seq<PathSet>, w: seq<PathSet>)
    requires Drawn(m, Auditing(cfg), calls, v) && Drawn(m, Enforcing(cfg), calls, w)
    requires forall call | call in calls :: !OrderDecidesReason(m, cfg, call.store, call.req)
    ensures CountersAfter(Auditing(cfg), calls, v) == CountersAfter(Enforcing(cfg), calls, w)
    decreases |calls|
  {
    if calls != [] {
      var n := |calls| - 1;
      var last := calls[n];
      AlikeUnlessOpen(m, cfg, calls[..n], v[..n], w[..n]);
      AuditDecidesAlike(m, cfg, last.store, last.req, v[n], true);
      AuditDecidesAlike(m, cfg, last.store, last.req, w[n], false);
      VerdictsDifferExactly(m, cfg, last.store, last.req);
      assert last in calls;
    }
  }

  lemma SomeDraw(m: Matchers, cfg: Config, call: Call) returns (draw: PathSet)
    ensures WaiverFor(m, cfg, call.store, call.req, draw)
  {
    draw := {};
    var metas := ExtractRequestMetadata(call.req);
    if metas.Some? {
      var (obj, before) := metas.value;
      LargestDrawn(m, cfg, call.store, call.req, obj, before);
      draw := Largest(m, call.store, call.req, before, RequestOwner(call.req, obj, before));
    }
  }

  /** Every run can be drawn for. */
  lemma {:induction false} SomeDraws(m: Matchers, cfg: Config, calls: seq<Call>) returns (draws: seq<PathSet>)
    ensures Drawn(m, cfg, calls, draws)
    decreases |calls|
  {
    draws := [];
    if calls != [] {
      var n := |calls| - 1;
      draws := SomeDraws(m, cfg, calls[..n]);
      var draw := SomeDraw(m, cfg, calls[n]);
      DrawnAdd(m, cfg, calls[..n], draws, calls[n], draw);
      assert calls[..n] + [calls[n]] == calls;
      draws := draws + [draw];
    }
  }

  lemma RecordsDiffer(c: Counters, req: Request, a: Verdict, b: Verdict)
    requires a.decision.reason != b.decision.reason
    ensures Record(c, req, a) != Record(c, req, b)
  {
    var x, y := (req.operation, a.decision.reason), (req.operation, b.decision.reason);
    assert (c.requests + multiset{x})[x] == c.requests[x] + 1;
    assert (c.requests + multiset{y})[x] == c.requests[x];
  }

  /** Two ways to draw for the same run that part at the last call. */
  lemma PartAtLast(m: Matchers, cfg: Config, init: seq<Call>, call: Call)
    returns (v: seq<PathSet>, w: seq<PathSet>)
    requires OrderDecidesReason(m, cfg, call.store, call.req)
    ensures Drawn(m, Auditing(cfg), init + [call], v) && Drawn(m, Enforcing(cfg), init + [call], w)
    ensures CountersAfter(Auditing(cfg), init, v[..|init|]) == CountersAfter(Enforcing(cfg), init, w[..|init|]) ==>
              CountersAfter(Auditing(cfg), init + [call], v) != CountersAfter(Enforcing(cfg), init + [call], w)
  {
    var x, y := DifferingDraws(m, cfg, call);
    var draws := SomeDraws(m, cfg, init);
    v, w := draws + [x], draws + [y];
    DrawnAdd(m, cfg, init, draws, call, x);
    DrawnAdd(m, cfg, init, draws, call, y);
    DrawnAlike(m, cfg, init + [call], v);
    DrawnAlike(m, cfg, init + [call], w);
    CountersAfterAdd(Auditing(cfg), init, draws, call, x);
    CountersAfterAdd(Enforcing(cfg), init, draws, call, y);
    RecordsDiffer(CountersAfter(Auditing(cfg), init, draws), call.req,
                  VerdictOn(Auditing(cfg), call, x), VerdictOn(Enforcing(cfg), call, y));
    assert v[..|init|] == draws && w[..|init|] == draws;
  }

  lemma DifferingDraws(m: Matchers, cfg: Config, call: Call) returns (x: PathSet, y: PathSet)
    requires OrderDecidesReason(m, cfg, call.store, call.req)
    ensures WaiverFor(m, cfg, call.store, call.req, x) && WaiverFor(m, cfg, call.store, call.req, y)
    ensures VerdictOn(Auditing(cfg), call, x).decision.reason != VerdictOn(Enforcing(cfg), call, y).decision.reason
  {
    VerdictsDifferExactly(m, cfg, call.store, call.req);
    x, y :| WaiverFor(m, cfg, call.store, call.req, x) && WaiverFor(m, cfg, call.store, call.req, y) &&
            Evaluate(cfg, call.store, call.req, x) != Evaluate(cfg, call.store, call.req, y);
    ReasonsDiffer(m, cfg, call.store, call.req, x, y);
    AuditDecidesAlike(m, cfg, call.store, call.req, x, true);
    AuditDecidesAlike(m, cfg, call.store, call.req, y, false);
  }

  /** A call whose reason the order decides breaks the lock-step. */
  lemma DivergesAt(m: Matchers, cfg: Config, init: seq<Call>, call: Call, calls: seq<Call>)
    requires init + [call] <= calls && OrderDecidesReason(m, cfg, call.store, call.req)
    ensures !InLockStep(m, cfg, calls)
  {
    var v, w := PartAtLast(m, cfg, init, call);
    if CountersAfter(Auditing(cfg), init + [call], v) != CountersAfter(Enforcing(cfg), init + [call], w) {
      BreaksAt(m, cfg, calls, init + [call], v, w);
    } else {
      DrawnInit(m, Auditing(cfg), init, call, v);
      DrawnInit(m, Enforcing(cfg), init, call, w);
      assert init <= init + [call];
      BreaksAt(m, cfg, calls, init, v[..|init|], w[..|init|]);
    }
  }

  lemma BreaksAt(m: Matchers, cfg: Config, calls: seq<Call>, run: seq<Call>, v: seq<PathSet>, w: seq<PathSet>)
    requires run <= calls && Drawn(m, Auditing(cfg), run, v) && Drawn(m, Enforcing(cfg), run, w)
    requires CountersAfter(Auditing(cfg), run, v) != CountersAfter(Enforcing(cfg), run, w)
    ensures !InLockStep(m, cfg, calls)
  {
    assert calls[..|run|] == run;
  }

  lemma DrawnInit(m: Matchers, cfg: Config, init: seq<Call>, call: Call, draws: seq<PathSet>)
    requires Drawn(m, cfg, init + [call], draws)
    ensures Drawn(m, cfg, init, draws[..|init|])
  {
    assert forall i | 0 <= i < |init| :: (init + [call])[i] == init[i];
  }

  lemma DrawnAlike(m: Matchers, cfg: Config, calls: seq<Call>, draws: seq<PathSet>)
    requires Drawn(m, cfg, calls, draws)
    ensures Drawn(m, Auditing(cfg), calls, draws) && Drawn(m, Enforcing(cfg), calls, draws)
  {
    forall i | 0 <= i < |calls|
      ensures WaiverFor(m, Auditing(cfg), calls[i].store, calls[i].req, draws[i])
      ensures WaiverFor(m, Enforcing(cfg), calls[i].store, calls[i].req, draws[i])
    {
      AuditDecidesAlike(m, cfg, calls[i].store, calls[i].req, draws[i], true);
      AuditDecidesAlike(m, cfg, calls[i].store, calls[i].req, draws[i], false);
    }
  }

  /** Verdicts that differ differ in their reasons. */
  lemma ReasonsDiffer(m: Matchers, cfg: Config, store: Store, req: Request, x: PathSet, y: PathSet)
    requires Evaluate(cfg, store, req, x) != Evaluate(cfg, store, req, y)
    ensures Evaluate(cfg, store, req, x).decision.reason != Evaluate(cfg, store, req, y).decision.reason
  {
    WaiverMatters(cfg, store, req, x);
    WaiverMatters(cfg, store, req, y);
    FlagMatchesReason(cfg, store, req, x);
    FlagMatchesReason(cfg, store, req, y);
  }

  /** Audit and enforcing handlers count alike on a run, call after call, exactly when no
      call of it leaves its reason to the iteration order. */
  lemma AuditLockStep(m: Matchers, cfg: Config, calls: seq<Call>)
    ensures InLockStep(m, cfg, calls) <==>
            forall call | call in calls :: !OrderDecidesReason(m, cfg, call.store, call.req)
  {
    if forall call | call in calls :: !OrderDecidesReason(m, cfg, call.store, call.req) {
      forall n, v, w |
        0 <= n <= |calls| && Drawn(m, Auditing(cfg), calls[..n], v) && Drawn(m, Enforcing(cfg), calls[..n], w)
        ensures CountersAfter(Auditing(cfg), calls[..n], v) == CountersAfter(Enforcing(cfg), calls[..n], w)
      {
        AlikeUnlessOpen(m, cfg, calls[..n], v, w);
      }
    } else {
      var call :| call in calls && OrderDecidesReason(m, cfg, call.store, call.req);
      var init := Before(calls, call);
      DivergesAt(m, cfg, init, call, calls);
    }
  }

  lemma Before(calls: seq<Call>, call: Call) returns (init: seq<Call>)
    requires call in calls
    ensures init + [call] <= calls
  {
    var i :| 0 <= i < |calls| && calls[i] == call;
    init := calls[..i];
    assert init + [call] == calls[..i + 1];
  }

  lemma WarnsUnlessApart(m: Matchers, cfg: Config, call: Call, v: PathSet, w: PathSet)
    ensures var audit := Respond(Auditing(cfg), VerdictOn(Auditing(cfg), call, v).decision);
            var enforce := Respond(Enforcing(cfg), VerdictOn(Enforcing(cfg), call, w).decision);
            && audit.allowed
            && ((audit.warning == WouldBeBlocked <==> !enforce.allowed) <==>
                (Evaluate(cfg, call.store, call.req, v).decision.allowed <==>
                 Evaluate(cfg, call.store, call.req, w).decision.allowed))
  {
    AuditDecidesAlike(m, cfg, call.store, call.req, v, true);
    AuditDecidesAlike(m, cfg, call.store, call.req, w, false);
  }

  /** The audit handler never denies, and warns exactly where the other denies, unless the
      iteration order decides the answer. */
  lemma AuditWarnsExactly(m: Matchers, cfg: Config, call: Call)
    ensures forall w :: Respond(Auditing(cfg), VerdictOn(Auditing(cfg), call, w).decision).allowed
    ensures WarnsWhereDenied(m, cfg, call) <==> !OrderDecidesAnswer(m, cfg, call.store, call.req)
  {
    if OrderDecidesAnswer(m, cfg, call.store, call.req) {
      var v, w := DifferingAnswers(m, cfg, call);
      WarnsUnlessApart(m, cfg, call, v, w);
      assert !WarnsAgainst(m, cfg, call, v, w);
    } else {
      forall v, w ensures WarnsAgainst(m, cfg, call, v, w) {
        WarnsUnlessApart(m, cfg, call, v, w);
        AnswersAgree(m, cfg, call, v, w);
      }
    }
  }

  lemma DifferingAnswers(m: Matchers, cfg: Config, call: Call) returns (v: PathSet, w: PathSet)
    requires OrderDecidesAnswer(m, cfg, call.store, call.req)
    ensures WaiverFor(m, Auditing(cfg), call.store, call.req, v)
    ensures WaiverFor(m, Enforcing(cfg), call.store, call.req, w)
    ensures Evaluate(cfg, call.store, call.req, v).decision.allowed
    ensures !Evaluate(cfg, call.store, call.req, w).decision.allowed
  {
    AnswersDifferExactly(m, cfg, call.store, call.req);
    v, w :| WaiverFor(m, cfg, call.store, call.req, v) && WaiverFor(m, cfg, call.store, call.req, w) &&
            Evaluate(cfg, call.store, call.req, v).decision.allowed &&
            !Evaluate(cfg, call.store, call.req, w).decision.allowed;
    AuditDecidesAlike(m, cfg, call.store, call.req, v, true);
    AuditDecidesAlike(m, cfg, call.store, call.req, w, false);
  }

  lemma AnswersAgree(m: Matchers, cfg: Config, call: Call, v: PathSet, w: PathSet)
    requires !OrderDecidesAnswer(m, cfg, call.store, call.req)
    ensures WaiverFor(m, Auditing(cfg), call.store, call.req, v) &&
            WaiverFor(m, Enforcing(cfg), call.store, call.req, w) ==>
              (Evaluate(cfg, call.store, call.req, v).decision.allowed <==>
               Evaluate(cfg, call.store, call.req, w).decision.allowed)
  {
    AnswersDifferExactly(m, cfg, call.store, call.req);
    AuditDecidesAlike(m, cfg, call.store, call.req, v, true);
    AuditDecidesAlike(m, cfg, call.store, call.req, w, false);
  }
}
