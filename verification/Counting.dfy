/** What the counters add up to over any run of calls, and when audit mode counts the
    same as enforcement. */
module Counting {
  import opened JsonValues
  import opened Labels
  import opened IgnoreRules
  import opened Admission
  import opened Handler

  datatype Call = Call(req: Request, store: Store)

  const NO_COUNTS := Counters(multiset{}, multiset{}, multiset{}, multiset{})

  ghost function VerdictOn(cfg: Config, call: Call, waiver: PathSet): Verdict {
    Evaluate(cfg, call.store, call.req, waiver)
  }

  /** The ignore sets one handler may draw over a run, a set for every call. */
  ghost predicate Drawn(m: Matchers, cfg: Config, calls: seq<Call>, draws: seq<PathSet>) {
    |draws| == |calls| && forall i | 0 <= i < |calls| :: WaiverFor(m, cfg, calls[i].store, calls[i].req, draws[i])
  }

  /** The counters after a run, with the ignore sets drawn on the way. */
  ghost function CountersAfter(cfg: Config, calls: seq<Call>, draws: seq<PathSet>): Counters
    requires |draws| == |calls|
    decreases |calls|
  {
    if calls == [] then NO_COUNTS
    else
      var n := |calls| - 1;
      Record(CountersAfter(cfg, calls[..n], draws[..n]), calls[n].req, VerdictOn(cfg, calls[n], draws[n]))
  }

  lemma CountersAfterAdd(cfg: Config, calls: seq<Call>, draws: seq<PathSet>, call: Call, draw: PathSet)
    requires |draws| == |calls|
    ensures CountersAfter(cfg, calls + [call], draws + [draw]) ==
            Record(CountersAfter(cfg, calls, draws), call.req, VerdictOn(cfg, call, draw))
  {
    assert (calls + [call])[..|calls|] == calls && (draws + [draw])[..|draws|] == draws;
  }

  lemma DrawnAdd(m: Matchers, cfg: Config, calls: seq<Call>, draws: seq<PathSet>, call: Call, draw: PathSet)
    requires Drawn(m, cfg, calls, draws) && WaiverFor(m, cfg, call.store, call.req, draw)
    ensures Drawn(m, cfg, calls + [call], draws + [draw])
  {
  }

  ghost predicate Answers(cfg: Config, calls: seq<Call>, draws: seq<PathSet>, responses: seq<Response>) {
    && |draws| == |calls| && |responses| == |calls|
    && forall i | 0 <= i < |calls| :: responses[i] == Respond(cfg, VerdictOn(cfg, calls[i], draws[i]).decision)
  }

  /** A run answered and counted as the decision function says, for ignore sets that can
      be drawn. */
  ghost predicate Served(
    m: Matchers, cfg: Config, calls: seq<Call>, draws: seq<PathSet>, responses: seq<Response>, c: Counters)
  {
    Drawn(m, cfg, calls, draws) && Answers(cfg, calls, draws, responses) && c == CountersAfter(cfg, calls, draws)
  }

  lemma ServedAdd(
    m: Matchers, cfg: Config, calls: seq<Call>, draws: seq<PathSet>, responses: seq<Response>, c: Counters,
    call: Call, draw: PathSet)
    requires Served(m, cfg, calls, draws, responses, c) && WaiverFor(m, cfg, call.store, call.req, draw)
    ensures var v := VerdictOn(cfg, call, draw);
            Served(m, cfg, calls + [call], draws + [draw], responses + [Respond(cfg, v.decision)],
                   Record(c, call.req, v))
  {
    DrawnAdd(m, cfg, calls, draws, call, draw);
    CountersAfterAdd(cfg, calls, draws, call, draw);
  }

  lemma NothingServed(m: Matchers, cfg: Config, calls: seq<Call>)
    requires calls == []
    ensures Served(m, cfg, calls, [], [], NO_COUNTS)
  {
  }

  /** One more request. */
  method ServeNext(
    h: DriftPreventionHandler, ghost calls: seq<Call>, ghost draws: seq<PathSet>, ghost responses: seq<Response>,
    call: Call)
    returns (resp: Response, ghost draw: PathSet)
    requires Served(h.matchers, h.config, calls, draws, responses, h.metrics.Snapshot())
    modifies h.metrics
    ensures Served(h.matchers, h.config, calls + [call], draws + [draw], responses + [resp], h.metrics.Snapshot())
  {
    ghost var before := h.metrics.Snapshot();
    resp, draw := h.Handle(call.req, call.store);
    ServedAdd(h.matchers, h.config, calls, draws, responses, before, call, draw);
  }

  lemma SliceAdd<T>(s: seq<T>, n: nat)
    requires 0 < n <= |s|
    ensures s[..n - 1] + [s[n - 1]] == s[..n]
  {
  }

  /** The first `n` requests of a run, handed to a handler one after the other. */
  method Serve(h: DriftPreventionHandler, calls: seq<Call>, n: nat)
    returns (responses: seq<Response>, ghost draws: seq<PathSet>)
    requires n <= |calls| && h.metrics.Snapshot() == NO_COUNTS
    modifies h.metrics
    ensures Served(h.matchers, h.config, calls[..n], draws, responses, h.metrics.Snapshot())
  {
    if n == 0 {
      NothingServed(h.matchers, h.config, calls[..n]);
      return [], [];
    }
    responses, draws := Serve(h, calls, n - 1);
    var resp;
    ghost var draw;
    resp, draw := ServeNext(h, calls[..n - 1], draws, responses, calls[n - 1]);
    SliceAdd(calls, n);
    responses, draws := responses + [resp], draws + [draw];
  }

  /** The sum of the series whose labels satisfy `p`. */
  ghost function Sum<T(!new)>(m: multiset<T>, p: T -> bool): nat
    decreases |m|
  {
    if m == multiset{} then 0
    else
      var x :| x in m;
      (if p(x) then 1 else 0) + Sum(m - multiset{x}, p)
  }

  lemma {:induction false} SumRemove<T(!new)>(m: multiset<T>, y: T, p: T -> bool)
    requires y in m
    ensures Sum(m, p) == (if p(y) then 1 else 0) + Sum(m - multiset{y}, p)
    decreases |m|
  {
    var x :| x in m && Sum(m, p) == (if p(x) then 1 else 0) + Sum(m - multiset{x}, p);
    if x != y {
      SumRemove(m - multiset{x}, y, p);
      SumRemove(m - multiset{y}, x, p);
      assert m - multiset{x} - multiset{y} == m - multiset{y} - multiset{x};
    }
  }

  lemma SumAdd<T(!new)>(m: multiset<T>, x: T, p: T -> bool)
    ensures Sum(m + multiset{x}, p) == Sum(m, p) + if p(x) then 1 else 0
  {
    SumRemove(m + multiset{x}, x, p);
    assert m + multiset{x} - multiset{x} == m;
  }

  ghost predicate Agrees(d: Decision) {
    d.allowed <==> !IsDenial(d.reason)
  }

  lemma UpdateAgrees(req: Request, obj: ObjectMeta, before: ObjectMeta, waiver: PathSet)
    ensures Agrees(UpdateDecision(req, obj, before, waiver))
  {
  }

  lemma CreateAgrees(cfg: Config, store: Store, req: Request, obj: ObjectMeta, info: Ownership)
    ensures Agrees(CreateDecision(cfg, store, req, obj, info))
  {
  }

  lemma ManagedAgrees(
    cfg: Config, store: Store, req: Request, obj: ObjectMeta, before: ObjectMeta, info: Ownership, waiver: PathSet)
    ensures Agrees(EvaluateManaged(cfg, store, req, obj, before, info, waiver).decision)
  {
    match req.operation {
      case Create => CreateAgrees(cfg, store, req, obj, info);
      case Update => UpdateAgrees(req, obj, before, waiver);
      case Delete =>
      case Other(_) =>
    }
  }

  /** A decision's flag agrees with the class of its reason. */
  lemma FlagMatchesReason(cfg: Config, store: Store, req: Request, waiver: PathSet)
    ensures Agrees(Evaluate(cfg, store, req, waiver).decision)
  {
    var metas := ExtractRequestMetadata(req);
    if metas.Some? {
      var (obj, before) := metas.value;
      ManagedAgrees(cfg, store, req, obj, before, RequestOwner(req, obj, before), waiver);
    }
  }

  lemma OperationReasons(
    cfg: Config, store: Store, req: Request, obj: ObjectMeta, before: ObjectMeta, info: Ownership, waiver: PathSet)
    ensures DecideOperation(cfg, store, req, obj, before, info, waiver).reason != DeniedWrongFluxController
  {
  }

  /** An ownership conflict is counted exactly with its own denial. */
  lemma ConflictMatchesReason(cfg: Config, store: Store, req: Request, waiver: PathSet)
    ensures Evaluate(cfg, store, req, waiver).conflict.Some? <==>
            Evaluate(cfg, store, req, waiver).decision.reason == DeniedWrongFluxController
  {
    var metas := ExtractRequestMetadata(req);
    if metas.Some? {
      var (obj, before) := metas.value;
      OperationReasons(cfg, store, req, obj, before, RequestOwner(req, obj, before), waiver);
    }
  }

  /** Requests add up to calls, and denials to requests with a denied reason, for every
      operation. */
  lemma {:induction false} CountersConserved(cfg: Config, calls: seq<Call>, draws: seq<PathSet>, op: Operation)
    requires |draws| == |calls|
    ensures var c := CountersAfter(cfg, calls, draws);
            && |c.requests| == |calls|
            && Sum(c.denials, (d: (Operation, string)) => d.0 == op) ==
               Sum(c.requests, (r: (Operation, Reason)) => r.0 == op && IsDenial(r.1))
    decreases |calls|
  {
    if calls != [] {
      var n := |calls| - 1;
      var last, v := calls[n], VerdictOn(cfg, calls[n], draws[n]);
      var c := CountersAfter(cfg, calls[..n], draws[..n]);
      CountersConserved(cfg, calls[..n], draws[..n], op);
      FlagMatchesReason(cfg, last.store, last.req, draws[n]);
      SumAdd(c.requests, (last.req.operation, v.decision.reason),
             (r: (Operation, Reason)) => r.0 == op && IsDenial(r.1));
      SumAdd(c.denials, (last.req.operation, last.req.kind), (d: (Operation, string)) => d.0 == op);
    }
  }

  /** Ownership conflicts add up to the requests denied for them. */
  lemma {:induction false} ConflictsConserved(cfg: Config, calls: seq<Call>, draws: seq<PathSet>)
    requires |draws| == |calls|
    ensures var c := CountersAfter(cfg, calls, draws);
            |c.conflicts| == Sum(c.requests, (r: (Operation, Reason)) => r.1 == DeniedWrongFluxController)
    decreases |calls|
  {
    if calls != [] {
      var n := |calls| - 1;
      var last, v := calls[n], VerdictOn(cfg, calls[n], draws[n]);
      var c := CountersAfter(cfg, calls[..n], draws[..n]);
      ConflictsConserved(cfg, calls[..n], draws[..n]);
      ConflictMatchesReason(cfg, last.store, last.req, draws[n]);
      SumAdd(c.requests, (last.req.operation, v.decision.reason),
             (r: (Operation, Reason)) => r.1 == DeniedWrongFluxController);
    }
  }
}
