/** Whole runs of one engine: its operations in any order, over one cache and one metrics sink. */
module EngineRuns {
  import opened Wrappers
  import opened Models
  import opened Decision
  import opened Cache
  import opened Metrics
  import opened Engine
  import opened AuthorizationEngine
  import opened EngineTheorems

  datatype Operation =
    | ToolCalls(raws: seq<Dict>, w: World)
    | Message(calls: seq<Call>, w: World)
    | Requests(requests: seq<EvaluationRequest>, w: World)
    | Boundary(request: EvaluationRequest, boundary: Option<Subject>, w: World)
    | Listing(calls: seq<Call>, w: World)

  /** What the caller gets: one verdict, one per listed call, or none because two principals are one. */
  datatype Outcome = Single(verdict: Await<VerdictResult>) | PerCall(verdicts: Await<seq<VerdictResult>>) | Collapsed

  /** One operation on a cache: what the caller gets, and the cache left. */
  datatype Effect = Effect(outcome: Outcome, cache: Entries)

  function AskMessage(cfg: EngineConfig, c: Entries, calls: seq<Call>, w: World): Effect
    requires Ordered(c)
  {
    var (r, d) := Decide(cfg, c, MapCalls(w.mapper, calls), w);
    Effect(Single(r), d)
  }

  function AskRequests(cfg: EngineConfig, c: Entries, rs: seq<EvaluationRequest>, w: World): Effect
    requires Ordered(c)
  {
    var (r, d) := EvaluateGuarded(cfg, c, rs, w);
    Effect(Single(r), d)
  }

  predicate Collapses(request: EvaluationRequest, boundary: Option<Subject>) {
    boundary.Some? && request.subject.typ == boundary.value.typ && request.subject.id == boundary.value.id
  }

  function Perform(cfg: EngineConfig, c: Entries, op: Operation): Effect
    requires Ordered(c)
  {
    match op
    case ToolCalls(raws, w) =>
      if raws == [] then Effect(Single(Done(SKIPPED)), c)
      else if !AllParse(raws, w) then Effect(Single(Done(FAILED)), c)
      else AskMessage(cfg, c, Normalized(raws, w), w)
    case Message(calls, w) => if calls == [] then Effect(Single(Done(SKIPPED)), c) else AskMessage(cfg, c, calls, w)
    case Requests(rs, w) => if rs == [] then Effect(Single(Done(SKIPPED)), c) else AskRequests(cfg, c, rs, w)
    case Boundary(request, boundary, w) =>
      if Collapses(request, boundary) then Effect(Collapsed, c)
      else AskRequests(cfg, c, BoundaryLegs(request, boundary), w)
    case Listing(calls, w) =>
      if calls == [] then Effect(PerCall(Done([])), c) else
      Effect(PerCall(DecideEach(cfg, MapCalls(w.mapper, calls), w)), c)
  }

  // ----- What the counters are owed -----

  predicate NothingAsked(op: Operation) {
    match op
    case ToolCalls(raws, _) => raws == []
    case Message(calls, _) => calls == []
    case Requests(rs, _) => rs == []
    case Boundary(_, _, _) => false
    case Listing(calls, _) => calls == []
  }

  /** An unparseable message is counted before any time is taken. */
  function LatencyOf(op: Operation): real {
    if op.ToolCalls? && exists n :: 0 <= n < |op.raws| && op.w.normalize(n, op.raws[n]).None? then 0.0 else op.w.latency
  }

  /** The observations that an outcome owes the counters: its own verdicts, or a block for an interruption. */
  function Owes(op: Operation, outcome: Outcome): seq<Observation> {
    if NothingAsked(op) then [] else
    match outcome
    case Single(Done(v)) => [Observation(v.verdict, v.status, LatencyOf(op))]
    case PerCall(Done(vs)) => seq(|vs|, i requires 0 <= i < |vs| => Observation(vs[i].verdict, vs[i].status, op.w.latency))
    case Collapsed => []
    case _ => [Observation(Block, Error, 0.0)]
  }

  function OwesAll(ops: seq<Operation>, outcomes: seq<Outcome>): seq<Observation>
    requires |ops| == |outcomes|
  {
    if |ops| == 0 then [] else
    var n := |ops| - 1;
    OwesAll(ops[..n], outcomes[..n]) + Owes(ops[n], outcomes[n])
  }

  /**
   How many decisions an operation owes the counters. One, even when it fails or is cancelled; none when there is
   nothing to ask or no decision is made; one per listed call, unless the listing is cancelled.
   */
  function Owed(op: Operation, outcome: Outcome): nat {
    if NothingAsked(op) || outcome.Collapsed? then 0
    else if op.Listing? && outcome.PerCall? && outcome.verdicts.Done? then |op.calls|
    else 1
  }

  function TotalOwed(ops: seq<Operation>, outcomes: seq<Outcome>): nat
    requires |ops| == |outcomes|
  {
    if |ops| == 0 then 0 else
    var n := |ops| - 1;
    TotalOwed(ops[..n], outcomes[..n]) + Owed(ops[n], outcomes[n])
  }

  lemma PerformExact(cfg: EngineConfig, c: Entries, op: Operation)
    requires Ordered(c) && |c.order| <= cfg.Cap()
    ensures var e := Perform(cfg, c, op);
      Ordered(e.cache) && |e.cache.order| <= cfg.Cap() && |Owes(op, e.outcome)| == Owed(op, e.outcome)
  {
    hide EvaluateGuarded, Flatten, Groups, DecideEach;
    match op
    case ToolCalls(raws, w) =>
      if AllParse(raws, w) {
        DecideKeepsOrder(cfg, c, MapCalls(w.mapper, Normalized(raws, w)), w);
      }
    case Message(calls, w) => DecideKeepsOrder(cfg, c, MapCalls(w.mapper, calls), w);
    case Requests(rs, w) => GuardedKeepsOrder(cfg, c, rs, w);
    case Boundary(request, boundary, w) => GuardedKeepsOrder(cfg, c, BoundaryLegs(request, boundary), w);
    case Listing(_, _) =>
  }

  lemma DecideKeepsOrder(cfg: EngineConfig, c: Entries, ms: seq<Mapped>, w: World)
    requires Ordered(c) && |c.order| <= cfg.Cap()
    ensures var d := Decide(cfg, c, ms, w).1; Ordered(d) && |d.order| <= cfg.Cap()
  {
    hide EvaluateGuarded, Flatten;
    if Groups(ms).Ok? {
      GuardedKeepsOrder(cfg, c, Flatten(Groups(ms).value), w);
    }
  }

  datatype History = History(outcomes: seq<Outcome>, cache: Entries)

  /** A run of operations on a fresh engine: a function of the operations alone. */
  function PerformAll(cfg: EngineConfig, ops: seq<Operation>): (h: History)
    ensures Ordered(h.cache) && |h.cache.order| <= cfg.Cap() && |h.outcomes| == |ops|
  {
    if |ops| == 0 then History([], EMPTY) else
    var h := PerformAll(cfg, ops[..|ops| - 1]);
    PerformExact(cfg, h.cache, ops[|ops| - 1]);
    var e := Perform(cfg, h.cache, ops[|ops| - 1]);
    History(h.outcomes + [e.outcome], e.cache)
  }

  /** A run owes one decision per message, request list and boundary check, and one per listed call. */
  lemma {:induction false} DecisionsAreConserved(cfg: EngineConfig, ops: seq<Operation>)
    ensures |OwesAll(ops, PerformAll(cfg, ops).outcomes)| == TotalOwed(ops, PerformAll(cfg, ops).outcomes)
  {
    hide Owes, Owed, Perform;
    if |ops| > 0 {
      var n := |ops| - 1;
      var h := PerformAll(cfg, ops[..n]);
      DecisionsAreConserved(cfg, ops[..n]);
      PerformExact(cfg, h.cache, ops[n]);
      assert PerformAll(cfg, ops).outcomes[..n] == h.outcomes;
    }
  }

  lemma PerformNothing(cfg: EngineConfig)
    ensures PerformAll(cfg, []) == History([], EMPTY) && OwesAll([], []) == []
  {
  }

  lemma CountsSeen(store: InMemoryMetrics)
    requires store.Valid()
    ensures store.latencyCount == |store.seen|
  {
  }

  lemma PerformAllStep(cfg: EngineConfig, ops: seq<Operation>, n: nat)
    requires n < |ops|
    ensures var h := PerformAll(cfg, ops[..n]);
      var e := Perform(cfg, h.cache, ops[n]);
      && PerformAll(cfg, ops[..n + 1]) == History(h.outcomes + [e.outcome], e.cache)
      && OwesAll(ops[..n + 1], h.outcomes + [e.outcome]) == OwesAll(ops[..n], h.outcomes) + Owes(ops[n], e.outcome)
  {
    hide Perform, Owes;
    var h := PerformAll(cfg, ops[..n]);
    assert ops[..n + 1][..n] == ops[..n];
    assert (h.outcomes + [Perform(cfg, h.cache, ops[n]).outcome])[..n] == h.outcomes;
  }

  /** One operation on the engine object; its outcome and cache are the specification's whatever the sink does. */
  method PerformOne(engine: AuthorizationEngine, op: Operation) returns (outcome: Outcome)
    requires engine.Valid()
    modifies engine.cache, engine.sink, engine.sink.store
    ensures engine.Valid()
    ensures var e := Perform(engine.cfg, old(engine.cache.Contents()), op);
      && outcome == e.outcome && engine.cache.Contents() == e.cache
      && (engine.sink.Quiet() ==> engine.sink.store.seen == old(engine.sink.store.seen) + Owes(op, outcome))
  {
    hide Decide, DecideEach, EvaluateGuarded, MapCalls, Normalized, InMemoryMetrics.Valid;
    match op {
      case ToolCalls(raws, w) =>
        var r := engine.EvaluateToolCalls(raws, w);
        outcome := Single(r);
      case Message(calls, w) =>
        var r := engine.EvaluateNormalized(calls, w);
        outcome := Single(r);
      case Requests(rs, w) =>
        var r := engine.EvaluateRequests(rs, w);
        outcome := Single(r);
      case Boundary(request, boundary, w) =>
        var r := engine.EvaluateWithBoundary(request, boundary, w);
        outcome := if r.None? then Collapsed else Single(r.value);
      case Listing(calls, w) =>
        var r := engine.EvaluateEach(calls, w);
        outcome := PerCall(r);
    }
  }

  /**
   A whole run on a fresh engine. What the callers get and what is cached depend on the operations alone, so a sink
   that raises at any write changes neither; a sink that does not raise has seen exactly the verdicts the callers got,
   each once, and a block for each interruption.
   */
  method PerformRun(engine: AuthorizationEngine, ops: seq<Operation>) returns (outcomes: seq<Outcome>)
    requires engine.Valid() && engine.cache.Contents() == EMPTY
    modifies engine.cache, engine.sink, engine.sink.store
    ensures engine.Valid()
    ensures var h := PerformAll(engine.cfg, ops);
      && outcomes == h.outcomes && engine.cache.Contents() == h.cache
      && (engine.sink.Quiet() ==>
            && engine.sink.store.seen == old(engine.sink.store.seen) + OwesAll(ops, outcomes)
            && engine.sink.store.latencyCount == old(engine.sink.store.latencyCount) + TotalOwed(ops, outcomes))
  {
    hide Perform, PerformAll, Owes, OwesAll, TotalOwed, InMemoryMetrics.Valid;
    CountsSeen(engine.sink.store);
    PerformNothing(engine.cfg);
    assert ops[..0] == [];
    outcomes := [];
    for n := 0 to |ops|
      invariant engine.Valid()
      invariant outcomes == PerformAll(engine.cfg, ops[..n]).outcomes
      invariant engine.cache.Contents() == PerformAll(engine.cfg, ops[..n]).cache
      invariant engine.sink.Quiet() ==>
        engine.sink.store.seen == old(engine.sink.store.seen) + OwesAll(ops[..n], outcomes)
    {
      PerformAllStep(engine.cfg, ops, n);
      var outcome := PerformOne(engine, ops[n]);
      outcomes := outcomes + [outcome];
    }
    assert ops[..|ops|] == ops;
    CountsSeen(engine.sink.store);
    DecisionsAreConserved(engine.cfg, ops);
  }
}
