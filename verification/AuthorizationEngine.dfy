/** The engine object of `src/apparitor/engine.py`: its methods, loops, cache and metrics sink. */
module AuthorizationEngine {
  import opened Wrappers
  import opened Models
  import opened Decision
  import Cache
  import opened Metrics
  import opened Engine

  /** A metrics sink that may raise: `raises(n)` says whether write number `n` does, recording nothing. */
  class MetricsSink {
    const store: InMemoryMetrics
    const raises: nat -> bool
    var writes: nat

    ghost predicate Valid()
      reads this, store
    {
      store.Valid()
    }

    /** No write raises. */
    ghost predicate Quiet()
      reads this
    {
      forall n: nat :: !raises(n)
    }

    constructor (store: InMemoryMetrics, raises: nat -> bool)
      requires store.Valid()
      ensures Valid() && this.store == store && this.raises == raises && writes == 0
    {
      this.store := store;
      this.raises := raises;
      writes := 0;
    }

    method RecordDecision(verdict: Verdict, status: Status, latencyS: real) returns (raised: bool)
      requires Valid()
      modifies this, store
      ensures Valid() && store.lookups == old(store.lookups)
      ensures raised == raises(old(writes)) && writes == old(writes) + 1
      ensures store.seen == old(store.seen) + if raised then [] else [Observation(verdict, status, latencyS)]
    {
      raised := raises(writes);
      writes := writes + 1;
      if !raised {
        store.RecordDecision(verdict, status, latencyS);
      }
    }

    method RecordCache(hit: bool) returns (raised: bool)
      requires Valid()
      modifies this, store
      ensures Valid() && store.seen == old(store.seen)
      ensures raised == raises(old(writes)) && writes == old(writes) + 1
      ensures store.lookups == old(store.lookups) + if raised then [] else [hit]
    {
      raised := raises(writes);
      writes := writes + 1;
      if !raised {
        store.RecordCache(hit);
      }
    }

    /** Best effort: the exception of a raising sink is swallowed. */
    method RecordPreEngineRefusal()
      requires Valid()
      modifies this, store
      ensures Valid() && store.lookups == old(store.lookups)
      ensures Quiet() ==> store.seen == old(store.seen) + [INTERRUPTED]
    {
      var _ := RecordDecision(Block, Error, 0.0);
    }
  }

  class AuthorizationEngine {
    const cfg: EngineConfig
    const cache: Cache.DecisionCache
    const sink: MetricsSink

    ghost predicate Valid()
      reads this, cache, sink, sink.store
    {
      && cache.Valid() && sink.Valid()
      && cache.ttlS == cfg.Ttl() && cache.maxEntries == cfg.Cap()
    }

    constructor (cfg: EngineConfig, sink: MetricsSink)
      requires sink.Valid()
      ensures Valid() && this.cfg == cfg && this.sink == sink && cache.Contents() == Cache.EMPTY && fresh(cache)
    {
      this.cfg := cfg;
      this.sink := sink;
      this.cache := new Cache.DecisionCache(cfg.cacheTtlS, cfg.cacheMaxTtlS, cfg.cacheMaxEntries);
    }

    method EvaluateToolCalls(raws: seq<Dict>, w: World) returns (r: Await<VerdictResult>)
      requires Valid()
      modifies cache, sink, sink.store
      ensures Valid()
      ensures raws == [] ==> r == Done(VerdictResult(Skip, "no tool call to authorize", Skipped))
      ensures raws == [] ==> cache.Contents() == old(cache.Contents())
      ensures raws != [] && !AllParse(raws, w) ==> r == Done(VerdictResult(Block, "blocked by authorization policy", Error))
      ensures raws != [] && !AllParse(raws, w) ==> cache.Contents() == old(cache.Contents())
      ensures raws != [] && AllParse(raws, w)
              ==> (r, cache.Contents()) == Decide(cfg, old(cache.Contents()), MapCalls(w.mapper, Normalized(raws, w)), w)
      ensures sink.Quiet()
              ==> sink.store.seen == old(sink.store.seen) + if raws == [] then [] else
                                     Recorded(r, if AllParse(raws, w) then w.latency else 0.0)
    {
      if raws == [] {
        return Done(SKIPPED);
      }
      var calls: seq<Call> := [];
      for n := 0 to |raws|
        invariant |calls| == n
        invariant forall k :: 0 <= k < n ==> w.normalize(k, raws[k]) == Some(calls[k])
        invariant Valid() && cache.Contents() == old(cache.Contents())
        invariant sink.store.seen == old(sink.store.seen)
      {
        var call := w.normalize(n, raws[n]);
        if call.None? {
          Emit(FAILED, 0.0);
          return Done(FAILED);
        }
        calls := calls + [call.value];
      }
      assert calls == Normalized(raws, w);
      r := EvaluateNormalized(calls, w);
    }

    method EvaluateNormalized(calls: seq<Call>, w: World) returns (r: Await<VerdictResult>)
      requires Valid()
      modifies cache, sink, sink.store
      ensures Valid()
      ensures calls == [] ==> r == Done(VerdictResult(Skip, "no tool call to authorize", Skipped))
      ensures calls == [] ==> cache.Contents() == old(cache.Contents())
      ensures calls != [] ==> (r, cache.Contents()) == Decide(cfg, old(cache.Contents()), MapCalls(w.mapper, calls), w)
      ensures sink.Quiet() ==> sink.store.seen == old(sink.store.seen) + if calls == [] then [] else Recorded(r, w.latency)
    {
      if calls == [] {
        return Done(SKIPPED);
      }
      r := DecideCalls(calls, w);
      if r.Done? {
        Emit(r.value, w.latency);
      }
    }

    method EvaluateRequests(requests: seq<EvaluationRequest>, w: World) returns (r: Await<VerdictResult>)
      requires Valid()
      modifies cache, sink, sink.store
      ensures Valid()
      ensures requests == [] ==> r == Done(VerdictResult(Skip, "no tool call to authorize", Skipped))
      ensures requests == [] ==> cache.Contents() == old(cache.Contents())
      ensures requests != [] ==> (r, cache.Contents()) == EvaluateGuarded(cfg, old(cache.Contents()), requests, w)
      ensures sink.Quiet() ==> sink.store.seen == old(sink.store.seen) + if requests == [] then [] else Recorded(r, w.latency)
    {
      if requests == [] {
        return Done(SKIPPED);
      }
      r := Guarded(requests, w);
      if r.Done? {
        Emit(r.value, w.latency);
      }
    }

    /** `None` is a refusal without any decision: the caller and the boundary are one principal. */
    method EvaluateWithBoundary(request: EvaluationRequest, boundary: Option<Subject>, w: World)
      returns (r: Option<Await<VerdictResult>>)
      requires Valid()
      modifies cache, sink, sink.store
      ensures Valid()
      ensures r.None? <==>
              boundary.Some? && request.subject.typ == boundary.value.typ && request.subject.id == boundary.value.id
      ensures r.None? ==> cache.Contents() == old(cache.Contents()) && sink.store.seen == old(sink.store.seen)
      ensures r.Some?
              ==> (r.value, cache.Contents()) == EvaluateGuarded(cfg, old(cache.Contents()), BoundaryLegs(request, boundary), w)
      ensures r.Some? && sink.Quiet() ==> sink.store.seen == old(sink.store.seen) + Recorded(r.value, w.latency)
    {
      if boundary.None? {
        var single := EvaluateRequests([request], w);
        return Some(single);
      }
      var leg := BuildBoundaryLeg(request, boundary.value, request.subject);
      if leg.Err? {
        return None;
      }
      var both := EvaluateRequests([request, leg.value], w);
      r := Some(both);
    }

    method EvaluateEach(calls: seq<Call>, w: World) returns (r: Await<seq<VerdictResult>>)
      requires Valid()
      modifies sink, sink.store
      ensures Valid()
      ensures calls == [] ==> r == Done([])
      ensures calls != [] ==> r == DecideEach(cfg, MapCalls(w.mapper, calls), w)
      ensures sink.Quiet() ==> sink.store.seen == old(sink.store.seen) + if calls == [] then [] else RecordedEach(r, w.latency)
    {
      hide DecideEach, MapCalls, InMemoryMetrics.Valid;
      if calls == [] {
        return Done([]);
      }
      r := DecideEachCall(calls, w);
      if r.Done? {
        EmitEach(r.value, w.latency);
      }
    }

    method Emit(result: VerdictResult, latencyS: real)
      requires Valid()
      modifies sink, sink.store
      ensures Valid() && sink.store.lookups == old(sink.store.lookups)
      ensures sink.Quiet() ==> sink.store.seen == old(sink.store.seen) + [Seen(result, latencyS)]
    {
      var _ := sink.RecordDecision(result.verdict, result.status, latencyS);
    }

    /** A raising sink ends the loop: the remaining items go unrecorded, the verdicts stand. */
    method EmitEach(results: seq<VerdictResult>, latencyS: real)
      requires Valid()
      modifies sink, sink.store
      ensures Valid() && sink.store.lookups == old(sink.store.lookups)
      ensures sink.Quiet() ==> sink.store.seen == old(sink.store.seen) + RecordedEach(Done(results), latencyS)
    {
      hide InMemoryMetrics.Valid;
      var all := RecordedEach(Done(results), latencyS);
      for n := 0 to |results|
        invariant Valid() && sink.store.lookups == old(sink.store.lookups)
        invariant sink.Quiet() ==> sink.store.seen == old(sink.store.seen) + all[..n]
      {
        var raised := sink.RecordDecision(results[n].verdict, results[n].status, latencyS);
        if raised {
          return;
        }
      }
    }

    method RecordCancelled()
      requires Valid()
      modifies sink, sink.store
      ensures Valid() && sink.store.lookups == old(sink.store.lookups)
      ensures sink.Quiet() ==> sink.store.seen == old(sink.store.seen) + [INTERRUPTED]
    {
      var _ := sink.RecordDecision(Block, Error, 0.0);
    }

    /** Records the interruption of a cancelled evaluation; a decision is recorded by the caller. */
    method DecideCalls(calls: seq<Call>, w: World) returns (r: Await<VerdictResult>)
      requires Valid()
      modifies cache, sink, sink.store
      ensures Valid()
      ensures (r, cache.Contents()) == Decide(cfg, old(cache.Contents()), MapCalls(w.mapper, calls), w)
      ensures sink.Quiet() ==> sink.store.seen == old(sink.store.seen) + if r.Cancelled? then [INTERRUPTED] else []
    {
      var built := BuildRequests(calls, w);
      if built.Err? {
        return Done(FaultVerdict(cfg.onError, built.error));
      }
      if built.value == [] {
        return Done(SKIPPED);
      }
      r := Guarded(built.value, w);
    }

    method BuildRequests(calls: seq<Call>, w: World) returns (r: Result<seq<EvaluationRequest>, Fault>)
      ensures match Groups(MapCalls(w.mapper, calls))
              case Ok(groups) => r == Ok(Flatten(groups))
              case Err(f) => r == Err(f)
    {
      var requests := [];
      ghost var groups: seq<seq<EvaluationRequest>> := [];
      ghost var ms := MapCalls(w.mapper, calls);
      for n := 0 to |calls|
        invariant Groups(ms[..n]) == Ok(groups) && requests == Flatten(groups)
      {
        assert ms[..n + 1][..n] == ms[..n];
        var mapped := AsRequests(w.mapper(n, calls[n]));
        if mapped.Err? {
          GroupsFault(ms, n);
          return Err(mapped.error);
        }
        groups := groups + [mapped.value];
        assert groups[..|groups| - 1] == groups[..n];
        requests := requests + mapped.value;
      }
      assert ms[..|calls|] == ms;
      r := Ok(requests);
    }

    method Guarded(requests: seq<EvaluationRequest>, w: World) returns (r: Await<VerdictResult>)
      requires Valid()
      modifies cache, sink, sink.store
      ensures Valid()
      ensures (r, cache.Contents()) == EvaluateGuarded(cfg, old(cache.Contents()), requests, w)
      ensures sink.Quiet() ==> sink.store.seen == old(sink.store.seen) + if r.Cancelled? then [INTERRUPTED] else []
    {
      var o;
      if |requests| == 1 {
        o := Single(requests[0], w);
      } else {
        o := EvaluateBatch(requests, w);
      }
      if o.Cancelled? {
        RecordCancelled();
      }
      r := Guard(cfg.onError, o);
    }

    method Single(request: EvaluationRequest, w: World) returns (o: Await<VerdictResult>)
      requires Valid()
      modifies cache, sink, sink.store
      ensures Valid() && sink.store.seen == old(sink.store.seen)
      ensures (o, cache.Contents()) == EvaluateSingle(cfg, old(cache.Contents()), request, w)
      ensures sink.Quiet() && cfg.cacheEnabled
              ==> sink.store.lookups == old(sink.store.lookups) + [Lookup(cfg, old(cache.Contents()), request, w.lookupAt).0]
      ensures !cfg.cacheEnabled ==> sink.store.lookups == old(sink.store.lookups)
    {
      var key := cfg.CacheKey(request);
      if cfg.cacheEnabled {
        var hit := cache.Get(key, w.lookupAt);
        var _ := sink.RecordCache(hit);
        if hit {
          return Done(CACHED);
        }
      }
      var response := w.pdp.single(request);
      match response {
        case Cancelled => o := Cancelled;
        case Raised(f) => o := Raised(f);
        case Done(a) =>
          var wants := WantsReview(w.review, a.context);
          if wants.Err? {
            return Raised(wants.error);
          }
          var verdict := MapSingle(a.decision, wants.value);
          if verdict == Allow && cfg.cacheEnabled {
            cache.SetAllow(key, None, w.storeAt);
          }
          o := Done(VerdictResult(verdict, ReasonFor(verdict), Success));
      }
    }

    /** The per-item loop: walks the groups and one shared iterator over the answers. */
    method DecideEachCall(calls: seq<Call>, w: World) returns (r: Await<seq<VerdictResult>>)
      requires Valid()
      modifies sink, sink.store
      ensures Valid() && sink.store.lookups == old(sink.store.lookups)
      ensures r == DecideEach(cfg, MapCalls(w.mapper, calls), w)
      ensures sink.Quiet() ==> sink.store.seen == old(sink.store.seen) + if r.Cancelled? then [INTERRUPTED] else []
    {
      var ms := MapCalls(w.mapper, calls);
      var mapped := Groups(ms);
      if mapped.Err? {
        return Done(seq(|calls|, _ => FaultVerdict(cfg.onError, mapped.error)));
      }
      var groups := mapped.value;
      var results: seq<VerdictResult> := seq(|calls|, _ => ABSTAINED);
      var flat := Flatten(groups);
      if flat == [] {
        return Done(results);
      }
      var response := w.pdp.batch(ToBatch(flat));
      match response {
        case Cancelled =>
          RecordCancelled();
          r := Cancelled;
        case Raised(f) =>
          r := Done(FaultItems(groups, FaultVerdict(cfg.onError, f)));
        case Done(answers) =>
          if |answers| != |flat| {
            return Done(FaultItems(groups, FaultVerdict(cfg.onError, ClientError)));
          }
          var combined := CombineGroups(groups, answers, w.review);
          r := Done(if combined.Err? then FaultItems(groups, FaultVerdict(cfg.onError, combined.error)) else combined.value);
      }
    }

    method CombineGroups(groups: seq<seq<EvaluationRequest>>, answers: seq<EvaluationResponse>, review: Review)
      returns (r: Result<seq<VerdictResult>, Fault>)
      requires |answers| == |Flatten(groups)|
      ensures r.Err? ==> Legs(review, answers) == Err(r.error)
      ensures r.Ok? ==> Legs(review, answers).Ok? && r.value == Items(groups, Legs(review, answers).value)
    {
      hide Progress, Legs, Leg, Items, Escalate, Join;
      var results: seq<VerdictResult> := seq(|groups|, _ => ABSTAINED);
      var next := 0;
      ghost var legs: seq<Verdict> := [];
      ProgressStart(groups, answers, review);
      for i := 0 to |groups|
        invariant Progress(groups, answers, review, legs, results, i)
        invariant next == |legs|
      {
        ProgressFits(groups, answers, review, legs, results, i);
        var combined, more := CombineGroup(|groups[i]|, answers, next, review);
        if combined.Err? {
          ProgressFault(groups, answers, review, legs, more, results, i);
          return Err(combined.error);
        }
        ProgressStep(groups, answers, review, legs, more, results, i);
        if groups[i] != [] {
          results := results[i := VerdictResult(combined.value, ReasonFor(combined.value), Success)];
        }
        legs := legs + more;
        next := next + |groups[i]|;
      }
      ProgressEnd(groups, answers, review, legs, results);
      r := Ok(results);
    }

    /** The fold over one group: takes `count` answers from position `start` on. */
    method CombineGroup(count: nat, answers: seq<EvaluationResponse>, start: nat, review: Review)
      returns (r: Result<Verdict, Fault>, ghost more: seq<Verdict>)
      requires start + count <= |answers|
      ensures start + |more| <= |answers| && AreLegs(review, answers, start, more)
      ensures r.Err? ==> |more| < count && Leg(review, answers[start + |more|]) == Err(r.error)
      ensures r.Ok? ==> |more| == count && r.value == Escalate(Allow, Join(more))
    {
      var combined := Allow;
      more := [];
      for n := 0 to count
        invariant |more| == n && AreLegs(review, answers, start, more)
        invariant combined == Escalate(Allow, Join(more))
      {
        var leg := Leg(review, answers[start + n]);
        if leg.Err? {
          return Err(leg.error), more;
        }
        combined := Escalate(combined, leg.value);
        EscalateIsJoin(Allow, Join(more), leg.value);
        assert (more + [leg.value])[..n] == more;
        more := more + [leg.value];
      }
      r := Ok(combined);
    }
  }

  /** `legs` are the verdicts of the answers from position `start` on. */
  ghost predicate AreLegs(review: Review, answers: seq<EvaluationResponse>, start: nat, legs: seq<Verdict>) {
    start + |legs| <= |answers| && forall k :: 0 <= k < |legs| ==> Leg(review, answers[start + k]) == Ok(legs[k])
  }

  /** The first `n` items are settled by the legs read so far. */
  ghost predicate ItemsSoFar(groups: seq<seq<EvaluationRequest>>, legs: seq<Verdict>, results: seq<VerdictResult>,
                             n: nat) {
    && n <= |groups| == |results|
    && forall k :: 0 <= k < n ==> Offset(groups, k) + |groups[k]| <= |legs| && results[k] == ItemVerdict(groups, legs, k)
  }

  /** The first `n` groups are folded: `legs` are their verdicts, `results` their items, the other items abstained. */
  ghost predicate Progress(groups: seq<seq<EvaluationRequest>>, answers: seq<EvaluationResponse>, review: Review,
                           legs: seq<Verdict>, results: seq<VerdictResult>, n: nat) {
    && ItemsSoFar(groups, legs, results, n)
    && AreLegs(review, answers, 0, legs) && |legs| == Offset(groups, n)
    && forall k :: n <= k < |groups| ==> results[k] == ABSTAINED
  }

  lemma ProgressStart(groups: seq<seq<EvaluationRequest>>, answers: seq<EvaluationResponse>, review: Review)
    ensures Progress(groups, answers, review, [], seq(|groups|, _ => ABSTAINED), 0)
  {
  }

  lemma ProgressFits(groups: seq<seq<EvaluationRequest>>, answers: seq<EvaluationResponse>, review: Review,
                     legs: seq<Verdict>, results: seq<VerdictResult>, n: nat)
    requires Progress(groups, answers, review, legs, results, n) && n < |groups|
    requires |answers| == |Flatten(groups)|
    ensures |results| == |groups| && |legs| + |groups[n]| <= |answers|
  {
    OffsetsFit(groups);
  }

  lemma ProgressFault(groups: seq<seq<EvaluationRequest>>, answers: seq<EvaluationResponse>, review: Review,
                      legs: seq<Verdict>, more: seq<Verdict>, results: seq<VerdictResult>, n: nat)
    requires Progress(groups, answers, review, legs, results, n) && AreLegs(review, answers, |legs|, more)
    requires |legs| + |more| < |answers| && Leg(review, answers[|legs| + |more|]).Err?
    ensures Legs(review, answers) == Err(Leg(review, answers[|legs| + |more|]).error)
  {
    hide ItemsSoFar, Offset, Legs, Leg;
    LegsConcat(review, answers, legs, more);
    assert |legs + more| == |legs| + |more|;
    LegsFault(review, answers, legs + more);
  }

  lemma ProgressStep(groups: seq<seq<EvaluationRequest>>, answers: seq<EvaluationResponse>, review: Review,
                     legs: seq<Verdict>, more: seq<Verdict>, results: seq<VerdictResult>, n: nat)
    requires Progress(groups, answers, review, legs, results, n) && n < |groups|
    requires AreLegs(review, answers, |legs|, more) && |more| == |groups[n]|
    ensures groups[n] == [] ==> Progress(groups, answers, review, legs + more, results, n + 1)
    ensures groups[n] != [] ==>
      Progress(groups, answers, review, legs + more, results[n := Clean(Escalate(Allow, Join(more)))], n + 1)
  {
    hide Join, Escalate, Clean, Flatten, Leg;
    var done := results[n := if groups[n] == [] then ABSTAINED else Clean(Join(more))];
    LegsConcat(review, answers, legs, more);
    ItemDone(groups, legs, more, results, done, n);
    if groups[n] == [] {
      assert done == results;
    } else {
      AllowIsBottom(review, answers, |legs|, more);
    }
  }

  lemma ProgressEnd(groups: seq<seq<EvaluationRequest>>, answers: seq<EvaluationResponse>, review: Review,
                    legs: seq<Verdict>, results: seq<VerdictResult>)
    requires Progress(groups, answers, review, legs, results, |groups|) && |answers| == |Flatten(groups)|
    ensures Legs(review, answers) == Ok(legs) && |legs| == |Flatten(groups)| && results == Items(groups, legs)
  {
    FlattenOffsets(groups);
    LegsAre(review, answers, legs);
    ItemsComplete(groups, legs, results);
  }

  lemma ItemDone(groups: seq<seq<EvaluationRequest>>, legs: seq<Verdict>, more: seq<Verdict>,
                 results: seq<VerdictResult>, done: seq<VerdictResult>, n: nat)
    requires ItemsSoFar(groups, legs, results, n) && n < |groups|
    requires |legs| == Offset(groups, n) && |more| == |groups[n]|
    requires done == results[n := if groups[n] == [] then ABSTAINED else Clean(Join(more))]
    ensures ItemsSoFar(groups, legs + more, done, n + 1)
  {
    hide Join, Clean, Offset;
    var all := legs + more;
    assert all[|legs|..|legs| + |more|] == more;
    forall k | 0 <= k < n ensures done[k] == ItemVerdict(groups, all, k) {
      var from, to := Offset(groups, k), Offset(groups, k) + |groups[k]|;
      assert all[from..to] == legs[from..to];
      assert results[k] == ItemVerdict(groups, legs, k);
    }
    assert done[n] == ItemVerdict(groups, all, n);
  }

  lemma ItemsComplete(groups: seq<seq<EvaluationRequest>>, legs: seq<Verdict>, results: seq<VerdictResult>)
    requires |legs| == |Flatten(groups)| && ItemsSoFar(groups, legs, results, |groups|)
    ensures results == Items(groups, legs)
  {
  }

  lemma LegsConcat(review: Review, answers: seq<EvaluationResponse>, legs: seq<Verdict>, more: seq<Verdict>)
    requires AreLegs(review, answers, 0, legs) && AreLegs(review, answers, |legs|, more)
    ensures AreLegs(review, answers, 0, legs + more)
  {
    var all := legs + more;
    forall k | 0 <= k < |all| ensures Leg(review, answers[0 + k]) == Ok(all[k]) {
      if k < |legs| {
        assert Leg(review, answers[0 + k]) == Ok(legs[k]);
      } else {
        assert Leg(review, answers[|legs| + (k - |legs|)]) == Ok(more[k - |legs|]);
      }
    }
  }

  lemma {:induction false} LegsAre(review: Review, answers: seq<EvaluationResponse>, legs: seq<Verdict>)
    requires AreLegs(review, answers, 0, legs) && |legs| == |answers|
    ensures Legs(review, answers) == Ok(legs)
  {
    if |answers| > 0 {
      var n := |answers| - 1;
      assert Leg(review, answers[0 + n]) == Ok(legs[n]);
      LegsAre(review, answers[..n], legs[..n]);
      assert legs == legs[..n] + [legs[n]];
    }
  }

  /** The first answer whose leg faults makes the whole list fault with it. */
  lemma {:induction false} LegsFault(review: Review, answers: seq<EvaluationResponse>, legs: seq<Verdict>)
    requires AreLegs(review, answers, 0, legs) && |legs| < |answers| && Leg(review, answers[|legs|]).Err?
    ensures Legs(review, answers) == Err(Leg(review, answers[|legs|]).error)
  {
    var front := answers[..|answers| - 1];
    if |legs| < |front| {
      LegsFault(review, front, legs);
    } else {
      LegsAre(review, front, legs);
    }
  }

  /** Some adapter understands every raw call. */
  predicate AllParse(raws: seq<Dict>, w: World) {
    forall n :: 0 <= n < |raws| ==> w.normalize(n, raws[n]).Some?
  }

  function Normalized(raws: seq<Dict>, w: World): seq<Call>
    requires AllParse(raws, w)
  {
    seq(|raws|, n requires 0 <= n < |raws| => w.normalize(n, raws[n]).value)
  }

  /** Identity of a principal is its type and id; properties are attributes. */
  predicate SamePrincipal(a: Subject, b: Subject) {
    a.typ == b.typ && a.id == b.id
  }

  /** The boundary principal's leg, unless it would collapse onto the caller. */
  function BuildBoundaryLeg(primary: EvaluationRequest, boundary: Subject,
                            caller: Subject): Result<EvaluationRequest, Fault> {
    if SamePrincipal(caller, boundary) then Err(ConfigError)
    else Ok(EvaluationRequest(boundary, primary.action, primary.resource, primary.context))
  }

  function BoundaryLegs(request: EvaluationRequest, boundary: Option<Subject>): seq<EvaluationRequest> {
    if boundary.None? then [request] else [request, request.(subject := boundary.value)]
  }

  lemma {:induction false} GroupsFault(ms: seq<Mapped>, n: nat)
    requires n < |ms| && Groups(ms[..n]).Ok? && AsRequests(ms[n]).Err?
    ensures Groups(ms) == Err(AsRequests(ms[n]).error)
  {
    var front := ms[..|ms| - 1];
    if n < |front| {
      assert front[..n] == ms[..n];
      GroupsFault(front, n);
    }
  }

  /** Starting a group's fold at ALLOW instead of nothing makes no difference once the group has a leg. */
  lemma AllowIsBottom(review: Review, answers: seq<EvaluationResponse>, start: nat, legs: seq<Verdict>)
    requires AreLegs(review, answers, start, legs) && |legs| > 0
    ensures Escalate(Allow, Join(legs)) == Join(legs)
  {
    JoinIsMaximum(legs);
    assert Leg(review, answers[start + 0]) == Ok(legs[0]);
  }
}
