/**
 What the decision pipeline of `src/apparitor/engine.py` computes, as functions of the answers it gets.
 Mapper, decision point and review predicate are arbitrary and may fail.
 */
module Engine {
  import opened Wrappers
  import opened Json
  import opened Models
  import opened Decision
  import opened Cache
  import opened Metrics

  datatype Call = Call(name: string, arguments: Dict, id: Option<string>)

  /** What a mapper does with one call: abstain, return one request or several, or raise. */
  datatype Mapped =
    Abstain | One(request: EvaluationRequest) | Many(requests: seq<EvaluationRequest>) | MapFault(fault: Fault)

  /** What the review predicate does with a response context. */
  datatype ReviewAnswer = WantsIt | WantsNot | ReviewFault(fault: Fault)

  type Review = Option<map<string, Value> -> ReviewAnswer>

  datatype Pdp =
    Pdp(single: EvaluationRequest -> Await<EvaluationResponse>, batch: BatchRequest -> Await<seq<EvaluationResponse>>)

  /**
   Everything one evaluation meets outside the engine. The mapper is asked about call `n` of the message,
   so it may answer equal calls differently; the clock is read at the cache lookup and at the storing.
   */
  datatype World =
    World(normalize: (nat, Dict) -> Option<Call>, mapper: (nat, Call) -> Mapped, pdp: Pdp, review: Review,
          lookupAt: real, storeAt: real, latency: real)

  datatype EngineConfig =
    EngineConfig(onError: OnError, cacheEnabled: bool, cacheTtlS: real, cacheMaxTtlS: real, cacheMaxEntries: nat,
                 digest: string -> string)
  {
    function Ttl(): real {
      Cache.Min(cacheTtlS, cacheMaxTtlS)
    }

    function Cap(): (cap: nat)
      ensures cap > 0
    {
      if cacheMaxEntries < 1 then 1 else cacheMaxEntries
    }

    function CacheKey(r: EvaluationRequest): Key {
      digest(KeyText(r))
    }
  }

  const SKIPPED := VerdictResult(Skip, SKIP_REASON, Skipped)
  const FAILED := VerdictResult(Block, DENY_REASON, Error)
  const CACHED := VerdictResult(Allow, CACHED_REASON, Success)
  const ABSTAINED := VerdictResult(Block, ABSTAIN_REASON, Error)

  // ----- Mapping -----

  function AsRequests(m: Mapped): Result<seq<EvaluationRequest>, Fault> {
    match m
    case Abstain => Ok([])
    case One(r) => Ok([r])
    case Many(rs) => Ok(rs)
    case MapFault(f) => Err(f)
  }

  function MapCalls(mapper: (nat, Call) -> Mapped, calls: seq<Call>): (ms: seq<Mapped>)
    ensures |ms| == |calls| && forall i :: 0 <= i < |calls| ==> ms[i] == mapper(i, calls[i])
  {
    seq(|calls|, i requires 0 <= i < |calls| => mapper(i, calls[i]))
  }

  /** One group of requests per call, unless some call's mapping raises. */
  function Groups(ms: seq<Mapped>): (r: Result<seq<seq<EvaluationRequest>>, Fault>)
    ensures r.Ok? ==> |r.value| == |ms|
  {
    if |ms| == 0 then Ok([]) else
    var front :- Groups(ms[..|ms| - 1]);
    var last :- AsRequests(ms[|ms| - 1]);
    Ok(front + [last])
  }

  function Flatten<T>(groups: seq<seq<T>>): seq<T> {
    if |groups| == 0 then [] else Flatten(groups[..|groups| - 1]) + groups[|groups| - 1]
  }

  /** Where group `i` starts in the flattened list. */
  function Offset<T>(groups: seq<seq<T>>, i: nat): nat
    requires i <= |groups|
  {
    if i == 0 then 0 else Offset(groups, i - 1) + |groups[i - 1]|
  }

  function ToItem(r: EvaluationRequest): EvaluationItem {
    EvaluationItem(Some(r.subject), Some(r.action), Some(r.resource), r.context)
  }

  function ToBatch(rs: seq<EvaluationRequest>): (b: BatchRequest)
    ensures |b.evaluations| == |rs|
  {
    BatchRequest(None, None, None, None, seq(|rs|, i requires 0 <= i < |rs| => ToItem(rs[i])))
  }

  // ----- One answer, and a batch of answers -----

  function WantsReview(review: Review, context: Option<map<string, Value>>): Result<bool, Fault> {
    if review.None? || context.None? then Ok(false) else
    match review.value(context.value)
    case WantsIt => Ok(true)
    case WantsNot => Ok(false)
    case ReviewFault(f) => Err(f)
  }

  function Leg(review: Review, a: EvaluationResponse): Result<Verdict, Fault> {
    var wants :- WantsReview(review, a.context);
    Ok(MapSingle(a.decision, wants))
  }

  /** The verdicts of all answers, unless the review predicate raises on one. */
  function Legs(review: Review, answers: seq<EvaluationResponse>): (r: Result<seq<Verdict>, Fault>)
    ensures r.Ok? ==> |r.value| == |answers|
    ensures r.Ok? ==> forall i :: 0 <= i < |answers| ==> Leg(review, answers[i]) == Ok(r.value[i])
  {
    if |answers| == 0 then Ok([]) else
    var front :- Legs(review, answers[..|answers| - 1]);
    var last :- Leg(review, answers[|answers| - 1]);
    Ok(front + [last])
  }

  /** `any(...)` over the answers: stops at the first one that wants review, so later ones are not asked. */
  function AnyReview(review: Review, answers: seq<EvaluationResponse>): Result<bool, Fault> {
    if |answers| == 0 then Ok(false) else
    var wants :- WantsReview(review, answers[0].context);
    if wants then Ok(true) else AnyReview(review, answers[1..])
  }

  function Decisions(answers: seq<EvaluationResponse>): (ds: seq<bool>)
    ensures |ds| == |answers| && forall i :: 0 <= i < |ds| ==> ds[i] == answers[i].decision
  {
    seq(|answers|, i requires 0 <= i < |answers| => answers[i].decision)
  }

  function Clean(v: Verdict): VerdictResult {
    VerdictResult(v, ReasonFor(v), Success)
  }

  function SingleAnswer(review: Review, a: EvaluationResponse): Result<VerdictResult, Fault> {
    var v :- Leg(review, a);
    Ok(Clean(v))
  }

  /** Naming the denied legs pairs requests with answers strictly, so a count mismatch raises there. */
  function BatchAnswer(review: Review, expected: nat, answers: seq<EvaluationResponse>): Result<VerdictResult, Fault> {
    var base := Aggregate(Decisions(answers), expected);
    if base != Allow && |answers| != expected then Err(Unexpected) else
    var wants :- AnyReview(review, answers);
    Ok(Clean(if wants then Escalate(base, HumanReview) else base))
  }

  function Settle(r: Result<VerdictResult, Fault>): Await<VerdictResult> {
    match r
    case Ok(v) => Done(v)
    case Err(f) => Raised(f)
  }

  // ----- The aggregate path -----

  function Lookup(cfg: EngineConfig, c: Entries, r: EvaluationRequest, now: real): (o: (bool, Entries))
    ensures Ordered(c) ==> Ordered(o.1)
  {
    if cfg.cacheEnabled then (Hit(c, cfg.CacheKey(r), now), AfterGet(c, cfg.CacheKey(r), now)) else (false, c)
  }

  function Store(cfg: EngineConfig, c: Entries, r: EvaluationRequest, v: Verdict, now: real): Entries
    requires Ordered(c)
  {
    if cfg.cacheEnabled && v == Allow then AfterSet(c, cfg.CacheKey(r), cfg.Ttl(), cfg.Cap(), now) else c
  }

  function EvaluateSingle(cfg: EngineConfig, c: Entries, r: EvaluationRequest, w: World): (Await<VerdictResult>,
                          Entries)
    requires Ordered(c)
  {
    var (hit, looked) := Lookup(cfg, c, r, w.lookupAt);
    if hit then (Done(CACHED), looked) else
    match w.pdp.single(r)
    case Cancelled => (Cancelled, looked)
    case Raised(f) => (Raised(f), looked)
    case Done(a) =>
      match SingleAnswer(w.review, a)
      case Err(f) => (Raised(f), looked)
      case Ok(v) => GetKeepsOrder(c, cfg.CacheKey(r), w.lookupAt); (Done(v), Store(cfg, looked, r, v.verdict, w.storeAt))
  }

  function EvaluateBatch(rs: seq<EvaluationRequest>, w: World): Await<VerdictResult> {
    match w.pdp.batch(ToBatch(rs))
    case Cancelled => Cancelled
    case Raised(f) => Raised(f)
    case Done(answers) => Settle(BatchAnswer(w.review, |rs|, answers))
  }

  function Guard(onError: OnError, o: Await<VerdictResult>): (r: Await<VerdictResult>)
    ensures !r.Raised?
  {
    match o
    case Raised(f) => Done(FaultVerdict(onError, f))
    case _ => o
  }

  /** One request takes the single endpoint and the cache, any other number one batch. */
  function EvaluateGuarded(cfg: EngineConfig, c: Entries, rs: seq<EvaluationRequest>,
                           w: World): (r: (Await<VerdictResult>, Entries))
    requires Ordered(c)
    ensures !r.0.Raised?
  {
    if |rs| == 1 then
      var (o, d) := EvaluateSingle(cfg, c, rs[0], w);
      (Guard(cfg.onError, o), d)
    else (Guard(cfg.onError, EvaluateBatch(rs, w)), c)
  }

  function Decide(cfg: EngineConfig, c: Entries, ms: seq<Mapped>, w: World): (r: (Await<VerdictResult>, Entries))
    requires Ordered(c)
    ensures !r.0.Raised?
  {
    match Groups(ms)
    case Err(f) => (Done(FaultVerdict(cfg.onError, f)), c)
    case Ok(groups) =>
      if Flatten(groups) == [] then (Done(SKIPPED), c) else EvaluateGuarded(cfg, c, Flatten(groups), w)
  }

  // ----- The per-item path, stated item by item -----

  /** Item `i` of a listing whose answers are in: the join of the legs of its own requests. */
  function ItemVerdict(groups: seq<seq<EvaluationRequest>>, legs: seq<Verdict>, i: nat): VerdictResult
    requires i < |groups| && Offset(groups, i) + |groups[i]| <= |legs|
  {
    if groups[i] == [] then ABSTAINED else Clean(Join(legs[Offset(groups, i)..Offset(groups, i) + |groups[i]|]))
  }

  function Items(groups: seq<seq<EvaluationRequest>>, legs: seq<Verdict>): (r: seq<VerdictResult>)
    requires |legs| == |Flatten(groups)|
    ensures |r| == |groups|
    ensures forall i :: 0 <= i < |groups| ==> Offset(groups, i) + |groups[i]| <= |legs| && r[i] == ItemVerdict(groups, legs, i)
  {
    OffsetsFit(groups);
    seq(|groups|, i requires 0 <= i < |groups| => ItemVerdict(groups, legs, i))
  }

  function FaultItems(groups: seq<seq<EvaluationRequest>>, v: VerdictResult): (r: seq<VerdictResult>)
    ensures |r| == |groups| && forall i :: 0 <= i < |groups| ==> r[i] == if groups[i] == [] then ABSTAINED else v
  {
    seq(|groups|, i requires 0 <= i < |groups| => if groups[i] == [] then ABSTAINED else v)
  }

  function AnsweredItems(cfg: EngineConfig, groups: seq<seq<EvaluationRequest>>, review: Review,
                         answers: seq<EvaluationResponse>): (r: seq<VerdictResult>)
    ensures |r| == |groups|
  {
    if |answers| != |Flatten(groups)| then FaultItems(groups, FaultVerdict(cfg.onError, ClientError)) else
    match Legs(review, answers)
    case Err(f) => FaultItems(groups, FaultVerdict(cfg.onError, f))
    case Ok(legs) => Items(groups, legs)
  }

  function DecideEach(cfg: EngineConfig, ms: seq<Mapped>, w: World): (r: Await<seq<VerdictResult>>)
    ensures !r.Raised? && (r.Done? ==> |r.value| == |ms|)
  {
    match Groups(ms)
    case Err(f) => Done(seq(|ms|, _ => FaultVerdict(cfg.onError, f)))
    case Ok(groups) =>
      if Flatten(groups) == [] then Done(seq(|ms|, _ => ABSTAINED)) else
      match w.pdp.batch(ToBatch(Flatten(groups)))
      case Cancelled => Cancelled
      case Raised(f) => Done(FaultItems(groups, FaultVerdict(cfg.onError, f)))
      case Done(answers) => Done(AnsweredItems(cfg, groups, w.review, answers))
  }

  lemma {:induction false} FlattenOffsets<T>(groups: seq<seq<T>>)
    ensures Offset(groups, |groups|) == |Flatten(groups)|
  {
    if |groups| > 0 {
      FlattenOffsets(groups[..|groups| - 1]);
      OffsetPrefix(groups, |groups| - 1, |groups| - 1);
    }
  }

  lemma {:induction false} OffsetPrefix<T>(groups: seq<seq<T>>, n: nat, i: nat)
    requires i <= n <= |groups|
    ensures Offset(groups[..n], i) == Offset(groups, i)
  {
    if i > 0 {
      OffsetPrefix(groups, n, i - 1);
    }
  }

  lemma {:induction false} OffsetGrows<T>(groups: seq<seq<T>>, i: nat, j: nat)
    requires i <= j <= |groups|
    ensures Offset(groups, i) <= Offset(groups, j)
  {
    if i < j {
      OffsetGrows(groups, i, j - 1);
    }
  }

  lemma OffsetsFit<T>(groups: seq<seq<T>>)
    ensures forall i :: 0 <= i < |groups| ==> Offset(groups, i) + |groups[i]| <= |Flatten(groups)|
  {
    FlattenOffsets(groups);
    forall i | 0 <= i < |groups| ensures Offset(groups, i) + |groups[i]| <= |Flatten(groups)| {
      OffsetGrows(groups, i + 1, |groups|);
    }
  }

  /** Position `Offset(i) + k` of the flattened list holds element `k` of group `i`. */
  lemma {:induction false} FlattenAt<T>(groups: seq<seq<T>>, i: nat, k: nat)
    requires i < |groups| && k < |groups[i]|
    ensures Offset(groups, i) + k < |Flatten(groups)|
    ensures Flatten(groups)[Offset(groups, i) + k] == groups[i][k]
  {
    var front := groups[..|groups| - 1];
    OffsetPrefix(groups, |groups| - 1, if i < |front| then i else |front|);
    FlattenOffsets(front);
    if i < |front| {
      FlattenAt(front, i, k);
    }
  }

  // ----- What each evaluation leaves in the decision counters -----

  function Seen(v: VerdictResult, latency: real): Observation {
    Observation(v.verdict, v.status, latency)
  }

  const INTERRUPTED := Observation(Block, Error, 0.0)

  function Recorded(r: Await<VerdictResult>, latency: real): seq<Observation> {
    match r
    case Done(v) => [Seen(v, latency)]
    case _ => [INTERRUPTED]
  }

  function RecordedEach(r: Await<seq<VerdictResult>>, latency: real): seq<Observation> {
    match r
    case Done(vs) => seq(|vs|, i requires 0 <= i < |vs| => Seen(vs[i], latency))
    case _ => [INTERRUPTED]
  }
}
