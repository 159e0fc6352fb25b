/**
 Scans that share one cache and interleave. A scan gives up control only while it waits for the decision point,
 so it is two atomic steps: the lookup that starts it and the storing that ends it (`src/apparitor/engine.py`).
 */
module CacheRuns {
  import opened Wrappers
  import opened Json
  import opened Models
  import opened Decision
  import opened Cache
  import opened Engine
  import opened EngineTheorems

  datatype Step =
    | Begin(scan: nat, request: EvaluationRequest)
    | Answered(scan: nat, response: EvaluationResponse, review: Review)
    | Dropped(scan: nat)
    | Flush
    | Tick(elapsed: real)

  /** The cache, the clock, and the scans that wait for an answer. */
  datatype System = System(cache: Entries, now: real, waiting: map<nat, EvaluationRequest>)

  const START := System(EMPTY, 0.0, map[])

  function Next(cfg: EngineConfig, s: System, step: Step): System
    requires Ordered(s.cache)
  {
    match step
    case Begin(scan, r) =>
      if scan in s.waiting then s else
      var (hit, looked) := Lookup(cfg, s.cache, r, s.now);
      s.(cache := looked, waiting := if hit then s.waiting else s.waiting[scan := r])
    case Answered(scan, a, review) =>
      if scan !in s.waiting then s else
      var stored := match Leg(review, a)
        case Ok(v) => Store(cfg, s.cache, s.waiting[scan], v, s.now)
        case Err(_) => s.cache;
      s.(cache := stored, waiting := s.waiting - {scan})
    case Dropped(scan) => s.(waiting := s.waiting - {scan})
    case Flush => s.(cache := EMPTY)
    case Tick(elapsed) => if elapsed > 0.0 then s.(now := s.now + elapsed) else s
  }

  lemma NextKeepsOrder(cfg: EngineConfig, s: System, step: Step)
    requires Ordered(s.cache) && |s.cache.order| <= cfg.Cap()
    ensures Ordered(Next(cfg, s, step).cache) && |Next(cfg, s, step).cache.order| <= cfg.Cap()
  {
    match step
    case Begin(_, r) => GetKeepsOrder(s.cache, cfg.CacheKey(r), s.now);
    case Answered(scan, _, _) =>
      if scan in s.waiting {
        SetKeepsOrder(s.cache, cfg.CacheKey(s.waiting[scan]), cfg.Ttl(), cfg.Cap(), s.now);
      }
    case _ =>
  }

  function Run(cfg: EngineConfig, steps: seq<Step>): (s: System)
    ensures Ordered(s.cache) && |s.cache.order| <= cfg.Cap()
  {
    if |steps| == 0 then START else
    var before := Run(cfg, steps[..|steps| - 1]);
    NextKeepsOrder(cfg, before, steps[|steps| - 1]);
    Next(cfg, before, steps[|steps| - 1])
  }

  /** How a lone scan ends: with the handling of its answer, or dropped when the call fails or is cancelled. */
  function Ending(scan: nat, r: EvaluationRequest, w: World): Step {
    match w.pdp.single(r)
    case Done(a) => Answered(scan, a, w.review)
    case _ => Dropped(scan)
  }

  /**
   A scan that nothing interleaves with is the engine's single evaluation. A hit is its start alone; otherwise it is
   a start, some waiting and an end, whatever the decision point and the review predicate do.
   */
  lemma LoneScanIsSingleEvaluation(cfg: EngineConfig, s: System, scan: nat, r: EvaluationRequest, w: World)
    requires Ordered(s.cache) && scan !in s.waiting && w.lookupAt == s.now <= w.storeAt
    ensures var (o, left) := EvaluateSingle(cfg, s.cache, r, w);
      var begun := Next(cfg, s, Begin(scan, r));
      if scan !in begun.waiting then o == Done(VerdictResult(Allow, "authorized by policy (cached)", Success)) && begun == System(left, s.now, s.waiting)
      else Next(cfg, Next(cfg, begun, Tick(w.storeAt - s.now)), Ending(scan, r, w)) == System(left, w.storeAt, s.waiting)
  {
    hide AfterGet, AfterSet;
    GetKeepsOrder(s.cache, cfg.CacheKey(r), s.now);
    assert s.waiting[scan := r] - {scan} == s.waiting;
  }

  /** The scan started by `r` after `steps` is answered from the cache. */
  predicate AnsweredFromCache(cfg: EngineConfig, steps: seq<Step>, r: EvaluationRequest) {
    Lookup(cfg, Run(cfg, steps).cache, r, Run(cfg, steps).now).0
  }

  /** Step `m` handles the answer to a scan of `asked`: `true`, and nobody wants a human. */
  predicate Grants(cfg: EngineConfig, steps: seq<Step>, m: nat, asked: EvaluationRequest)
    requires m < |steps|
  {
    && steps[m].Answered? && GrantedAnswer(steps[m].review, steps[m].response)
    && steps[m].scan in Run(cfg, steps[..m]).waiting && Run(cfg, steps[..m]).waiting[steps[m].scan] == asked
  }

  /** `key` is in the cache until `expiry` because of step `m`, and nothing was flushed since. */
  ghost predicate Justified(cfg: EngineConfig, steps: seq<Step>, key: Key, expiry: real, m: nat,
                            asked: EvaluationRequest) {
    && m < |steps| && Grants(cfg, steps, m, asked)
    && key == cfg.CacheKey(asked) && expiry == Run(cfg, steps[..m]).now + cfg.Ttl()
    && forall k :: m < k < |steps| ==> !steps[k].Flush?
  }

  lemma JustifiedPersists(cfg: EngineConfig, steps: seq<Step>, key: Key, expiry: real, m: nat, asked: EvaluationRequest)
    requires |steps| > 0 && Justified(cfg, steps[..|steps| - 1], key, expiry, m, asked) && !steps[|steps| - 1].Flush?
    ensures Justified(cfg, steps, key, expiry, m, asked)
  {
    assert steps[..|steps| - 1][..m] == steps[..m];
  }

  /** An entry that a step leaves behind was there before it, or is what the step granted. */
  lemma EntryStep(cfg: EngineConfig, s: System, step: Step, key: Key)
    requires Ordered(s.cache) && key in Next(cfg, s, step).cache.expiry
    ensures var expiry := Next(cfg, s, step).cache.expiry[key];
      || (key in s.cache.expiry && s.cache.expiry[key] == expiry && !step.Flush?)
      || (step.Answered? && GrantedAnswer(step.review, step.response) && step.scan in s.waiting
          && key == cfg.CacheKey(s.waiting[step.scan]) && expiry == s.now + cfg.Ttl())
  {
  }

  /** Every entry of the cache goes back to an answer that granted exactly this key. */
  lemma {:induction false} EntryJustified(cfg: EngineConfig, steps: seq<Step>, key: Key) returns (m: nat,
                                          asked: EvaluationRequest)
    requires key in Run(cfg, steps).cache.expiry
    ensures Justified(cfg, steps, key, Run(cfg, steps).cache.expiry[key], m, asked)
  {
    hide Next;
    var n := |steps| - 1;
    var before := Run(cfg, steps[..n]);
    EntryStep(cfg, before, steps[n], key);
    if key in before.cache.expiry && before.cache.expiry[key] == Run(cfg, steps).cache.expiry[key] && !steps[n].Flush? {
      m, asked := EntryJustified(cfg, steps[..n], key);
      JustifiedPersists(cfg, steps, key, before.cache.expiry[key], m, asked);
    } else {
      m, asked := n, before.waiting[steps[n].scan];
    }
  }

  lemma {:induction false} ClockAdvances(cfg: EngineConfig, steps: seq<Step>, m: nat)
    requires m <= |steps|
    ensures Run(cfg, steps[..m]).now <= Run(cfg, steps).now
  {
    if m < |steps| {
      ClockAdvances(cfg, steps[..|steps| - 1], m);
      assert steps[..|steps| - 1][..m] == steps[..m];
    } else {
      assert steps[..m] == steps;
    }
  }

  /** A step adds a waiting scan only where it begins one, and changes none that waits already. */
  lemma WaitingStep(cfg: EngineConfig, s: System, step: Step, scan: nat)
    requires Ordered(s.cache) && scan in Next(cfg, s, step).waiting
    ensures if scan in s.waiting then Next(cfg, s, step).waiting[scan] == s.waiting[scan]
            else step == Begin(scan, Next(cfg, s, step).waiting[scan])
  {
    hide Lookup, Store;
  }

  /** A waiting scan began at some step with the request it waits for, and has waited ever since. */
  lemma {:induction false} WaitingWasBegun(cfg: EngineConfig, steps: seq<Step>, scan: nat) returns (b: nat)
    requires scan in Run(cfg, steps).waiting
    ensures b < |steps| && steps[b] == Begin(scan, Run(cfg, steps).waiting[scan])
    ensures forall k :: b < k <= |steps| ==> scan in Run(cfg, steps[..k]).waiting
  {
    hide Next;
    var n := |steps| - 1;
    var front := steps[..n];
    assert steps[..n + 1] == steps;
    WaitingStep(cfg, Run(cfg, front), steps[n], scan);
    if scan in Run(cfg, front).waiting {
      b := WaitingWasBegun(cfg, front, scan);
      assert forall k :: 0 <= k <= n ==> front[..k] == steps[..k];
    } else {
      b := n;
    }
  }

  ghost predicate Injective(digest: string -> string) {
    forall a, b :: digest(a) == digest(b) ==> a == b
  }

  /** All requests that scans are started with are requests Python can hold. */
  predicate AllWellFormed(steps: seq<Step>) {
    forall i :: 0 <= i < |steps| && steps[i].Begin? ==> WellFormed(steps[i].request)
  }

  lemma WaitingWellFormed(cfg: EngineConfig, steps: seq<Step>, scan: nat)
    requires AllWellFormed(steps) && scan in Run(cfg, steps).waiting
    ensures WellFormed(Run(cfg, steps).waiting[scan])
  {
    hide Run, WellFormed;
    var b := WaitingWasBegun(cfg, steps, scan);
  }

  /** Step `m` granted an equal request, within the ceiling before now and after the latest flush. */
  ghost predicate Backs(cfg: EngineConfig, steps: seq<Step>, m: nat, asked: EvaluationRequest, r: EvaluationRequest) {
    && m < |steps| && Grants(cfg, steps, m, asked) && SameRequest(r, asked)
    && Run(cfg, steps[..m]).now <= Run(cfg, steps).now < Run(cfg, steps[..m]).now + cfg.cacheMaxTtlS
    && forall k :: m < k < |steps| ==> !steps[k].Flush?
  }

  lemma JustifiedBacks(cfg: EngineConfig, steps: seq<Step>, m: nat, asked: EvaluationRequest, r: EvaluationRequest)
    requires Injective(cfg.digest) && AllWellFormed(steps) && WellFormed(r) && AnsweredFromCache(cfg, steps, r)
    requires Justified(cfg, steps, cfg.CacheKey(r), Run(cfg, steps).cache.expiry[cfg.CacheKey(r)], m, asked)
    ensures Backs(cfg, steps, m, asked, r)
  {
    hide Run, WellFormed, SameRequest, KeyText;
    ClockAdvances(cfg, steps, m);
    WaitingWellFormed(cfg, steps[..m], steps[m].scan);
    KeyTextIdentifiesRequests(r, asked);
  }

  /**
   Cache soundness over every interleaving. An answer from the cache repeats an answer of the decision point to an
   equal request: `true`, without review, handled at most the lifetime ago and after the latest flush.
   */
  lemma CachedAnswerIsJustified(cfg: EngineConfig, steps: seq<Step>, r: EvaluationRequest)
    requires Injective(cfg.digest) && AllWellFormed(steps) && WellFormed(r)
    requires AnsweredFromCache(cfg, steps, r)
    ensures exists m: nat, asked :: Backs(cfg, steps, m, asked, r)
  {
    var m, asked := EntryJustified(cfg, steps, cfg.CacheKey(r));
    JustifiedBacks(cfg, steps, m, asked, r);
    assert Backs(cfg, steps, m, asked, r);
  }

  /** Only an enabled cache with a positive lifetime ever answers. */
  lemma DisabledCacheNeverAnswers(cfg: EngineConfig, steps: seq<Step>, r: EvaluationRequest)
    ensures AnsweredFromCache(cfg, steps, r) ==> cfg.cacheEnabled && cfg.Ttl() > 0.0
  {
    if AnsweredFromCache(cfg, steps, r) {
      var m, asked := EntryJustified(cfg, steps, cfg.CacheKey(r));
      ClockAdvances(cfg, steps, m);
    }
  }

  // ----- What a flush fences -----

  /** No scan begins in these steps. */
  predicate AsksNothing(steps: seq<Step>) {
    forall i :: 0 <= i < |steps| ==> !steps[i].Begin?
  }

  ghost predicate WaitsFor(cfg: EngineConfig, s: System, key: Key) {
    exists scan :: scan in s.waiting && cfg.CacheKey(s.waiting[scan]) == key
  }

  /** A flush after `before` and then `more`, which asks nothing, still leave `r` answered from the cache. */
  predicate ServesPastFlush(cfg: EngineConfig, before: seq<Step>, more: seq<Step>, r: EvaluationRequest) {
    AsksNothing(more) && AnsweredFromCache(cfg, before + [Flush] + more, r)
  }

  /**
   What a flush fences, over every run. Without asking anything after it, `r` can still be answered from the cache
   exactly when the cache works at all and some scan waiting at the flush asked for the key of `r`. So a flush with
   no scan in flight fences everything asked before it.
   */
  lemma FlushFencesExactly(cfg: EngineConfig, before: seq<Step>, r: EvaluationRequest)
    ensures (exists more :: ServesPastFlush(cfg, before, more, r))
            <==> cfg.cacheEnabled && cfg.Ttl() > 0.0 && WaitsFor(cfg, Run(cfg, before), cfg.CacheKey(r))
  {
    forall more | ServesPastFlush(cfg, before, more, r)
      ensures cfg.cacheEnabled && cfg.Ttl() > 0.0 && WaitsFor(cfg, Run(cfg, before), cfg.CacheKey(r))
    {
      ServedMeansWaiting(cfg, before, more, r);
    }
    if cfg.cacheEnabled && cfg.Ttl() > 0.0 && WaitsFor(cfg, Run(cfg, before), cfg.CacheKey(r)) {
      var scan :| scan in Run(cfg, before).waiting && cfg.CacheKey(Run(cfg, before).waiting[scan]) == cfg.CacheKey(r);
      LateAnswerIsServed(cfg, before, scan, r);
    }
  }

  lemma ServedMeansWaiting(cfg: EngineConfig, before: seq<Step>, more: seq<Step>, r: EvaluationRequest)
    requires ServesPastFlush(cfg, before, more, r)
    ensures cfg.cacheEnabled && cfg.Ttl() > 0.0 && WaitsFor(cfg, Run(cfg, before), cfg.CacheKey(r))
  {
    hide Run;
    DisabledCacheNeverAnswers(cfg, before + [Flush] + more, r);
    var m, b, asked := GrantPastFlush(cfg, before, more, cfg.CacheKey(r));
  }

  /** The grant behind an entry found after a flush answered a scan that began after it or was waiting at it. */
  lemma GrantPastFlush(cfg: EngineConfig, before: seq<Step>, more: seq<Step>, key: Key)
    returns (m: nat, b: nat, asked: EvaluationRequest)
    requires key in Run(cfg, before + [Flush] + more).cache.expiry
    ensures var all := before + [Flush] + more;
      && Justified(cfg, all, key, Run(cfg, all).cache.expiry[key], m, asked)
      && b < m && all[b] == Begin(all[m].scan, asked)
      && (if b <= |before| then WaitsFor(cfg, Run(cfg, before), key)
          else b - |before| - 1 < |more| && more[b - |before| - 1].Begin?)
  {
    hide Run, Next;
    var all := before + [Flush] + more;
    m, asked := EntryJustified(cfg, all, key);
    assert all[|before|] == Flush && m > |before|;
    b := WaitingWasBegun(cfg, all[..m], all[m].scan);
    assert all[..m][b] == all[b];
    if b < |before| {
      assert all[..m][..|before|] == before;
      assert WaitsFor(cfg, Run(cfg, before), key) by {
        StillWaiting(cfg, all[..m], |before|, all[m].scan, b);
      }
    }
  }

  /** A scan begun at `b` and waiting now waited with the same request at every step between. */
  lemma {:induction false} StillWaiting(cfg: EngineConfig, steps: seq<Step>, n: nat, scan: nat, b: nat)
    requires b < n <= |steps| && scan in Run(cfg, steps).waiting
    requires forall k :: b < k <= |steps| ==> scan in Run(cfg, steps[..k]).waiting
    ensures Run(cfg, steps[..n]).waiting[scan] == Run(cfg, steps).waiting[scan]
  {
    hide Next;
    assert steps[..|steps|] == steps;
    if n < |steps| {
      var front := steps[..|steps| - 1];
      assert forall k :: 0 <= k < |steps| ==> front[..k] == steps[..k];
      WaitingStep(cfg, Run(cfg, front), steps[|steps| - 1], scan);
      StillWaiting(cfg, front, n, scan, b);
    }
  }

  /** Handling a waiting scan's grant on an emptied cache stores it, and serves the next scan of its key. */
  lemma GrantServes(cfg: EngineConfig, s: System, grant: Step, r: EvaluationRequest)
    requires cfg.cacheEnabled && cfg.Ttl() > 0.0 && s.cache == EMPTY
    requires grant.Answered? && GrantedAnswer(grant.review, grant.response)
    requires grant.scan in s.waiting && cfg.CacheKey(s.waiting[grant.scan]) == cfg.CacheKey(r)
    ensures var served := Next(cfg, s, grant); Lookup(cfg, served.cache, r, served.now).0
  {
    assert Next(cfg, s, grant).cache.expiry == map[cfg.CacheKey(r) := s.now + cfg.Ttl()];
  }

  lemma RunStep(cfg: EngineConfig, steps: seq<Step>, step: Step)
    ensures Run(cfg, steps + [step]) == Next(cfg, Run(cfg, steps), step)
  {
    hide Next;
    assert (steps + [step])[..|steps|] == steps;
  }

  lemma LateAnswerIsServed(cfg: EngineConfig, before: seq<Step>, scan: nat, r: EvaluationRequest)
    requires cfg.cacheEnabled && cfg.Ttl() > 0.0
    requires scan in Run(cfg, before).waiting && cfg.CacheKey(Run(cfg, before).waiting[scan]) == cfg.CacheKey(r)
    ensures exists more :: ServesPastFlush(cfg, before, more, r)
  {
    hide Run, Lookup;
    var grant := Answered(scan, EvaluationResponse(true, None), None);
    RunStep(cfg, before, Flush);
    RunStep(cfg, before + [Flush], grant);
    GrantServes(cfg, Run(cfg, before + [Flush]), grant, r);
    assert ServesPastFlush(cfg, before, [grant], r);
  }

  /** The scan behind the cached answer began after the flush that follows `before`, or was waiting at it. */
  ghost predicate AskedPastFlush(cfg: EngineConfig, before: seq<Step>, steps: seq<Step>, m: nat, b: nat,
                                 asked: EvaluationRequest) {
    && b < m < |steps| && steps[m].Answered? && steps[b] == Begin(steps[m].scan, asked)
    && (b <= |before| ==> WaitsFor(cfg, Run(cfg, before), cfg.CacheKey(asked)))
  }

  /**
   With anything going on after the flush: a cached ALLOW repeats a grant to an equal request that was asked after
   the flush, unless a scan for the same key was waiting at it.
   */
  lemma CachedAnswerPastFlush(cfg: EngineConfig, before: seq<Step>, more: seq<Step>, r: EvaluationRequest)
    requires Injective(cfg.digest) && AllWellFormed(before + [Flush] + more) && WellFormed(r)
    requires AnsweredFromCache(cfg, before + [Flush] + more, r)
    ensures var all := before + [Flush] + more;
      exists m: nat, b: nat, asked :: Backs(cfg, all, m, asked, r) && AskedPastFlush(cfg, before, all, m, b, asked)
  {
    var all := before + [Flush] + more;
    var m, b, asked := GrantPastFlush(cfg, before, more, cfg.CacheKey(r));
    JustifiedBacks(cfg, all, m, asked, r);
    assert Backs(cfg, all, m, asked, r) && AskedPastFlush(cfg, before, all, m, b, asked);
  }

  /**
   The shortest run past the fence: an answer requested before the flush and handled after it is stored, and
   serves the next scan.
   */
  lemma FlushDoesNotFenceWaitingScans(cfg: EngineConfig, r: EvaluationRequest,
                                       context: Option<map<string, Value>>)
    requires cfg.cacheEnabled && cfg.Ttl() > 0.0
    ensures AnsweredFromCache(cfg, [Begin(0, r), Flush, Answered(0, EvaluationResponse(true, context), None)], r)
  {
    var grant := Answered(0, EvaluationResponse(true, context), None);
    RunStep(cfg, [], Begin(0, r));
    RunStep(cfg, [] + [Begin(0, r)], Flush);
    RunStep(cfg, [] + [Begin(0, r)] + [Flush], grant);
    GrantServes(cfg, Run(cfg, [] + [Begin(0, r)] + [Flush]), grant, r);
    assert [] + [Begin(0, r)] + [Flush] + [grant] == [Begin(0, r), Flush, grant];
  }
}
