/** Batch shaping and the concurrent fan-out of `src/apparitor/backends.py`. */
module Backends {
  import opened Wrappers
  import opened Json
  import opened Models
  import opened Engine
  import EngineTheorems
  import Decision
  import Cache
  import Client

  /**
   One batch entry with the request-level defaults. Overriding is wholesale: a present value replaces the
   default even when it is empty. Subject, action and resource must then be there, or building the request raises.
   */
  function MergeBatchItem(item: EvaluationItem, batch: BatchRequest): Result<EvaluationRequest, Fault> {
    var subject := if item.subject.Some? then item.subject else batch.subject;
    var action := if item.action.Some? then item.action else batch.action;
    var resource := if item.resource.Some? then item.resource else batch.resource;
    var context := if item.context.Some? then item.context else batch.context;
    if subject.None? || action.None? || resource.None? then Err(Unexpected)
    else Ok(EvaluationRequest(subject.value, action.value, resource.value, context))
  }

  function MergeAll(batch: BatchRequest, n: nat): (r: Result<seq<EvaluationRequest>, Fault>)
    requires n <= |batch.evaluations|
    ensures r.Ok? ==> |r.value| == n
    ensures r.Ok? ==> forall i :: 0 <= i < n ==> MergeBatchItem(batch.evaluations[i], batch) == Ok(r.value[i])
  {
    if n == 0 then Ok([]) else
    var front :- MergeAll(batch, n - 1);
    var last :- MergeBatchItem(batch.evaluations[n - 1], batch);
    Ok(front + [last])
  }

  /** The requests that one batch stands for. */
  function BatchInputs(batch: BatchRequest): Result<seq<EvaluationRequest>, Fault> {
    MergeAll(batch, |batch.evaluations|)
  }

  /** Shaping requests as a batch and merging its entries gives the requests back, in order. */
  lemma BatchRoundTrip(rs: seq<EvaluationRequest>)
    ensures BatchInputs(ToBatch(rs)) == Ok(rs)
  {
    MergeToBatch(rs, |rs|);
    assert rs[..|rs|] == rs;
  }

  lemma {:induction false} MergeToBatch(rs: seq<EvaluationRequest>, n: nat)
    requires n <= |rs|
    ensures MergeAll(ToBatch(rs), n) == Ok(rs[..n])
  {
    if n > 0 {
      MergeToBatch(rs, n - 1);
      assert MergeBatchItem(ToBatch(rs).evaluations[n - 1], ToBatch(rs)) == Ok(rs[n - 1]);
      assert rs[..n] == rs[..n - 1] + [rs[n - 1]];
    }
  }

  // ----- The decision path of the Data API -----

  /** Only a boolean `result` is a decision; anything else is a malformed response. */
  function ExtractDecision(data: Value): Result<bool, Fault> {
    if data.VObj? && "result" in data.m && data.m["result"].VBool? then Ok(data.m["result"].b) else Err(Malformed)
  }

  /** What one query over the transport comes to. */
  function Query(post: EvaluationRequest -> Await<Value>, r: EvaluationRequest): Await<EvaluationResponse> {
    match post(r)
    case Cancelled => Cancelled
    case Raised(f) => Raised(f)
    case Done(data) =>
      match ExtractDecision(data)
      case Err(f) => Raised(f)
      case Ok(b) => Done(EvaluationResponse(b, None))
  }

  /**
   The gather over concurrent queries: `order` is the order in which they complete. The first failure to
   complete propagates; otherwise the results stand in the order of the requests.
   */
  method Gather(outcomes: seq<Await<EvaluationResponse>>, order: seq<nat>) returns (r: Await<seq<EvaluationResponse>>)
    requires Permutes(order, |outcomes|)
    ensures (forall i :: 0 <= i < |outcomes| ==> outcomes[i].Done?)
            ==> r.Done? && |r.value| == |outcomes| && forall i :: 0 <= i < |outcomes| ==> outcomes[i] == Done(r.value[i])
    ensures (exists i :: 0 <= i < |outcomes| && !outcomes[i].Done?)
            ==> exists n :: 0 <= n < |order| && FirstFailure(outcomes, order, n) && Propagates(outcomes[order[n]], r)
  {
    var slots: seq<Option<EvaluationResponse>> := seq(|outcomes|, _ => None);
    for n := 0 to |order|
      invariant |slots| == |outcomes|
      invariant forall k :: 0 <= k < n ==> outcomes[order[k]].Done? && slots[order[k]] == Some(outcomes[order[k]].value)
    {
      match outcomes[order[n]] {
        case Done(a) => slots := slots[order[n] := Some(a)];
        case Raised(f) => return Raised(f);
        case Cancelled => return Cancelled;
      }
    }
    forall i | 0 <= i < |outcomes| ensures outcomes[i].Done? && slots[i] == Some(outcomes[i].value) {
      assert i in order;
      var k :| 0 <= k < |order| && order[k] == i;
    }
    r := Done(seq(|slots|, i requires 0 <= i < |slots| && slots[i].Some? => slots[i].value));
  }

  predicate FirstFailure(outcomes: seq<Await<EvaluationResponse>>, order: seq<nat>, n: nat)
    requires Permutes(order, |outcomes|) && n < |order|
  {
    !outcomes[order[n]].Done? && forall k :: 0 <= k < n ==> outcomes[order[k]].Done?
  }

  predicate Propagates(failure: Await<EvaluationResponse>, r: Await<seq<EvaluationResponse>>) {
    (failure.Cancelled? && r.Cancelled?) || (failure.Raised? && r == Raised(failure.fault))
  }

  /** The batch endpoint of the backend: merge every entry, query each, gather. */
  method EvaluateBatch(batch: BatchRequest, post: EvaluationRequest -> Await<Value>, order: seq<nat>)
    returns (r: Await<seq<EvaluationResponse>>)
    requires Permutes(order, |batch.evaluations|)
    ensures match BatchInputs(batch)
            case Err(f) => r == Raised(f)
            case Ok(rs) => EngineTheorems.FansOut(q => Query(post, q), rs, r)
  {
    var inputs := BatchInputs(batch);
    if inputs.Err? {
      return Raised(inputs.error);
    }
    var rs := inputs.value;
    var outcomes := seq(|rs|, i requires 0 <= i < |rs| => Query(post, rs[i]));
    r := Gather(outcomes, order);
    ghost var f := q => Query(post, q);
    if EngineTheorems.AllAnswered(f, rs) {
      forall i | 0 <= i < |rs| ensures outcomes[i].Done? {
        assert f(rs[i]).Done?;
      }
      assert r.value == EngineTheorems.AnswersOf(f, rs);
    } else {
      var i :| 0 <= i < |rs| && !f(rs[i]).Done?;
      assert !outcomes[i].Done?;
      var n :| 0 <= n < |order| && FirstFailure(outcomes, order, n) && Propagates(outcomes[order[n]], r);
      assert f(rs[order[n]]) == outcomes[order[n]];
    }
  }

  /**
   The batch the engine shapes is answered request by request, so the native backend is a decision point of the kind
   the engine's theorems are about. A partial batch never comes back: the list has one answer per request or the call fails.
   */
  lemma FanOutIsPointwise(rs: seq<EvaluationRequest>, post: EvaluationRequest -> Await<Value>,
                          o: Await<seq<EvaluationResponse>>)
    requires BatchInputs(ToBatch(rs)).Ok? ==> EngineTheorems.FansOut(q => Query(post, q), BatchInputs(ToBatch(rs)).value, o)
    ensures EngineTheorems.FansOut(q => Query(post, q), rs, o)
    ensures o.Done? ==> |o.value| == |rs| && forall i :: 0 <= i < |rs| ==> Query(post, rs[i]) == Done(o.value[i])
    ensures !o.Done? <==> exists i :: 0 <= i < |rs| && !Query(post, rs[i]).Done?
  {
    BatchRoundTrip(rs);
    var f := q => Query(post, q);
    assert EngineTheorems.FansOut(f, rs, o);
    if EngineTheorems.AllAnswered(f, rs) {
      forall i | 0 <= i < |rs| ensures Query(post, rs[i]) == Done(o.value[i]) {
        assert f(rs[i]).Done? && f(rs[i]) == Query(post, rs[i]);
        assert EngineTheorems.AnswersOf(f, rs)[i] == f(rs[i]).value;
      }
    } else {
      var i :| 0 <= i < |rs| && !f(rs[i]).Done?;
      assert !Query(post, rs[i]).Done?;
    }
  }

  /** A decision point built on the native backend meets what the engine's path-agreement theorems ask for. */
  lemma NativeBackendIsDeterministic(pdp: Pdp, post: EvaluationRequest -> Await<Value>)
    requires forall r :: pdp.single(r) == Query(post, r)
    requires forall batch: BatchRequest :: BatchInputs(batch).Ok?
               ==> EngineTheorems.FansOut(q => Query(post, q), BatchInputs(batch).value, pdp.batch(batch))
    ensures EngineTheorems.Deterministic(pdp, q => Query(post, q))
  {
    var f := q => Query(post, q);
    forall rs: seq<EvaluationRequest> ensures EngineTheorems.FansOut(f, rs, pdp.batch(ToBatch(rs))) {
      BatchRoundTrip(rs);
      assert BatchInputs(ToBatch(rs)).Ok?;
    }
  }

  // ----- Over the HTTP transport -----

  /** The transport of the backend: request `r` meets `script(r)`. */
  function Transport(cfg: Client.Config, script: EvaluationRequest -> Client.Script): EvaluationRequest -> Await<Value> {
    r => Client.Attempts(cfg, script(r), 0).result
  }

  /** The request ended on a 2xx body that repeats no key at any depth and literally gives this `"result"`. */
  ghost predicate EndsOnResult(cfg: Client.Config, s: Client.Script, b: bool) {
    exists d :: Client.EndsOn(cfg, s, d) && Says(d, "result", b)
  }

  /** A query, completely: the literal result; malformed when there is none; otherwise the failure of the request. */
  lemma QueryExact(cfg: Client.Config, script: EvaluationRequest -> Client.Script, r: EvaluationRequest)
    ensures var o := Query(Transport(cfg, script), r);
      && (forall a :: o == Done(a) <==> a.context.None? && EndsOnResult(cfg, script(r), a.decision))
      && (forall d :: Client.EndsOn(cfg, script(r), d) && !Says(d, "result", true) && !Says(d, "result", false)
            ==> o == Raised(Malformed))
      && ((forall d :: !Client.EndsOn(cfg, script(r), d)) ==>
            match Client.Attempts(cfg, script(r), 0).result
            case Done(_) => false
            case Raised(f) => o == Raised(f)
            case Cancelled => o == Cancelled)
  {
    hide Client.Attempts, Client.FinalBody, NoRepeats, Load, Says;
    var s := script(r);
    Client.EndsOnExact(cfg, s);
    if d :| Client.EndsOn(cfg, s, d) {
      SaysExact(d, "result", true);
      SaysExact(d, "result", false);
      assert EndsOnResult(cfg, s, true) <==> Says(d, "result", true);
      assert EndsOnResult(cfg, s, false) <==> Says(d, "result", false);
    }
  }

  /**
   Literal true end to end. Without the cache, an engine over the native backend allows requests exactly when every
   one of their queries ended on a body that literally says true, whatever the review predicate.
   */
  lemma AllowNeedsLiteralTrue(cfg: EngineConfig, c: Cache.Entries, rs: seq<EvaluationRequest>, w: World,
                              transport: Client.Config, script: EvaluationRequest -> Client.Script)
    requires Cache.Ordered(c) && !cfg.cacheEnabled && |rs| > 0
    requires EngineTheorems.Deterministic(w.pdp, r => Query(Transport(transport, script), r))
    ensures var o := EvaluateGuarded(cfg, c, rs, w).0;
      (o.Done? && o.value.verdict == Decision.Allow)
      <==> forall i :: 0 <= i < |rs| ==> EndsOnResult(transport, script(rs[i]), true)
  {
    hide EndsOnResult, Query, EvaluateGuarded, EngineTheorems.Granted, EngineTheorems.Reply;
    var f := r => Query(Transport(transport, script), r);
    EngineTheorems.AllowMeansGranted(cfg, c, rs, w);
    EngineTheorems.GrantedPointwise(f, rs, w);
    forall i | 0 <= i < |rs|
      ensures (f(rs[i]).Done? && EngineTheorems.GrantedAnswer(w.review, f(rs[i]).value))
              <==> EndsOnResult(transport, script(rs[i]), true)
    {
      QueryExact(transport, script, rs[i]);
      var yes := EvaluationResponse(true, None);
      assert f(rs[i]) == Query(Transport(transport, script), rs[i]);
      assert f(rs[i]) == Done(yes) <==> EndsOnResult(transport, script(rs[i]), yes.decision);
      if f(rs[i]).Done? {
        assert f(rs[i]) == Done(f(rs[i]).value);
      }
    }
  }
}
