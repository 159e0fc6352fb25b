/** The in-process backend of `src/apparitor/cedar.py`, with the Cedar engine left open. */
module Cedar {
  import opened Wrappers
  import opened Models
  import opened Engine
  import opened EngineTheorems
  import opened Backends
  import Keys

  datatype CedarDecision = Allow | Deny | NoDecision

  datatype CedarRequest = CedarRequest(principal: string, action: string, resource: string, context: Dict)

  /** The bindings of the Cedar engine: one request, and a list of requests. Either call may raise. */
  datatype Bindings =
    Bindings(title: string -> string, single: CedarRequest -> Option<CedarDecision>,
             batch: seq<CedarRequest> -> Option<seq<CedarDecision>>)

  /** The three entity uids and the context; an absent context is an empty one. */
  function ToCedar(b: Bindings, r: EvaluationRequest): Result<CedarRequest, Fault> {
    var principal :- Keys.EntityUid(r.subject.typ, r.subject.id, b.title);
    var action :- Keys.EntityUid("action", r.action.name, b.title);
    var resource :- Keys.EntityUid(r.resource.typ, r.resource.id, b.title);
    Ok(CedarRequest(principal, action, resource, if r.context.Some? then r.context.value else []))
  }

  /** Only an explicit allow is one; whatever goes wrong is a malformed response. */
  function Decide(b: Bindings, r: EvaluationRequest): Await<EvaluationResponse> {
    match ToCedar(b, r)
    case Err(_) => Raised(Malformed)
    case Ok(q) =>
      match b.single(q)
      case None => Raised(Malformed)
      case Some(d) => Done(EvaluationResponse(d == Allow, None))
  }

  function ToCedarAll(b: Bindings, rs: seq<EvaluationRequest>): (r: Result<seq<CedarRequest>, Fault>)
    ensures r.Ok? ==> |r.value| == |rs| && forall i :: 0 <= i < |rs| ==> ToCedar(b, rs[i]) == Ok(r.value[i])
    ensures r.Err? ==> exists i :: 0 <= i < |rs| && ToCedar(b, rs[i]).Err?
  {
    if |rs| == 0 then Ok([]) else
    var front :- ToCedarAll(b, rs[..|rs| - 1]);
    var last :- ToCedar(b, rs[|rs| - 1]);
    Ok(front + [last])
  }

  function Decided(ds: seq<CedarDecision>): (answers: seq<EvaluationResponse>)
    ensures |answers| == |ds| && forall i :: 0 <= i < |ds| ==> answers[i] == EvaluationResponse(ds[i] == Allow, None)
  {
    seq(|ds|, i requires 0 <= i < |ds| => EvaluationResponse(ds[i] == Allow, None))
  }

  function DecideBatch(b: Bindings, batch: BatchRequest): Await<seq<EvaluationResponse>> {
    match BatchInputs(batch)
    case Err(_) => Raised(Malformed)
    case Ok(rs) =>
      match ToCedarAll(b, rs)
      case Err(_) => Raised(Malformed)
      case Ok(qs) =>
        match b.batch(qs)
        case None => Raised(Malformed)
        case Some(ds) => Done(Decided(ds))
  }

  /**
   The batch binding answers each request as the single binding does, and raises only if that does for one of
   them.
   */
  ghost predicate Consistent(b: Bindings) {
    forall qs: seq<CedarRequest> :: ConsistentOn(b, qs)
  }

  ghost predicate ConsistentOn(b: Bindings, qs: seq<CedarRequest>) {
    match b.batch(qs)
    case Some(ds) => |ds| == |qs| && forall i :: 0 <= i < |qs| ==> b.single(qs[i]) == Some(ds[i])
    case None => exists i :: 0 <= i < |qs| && b.single(qs[i]).None?
  }

  /**
   Over consistent bindings the backend answers both endpoints alike, so the engine's path-agreement theorems hold of
   it; one unusable identifier fails the whole batch.
   */
  lemma CedarIsDeterministic(b: Bindings, pdp: Pdp)
    requires Consistent(b)
    requires forall r :: pdp.single(r) == Decide(b, r)
    requires forall batch: BatchRequest :: pdp.batch(batch) == DecideBatch(b, batch)
    ensures Deterministic(pdp, r => Decide(b, r))
  {
    var f := r => Decide(b, r);
    forall rs: seq<EvaluationRequest> ensures FansOut(f, rs, pdp.batch(ToBatch(rs))) {
      BatchRoundTrip(rs);
      assert pdp.batch(ToBatch(rs)) == DecideBatch(b, ToBatch(rs));
      CedarBatchFansOut(b, rs);
    }
  }

  lemma CedarBatchFansOut(b: Bindings, rs: seq<EvaluationRequest>)
    requires Consistent(b) && BatchInputs(ToBatch(rs)) == Ok(rs)
    ensures FansOut(r => Decide(b, r), rs, DecideBatch(b, ToBatch(rs)))
  {
    var f := r => Decide(b, r);
    match ToCedarAll(b, rs)
    case Err(_) =>
      var i :| 0 <= i < |rs| && ToCedar(b, rs[i]).Err?;
      assert f(rs[i]) == Raised(Malformed);
    case Ok(qs) =>
      assert ConsistentOn(b, qs);
      match b.batch(qs)
      case None =>
        var i :| 0 <= i < |qs| && b.single(qs[i]).None?;
        assert ToCedar(b, rs[i]) == Ok(qs[i]);
        assert f(rs[i]) == Raised(Malformed);
      case Some(ds) =>
        forall i | 0 <= i < |rs| ensures f(rs[i]) == Done(Decided(ds)[i]) {
          assert ToCedar(b, rs[i]) == Ok(qs[i]);
        }
        assert Decided(ds) == AnswersOf(f, rs);
  }

  // ----- What the Cedar engine is asked, in its own terms -----

  /** The text would break out of a Cedar string literal: it holds a quote, a backslash or a control character. */
  predicate Unusable(identifier: string) {
    exists k :: 0 <= k < |identifier|
                && (identifier[k] == '\"' || identifier[k] == '\\' || identifier[k] as int < 0x20)
  }

  predicate AnyUnusable(r: EvaluationRequest) {
    Unusable(r.subject.id) || Unusable(r.action.name) || Unusable(r.resource.id)
  }

  /** The two conventional types are spelled out, any other is title-cased; the identifier stands verbatim in quotes. */
  predicate Names(b: Bindings, kind: string, identifier: string, uid: string) {
    uid == (if kind == "agent" then "Agent" else if kind == "tool" then "Tool" else b.title(kind)) + "::\"" + identifier + "\""
  }

  /** The subject is the principal, the resource is the resource, and an absent context is an empty one. */
  predicate IsCedarRequest(b: Bindings, r: EvaluationRequest, q: CedarRequest) {
    && !AnyUnusable(r)
    && Names(b, r.subject.typ, r.subject.id, q.principal)
    && Names(b, "action", r.action.name, q.action)
    && Names(b, r.resource.typ, r.resource.id, q.resource)
    && q.context == if r.context.Some? then r.context.value else []
  }

  lemma ToCedarExact(b: Bindings, r: EvaluationRequest)
    ensures ToCedar(b, r).Ok? <==> !AnyUnusable(r)
    ensures ToCedar(b, r).Ok? ==> IsCedarRequest(b, r, ToCedar(b, r).value)
    ensures forall q :: IsCedarRequest(b, r, q) ==> ToCedar(b, r) == Ok(q)
  {
  }

  /** Only an explicit allow is one; no decision is a denial, and a raise is a malformed response. */
  predicate Decides(d: Option<CedarDecision>, o: Await<EvaluationResponse>) {
    o == if d.None? then Raised(Malformed) else Done(EvaluationResponse(d.value.Allow?, None))
  }

  /** The answer to one request, completely. */
  lemma DecideExact(b: Bindings, r: EvaluationRequest)
    ensures AnyUnusable(r) ==> Decide(b, r) == Raised(Malformed)
    ensures !AnyUnusable(r) ==> exists q :: IsCedarRequest(b, r, q) && Decides(b.single(q), Decide(b, r))
  {
    hide AnyUnusable, IsCedarRequest;
    ToCedarExact(b, r);
  }

  predicate AreCedarRequests(b: Bindings, rs: seq<EvaluationRequest>, qs: seq<CedarRequest>) {
    |qs| == |rs| && forall i :: 0 <= i < |rs| ==> IsCedarRequest(b, rs[i], qs[i])
  }

  predicate AllDecide(ds: seq<CedarDecision>, answers: seq<EvaluationResponse>) {
    |answers| == |ds| && forall i :: 0 <= i < |ds| ==> answers[i] == EvaluationResponse(ds[i].Allow?, None)
  }

  /** A batch with an entry that lacks a member, by itself and by default, is malformed as a whole. */
  lemma IncompleteBatchFails(b: Bindings, batch: BatchRequest)
    requires exists i :: 0 <= i < |batch.evaluations| && MergeBatchItem(batch.evaluations[i], batch).Err?
    ensures DecideBatch(b, batch) == Raised(Malformed)
  {
    assert BatchInputs(batch).Err?;
  }

  /** The answer to a batch, completely: one unusable identifier or one raise fails it whole. */
  lemma DecideBatchExact(b: Bindings, rs: seq<EvaluationRequest>)
    ensures (exists i :: 0 <= i < |rs| && AnyUnusable(rs[i])) ==> DecideBatch(b, ToBatch(rs)) == Raised(Malformed)
    ensures (forall i :: 0 <= i < |rs| ==> !AnyUnusable(rs[i])) ==>
      exists qs :: AreCedarRequests(b, rs, qs) && var o := DecideBatch(b, ToBatch(rs));
        if b.batch(qs).None? then o == Raised(Malformed) else o.Done? && AllDecide(b.batch(qs).value, o.value)
  {
    hide AnyUnusable, IsCedarRequest, ToCedar;
    BatchRoundTrip(rs);
    forall i | 0 <= i < |rs|
      ensures ToCedar(b, rs[i]).Ok? <==> !AnyUnusable(rs[i])
      ensures ToCedar(b, rs[i]).Ok? ==> IsCedarRequest(b, rs[i], ToCedar(b, rs[i]).value)
    {
      ToCedarExact(b, rs[i]);
    }
    var all := ToCedarAll(b, rs);
    if all.Ok? {
      assert forall i :: 0 <= i < |rs| ==> ToCedar(b, rs[i]) == Ok(all.value[i]);
      assert AreCedarRequests(b, rs, all.value);
    }
  }
}
