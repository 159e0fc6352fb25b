/**
 The batch endpoint of the example gateways (`examples/cedar/gateway/gateway.py`,
 `examples/opa/gateway/gateway.py`).
 */
module Gateway {
  import opened Wrappers
  import opened Json
  import opened Models
  import opened Engine
  import opened Backends

  type Body = map<string, Value>

  const MAX_BATCH := 100

  /** `dict.get`: an absent key reads as null. */
  function Get(body: Body, key: string): Value {
    if key in body then body[key] else VNull
  }

  /** Keyed on membership: a present member overrides even when it is empty or null. */
  function MergeItem(item: Body, defaults: Body): Body {
    map key | key in {"subject", "action", "resource", "context"} :: if key in item then item[key] else Get(defaults, key)
  }

  /** The evaluator reads four members of a body; it allows, denies or raises. */
  datatype Evaluation = Returns(decision: bool) | Raises

  type Evaluator = (Value, Value, Value, Value) -> Evaluation

  function Decide(evaluator: Evaluator, body: Body): Evaluation {
    evaluator(Get(body, "subject"), Get(body, "action"), Get(body, "resource"), Get(body, "context"))
  }

  datatype HttpReply = Refused(status: int) | Decisions(results: seq<bool>)

  /** What an entry says under a key, empty and null included; what it does not say, the defaults say. */
  function Effective(item: Body, defaults: Body, key: string): Value {
    if key in item then item[key] else if key in defaults then defaults[key] else VNull
  }

  /** An entry that is not an object is denied outright: it never inherits the defaults. */
  predicate EntryAllowed(evaluator: Evaluator, entry: Value, defaults: Body) {
    entry.VObj? &&
    evaluator(Effective(entry.m, defaults, "subject"), Effective(entry.m, defaults, "action"),
              Effective(entry.m, defaults, "resource"), Effective(entry.m, defaults, "context")) == Returns(true)
  }

  lemma MergedIsEffective(evaluator: Evaluator, item: Body, defaults: Body)
    ensures Decide(evaluator, MergeItem(item, defaults))
         == evaluator(Effective(item, defaults, "subject"), Effective(item, defaults, "action"),
                      Effective(item, defaults, "resource"), Effective(item, defaults, "context"))
  {
  }

  /** `None` is a body that cannot be read. */
  method EvaluateBatch(evaluator: Evaluator, body: Option<Value>) returns (reply: HttpReply)
    ensures reply.Decisions? <==> body.Some? && body.value.VObj? && Get(body.value.m, "evaluations").VArr?
                                  && |Get(body.value.m, "evaluations").items| <= 100
    ensures reply.Refused? ==> reply.status == 413 || reply.status == 400
    ensures reply == Refused(413) <==> body.Some? && body.value.VObj? && Get(body.value.m, "evaluations").VArr?
                                       && |Get(body.value.m, "evaluations").items| > 100
    ensures reply.Decisions? ==> reply.results == Answers(evaluator, Get(body.value.m, "evaluations").items, body.value.m)
  {
    if body.None? || !body.value.VObj? {
      return Refused(400);
    }
    var defaults := body.value.m;
    var entries := Get(defaults, "evaluations");
    if !entries.VArr? {
      return Refused(400);
    }
    var items := entries.items;
    if |items| > MAX_BATCH {
      return Refused(413);
    }
    var results: seq<bool> := [];
    for n := 0 to |items|
      invariant |results| == n
      invariant forall i :: 0 <= i < n ==> results[i] == EntryAllowed(evaluator, items[i], defaults)
    {
      if !items[n].VObj? {
        results := results + [false];
        continue;
      }
      MergedIsEffective(evaluator, items[n].m, defaults);
      var decision := false;
      match Decide(evaluator, MergeItem(items[n].m, defaults)) {
        case Returns(b) => decision := b;
        case Raises => decision := false;
      }
      results := results + [decision];
    }
    assert results == Answers(evaluator, items, defaults);
    reply := Decisions(results);
  }

  /** One decision per entry, in order, true only for an object entry whose merged tuple was allowed. */
  function Answers(evaluator: Evaluator, items: seq<Value>, defaults: Body): (results: seq<bool>)
    ensures |results| == |items| && forall i :: 0 <= i < |items| ==> results[i] == EntryAllowed(evaluator, items[i], defaults)
  {
    seq(|items|, i requires 0 <= i < |items| => EntryAllowed(evaluator, items[i], defaults))
  }

  // ----- The wire form of a batch -----

  function With(body: Body, key: string, d: Option<Json>): Body {
    if d.None? then body else body[key := Load(d.value)]
  }

  function MapSome<A, B>(o: Option<A>, f: A -> B): Option<B> {
    match o
    case None => None
    case Some(a) => Some(f(a))
  }

  /** The four members of an entry or of a batch, absent ones dropped. */
  function DumpMembers(subject: Option<Subject>, action: Option<Action>, resource: Option<Resource>,
                       context: Option<Dict>): Body {
    var s := With(map[], "subject", MapSome(subject, DumpSubject));
    var sa := With(s, "action", MapSome(action, DumpAction));
    var sar := With(sa, "resource", MapSome(resource, DumpResource));
    With(sar, "context", MapSome(context, (c: Dict) => Obj(c)))
  }

  function DumpItem(item: EvaluationItem): Body {
    DumpMembers(item.subject, item.action, item.resource, item.context)
  }

  function DumpBatch(batch: BatchRequest): Body {
    DumpMembers(batch.subject, batch.action, batch.resource, batch.context)
      ["evaluations" := VArr(DumpItems(batch.evaluations))]
      ["options" := VObj(map["evaluations_semantic" := VStr("execute_all")])]
  }

  function DumpItems(items: seq<EvaluationItem>): (r: seq<Value>)
    ensures |r| == |items| && forall i :: 0 <= i < |items| ==> r[i] == VObj(DumpItem(items[i]))
  {
    seq(|items|, i requires 0 <= i < |items| => VObj(DumpItem(items[i])))
  }

  function RequestBody(r: EvaluationRequest): Body {
    DumpMembers(Some(r.subject), Some(r.action), Some(r.resource), r.context)
  }

  lemma LoadAppend(ms: seq<Member>, m: Member)
    ensures LoadMembers(ms + [m]) == LoadMembers(ms)[m.key := Load(m.val)]
  {
    assert (ms + [m])[..|ms|] == ms;
  }

  lemma LoadThree(a: Member, b: Member, c: Member)
    ensures LoadMembers([a, b, c]) == map[a.key := Load(a.val)][b.key := Load(b.val)][c.key := Load(c.val)]
  {
    hide Load;
    assert [a, b, c] == [] + [a] + [b] + [c];
    LoadAppend([], a);
    LoadAppend([] + [a], b);
    LoadAppend([] + [a] + [b], c);
  }

  /** The wire form of a request is its dump. */
  lemma RequestBodyIsDump(r: EvaluationRequest)
    ensures Load(DumpRequest(r)) == VObj(RequestBody(r))
  {
    hide LoadMembers, DumpSubject, DumpAction, DumpResource;
    var ms := [Member("subject", DumpSubject(r.subject)), Member("action", DumpAction(r.action)),
               Member("resource", DumpResource(r.resource))];
    LoadThree(ms[0], ms[1], ms[2]);
    if r.context.Some? {
      LoadAppend(ms, Member("context", Obj(r.context.value)));
    } else {
      assert ms + [] == ms;
    }
  }

  /**
   Reading a dumped body gives the member's dump, or null when it is absent; nothing else reads as one of the
   four.
   */
  lemma DumpMembersRead(s: Option<Subject>, a: Option<Action>, r: Option<Resource>, c: Option<Dict>)
    ensures var d := DumpMembers(s, a, r, c);
      && ("subject" in d <==> s.Some?) && ("action" in d <==> a.Some?)
      && ("resource" in d <==> r.Some?) && ("context" in d <==> c.Some?)
      && Get(d, "subject") == (if s.Some? then Load(DumpSubject(s.value)) else VNull)
      && Get(d, "action") == (if a.Some? then Load(DumpAction(a.value)) else VNull)
      && Get(d, "resource") == (if r.Some? then Load(DumpResource(r.value)) else VNull)
      && Get(d, "context") == (if c.Some? then Load(Obj(c.value)) else VNull)
      && forall key :: key in d ==> key in {"subject", "action", "resource", "context"}
  {
    hide Load, DumpSubject, DumpAction, DumpResource;
  }

  lemma DumpBatchRead(batch: BatchRequest, key: string)
    requires key in {"subject", "action", "resource", "context"}
    ensures Get(DumpBatch(batch), key) == Get(DumpMembers(batch.subject, batch.action, batch.resource, batch.context), key)
  {
    hide DumpMembers, DumpItem;
  }

  /** A merged body reads member by member as a request's dump, or lacks a member the request needs. */
  ghost predicate ReadsAs(merged: Body, r: Result<EvaluationRequest, Fault>) {
    match r
    case Ok(request) => forall key :: Get(merged, key) == Get(RequestBody(request), key)
    case Err(fault) =>
      fault == Unexpected &&
      (Get(merged, "subject") == VNull || Get(merged, "action") == VNull || Get(merged, "resource") == VNull)
  }

  /**
   The two merges coincide: on dumped payloads the membership-based merge reads, member by member, as the dump of
   the library's merge; and what the library refuses to build is what reads as null here.
   */
  lemma MergesCoincide(item: EvaluationItem, batch: BatchRequest)
    ensures ReadsAs(MergeItem(DumpItem(item), DumpBatch(batch)), MergeBatchItem(item, batch))
  {
    hide DumpMembers, DumpBatch, Load, DumpSubject, DumpAction, DumpResource;
    DumpMembersRead(item.subject, item.action, item.resource, item.context);
    DumpMembersRead(batch.subject, batch.action, batch.resource, batch.context);
    DumpBatchRead(batch, "subject");
    DumpBatchRead(batch, "action");
    DumpBatchRead(batch, "resource");
    DumpBatchRead(batch, "context");
    match MergeBatchItem(item, batch)
    case Ok(r) => DumpMembersRead(Some(r.subject), Some(r.action), Some(r.resource), r.context);
    case Err(_) =>
  }

  /** Entry `i` of a shaped batch, merged by the gateway, is decided as request `i` alone. */
  lemma EntryIsRequest(evaluator: Evaluator, rs: seq<EvaluationRequest>, i: nat)
    requires i < |rs|
    ensures Decide(evaluator, MergeItem(DumpItem(ToItem(rs[i])), DumpBatch(ToBatch(rs))))
         == Decide(evaluator, RequestBody(rs[i]))
  {
    hide MergeItem, DumpItem, DumpBatch, RequestBody, Get;
    var batch := ToBatch(rs);
    var merged := MergeItem(DumpItem(batch.evaluations[i]), DumpBatch(batch));
    MergesCoincide(batch.evaluations[i], batch);
    assert MergeBatchItem(batch.evaluations[i], batch) == Ok(rs[i]);
    assert Get(merged, "subject") == Get(RequestBody(rs[i]), "subject");
    assert Get(merged, "action") == Get(RequestBody(rs[i]), "action");
    assert Get(merged, "resource") == Get(RequestBody(rs[i]), "resource");
    assert Get(merged, "context") == Get(RequestBody(rs[i]), "context");
  }

  /** A batch asks for every decision, and its body has nothing but the four defaults, the entries and that option. */
  lemma BatchEntries(batch: BatchRequest)
    ensures Get(DumpBatch(batch), "evaluations") == VArr(DumpItems(batch.evaluations))
    ensures Get(DumpBatch(batch), "options") == VObj(map["evaluations_semantic" := VStr("execute_all")])
    ensures forall key :: key in DumpBatch(batch) ==>
              key in {"subject", "action", "resource", "context", "evaluations", "options"}
  {
    hide DumpMembers, DumpItems;
    DumpMembersRead(batch.subject, batch.action, batch.resource, batch.context);
  }

  /**
   End to end: a batch of at most the gateway's limit gets one decision per request, and each is what the
   gateway's single endpoint decides about that request, with a deny where that would be an error.
   */
  lemma GatewayBatchIsPointwise(evaluator: Evaluator, rs: seq<EvaluationRequest>, reply: HttpReply)
    requires reply == Decisions(Answers(evaluator, Get(DumpBatch(ToBatch(rs)), "evaluations").items, DumpBatch(ToBatch(rs))))
    ensures |reply.results| == |rs|
    ensures forall i :: 0 <= i < |rs| ==>
              (reply.results[i] <==> Decide(evaluator, RequestBody(rs[i])) == Returns(true))
  {
    hide Decide, MergeItem, Effective, DumpItem, DumpBatch, RequestBody;
    var batch := ToBatch(rs);
    BatchEntries(batch);
    forall i | 0 <= i < |rs| ensures reply.results[i] <==> Decide(evaluator, RequestBody(rs[i])) == Returns(true) {
      assert batch.evaluations[i] == ToItem(rs[i]);
      EntryIsRequest(evaluator, rs, i);
      MergedIsEffective(evaluator, DumpItem(ToItem(rs[i])), DumpBatch(batch));
    }
  }
}
