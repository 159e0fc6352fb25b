/** The AuthZEN client of `src/apparitor/client.py`: one request over the transport, then strict response models. */
module AuthZenClient {
  import opened Wrappers
  import opened Json
  import opened Models
  import opened Decision
  import Cache
  import opened Engine
  import opened EngineTheorems
  import Client

  /** A decision must be a boolean, and a context an object or null; unknown members are ignored. */
  function ParseResponse(v: Value): Result<EvaluationResponse, Fault> {
    if !v.VObj? || "decision" !in v.m || !v.m["decision"].VBool? then Err(Malformed)
    else if "context" !in v.m || v.m["context"].VNull? then Ok(EvaluationResponse(v.m["decision"].b, None))
    else if v.m["context"].VObj? then Ok(EvaluationResponse(v.m["decision"].b, Some(v.m["context"].m)))
    else Err(Malformed)
  }

  function ParseAll(vs: seq<Value>): (r: Result<seq<EvaluationResponse>, Fault>)
    ensures r.Ok? ==> |r.value| == |vs| && forall i :: 0 <= i < |vs| ==> ParseResponse(vs[i]) == Ok(r.value[i])
  {
    if |vs| == 0 then Ok([]) else
    var front :- ParseAll(vs[..|vs| - 1]);
    var last :- ParseResponse(vs[|vs| - 1]);
    Ok(front + [last])
  }

  /** A missing list of evaluations is an empty one. */
  function ParseBatch(v: Value): Result<seq<EvaluationResponse>, Fault> {
    if !v.VObj? then Err(Malformed)
    else if "evaluations" !in v.m then Ok([])
    else if v.m["evaluations"].VArr? then ParseAll(v.m["evaluations"].items)
    else Err(Malformed)
  }

  function Evaluate(cfg: Client.Config, s: Client.Script): Await<EvaluationResponse> {
    match Client.Attempts(cfg, s, 0).result
    case Cancelled => Cancelled
    case Raised(f) => Raised(f)
    case Done(v) => (match ParseResponse(v) case Ok(a) => Done(a) case Err(f) => Raised(f))
  }

  function EvaluateBatch(cfg: Client.Config, s: Client.Script): Await<seq<EvaluationResponse>> {
    match Client.Attempts(cfg, s, 0).result
    case Cancelled => Cancelled
    case Raised(f) => Raised(f)
    case Done(v) => (match ParseBatch(v) case Ok(answers) => Done(answers) case Err(f) => Raised(f))
  }

  // ----- What a response document says -----

  /** The context of an answer: none when the member is absent or null, otherwise the object that it loads to. */
  ghost predicate ContextIs(d: Json, context: Option<map<string, Value>>) {
    match context
    case None => Lacks(d, "context") || Gives(d, "context", Null)
    case Some(m) => exists ms :: Gives(d, "context", Obj(ms)) && LoadMembers(ms) == m
  }

  /** The document is an answer: a literal decision, given once, and a context. */
  ghost predicate Answers(d: Json, a: EvaluationResponse) {
    Says(d, "decision", a.decision) && ContextIs(d, a.context)
  }

  lemma ContextExact(d: Json, context: Option<map<string, Value>>)
    requires NoRepeats(d) && d.Obj?
    ensures var m := LoadMembers(d.members);
      ContextIs(d, context) <==> match context
        case None => "context" !in m || m["context"] == VNull
        case Some(c) => "context" in m && m["context"] == VObj(c)
  {
    hide NoRepeats, LoadMembers;
    MemberExact(d, "context");
    if v :| Gives(d, "context", v) {
      LoadShape(v);
    }
  }

  /** Only null loads to null, and only an object to an object. */
  lemma LoadShape(d: Json)
    ensures Load(d) == VNull <==> d == Null
    ensures Load(d).VObj? <==> d.Obj?
    ensures d.Obj? ==> Load(d) == VObj(LoadMembers(d.members))
  {
  }

  lemma ParseResponseExact(d: Json, a: EvaluationResponse)
    requires NoRepeats(d)
    ensures ParseResponse(Load(d)) == Ok(a) <==> Answers(d, a)
    ensures ParseResponse(Load(d)).Err? ==> ParseResponse(Load(d)).error == Malformed
  {
    hide NoRepeats, LoadMembers;
    LoadShape(d);
    SaysExact(d, "decision", a.decision);
    if d.Obj? {
      ContextExact(d, a.context);
    }
  }

  /** The document lists answers, in order; one without the list is an empty list. */
  ghost predicate Lists(d: Json, answers: seq<EvaluationResponse>) {
    || (Lacks(d, "evaluations") && answers == [])
    || exists items :: Gives(d, "evaluations", Arr(items)) && |items| == |answers|
                       && forall i :: 0 <= i < |items| ==> Answers(items[i], answers[i])
  }

  lemma {:induction false} ParseAllExact(items: seq<Json>, answers: seq<EvaluationResponse>)
    requires forall i :: 0 <= i < |items| ==> NoRepeats(items[i])
    ensures ParseAll(LoadItems(items)) == Ok(answers)
            <==> |items| == |answers| && forall i :: 0 <= i < |items| ==> Answers(items[i], answers[i])
    ensures ParseAll(LoadItems(items)).Err? ==> ParseAll(LoadItems(items)).error == Malformed
  {
    hide NoRepeats, ParseResponse, Answers, Load;
    if |items| > 0 {
      var n := |items| - 1;
      assert LoadItems(items)[..n] == LoadItems(items[..n]);
      if |answers| > 0 {
        ParseAllExact(items[..n], answers[..|answers| - 1]);
        ParseResponseExact(items[n], answers[|answers| - 1]);
        assert answers == answers[..|answers| - 1] + [answers[|answers| - 1]];
      } else {
        ParseAllExact(items[..n], []);
        ParseResponseExact(items[n], EvaluationResponse(false, None));
      }
    }
  }

  lemma ParseBatchExact(d: Json, answers: seq<EvaluationResponse>)
    requires NoRepeats(d)
    ensures ParseBatch(Load(d)) == Ok(answers) <==> Lists(d, answers)
    ensures ParseBatch(Load(d)).Err? ==> ParseBatch(Load(d)).error == Malformed
  {
    hide ParseAll, Answers, LoadMembers;
    LoadShape(d);
    if d.Obj? {
      MemberExact(d, "evaluations");
      if v :| Gives(d, "evaluations", v) {
        GivenNoRepeats(d, "evaluations", v);
        if v.Arr? {
          assert Load(v) == VArr(LoadItems(v.items));
          ParseAllExact(v.items, answers);
        }
      }
    }
  }

  lemma GivenNoRepeats(d: Json, key: string, v: Json)
    requires NoRepeats(d) && Gives(d, key, v)
    ensures NoRepeats(v)
    ensures forall other :: Gives(d, key, other) ==> other == v
  {
  }

  /**
   The client's answer to one request, completely: what the final body says; malformed when it says nothing usable;
   otherwise the failure of the request.
   */
  lemma EvaluateExact(cfg: Client.Config, s: Client.Script)
    ensures forall a :: Evaluate(cfg, s) == Done(a) <==> exists d :: Client.EndsOn(cfg, s, d) && Answers(d, a)
    ensures forall d :: Client.EndsOn(cfg, s, d) && (forall a :: !Answers(d, a)) ==> Evaluate(cfg, s) == Raised(Malformed)
    ensures (forall d :: !Client.EndsOn(cfg, s, d)) ==>
      match Client.Attempts(cfg, s, 0).result
      case Done(_) => false
      case Raised(f) => Evaluate(cfg, s) == Raised(f)
      case Cancelled => Evaluate(cfg, s) == Cancelled
  {
    hide Client.Attempts, Client.FinalBody, ParseResponse, Answers, NoRepeats, Load;
    Client.EndsOnExact(cfg, s);
    if d :| Client.EndsOn(cfg, s, d) {
      forall a ensures ParseResponse(Load(d)) == Ok(a) <==> Answers(d, a) {
        ParseResponseExact(d, a);
      }
      ParseResponseExact(d, EvaluationResponse(false, None));
    }
  }

  /** The same for a batch. */
  lemma EvaluateBatchExact(cfg: Client.Config, s: Client.Script)
    ensures forall answers :: EvaluateBatch(cfg, s) == Done(answers) <==> exists d :: Client.EndsOn(cfg, s, d) && Lists(d, answers)
    ensures forall d :: Client.EndsOn(cfg, s, d) && (forall answers :: !Lists(d, answers))
              ==> EvaluateBatch(cfg, s) == Raised(Malformed)
    ensures (forall d :: !Client.EndsOn(cfg, s, d)) ==>
      match Client.Attempts(cfg, s, 0).result
      case Done(_) => false
      case Raised(f) => EvaluateBatch(cfg, s) == Raised(f)
      case Cancelled => EvaluateBatch(cfg, s) == Cancelled
  {
    hide Client.Attempts, Client.FinalBody, ParseBatch, Lists, NoRepeats, Load;
    Client.EndsOnExact(cfg, s);
    if d :| Client.EndsOn(cfg, s, d) {
      forall answers ensures ParseBatch(Load(d)) == Ok(answers) <==> Lists(d, answers) {
        ParseBatchExact(d, answers);
      }
      ParseBatchExact(d, []);
    }
  }

  // ----- From the final body to the verdict -----

  /** The final body literally allows, and the review predicate, shown its context, has no wish. */
  ghost predicate BodyGrants(cfg: Client.Config, s: Client.Script, review: Review) {
    exists d, a :: Client.EndsOn(cfg, s, d) && Answers(d, a) && GrantedAnswer(review, a)
  }

  /**
   Literal true end to end. Without the cache, one request is allowed through the HTTP backend exactly when its final
   2xx body repeats no key at any depth, literally says true, and carries no context that the review predicate minds.
   */
  lemma AllowNeedsLiteralTrue(cfg: EngineConfig, c: Cache.Entries, r: EvaluationRequest, w: World,
                              transport: Client.Config, s: Client.Script)
    requires Cache.Ordered(c) && !cfg.cacheEnabled && w.pdp.single(r) == Evaluate(transport, s)
    ensures var o := EvaluateGuarded(cfg, c, [r], w).0;
      (o.Done? && o.value.verdict == Allow) <==> BodyGrants(transport, s, w.review)
  {
    hide EvaluateGuarded, Evaluate, Answers, Client.EndsOn, GrantedAnswer;
    AllowMeansGranted(cfg, c, [r], w);
    EvaluateExact(transport, s);
    var reply := Evaluate(transport, s);
    if d, a :| Client.EndsOn(transport, s, d) && Answers(d, a) && GrantedAnswer(w.review, a) {
      assert reply == Done(a);
    }
    if reply.Done? {
      assert Reply(w.pdp, [r]) == Done([reply.value]) && [reply.value][0] == reply.value;
      assert reply == Done(reply.value);
      assert Granted(w.review, [r], Reply(w.pdp, [r])) <==> GrantedAnswer(w.review, reply.value);
    }
  }

  /** The final body lists `n` answers, each a grant. */
  ghost predicate BodyGrantsAll(cfg: Client.Config, s: Client.Script, review: Review, n: nat) {
    exists d, answers :: Client.EndsOn(cfg, s, d) && Lists(d, answers) && |answers| == n
                         && forall i :: 0 <= i < n ==> GrantedAnswer(review, answers[i])
  }

  /** The same for several requests in one batch. */
  lemma BatchAllowNeedsLiteralTrue(cfg: EngineConfig, c: Cache.Entries, rs: seq<EvaluationRequest>, w: World,
                                   transport: Client.Config, s: Client.Script)
    requires Cache.Ordered(c) && |rs| > 1 && w.pdp.batch(ToBatch(rs)) == EvaluateBatch(transport, s)
    ensures var o := EvaluateGuarded(cfg, c, rs, w).0;
      (o.Done? && o.value.verdict == Allow) <==> BodyGrantsAll(transport, s, w.review, |rs|)
  {
    hide EvaluateGuarded, EvaluateBatch, Lists, Client.EndsOn, GrantedAnswer;
    AllowMeansGranted(cfg, c, rs, w);
    EvaluateBatchExact(transport, s);
    var reply := EvaluateBatch(transport, s);
    if d, answers :| Client.EndsOn(transport, s, d) && Lists(d, answers) && |answers| == |rs|
                     && forall i :: 0 <= i < |rs| ==> GrantedAnswer(w.review, answers[i]) {
      assert reply == Done(answers);
    }
    if reply.Done? {
      assert reply == Done(reply.value);
    }
  }
}
