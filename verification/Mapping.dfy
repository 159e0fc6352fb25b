/** The mappers of `src/apparitor/mapping.py`, given the request-scoped subject and enrichment context. */
module Mapping {
  import opened Wrappers
  import opened Json
  import opened Models
  import opened Decision
  import Cache
  import opened Engine
  import opened AuthorizationEngine
  import opened EngineTheorems
  import opened Keys

  /** `size` measures a dictionary in bytes of its JSON text. */
  datatype MapperConfig =
    MapperConfig(actionName: string, resourceType: string, subjectType: string, agentId: Option<string>,
                 forwardArguments: bool, redactArguments: bool, maxArgumentBytes: nat, size: Dict -> nat)

  const REDACTED := "***redacted***"

  function Redact(arguments: Dict): (r: Dict)
    ensures |r| == |arguments| && forall i :: 0 <= i < |r| ==> r[i] == Member(arguments[i].key, Str(REDACTED))
  {
    seq(|arguments|, i requires 0 <= i < |arguments| => Member(arguments[i].key, Str(REDACTED)))
  }

  function Arguments(cfg: MapperConfig, call: Call): Dict {
    if !cfg.forwardArguments then [] else
    var args := if cfg.redactArguments then Redact(call.arguments) else call.arguments;
    if cfg.size(args) > cfg.maxArgumentBytes then [Member("_truncated", Bool(true))] else args
  }

  /**
   What a call's resource carries: nothing when arguments are not forwarded; otherwise its arguments, each value
   replaced when they are redacted, or a mark in their place when what would be forwarded is too large.
   */
  predicate ForwardedAs(cfg: MapperConfig, call: Call, args: Dict) {
    && |args| == |call.arguments|
    && forall i :: 0 <= i < |args| ==>
         args[i] == if cfg.redactArguments then Member(call.arguments[i].key, Str("***redacted***")) else call.arguments[i]
  }

  ghost predicate CarriesArguments(cfg: MapperConfig, call: Call, properties: Dict) {
    && |properties| == 1 && properties[0].key == "arguments" && properties[0].val.Obj?
    && var carried := properties[0].val.members;
       if !cfg.forwardArguments then carried == []
       else if ForwardedAs(cfg, call, carried) && cfg.size(carried) <= cfg.maxArgumentBytes then true
       else carried == [Member("_truncated", Bool(true))]
            && forall args :: ForwardedAs(cfg, call, args) ==> cfg.size(args) > cfg.maxArgumentBytes
  }

  lemma ArgumentsExact(cfg: MapperConfig, call: Call)
    ensures forall properties ::
      CarriesArguments(cfg, call, properties) <==> properties == [Member("arguments", Obj(Arguments(cfg, call)))]
  {
    var carried := Arguments(cfg, call);
    ghost var full := if cfg.redactArguments then Redact(call.arguments) else call.arguments;
    assert ForwardedAs(cfg, call, full);
    forall args | ForwardedAs(cfg, call, args) ensures args == full {
    }
    forall properties: Dict | CarriesArguments(cfg, call, properties)
      ensures properties == [Member("arguments", Obj(carried))]
    {
      assert properties[0] == Member("arguments", Obj(properties[0].val.members));
    }
  }

  function ToolResource(cfg: MapperConfig, typ: string, id: string, call: Call): Resource {
    Resource(typ, id, [Member("arguments", Obj(Arguments(cfg, call)))])
  }

  /** The default mapper; `scoped` is the request-scoped subject, with the configured agent as fallback. */
  function DefaultMap(cfg: MapperConfig, scoped: Option<Subject>, context: Option<Dict>, call: Call): Mapped {
    var subject := if scoped.Some? then scoped
                   else if cfg.agentId.Some? then Some(Subject(cfg.subjectType, cfg.agentId.value, [])) else None;
    if subject.None? then MapFault(ConfigError)
    else One(EvaluationRequest(subject.value, Action(cfg.actionName, []),
                               ToolResource(cfg, cfg.resourceType, NormalizeToolName(call.name), call), context))
  }

  /**
   The default mapper's request: about the request-scoped subject, or the configured agent when there is none; for the
   tool by its normalised name, with its arguments as they may be forwarded. It faults only when nobody is asking.
   */
  lemma DefaultMapExact(cfg: MapperConfig, scoped: Option<Subject>, context: Option<Dict>, call: Call)
    ensures var m := DefaultMap(cfg, scoped, context, call);
      && (m == MapFault(ConfigError) <==> scoped.None? && cfg.agentId.None?)
      && (m != MapFault(ConfigError) ==>
            && m.One?
            && m.request.subject
               == (if scoped.Some? then scoped.value else Subject(cfg.subjectType, cfg.agentId.value, []))
            && m.request.action == Action(cfg.actionName, []) && m.request.context == context
            && m.request.resource.typ == cfg.resourceType && m.request.resource.id == NormalizeToolName(call.name)
            && CarriesArguments(cfg, call, m.request.resource.properties))
  {
    ArgumentsExact(cfg, call);
  }

  /** The server-scoped mapper: the resource id is the composed MCP key. */
  function McpMap(cfg: MapperConfig, scoped: Option<Subject>, server: Option<string>, context: Option<Dict>,
                  call: Call): Mapped {
    match DefaultMap(cfg, scoped, context, call)
    case One(r) =>
      if server.None? then MapFault(ConfigError) else
      var id := McpToolKey(server.value, call.name);
      if id.Err? then MapFault(id.error) else One(r.(resource := ToolResource(cfg, "mcp_tool", id.value, call)))
    case m => m
  }

  function UserLeg(cfg: MapperConfig, user: Subject, context: Option<Dict>, call: Call): EvaluationRequest {
    EvaluationRequest(user, Action(cfg.actionName, []),
                      ToolResource(cfg, cfg.resourceType, NormalizeToolName(call.name), call), context)
  }

  /**
   The dual-principal mapper: the user's leg and the agent's leg, or a fault when they are missing or one and the
   same.
   */
  function DualMap(cfg: MapperConfig, agent: Subject, user: Option<Subject>, context: Option<Dict>,
                   call: Call): Mapped {
    if user.None? || SamePrincipal(user.value, agent) then MapFault(ConfigError) else
    var r := UserLeg(cfg, user.value, context, call);
    Many([r, r.(subject := agent)])
  }

  /** Two calls map to one MCP resource id exactly when their stripped servers and their normalised tools agree. */
  lemma McpCallsShareResource(cfg: MapperConfig, scoped: Option<Subject>, server: string, server': string,
                              context: Option<Dict>, a: Call, b: Call)
    requires McpMap(cfg, scoped, Some(server), context, a).One? && McpMap(cfg, scoped, Some(server'), context, b).One?
    ensures McpMap(cfg, scoped, Some(server), context, a).request.resource.id
            == McpMap(cfg, scoped, Some(server'), context, b).request.resource.id
            <==> Strip(server) == Strip(server') && NormalizeToolName(a.name) == NormalizeToolName(b.name)
  {
    McpToolKeyExact(server, a.name, server', b.name);
  }

  /**
   Redaction deliberately forgets values: calls with one normalised name and one list of argument names map to
   one request.
   */
  lemma RedactionForgetsValues(cfg: MapperConfig, scoped: Option<Subject>, context: Option<Dict>, a: Call, b: Call)
    requires cfg.redactArguments && NormalizeToolName(a.name) == NormalizeToolName(b.name)
    requires |a.arguments| == |b.arguments|
    requires forall i :: 0 <= i < |a.arguments| ==> a.arguments[i].key == b.arguments[i].key
    ensures DefaultMap(cfg, scoped, context, a) == DefaultMap(cfg, scoped, context, b)
  {
    assert Redact(a.arguments) == Redact(b.arguments);
  }

  /** Without redaction and truncation the request keeps every argument: equal requests come from equal arguments. */
  lemma ForwardedArgumentsAreKept(cfg: MapperConfig, scoped: Option<Subject>, context: Option<Dict>, a: Call, b: Call)
    requires cfg.forwardArguments && !cfg.redactArguments
    requires cfg.size(a.arguments) <= cfg.maxArgumentBytes && cfg.size(b.arguments) <= cfg.maxArgumentBytes
    requires DefaultMap(cfg, scoped, context, a).One? && DefaultMap(cfg, scoped, context, b).One?
    ensures SameRequest(DefaultMap(cfg, scoped, context, a).request, DefaultMap(cfg, scoped, context, b).request)
            <==> NormalizeToolName(a.name) == NormalizeToolName(b.name) && SameDict(a.arguments, b.arguments)
  {
    var xs, ys := [Member("arguments", Obj(a.arguments))], [Member("arguments", Obj(b.arguments))];
    LoadEqualPointwise(xs, ys);
    assert xs[0].val == Obj(a.arguments) && ys[0].val == Obj(b.arguments);
  }

  /** Request `k` of a dual-principal message: about the user for call `k / 2`, or about the agent when `k` is odd. */
  ghost predicate IsDualLeg(cfg: MapperConfig, agent: Subject, user: Subject, context: Option<Dict>, calls: seq<Call>, k: nat,
                      r: EvaluationRequest)
    requires k < 2 * |calls|
  {
    && r.subject == (if k % 2 == 0 then user else agent)
    && r.action == Action(cfg.actionName, []) && r.context == context
    && r.resource.typ == cfg.resourceType && r.resource.id == NormalizeToolName(calls[k / 2].name)
    && CarriesArguments(cfg, calls[k / 2], r.resource.properties)
  }

  ghost predicate IsDualBatch(cfg: MapperConfig, agent: Subject, user: Subject, context: Option<Dict>, calls: seq<Call>,
                        rs: seq<EvaluationRequest>) {
    |rs| == 2 * |calls| && forall k :: 0 <= k < |rs| ==> IsDualLeg(cfg, agent, user, context, calls, k, rs[k])
  }

  function DualLeg(cfg: MapperConfig, agent: Subject, user: Subject, context: Option<Dict>, calls: seq<Call>,
                   k: nat): EvaluationRequest
    requires k < 2 * |calls|
  {
    var leg := UserLeg(cfg, user, context, calls[k / 2]);
    if k % 2 == 0 then leg else leg.(subject := agent)
  }

  lemma DualLegExact(cfg: MapperConfig, agent: Subject, user: Subject, context: Option<Dict>, calls: seq<Call>, k: nat)
    requires k < 2 * |calls|
    ensures forall r :: IsDualLeg(cfg, agent, user, context, calls, k, r) <==> r == DualLeg(cfg, agent, user, context, calls, k)
  {
    hide CarriesArguments, Arguments, NormalizeToolName;
    ArgumentsExact(cfg, calls[k / 2]);
  }

  lemma DualBatchExact(cfg: MapperConfig, agent: Subject, user: Subject, context: Option<Dict>, calls: seq<Call>,
                       rs: seq<EvaluationRequest>)
    ensures IsDualBatch(cfg, agent, user, context, calls, rs) <==> rs == DualBatch(cfg, agent, user, context, calls)
  {
    hide IsDualLeg, DualLeg;
    var batch := DualBatch(cfg, agent, user, context, calls);
    forall k: nat, r | k < 2 * |calls|
      ensures IsDualLeg(cfg, agent, user, context, calls, k, r) <==> r == DualLeg(cfg, agent, user, context, calls, k)
    {
      DualLegExact(cfg, agent, user, context, calls, k);
    }
    if IsDualBatch(cfg, agent, user, context, calls, rs) {
      assert forall k :: 0 <= k < |rs| ==> rs[k] == batch[k];
    }
  }

  function DualBatch(cfg: MapperConfig, agent: Subject, user: Subject, context: Option<Dict>,
                     calls: seq<Call>): (rs: seq<EvaluationRequest>)
    ensures |rs| == 2 * |calls| && forall k :: 0 <= k < |rs| ==> rs[k] == DualLeg(cfg, agent, user, context, calls, k)
  {
    seq(2 * |calls|, k requires 0 <= k < 2 * |calls| => DualLeg(cfg, agent, user, context, calls, k))
  }

  /** What a dual-principal message sends: two legs per call, the user's before the agent's. */
  lemma {:induction false} DualGroups(cfg: MapperConfig, agent: Subject, user: Subject, context: Option<Dict>,
                                      calls: seq<Call>, ms: seq<Mapped>)
    requires !SamePrincipal(user, agent)
    requires |ms| == |calls| && forall i :: 0 <= i < |calls| ==> ms[i] == DualMap(cfg, agent, Some(user), context, calls[i])
    ensures Groups(ms).Ok? && Flatten(Groups(ms).value) == DualBatch(cfg, agent, user, context, calls)
  {
    hide UserLeg;
    if |calls| > 0 {
      var n := |calls| - 1;
      assert forall i :: 0 <= i < n ==> calls[..n][i] == calls[i];
      DualGroups(cfg, agent, user, context, calls[..n], ms[..n]);
      var front, last := Groups(ms[..n]).value, DualMap(cfg, agent, Some(user), context, calls[n]).requests;
      assert (front + [last])[..n] == front;
      DualBatchStep(cfg, agent, user, context, calls);
    }
  }

  lemma DualBatchStep(cfg: MapperConfig, agent: Subject, user: Subject, context: Option<Dict>, calls: seq<Call>)
    requires |calls| > 0
    ensures var last := UserLeg(cfg, user, context, calls[|calls| - 1]);
      DualBatch(cfg, agent, user, context, calls)
        == DualBatch(cfg, agent, user, context, calls[..|calls| - 1]) + [last, last.(subject := agent)]
  {
    hide UserLeg;
    var n := |calls| - 1;
    var all, front := DualBatch(cfg, agent, user, context, calls), DualBatch(cfg, agent, user, context, calls[..n]);
    forall k | 0 <= k < |front| ensures all[k] == front[k] {
      assert calls[k / 2] == calls[..n][k / 2];
    }
    assert all[2 * n] == DualLeg(cfg, agent, user, context, calls, 2 * n);
    assert all[2 * n + 1] == DualLeg(cfg, agent, user, context, calls, 2 * n + 1);
  }

  /**
   Dual-principal messages. The message is allowed exactly when user and agent are two principals and the batch of
   both legs of every call, user before agent, got `true` without review throughout. The cache takes no part, and a
   missing or collapsed principal never allows.
   */
  lemma DualMessageNeedsBoth(engine: EngineConfig, c: Cache.Entries, cfg: MapperConfig, agent: Subject,
                             user: Option<Subject>, context: Option<Dict>, calls: seq<Call>, w: World)
    requires Cache.Ordered(c) && |calls| > 0
    requires forall n: nat, call: Call :: w.mapper(n, call) == DualMap(cfg, agent, user, context, call)
    ensures user.None? || (user.value.typ == agent.typ && user.value.id == agent.id)
            ==> Decide(engine, c, MapCalls(w.mapper, calls), w)
                == (Done(VerdictResult(Block, "blocked by authorization policy", Error)), c)
    ensures var o := Decide(engine, c, MapCalls(w.mapper, calls), w).0;
      (o.Done? && o.value.verdict == Allow && o.value.status != Error)
      <==> (user.Some? && (user.value.typ != agent.typ || user.value.id != agent.id) &&
            exists asked :: IsDualBatch(cfg, agent, user.value, context, calls, asked)
                            && Granted(w.review, asked, w.pdp.batch(ToBatch(asked))))
  {
    hide Decide, Flatten, Groups, UserLeg, IsDualBatch, Granted;
    var ms := MapCalls(w.mapper, calls);
    MessageFailsClosed(engine, c, ms, w);
    if user.Some? && !SamePrincipal(user.value, agent) {
      DualGroups(cfg, agent, user.value, context, calls, ms);
      var batch := DualBatch(cfg, agent, user.value, context, calls);
      forall asked ensures IsDualBatch(cfg, agent, user.value, context, calls, asked) <==> asked == batch {
        DualBatchExact(cfg, agent, user.value, context, calls, asked);
      }
      assert |batch| == 2 * |calls| && Reply(w.pdp, batch) == w.pdp.batch(ToBatch(batch));
    } else {
      FirstFaultFails(ms, ConfigError);
      FaultVerdictExact(engine.onError, ConfigError);
      assert Groups(ms) == Err(ConfigError);
      FailedMapping(engine, c, ms, w);
    }
  }

  lemma {:induction false} FirstFaultFails(ms: seq<Mapped>, fault: Fault)
    requires |ms| > 0 && ms[0] == MapFault(fault)
    ensures Groups(ms) == Err(fault)
  {
    if |ms| > 1 {
      FirstFaultFails(ms[..|ms| - 1], fault);
    } else {
      assert ms[..0] == [];
    }
  }

  lemma FailedMapping(engine: EngineConfig, c: Cache.Entries, ms: seq<Mapped>, w: World)
    requires Cache.Ordered(c) && Groups(ms).Err?
    ensures Decide(engine, c, ms, w) == (Done(FaultVerdict(engine.onError, Groups(ms).error)), c)
  {
    hide Groups, Flatten;
  }
}
