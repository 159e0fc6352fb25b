/** The two network-boundary gates: `src/apparitor/a2a.py` and `src/apparitor/fastmcp.py`. */
module Gates {
  import opened Wrappers
  import opened Json
  import opened Models
  import opened Decision
  import Cache
  import opened Metrics
  import opened Engine
  import opened AuthorizationEngine
  import opened EngineTheorems
  import opened Keys

  /** What a gate guards; it runs once per authorized request. */
  class Delegate {
    var executions: nat

    constructor ()
      ensures executions == 0
    {
      executions := 0;
    }

    method Execute()
      modifies this
      ensures executions == old(executions) + 1
    {
      executions := executions + 1;
    }
  }

  datatype Gated = Executed | Refused(message: string) | Interrupted

  /** The fixed refusal text: only a review verdict is told apart. */
  function RefusalMessage(noun: string, verdict: Option<VerdictResult>): string {
    if verdict.Some? && verdict.value.verdict == HumanReview then noun + " requires human approval; do not retry"
    else noun + " not authorized"
  }

  /**
   How an authorization ends for a gate: a verdict, no verdict (`Done(None)`: no subject, no sound policy key,
   or one principal on both legs), an adapter fault, or a cancellation.
   */
  type Authorization = Await<Option<VerdictResult>>

  /**
   The shared gate: a clean ALLOW executes, everything else refuses, and what the engine did not count is counted
   here.
   */
  method Gate(o: Authorization, delegate: Delegate, sink: MetricsSink, noun: string) returns (r: Gated)
    requires sink.Valid()
    modifies delegate, sink, sink.store
    ensures sink.Valid()
    ensures r.Executed? <==>
            o.Done? && o.value.Some? && o.value.value.verdict == Allow && o.value.value.status != Error
    ensures delegate.executions == old(delegate.executions) + if r.Executed? then 1 else 0
    ensures r.Interrupted? <==> o.Cancelled?
    ensures r.Refused? ==>
      r.message == if o.Done? && o.value.Some? && o.value.value.verdict == HumanReview
                   then noun + " requires human approval; do not retry" else noun + " not authorized"
    ensures sink.Quiet()
            ==> sink.store.seen == old(sink.store.seen)
                                   + if o.Raised? || o == Done(None) then [Observation(Block, Error, 0.0)] else []
  {
    match o {
      case Cancelled => r := Interrupted;
      case Raised(_) =>
        sink.RecordPreEngineRefusal();
        r := Refused(RefusalMessage(noun, None));
      case Done(verdict) =>
        if verdict.Some? && IsAllowedGateway(verdict.value) {
          delegate.Execute();
          return Executed;
        }
        if verdict.None? {
          sink.RecordPreEngineRefusal();
        }
        r := Refused(RefusalMessage(noun, verdict));
    }
  }

  /** What the engine has counted of an authorization: its verdict, or a block when it was interrupted. */
  function Counted(o: Authorization, latency: real): seq<Observation> {
    match o
    case Done(Some(v)) => [Observation(v.verdict, v.status, latency)]
    case Cancelled => [Observation(Block, Error, 0.0)]
    case _ => []
  }

  /** A refusal says nothing but this: it may tell that a human could approve, and nothing else. */
  predicate Refuses(r: Gated, noun: string) {
    r.Refused? ==> r.message in {noun + " requires human approval; do not retry", noun + " not authorized"}
  }

  /** One more observation, and it is an allow exactly when the guarded thing ran. */
  ghost predicate CountsOnce(before: seq<Observation>, after: seq<Observation>, executed: bool) {
    && |after| == |before| + 1 && after[..|before|] == before
    && (after[|before|].verdict == Allow && after[|before|].status != Error <==> executed)
  }

  predicate Allowed(o: Authorization) {
    o.Done? && o.value.Some? && IsAllowedGateway(o.value.value)
  }

  /** A gate's view of an evaluation with a boundary, whose own refusal gives no verdict. */
  function AsAuthorization(v: Option<Await<VerdictResult>>): Authorization {
    match v
    case None => Done(None)
    case Some(Done(r)) => Done(Some(r))
    case Some(Raised(f)) => Raised(f)
    case Some(Cancelled) => Cancelled
  }

  function AuthorizeRequest(cfg: EngineConfig, boundary: Option<Subject>, c: Cache.Entries,
                            request: EvaluationRequest, w: World)
    : (Authorization, Cache.Entries)
    requires Cache.Ordered(c)
  {
    if boundary.Some? && SamePrincipal(request.subject, boundary.value) then (Done(None), c) else
    var (o, d) := EvaluateGuarded(cfg, c, BoundaryLegs(request, boundary), w);
    (AsAuthorization(Some(o)), d)
  }

  ghost predicate RequestAuthorized(cfg: EngineConfig, boundary: Option<Subject>, c: Cache.Entries,
                                    request: EvaluationRequest, w: World) {
    match boundary
    case None => CachedGrant(cfg, c, [request], w) || Granted(w.review, [request], Reply(w.pdp, [request]))
    case Some(b) => DualGranted(request, b, w)
  }

  lemma AuthorizeRequestExact(cfg: EngineConfig, boundary: Option<Subject>, c: Cache.Entries,
                              request: EvaluationRequest, w: World)
    requires Cache.Ordered(c)
    ensures Allowed(AuthorizeRequest(cfg, boundary, c, request, w).0) <==> RequestAuthorized(cfg, boundary, c, request, w)
  {
    AllowMeansGranted(cfg, c, BoundaryLegs(request, boundary), w);
    if boundary.Some? {
      TwoLegs(w.review, request, request.(subject := boundary.value), w);
    }
  }

  // ----- Agent invocations -----

  datatype User = User(isAuthenticated: bool, userName: Option<string>)

  /** What the skill resolver does: there may be none, it may resolve nothing or no text, and it may raise. */
  datatype Resolved = NoResolver | NoSkill | Skill(name: string) | NotText | ResolverFault

  datatype Invocation =
    Invocation(user: Option<User>, injected: Option<Subject>, skill: Resolved, attributes: Dict, tenant: string)

  datatype Deployment =
    Deployment(agentLabel: string, subjectType: string, configSubjectType: string, agentId: Option<string>,
               allowStaticSubject: bool, boundary: Option<Subject>)
  {
    /** The constructor's checks: a sound label, and no principal minted in the reserved namespace. */
    predicate Valid() {
      && ValidLabel(agentLabel)
      && subjectType != "workload" && !(allowStaticSubject && configSubjectType == "workload")
      && (boundary.Some? ==> boundary.value.typ != "workload")
    }
  }

  function ResolveCaller(dep: Deployment, inv: Invocation): Option<Subject> {
    if inv.user.Some? && inv.user.value.isAuthenticated then
      var name := inv.user.value.userName;
      if name.Some? && Strip(name.value) != "" then Some(Subject(dep.subjectType, Strip(name.value), [])) else None
    else if inv.injected.Some? then inv.injected
    else if dep.allowStaticSubject && dep.agentId.Some? then Some(Subject(dep.configSubjectType, dep.agentId.value, []))
    else None
  }

  function AgentKeyOf(dep: Deployment, skill: Resolved): Option<AgentKey> {
    match skill
    case NoResolver => AgentResource(dep.agentLabel, None)
    case NoSkill => AgentResource(dep.agentLabel, Some(None))
    case Skill(name) => AgentResource(dep.agentLabel, Some(Some(name)))
    case _ => None
  }

  function ContextOf(inv: Invocation): Option<Dict> {
    var all := inv.attributes + if inv.tenant != "" then [Member("tenant", Str(inv.tenant))] else [];
    if all == [] then None else Some(all)
  }

  function AgentRequest(caller: Subject, key: AgentKey, inv: Invocation): EvaluationRequest {
    EvaluationRequest(caller, Action("agent.invoke", []), Resource(key.typ, key.id, []), ContextOf(inv))
  }

  // ----- Whom an invocation is about, and what is asked -----

  /**
   The caller: the authenticated user by stripped name; without authentication the injected subject; without that the
   static agent, when the deployment opted in.
   */
  predicate CallerIs(dep: Deployment, inv: Invocation, caller: Subject) {
    if inv.user.Some? && inv.user.value.isAuthenticated then
      && inv.user.value.userName.Some? && Strip(inv.user.value.userName.value) != ""
      && caller == Subject(dep.subjectType, Strip(inv.user.value.userName.value), [])
    else if inv.injected.Some? then caller == inv.injected.value
    else dep.allowStaticSubject && dep.agentId.Some? && caller == Subject(dep.configSubjectType, dep.agentId.value, [])
  }

  /** The agent itself when no skill is resolved; a resolved skill by its verbatim name, which must be usable. */
  predicate ResourceIs(dep: Deployment, skill: Resolved, resource: Resource) {
    || ((skill.NoResolver? || skill.NoSkill?) && resource == Resource("a2a_agent", dep.agentLabel, []))
    || (skill.Skill? && Strip(skill.name) != "" && NoSlash(skill.name)
        && resource == Resource("a2a_skill", dep.agentLabel + "/" + skill.name, []))
  }

  /** The enrichment followed by the tenant, when there is one; nothing at all is no context. */
  predicate ContextIs(inv: Invocation, context: Option<Dict>) {
    var tenant := if inv.tenant == "" then [] else [Member("tenant", Str(inv.tenant))];
    if inv.attributes == [] && tenant == [] then context.None? else context == Some(inv.attributes + tenant)
  }

  predicate IsInvocationRequest(dep: Deployment, inv: Invocation, request: EvaluationRequest) {
    && CallerIs(dep, inv, request.subject) && request.action == Action("agent.invoke", [])
    && ResourceIs(dep, inv.skill, request.resource) && ContextIs(inv, request.context)
  }

  /** The executor shapes exactly the request that the invocation is about. */
  lemma InvocationRequestExact(dep: Deployment, inv: Invocation)
    ensures forall request :: InvocationRequest(dep, inv) == Some(request) <==> IsInvocationRequest(dep, inv, request)
  {
    hide Strip;
    var shaped := InvocationRequest(dep, inv);
    if shaped.Some? {
      assert IsInvocationRequest(dep, inv, shaped.value);
    }
  }

  /** The caller's request, when subject and resource resolve. */
  function InvocationRequest(dep: Deployment, inv: Invocation): Option<EvaluationRequest> {
    var caller, key := ResolveCaller(dep, inv), AgentKeyOf(dep, inv.skill);
    if caller.None? || key.None? then None else Some(AgentRequest(caller.value, key.value, inv))
  }

  class A2AAuthorizationExecutor {
    const dep: Deployment
    const engine: AuthorizationEngine
    const delegate: Delegate

    constructor (dep: Deployment, engine: AuthorizationEngine, delegate: Delegate)
      requires dep.Valid()
      ensures this.dep == dep && this.engine == engine && this.delegate == delegate
    {
      this.dep := dep;
      this.engine := engine;
      this.delegate := delegate;
    }

    method Authorize(inv: Invocation, w: World) returns (o: Authorization)
      requires engine.Valid()
      modifies engine.cache, engine.sink, engine.sink.store
      ensures engine.Valid()
      ensures (o, engine.cache.Contents()) == AuthorizeInvocation(engine.cfg, dep, old(engine.cache.Contents()), inv, w)
      ensures engine.sink.Quiet() ==> engine.sink.store.seen == old(engine.sink.store.seen) + Counted(o, w.latency)
    {
      var caller := ResolveCaller(dep, inv);
      if caller.None? {
        return Done(None);
      }
      if inv.skill.ResolverFault? {
        return Raised(Unexpected);
      }
      var key := AgentKeyOf(dep, inv.skill);
      if key.None? {
        return Done(None);
      }
      var verdict := engine.EvaluateWithBoundary(AgentRequest(caller.value, key.value, inv), dep.boundary, w);
      o := AsAuthorization(verdict);
    }

    /** Only an authorized invocation reaches the delegate, and every invocation is counted once, as what it came to. */
    method Execute(inv: Invocation, w: World) returns (r: Gated)
      requires engine.Valid()
      modifies delegate, engine.cache, engine.sink, engine.sink.store
      ensures engine.Valid()
      ensures r.Executed? <==> Authorized(engine.cfg, dep, old(engine.cache.Contents()), inv, w)
      ensures delegate.executions == old(delegate.executions) + if r.Executed? then 1 else 0
      ensures Refuses(r, "agent invocation")
      ensures engine.cache.Contents() == AuthorizeInvocation(engine.cfg, dep, old(engine.cache.Contents()), inv, w).1
      ensures engine.sink.Quiet() ==> CountsOnce(old(engine.sink.store.seen), engine.sink.store.seen, r.Executed?)
    {
      ghost var before := engine.cache.Contents();
      var o := Authorize(inv, w);
      AuthorizationExact(engine.cfg, dep, before, inv, w);
      r := Gate(o, delegate, engine.sink, "agent invocation");
    }
  }

  /** What the executor's authorization comes to, and the cache it leaves. */
  function AuthorizeInvocation(cfg: EngineConfig, dep: Deployment, c: Cache.Entries, inv: Invocation,
                               w: World): (Authorization, Cache.Entries)
    requires Cache.Ordered(c)
  {
    if ResolveCaller(dep, inv).None? then (Done(None), c)
    else if inv.skill.ResolverFault? then (Raised(Unexpected), c)
    else match InvocationRequest(dep, inv)
      case None => (Done(None), c)
      case Some(request) => AuthorizeRequest(cfg, dep.boundary, c, request, w)
  }

  /**
   Both principals or nothing: every leg of the request that the invocation is about was granted, and with a boundary
   there are two different ones.
   */
  ghost predicate Authorized(cfg: EngineConfig, dep: Deployment, c: Cache.Entries, inv: Invocation, w: World) {
    exists request :: IsInvocationRequest(dep, inv, request) && RequestAuthorized(cfg, dep.boundary, c, request, w)
  }

  /** Caller and boundary differ, and a batch of the two legs got two answers, both `true` and without review. */
  ghost predicate DualGranted(request: EvaluationRequest, boundary: Subject, w: World) {
    && (request.subject.typ != boundary.typ || request.subject.id != boundary.id)
    && var reply := w.pdp.batch(ToBatch([request, request.(subject := boundary)]));
       reply.Done? && |reply.value| == 2 && GrantedAnswer(w.review, reply.value[0]) && GrantedAnswer(w.review, reply.value[1])
  }

  lemma NothingAllowed()
    ensures !Allowed(Done(None)) && forall fault :: !Allowed(Raised(fault))
  {
  }

  lemma ResolverFaultAsksNothing(dep: Deployment, inv: Invocation)
    ensures ResolveCaller(dep, inv).None? || inv.skill.ResolverFault? ==> InvocationRequest(dep, inv).None?
  {
  }

  lemma AuthorizationExact(cfg: EngineConfig, dep: Deployment, c: Cache.Entries, inv: Invocation, w: World)
    requires Cache.Ordered(c)
    ensures Allowed(AuthorizeInvocation(cfg, dep, c, inv, w).0) <==> Authorized(cfg, dep, c, inv, w)
  {
    hide RequestAuthorized, AuthorizeRequest, InvocationRequest, IsInvocationRequest, Allowed;
    NothingAllowed();
    InvocationRequestExact(dep, inv);
    ResolverFaultAsksNothing(dep, inv);
    var request := InvocationRequest(dep, inv);
    if request.Some? {
      assert IsInvocationRequest(dep, inv, request.value);
      AuthorizeRequestExact(cfg, dep.boundary, c, request.value, w);
    }
  }

  lemma TwoLegs(review: Review, a: EvaluationRequest, b: EvaluationRequest, w: World)
    ensures Granted(review, [a, b], Reply(w.pdp, [a, b]))
            <==> var reply := w.pdp.batch(ToBatch([a, b]));
                 reply.Done? && |reply.value| == 2 && GrantedAnswer(review, reply.value[0]) && GrantedAnswer(review, reply.value[1])
  {
  }

  datatype Attempt = Attempt(inv: Invocation, w: World)

  /** Executions over a run of invocations that starts with cache `c`, and the cache it leaves. */
  function Executions(cfg: EngineConfig, dep: Deployment, c: Cache.Entries,
                      run: seq<Attempt>): (r: (nat, Cache.Entries))
    requires Cache.Ordered(c) && |c.order| <= cfg.Cap()
    ensures Cache.Ordered(r.1) && |r.1.order| <= cfg.Cap()
  {
    if |run| == 0 then (0, c) else
    var (n, d) := Executions(cfg, dep, c, run[..|run| - 1]);
    var last := run[|run| - 1];
    AuthorizationKeepsOrder(cfg, dep, d, last.inv, last.w);
    (n + (if Allowed(AuthorizeInvocation(cfg, dep, d, last.inv, last.w).0) then 1 else 0),
     AuthorizeInvocation(cfg, dep, d, last.inv, last.w).1)
  }

  lemma AuthorizationKeepsOrder(cfg: EngineConfig, dep: Deployment, c: Cache.Entries, inv: Invocation, w: World)
    requires Cache.Ordered(c) && |c.order| <= cfg.Cap()
    ensures var d := AuthorizeInvocation(cfg, dep, c, inv, w).1; Cache.Ordered(d) && |d.order| <= cfg.Cap()
  {
    var request := InvocationRequest(dep, inv);
    if request.Some? {
      GuardedKeepsOrder(cfg, c, BoundaryLegs(request.value, dep.boundary), w);
    }
  }

  /** Subject and resource resolved, and the boundary and a caller other than it were both granted. */
  ghost predicate BothGranted(dep: Deployment, attempt: Attempt)
    requires dep.boundary.Some?
  {
    exists request :: IsInvocationRequest(dep, attempt.inv, request) && DualGranted(request, dep.boundary.value, attempt.w)
  }

  /** The invocations of a run that both principals were granted. */
  ghost function DualGrants(dep: Deployment, run: seq<Attempt>): nat
    requires dep.boundary.Some?
  {
    if |run| == 0 then 0 else
    DualGrants(dep, run[..|run| - 1]) + if BothGranted(dep, run[|run| - 1]) then 1 else 0
  }

  /** With a boundary no cache takes part: a run executes exactly as often as both principals were granted. */
  lemma {:induction false} DualPrincipalSafety(cfg: EngineConfig, dep: Deployment, c: Cache.Entries, run: seq<Attempt>)
    requires dep.boundary.Some? && Cache.Ordered(c) && |c.order| <= cfg.Cap()
    ensures Executions(cfg, dep, c, run).0 == DualGrants(dep, run)
  {
    if |run| > 0 {
      DualPrincipalSafety(cfg, dep, c, run[..|run| - 1]);
      var d := Executions(cfg, dep, c, run[..|run| - 1]).1;
      AuthorizationExact(cfg, dep, d, run[|run| - 1].inv, run[|run| - 1].w);
    }
  }

  lemma ExecutionsStep(cfg: EngineConfig, dep: Deployment, c: Cache.Entries, run: seq<Attempt>, n: nat)
    requires Cache.Ordered(c) && |c.order| <= cfg.Cap() && n < |run|
    ensures var (count, d) := Executions(cfg, dep, c, run[..n]);
      Executions(cfg, dep, c, run[..n + 1])
        == (count + (if Authorized(cfg, dep, d, run[n].inv, run[n].w) then 1 else 0),
            AuthorizeInvocation(cfg, dep, d, run[n].inv, run[n].w).1)
  {
    hide AuthorizeInvocation, Authorized, Allowed;
    assert run[..n + 1][..n] == run[..n];
    AuthorizationExact(cfg, dep, Executions(cfg, dep, c, run[..n]).1, run[n].inv, run[n].w);
  }

  /**
   Serves a run of invocations. With a boundary, the delegate runs for exactly those that both principals were granted,
   and every other invocation ends without running it; each one is counted once.
   */
  method ServeAll(executor: A2AAuthorizationExecutor, run: seq<Attempt>) returns (ends: seq<Gated>)
    requires executor.engine.Valid()
    modifies executor.delegate, executor.engine.cache, executor.engine.sink, executor.engine.sink.store
    ensures executor.engine.Valid() && |ends| == |run|
    ensures (executor.delegate.executions - old(executor.delegate.executions), executor.engine.cache.Contents())
         == Executions(executor.engine.cfg, executor.dep, old(executor.engine.cache.Contents()), run)
    ensures executor.dep.boundary.Some? ==>
      && executor.delegate.executions == old(executor.delegate.executions) + DualGrants(executor.dep, run)
      && forall i :: 0 <= i < |run| ==> (ends[i].Executed? <==> BothGranted(executor.dep, run[i]))
    ensures executor.engine.sink.Quiet()
            ==> |executor.engine.sink.store.seen| == |old(executor.engine.sink.store.seen)| + |run|
  {
    hide Executions, Authorized, AuthorizeInvocation, BothGranted, DualGrants, MetricsSink.Valid;
    var cfg, dep := executor.engine.cfg, executor.dep;
    ghost var start := executor.engine.cache.Contents();
    ends := [];
    ExecutionsNone(cfg, dep, start);
    assert run[..0] == [];
    for n := 0 to |run|
      invariant executor.engine.Valid() && |ends| == n
      invariant (executor.delegate.executions - old(executor.delegate.executions), executor.engine.cache.Contents())
             == Executions(cfg, dep, start, run[..n])
      invariant dep.boundary.Some? ==> forall i :: 0 <= i < n ==> (ends[i].Executed? <==> BothGranted(dep, run[i]))
      invariant executor.engine.sink.Quiet()
                ==> |executor.engine.sink.store.seen| == |old(executor.engine.sink.store.seen)| + n
    {
      ExecutionsStep(cfg, dep, start, run, n);
      if dep.boundary.Some? {
        AuthorizedMeansBoth(cfg, dep, executor.engine.cache.Contents(), run[n]);
      }
      var end := executor.Execute(run[n].inv, run[n].w);
      ends := ends + [end];
    }
    assert run[..|run|] == run;
    if dep.boundary.Some? {
      DualPrincipalSafety(cfg, dep, start, run);
    }
  }

  lemma ExecutionsNone(cfg: EngineConfig, dep: Deployment, c: Cache.Entries)
    requires Cache.Ordered(c) && |c.order| <= cfg.Cap()
    ensures Executions(cfg, dep, c, []) == (0, c)
  {
  }

  lemma AuthorizedMeansBoth(cfg: EngineConfig, dep: Deployment, c: Cache.Entries, attempt: Attempt)
    requires dep.boundary.Some?
    ensures Authorized(cfg, dep, c, attempt.inv, attempt.w) <==> BothGranted(dep, attempt)
  {
  }

  /**
   A caller of the reserved workload type is one the deployment injected; neither authentication nor
   configuration mints it.
   */
  lemma WorkloadCallerIsInjected(dep: Deployment, inv: Invocation)
    requires dep.Valid() && ResolveCaller(dep, inv).Some? && ResolveCaller(dep, inv).value.typ == "workload"
    ensures inv.injected == ResolveCaller(dep, inv) && !(inv.user.Some? && inv.user.value.isAuthenticated)
  {
  }

  /**
   An authenticated caller is never replaced by a weaker identity: the name decides, stripped and nothing else, and
   nameless authentication refuses.
   */
  lemma AuthenticatedCallerStands(dep: Deployment, inv: Invocation)
    requires inv.user.Some? && inv.user.value.isAuthenticated
    ensures forall other: Option<Subject> :: ResolveCaller(dep, inv.(injected := other)) == ResolveCaller(dep, inv)
    ensures var name := inv.user.value.userName;
      ResolveCaller(dep, inv)
        == if name.None? || Strip(name.value) == "" then None else Some(Subject(dep.subjectType, Strip(name.value), []))
  {
  }

  /** Users whose stripped names differ are never asked about as one. */
  lemma AuthenticatedCallersAreToldApart(dep: Deployment, a: Invocation, b: Invocation, r: EvaluationRequest,
                                         q: EvaluationRequest)
    requires a.user.Some? && a.user.value.isAuthenticated && IsInvocationRequest(dep, a, r)
    requires b.user.Some? && b.user.value.isAuthenticated && IsInvocationRequest(dep, b, q)
    requires SameRequest(r, q)
    ensures Strip(a.user.value.userName.value) == Strip(b.user.value.userName.value)
  {
  }
}
