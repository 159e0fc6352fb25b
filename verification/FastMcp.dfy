/** The FastMCP middleware of `src/apparitor/fastmcp.py`: tool calls, resource reads, prompts, and listings. */
module FastMcp {
  import opened Wrappers
  import opened Json
  import opened Models
  import opened Decision
  import Cache
  import opened Metrics
  import opened Engine
  import opened AuthorizationEngine
  import opened EngineTheorems
  import opened Keys
  import opened Gates
  import Mapping

  /** A verified access token: the configured subject claim when it is text, and the client it was issued to. */
  datatype Token = Token(claim: Option<string>, clientId: Option<string>, scopes: seq<string>)

  datatype Identity = NoToken | Bearer(token: Token) | IdentityFault

  /** `hostLabel` is the label entry of the host context: absent, not text, or text. */
  datatype McpContext =
    McpContext(identity: Identity, host: Option<Subject>, hostLabel: Option<Option<string>>, serverName: Option<string>,
               attributes: Option<Dict>)

  datatype Options =
    Options(serverLabel: Option<string>, subjectType: string, configSubjectType: string, agentId: Option<string>,
            allowStaticSubject: bool, allowWorkloadSubject: bool, filterListings: bool, gateResources: bool,
            gatePrompts: bool, boundary: Option<Subject>)
  {
    /** The constructor's namespace guard. */
    predicate Valid() {
      && subjectType != "workload" && !(allowStaticSubject && configSubjectType == "workload")
      && (boundary.Some? ==> boundary.value.typ != "workload")
    }
  }

  function TextOrNull(s: Option<string>): Json {
    if s.Some? then Str(s.value) else Null
  }

  function TokenProperties(t: Token): Dict {
    [Member("client_id", TextOrNull(t.clientId)),
     Member("scopes", Arr(seq(|t.scopes|, i requires 0 <= i < |t.scopes| => Str(t.scopes[i]))))]
  }

  predicate Usable(s: Option<string>) {
    s.Some? && Strip(s.value) != ""
  }

  /** The subject chain; the first match wins, and a token without a usable identity refuses. */
  function ResolveSubject(opts: Options, ctx: McpContext): Option<Subject> {
    match ctx.identity
    case Bearer(t) =>
      if Usable(t.claim) then Some(Subject(opts.subjectType, t.claim.value, TokenProperties(t)))
      else if opts.allowWorkloadSubject && Usable(t.clientId) then Some(Subject("workload", t.clientId.value, TokenProperties(t)))
      else None
    case NoToken =>
      if ctx.host.Some? then ctx.host
      else if opts.allowStaticSubject && opts.agentId.Some? then Some(Subject(opts.configSubjectType, opts.agentId.value, []))
      else None
    case IdentityFault => None
  }

  function ServerLabel(opts: Options, ctx: McpContext): Option<string> {
    if opts.serverLabel.Some? then opts.serverLabel
    else if ctx.hostLabel.Some? then ctx.hostLabel.value
    else if Usable(ctx.serverName) then ctx.serverName
    else None
  }

  datatype Asked = ResourceRead(uri: string) | PromptGet(name: string)

  /** The request an adapter-shaped access stands for; a prompt without a sound key has none. */
  function ShapedRequest(opts: Options, ctx: McpContext, asked: Asked): Option<EvaluationRequest> {
    var subject, server := ResolveSubject(opts, ctx), ServerLabel(opts, ctx);
    if subject.None? then None else
    match asked
    case ResourceRead(uri) =>
      var properties := if server.Some? then [Member("server", Str(server.value))] else [];
      var resource := Resource("mcp_resource", uri, properties);
      Some(EvaluationRequest(subject.value, Action("resource.read", []), resource, ctx.attributes))
    case PromptGet(name) =>
      var key := PromptKey(server, name);
      if key.None? then None else
      var resource := Resource("mcp_prompt", key.value, []);
      Some(EvaluationRequest(subject.value, Action("prompt.get", []), resource, ctx.attributes))
  }

  predicate IsGated(opts: Options, asked: Asked) {
    if asked.ResourceRead? then opts.gateResources else opts.gatePrompts
  }

  // ----- What the mapper is told -----

  /** What the middleware injects for the mapper: the resolved subject, the server label and the enrichment. */
  datatype RequestContext = RequestContext(subject: Subject, server: Option<string>, attributes: Option<Dict>)

  type ContextMapper = (RequestContext, nat, Call) -> Mapped

  /** Without a subject there is no request context, and nothing is mapped. */
  function InjectedContext(opts: Options, ctx: McpContext): Option<RequestContext> {
    var subject := ResolveSubject(opts, ctx);
    if subject.None? then None else Some(RequestContext(subject.value, ServerLabel(opts, ctx), ctx.attributes))
  }

  /** The evaluation as the engine meets it: the mapper sees the injected context. */
  function Injected(w: World, mapper: ContextMapper, injected: RequestContext): World {
    w.(mapper := (n: nat, call: Call) => mapper(injected, n, call))
  }

  // ----- Whom a request is about, and what it is told -----

  /** The token's own facts: the client it was issued to, and its scopes. */
  predicate FactsAre(t: Token, properties: Dict) {
    && |properties| == 2
    && properties[0] == Member("client_id", if t.clientId.Some? then Str(t.clientId.value) else Null)
    && properties[1].key == "scopes" && properties[1].val.Arr? && |properties[1].val.items| == |t.scopes|
    && forall i :: 0 <= i < |t.scopes| ==> properties[1].val.items[i] == Str(t.scopes[i])
  }

  /**
   The client. With a verified token it is the subject claim, verbatim, or, opted in and without a claim, the client the
   token was issued to; without a token the host's subject, or the opted-in static agent. A broken identity is nobody.
   */
  predicate ClientIs(opts: Options, ctx: McpContext, client: Subject) {
    match ctx.identity
    case Bearer(t) =>
      && FactsAre(t, client.properties)
      && if t.claim.Some? && Strip(t.claim.value) != "" then client.typ == opts.subjectType && client.id == t.claim.value
         else opts.allowWorkloadSubject && t.clientId.Some? && Strip(t.clientId.value) != ""
              && client.typ == "workload" && client.id == t.clientId.value
    case NoToken =>
      if ctx.host.Some? then client == ctx.host.value
      else opts.allowStaticSubject && opts.agentId.Some? && client == Subject(opts.configSubjectType, opts.agentId.value, [])
    case IdentityFault => false
  }

  /** The label: the pinned one, else the host's entry if it is text, else the server's name unless it is blank. */
  predicate ServerIs(opts: Options, ctx: McpContext, server: Option<string>) {
    if opts.serverLabel.Some? then server == opts.serverLabel
    else if ctx.hostLabel.Some? then server == ctx.hostLabel.value
    else if ctx.serverName.Some? && Strip(ctx.serverName.value) != "" then server == ctx.serverName
    else server.None?
  }

  predicate IsInjected(opts: Options, ctx: McpContext, injected: RequestContext) {
    ClientIs(opts, ctx, injected.subject) && ServerIs(opts, ctx, injected.server) && injected.attributes == ctx.attributes
  }

  lemma SubjectExact(opts: Options, ctx: McpContext)
    ensures forall client :: ResolveSubject(opts, ctx) == Some(client) <==> ClientIs(opts, ctx, client)
  {
    hide Strip;
    forall client | ClientIs(opts, ctx, client) ensures ResolveSubject(opts, ctx) == Some(client) {
      if ctx.identity.Bearer? {
        FactsUnique(ctx.identity.token, client.properties);
      }
    }
  }

  lemma FactsUnique(t: Token, properties: Dict)
    requires FactsAre(t, properties)
    ensures properties == TokenProperties(t)
  {
    assert properties[1].val.items == TokenProperties(t)[1].val.items;
    assert properties[1] == TokenProperties(t)[1];
  }

  lemma ServerExact(opts: Options, ctx: McpContext)
    ensures forall server :: ServerLabel(opts, ctx) == server <==> ServerIs(opts, ctx, server)
  {
    hide Strip;
  }

  lemma InjectedExact(opts: Options, ctx: McpContext)
    ensures InjectedContext(opts, ctx).Some? ==> IsInjected(opts, ctx, InjectedContext(opts, ctx).value)
    ensures forall injected :: IsInjected(opts, ctx, injected) ==> InjectedContext(opts, ctx) == Some(injected)
  {
    hide ResolveSubject, ServerLabel, ClientIs, ServerIs;
    SubjectExact(opts, ctx);
    ServerExact(opts, ctx);
  }

  /** The request an access is about: a resource by its verbatim URI, a prompt by label and verbatim name. */
  predicate IsAccessRequest(opts: Options, ctx: McpContext, asked: Asked, server: Option<string>,
                            request: EvaluationRequest) {
    && ClientIs(opts, ctx, request.subject) && ServerIs(opts, ctx, server) && request.context == ctx.attributes
    && match asked
       case ResourceRead(uri) =>
         && request.action == Action("resource.read", [])
         && request.resource
            == Resource("mcp_resource", uri, if server.Some? then [Member("server", Str(server.value))] else [])
       case PromptGet(name) =>
         && request.action == Action("prompt.get", [])
         && server.Some? && Strip(server.value) != "" && NoSlash(Strip(server.value)) && Strip(name) != "" && NoSlash(name)
         && request.resource == Resource("mcp_prompt", Strip(server.value) + "/" + name, [])
  }

  lemma ShapedRequestExact(opts: Options, ctx: McpContext, asked: Asked)
    ensures var shaped := ShapedRequest(opts, ctx, asked);
      && (shaped.Some? ==> IsAccessRequest(opts, ctx, asked, ServerLabel(opts, ctx), shaped.value))
      && forall server, request :: IsAccessRequest(opts, ctx, asked, server, request) ==> shaped == Some(request)
  {
    hide ResolveSubject, ServerLabel, ClientIs, ServerIs, Strip;
    SubjectExact(opts, ctx);
    ServerExact(opts, ctx);
    var shaped := ShapedRequest(opts, ctx, asked);
    if shaped.Some? {
      assert ServerIs(opts, ctx, ServerLabel(opts, ctx));
      assert ClientIs(opts, ctx, shaped.value.subject);
    }
  }

  /** A message of exactly one call is authorized: it maps to something, and all of it was granted. */
  ghost predicate CallAuthorized(cfg: EngineConfig, opts: Options, mapper: ContextMapper, c: Cache.Entries,
                                 ctx: McpContext, call: Call, w: World) {
    exists injected :: IsInjected(opts, ctx, injected) && MappedAuthorized(cfg, mapper, c, injected, call, w)
  }

  /** What the mapper makes of the call for this client and label is something, and all of it was granted or cached. */
  ghost predicate MappedAuthorized(cfg: EngineConfig, mapper: ContextMapper, c: Cache.Entries, injected: RequestContext,
                                   call: Call, w: World) {
    var groups := Groups(MapCalls(Injected(w, mapper, injected).mapper, [call]));
    && groups.Ok? && Flatten(groups.value) != []
    && (CachedGrant(cfg, c, Flatten(groups.value), w)
        || Granted(w.review, Flatten(groups.value), Reply(w.pdp, Flatten(groups.value))))
  }

  ghost predicate AccessAuthorized(cfg: EngineConfig, opts: Options, c: Cache.Entries, ctx: McpContext, asked: Asked,
                                   w: World) {
    exists server, request ::
      IsAccessRequest(opts, ctx, asked, server, request) && RequestAuthorized(cfg, opts.boundary, c, request, w)
  }

  /** What a listing asks the engine: one bare call per listed name. */
  function ListedCalls(names: seq<string>): (calls: seq<Call>)
    ensures |calls| == |names| && forall i :: 0 <= i < |names| ==> calls[i] == Call(names[i], [], None)
  {
    seq(|names|, i requires 0 <= i < |names| => Call(names[i], [], None))
  }

  /** Visibility is by name: a tool is shown when some entry of that name was allowed. */
  predicate Shown(names: seq<string>, verdicts: seq<VerdictResult>, i: nat)
    requires |verdicts| == |names| && i < |names|
  {
    exists j :: 0 <= j < |names| && names[j] == names[i] && IsAllowedGateway(verdicts[j])
  }

  class FastMCPAuthorizationMiddleware {
    const opts: Options
    const mapper: ContextMapper
    const engine: AuthorizationEngine

    constructor (opts: Options, mapper: ContextMapper, engine: AuthorizationEngine)
      requires opts.Valid()
      ensures this.opts == opts && this.mapper == mapper && this.engine == engine
    {
      this.opts := opts;
      this.mapper := mapper;
      this.engine := engine;
    }

    method AuthorizeCall(call: Call, ctx: McpContext, w: World) returns (o: Authorization)
      requires engine.Valid()
      modifies engine.cache, engine.sink, engine.sink.store
      ensures engine.Valid()
      ensures Allowed(o) <==> CallAuthorized(engine.cfg, opts, mapper, old(engine.cache.Contents()), ctx, call, w)
      ensures engine.sink.Quiet() ==> engine.sink.store.seen == old(engine.sink.store.seen) + Counted(o, w.latency)
    {
      hide Groups, Flatten, Granted, CachedGrant, Decide, IsInjected;
      InjectedExact(opts, ctx);
      if ctx.identity.IdentityFault? {
        return Raised(Unexpected);
      }
      var injected := InjectedContext(opts, ctx);
      if injected.None? {
        return Done(None);
      }
      var met := Injected(w, mapper, injected.value);
      MessageFailsClosed(engine.cfg, engine.cache.Contents(), MapCalls(met.mapper, [call]), met);
      CachedGrantIgnoresMapper(engine.cfg, engine.cache.Contents(), w, met);
      var verdict := engine.EvaluateNormalized([call], met);
      o := AsAuthorization(Some(verdict));
    }

    method OnCallTool(name: string, arguments: Dict, ctx: McpContext, w: World, tool: Delegate) returns (r: Gated)
      requires engine.Valid()
      modifies tool, engine.cache, engine.sink, engine.sink.store
      ensures engine.Valid()
      ensures r.Executed? <==>
              CallAuthorized(engine.cfg, opts, mapper, old(engine.cache.Contents()), ctx, Call(name, arguments, None), w)
      ensures tool.executions == old(tool.executions) + if r.Executed? then 1 else 0
      ensures Refuses(r, "tool call")
      ensures engine.sink.Quiet() ==> CountsOnce(old(engine.sink.store.seen), engine.sink.store.seen, r.Executed?)
    {
      hide CallAuthorized;
      var o := AuthorizeCall(Call(name, arguments, None), ctx, w);
      r := Gate(o, tool, engine.sink, "tool call");
    }

    method AuthorizeShaped(asked: Asked, ctx: McpContext, w: World) returns (o: Authorization)
      requires engine.Valid()
      modifies engine.cache, engine.sink, engine.sink.store
      ensures engine.Valid()
      ensures Allowed(o) <==> AccessAuthorized(engine.cfg, opts, old(engine.cache.Contents()), ctx, asked, w)
      ensures engine.sink.Quiet() ==> engine.sink.store.seen == old(engine.sink.store.seen) + Counted(o, w.latency)
    {
      hide RequestAuthorized, IsAccessRequest;
      ShapedRequestExact(opts, ctx, asked);
      if ctx.identity.IdentityFault? {
        return Raised(Unexpected);
      }
      var request := ShapedRequest(opts, ctx, asked);
      if request.None? {
        return Done(None);
      }
      AuthorizeRequestExact(engine.cfg, opts.boundary, engine.cache.Contents(), request.value, w);
      var verdict := engine.EvaluateWithBoundary(request.value, opts.boundary, w);
      o := AsAuthorization(verdict);
    }

    /** Resource reads and prompt fetches; an opted-out surface passes through ungated and uncounted. */
    method OnAccess(asked: Asked, ctx: McpContext, w: World, handler: Delegate) returns (r: Gated)
      requires engine.Valid()
      modifies handler, engine.cache, engine.sink, engine.sink.store
      ensures engine.Valid()
      ensures r.Executed? <==>
              (if asked.ResourceRead? then !opts.gateResources else !opts.gatePrompts)
              || AccessAuthorized(engine.cfg, opts, old(engine.cache.Contents()), ctx, asked, w)
      ensures handler.executions == old(handler.executions) + if r.Executed? then 1 else 0
      ensures Refuses(r, if asked.ResourceRead? then "resource read" else "prompt")
      ensures engine.sink.Quiet() ==>
        if (if asked.ResourceRead? then !opts.gateResources else !opts.gatePrompts)
        then engine.sink.store.seen == old(engine.sink.store.seen)
        else CountsOnce(old(engine.sink.store.seen), engine.sink.store.seen, r.Executed?)
    {
      hide AccessAuthorized;
      if !IsGated(opts, asked) {
        handler.Execute();
        return Executed;
      }
      var o := AuthorizeShaped(asked, ctx, w);
      r := Gate(o, handler, engine.sink, if asked.ResourceRead? then "resource read" else "prompt");
    }

    /** The positions of the tools that stay listed. Without a subject, or on a fault, everything is hidden. */
    method OnListTools(names: seq<string>, ctx: McpContext, w: World) returns (r: Await<seq<nat>>)
      requires engine.Valid()
      modifies engine.sink, engine.sink.store
      ensures engine.Valid()
      ensures !opts.filterListings ==> r == Done(seq(|names|, i => i))
      ensures opts.filterListings && ResolveSubject(opts, ctx).None? ==> r == Done([])
      ensures opts.filterListings && names != [] && ResolveSubject(opts, ctx).Some? ==>
        match ListingVerdicts(engine.cfg, opts, mapper, names, ctx, w)
        case Done(verdicts) => r.Done? && IsFilter(names, verdicts, r.value)
        case _ => r == Cancelled
      ensures engine.sink.Quiet() ==>
        |engine.sink.store.seen| == |old(engine.sink.store.seen)| + ListingCount(engine.cfg, opts, mapper, names, ctx, w)
    {
      if !opts.filterListings {
        return Done(seq(|names|, i => i));
      }
      if ctx.identity.IdentityFault? && names != [] {
        engine.sink.RecordPreEngineRefusal();
        return Done([]);
      }
      if names == [] {
        return Done([]);
      }
      var injected := InjectedContext(opts, ctx);
      if injected.None? {
        engine.sink.RecordPreEngineRefusal();
        return Done([]);
      }
      var verdicts := engine.EvaluateEach(ListedCalls(names), Injected(w, mapper, injected.value));
      if !verdicts.Done? {
        return Cancelled;
      }
      var shown := FilterTools(names, verdicts.value);
      r := Done(shown);
    }
  }

  /** The visible names as a set, then the tools whose name is in it. */
  method FilterTools(names: seq<string>, verdicts: seq<VerdictResult>) returns (shown: seq<nat>)
    requires |verdicts| == |names|
    ensures IsFilter(names, verdicts, shown)
  {
    var visible := set i | 0 <= i < |names| && IsAllowedGateway(verdicts[i]) :: names[i];
    shown := [];
    for i := 0 to |names|
      invariant IsFilterUpTo(names, verdicts, shown, i)
    {
      assert names[i] in visible <==> Shown(names, verdicts, i);
      if names[i] in visible {
        shown := shown + [i];
      }
    }
  }

  /** `shown` lists, in order and once each, exactly the shown positions below `n`. */
  predicate IsFilterUpTo(names: seq<string>, verdicts: seq<VerdictResult>, shown: seq<nat>, n: nat) {
    && |verdicts| == |names| && n <= |names|
    && (forall a, b :: 0 <= a < b < |shown| ==> shown[a] < shown[b])
    && (forall a :: 0 <= a < |shown| ==> shown[a] < n)
    && (forall i :: 0 <= i < n ==> (i in shown <==> Shown(names, verdicts, i)))
  }

  predicate IsFilter(names: seq<string>, verdicts: seq<VerdictResult>, shown: seq<nat>) {
    IsFilterUpTo(names, verdicts, shown, |names|)
  }

  /** The per-item verdicts behind a listing of a known subject. */
  function ListingVerdicts(cfg: EngineConfig, opts: Options, mapper: ContextMapper, names: seq<string>,
                           ctx: McpContext, w: World): (r: Await<seq<VerdictResult>>)
    requires InjectedContext(opts, ctx).Some?
    ensures r.Done? ==> |r.value| == |names|
  {
    var met := Injected(w, mapper, InjectedContext(opts, ctx).value);
    DecideEach(cfg, MapCalls(met.mapper, ListedCalls(names)), met)
  }

  /** What a listing adds to the decision counters. */
  function ListingCount(cfg: EngineConfig, opts: Options, mapper: ContextMapper, names: seq<string>, ctx: McpContext,
                        w: World): nat {
    if !opts.filterListings || names == [] then 0
    else if InjectedContext(opts, ctx).None? then 1
    else if ListingVerdicts(cfg, opts, mapper, names, ctx, w).Cancelled? then 1
    else |names|
  }

  /** For this client the mapper looks at a call's name only. */
  ghost predicate MapsByName(mapper: ContextMapper, injected: RequestContext, byName: string -> Mapped) {
    forall n: nat, call: Call :: mapper(injected, n, call) == byName(call.name)
  }

  /**
   What is listed is what can be called. For a mapper that ignores arguments, a decision point that answers both
   endpoints alike and no cache, a tool is listed exactly when calling it is authorized and nothing in the listing failed.
   */
  lemma ListedMeansCallable(cfg: EngineConfig, opts: Options, mapper: ContextMapper, c: Cache.Entries,
                            names: seq<string>, ctx: McpContext, arguments: Dict, w: World, byName: string -> Mapped,
                            f: Answering, i: nat)
    requires Cache.Ordered(c) && !cfg.cacheEnabled && Deterministic(w.pdp, f) && i < |names|
    requires InjectedContext(opts, ctx).Some? && MapsByName(mapper, InjectedContext(opts, ctx).value, byName)
    requires ListingGroups(opts, mapper, names, ctx, w).Ok?
    ensures var listed := ListingVerdicts(cfg, opts, mapper, names, ctx, w);
      (listed.Done? && Shown(names, listed.value, i))
      <==> (Faultless(f, w.review, Flatten(ListingGroups(opts, mapper, names, ctx, w).value))
            && CallAuthorized(cfg, opts, mapper, c, ctx, Call(names[i], arguments, None), w))
  {
    hide Groups, Flatten, DecideEach, Deterministic, Faultless, CachedGrant, Granted, Decide, Reply;
    var met := Injected(w, mapper, InjectedContext(opts, ctx).value);
    var ms := MapCalls(met.mapper, ListedCalls(names));
    var listed := DecideEach(cfg, ms, met);
    SameDecisionPoint(w, met, f);
    InjectedExact(opts, ctx);
    var call := Call(names[i], arguments, None);
    forall j | 0 <= j < |names| && names[j] == names[i]
      ensures (listed.Done? && IsAllowedGateway(listed.value[j]))
              <==> (Faultless(f, w.review, Flatten(Groups(ms).value)) && CallAuthorized(cfg, opts, mapper, c, ctx, call, w))
    {
      assert ms[j] == met.mapper(j, Call(names[j], [], None)) == byName(names[i]);
      assert MapCalls(met.mapper, [call])[0] == met.mapper(0, call) == byName(names[i]);
      assert MapCalls(met.mapper, [call]) == [ms[j]];
      VisibleMeansCallable(cfg, c, ms, met, f, j);
      MessageFailsClosed(cfg, c, [ms[j]], met);
      CachedGrantIgnoresMapper(cfg, c, w, met);
    }
  }

  /** What the names of a listing map to. */
  function ListingGroups(opts: Options, mapper: ContextMapper, names: seq<string>, ctx: McpContext,
                         w: World): Result<seq<seq<EvaluationRequest>>, Fault>
    requires InjectedContext(opts, ctx).Some?
  {
    Groups(MapCalls(Injected(w, mapper, InjectedContext(opts, ctx).value).mapper, ListedCalls(names)))
  }

  lemma SameDecisionPoint(w: World, met: World, f: Answering)
    requires met.pdp == w.pdp && Deterministic(w.pdp, f)
    ensures Deterministic(met.pdp, f)
  {
  }

  lemma CachedGrantIgnoresMapper(cfg: EngineConfig, c: Cache.Entries, w: World, met: World)
    requires met.lookupAt == w.lookupAt
    ensures forall rs :: CachedGrant(cfg, c, rs, met) == CachedGrant(cfg, c, rs, w)
  {
  }

  // ----- With the default mapper, end to end -----

  /** The server-scoped mapper, told the client's subject, the server label and the enrichment. */
  function McpContextMapper(mapperCfg: Mapping.MapperConfig): ContextMapper {
    (injected: RequestContext, n: nat, call: Call) =>
      Mapping.McpMap(mapperCfg, Some(injected.subject), injected.server, injected.attributes, call)
  }

  /** The one request a tool call stands for: this client, this server's tool, by its normalised name. */
  ghost predicate IsToolRequest(opts: Options, ctx: McpContext, mapperCfg: Mapping.MapperConfig, call: Call,
                          server: Option<string>, request: EvaluationRequest) {
    && ClientIs(opts, ctx, request.subject) && ServerIs(opts, ctx, server) && request.context == ctx.attributes
    && server.Some? && Strip(server.value) != "" && NoSlash(Strip(server.value))
    && NormalizeToolName(call.name) != "" && NoSlash(NormalizeToolName(call.name))
    && request.action == Action(mapperCfg.actionName, [])
    && request.resource.typ == "mcp_tool" && request.resource.id == Strip(server.value) + "/" + NormalizeToolName(call.name)
    && Mapping.CarriesArguments(mapperCfg, call, request.resource.properties)
  }

  lemma ToolRequestExact(opts: Options, ctx: McpContext, mapperCfg: Mapping.MapperConfig, call: Call,
                         injected: RequestContext)
    requires IsInjected(opts, ctx, injected)
    ensures var mapped :=
        Mapping.McpMap(mapperCfg, Some(injected.subject), injected.server, injected.attributes, call);
      && (mapped.One? || mapped == MapFault(ConfigError))
      && (mapped.One? ==> IsToolRequest(opts, ctx, mapperCfg, call, injected.server, mapped.request))
      && forall server, request :: IsToolRequest(opts, ctx, mapperCfg, call, server, request) ==> mapped == One(request)
  {
    hide Strip, NormalizeToolName, Mapping.Arguments, Mapping.CarriesArguments, ClientIs, ServerIs;
    var server := injected.server;
    Mapping.ArgumentsExact(mapperCfg, call);
    if server.Some? {
      McpToolKeyDefined(server.value, call.name);
      NormalizeIdempotent(call.name);
    }
    forall other | ServerIs(opts, ctx, other) ensures other == server {
      ServerExact(opts, ctx);
    }
    forall client | ClientIs(opts, ctx, client) ensures client == injected.subject {
      SubjectExact(opts, ctx);
      assert ResolveSubject(opts, ctx) == Some(client);
      assert ResolveSubject(opts, ctx) == Some(injected.subject);
    }
  }

  /**
   End to end: with the default mapper a tool call is authorized exactly when the client has a subject, the server a
   usable label and the tool a usable name, and the request for that subject and that server's tool was granted or cached.
   */
  lemma ToolCallExact(cfg: EngineConfig, opts: Options, mapperCfg: Mapping.MapperConfig, c: Cache.Entries,
                      ctx: McpContext, call: Call, w: World)
    ensures CallAuthorized(cfg, opts, McpContextMapper(mapperCfg), c, ctx, call, w)
            <==> exists server, request :: IsToolRequest(opts, ctx, mapperCfg, call, server, request)
                   && (CachedGrant(cfg, c, [request], w) || Granted(w.review, [request], Reply(w.pdp, [request])))
  {
    hide CachedGrant, Granted, Reply, IsInjected, IsToolRequest, Mapping.McpMap;
    var mapper := McpContextMapper(mapperCfg);
    InjectedExact(opts, ctx);
    if InjectedContext(opts, ctx).Some? {
      var injected := InjectedContext(opts, ctx).value;
      ToolRequestExact(opts, ctx, mapperCfg, call, injected);
      OneCallAuthorized(cfg, mapper, c, injected, call, w);
    } else {
      NobodyAsks(opts, ctx, mapperCfg, call);
    }
  }

  lemma NobodyAsks(opts: Options, ctx: McpContext, mapperCfg: Mapping.MapperConfig, call: Call)
    requires InjectedContext(opts, ctx).None?
    ensures forall server, request :: !IsToolRequest(opts, ctx, mapperCfg, call, server, request)
  {
    hide ClientIs, ServerIs, Strip, NormalizeToolName, Mapping.CarriesArguments;
    SubjectExact(opts, ctx);
    forall client ensures !ClientIs(opts, ctx, client) {
      assert ResolveSubject(opts, ctx) != Some(client);
    }
  }

  /** For a mapper that returns one request or raises. */
  lemma OneCallAuthorized(cfg: EngineConfig, mapper: ContextMapper, c: Cache.Entries, injected: RequestContext,
                          call: Call, w: World)
    requires mapper(injected, 0, call).One? || mapper(injected, 0, call).MapFault?
    ensures MappedAuthorized(cfg, mapper, c, injected, call, w) <==>
      mapper(injected, 0, call).One? &&
      var rs := [mapper(injected, 0, call).request];
      (CachedGrant(cfg, c, rs, w) || Granted(w.review, rs, Reply(w.pdp, rs)))
  {
    hide CachedGrant, Granted, Reply, Groups, Flatten;
    var mapped := mapper(injected, 0, call);
    var ms := MapCalls(Injected(w, mapper, injected).mapper, [call]);
    assert ms == [mapped];
    if mapped.One? {
      GroupsOfOne(mapped);
    } else {
      GroupsOfFault(mapped);
    }
  }

  /** Clients with different subject claims are never asked about as one, whatever client their tokens were issued to. */
  lemma ClaimsAreToldApart(opts: Options, a: McpContext, b: McpContext, x: Subject, y: Subject)
    requires a.identity.Bearer? && Usable(a.identity.token.claim) && ClientIs(opts, a, x)
    requires b.identity.Bearer? && Usable(b.identity.token.claim) && ClientIs(opts, b, y)
    requires SameSubject(x, y)
    ensures a.identity.token.claim == b.identity.token.claim
  {
  }

  /** Different accesses of one client never share a request: URIs and prompt names are kept verbatim. */
  lemma AccessesAreToldApart(opts: Options, ctx: McpContext, a: Asked, b: Asked)
    requires ShapedRequest(opts, ctx, a).Some? && ShapedRequest(opts, ctx, b).Some?
    ensures SameRequest(ShapedRequest(opts, ctx, a).value, ShapedRequest(opts, ctx, b).value) <==> a == b
  {
    if a.PromptGet? && b.PromptGet? {
      PromptKeyExact(ServerLabel(opts, ctx), a.name, ServerLabel(opts, ctx), b.name);
    }
  }

  /** A verified token outranks anything the host injects, and is never downgraded to a fallback. */
  lemma TokenOutranksHost(opts: Options, ctx: McpContext, host: Option<Subject>)
    requires ctx.identity.Bearer?
    ensures ResolveSubject(opts, ctx.(host := host)) == ResolveSubject(opts, ctx)
    ensures ResolveSubject(opts, ctx).None?
            <==> !Usable(ctx.identity.token.claim) && !(opts.allowWorkloadSubject && Usable(ctx.identity.token.clientId))
  {
  }

  /**
   A workload subject is a verified client without a subject claim, opted in, or the host's own choice; never
   configuration.
   */
  lemma WorkloadIsVerified(opts: Options, ctx: McpContext)
    requires opts.Valid() && ResolveSubject(opts, ctx).Some? && ResolveSubject(opts, ctx).value.typ == "workload"
    ensures (ctx.identity.Bearer? && opts.allowWorkloadSubject && !Usable(ctx.identity.token.claim)
             && Some(ResolveSubject(opts, ctx).value.id) == ctx.identity.token.clientId)
            || (ctx.identity.NoToken? && ctx.host == ResolveSubject(opts, ctx))
  {
  }
}
