/**
 The AuthZEN request and response models of `src/apparitor/models.py` and their wire form.
 A Python dictionary of JSON values is a member list without repeated keys.
 */
module Models {
  import opened Wrappers
  import opened Json
  import CanonicalText

  type Dict = seq<Member>

  datatype Subject = Subject(typ: string, id: string, properties: Dict)

  datatype Action = Action(name: string, properties: Dict)

  datatype Resource = Resource(typ: string, id: string, properties: Dict)

  datatype EvaluationRequest =
    EvaluationRequest(subject: Subject, action: Action, resource: Resource, context: Option<Dict>)

  /** The context of a response is a loaded dictionary. */
  datatype EvaluationResponse = EvaluationResponse(decision: bool, context: Option<map<string, Value>>)

  datatype EvaluationItem =
    EvaluationItem(subject: Option<Subject>, action: Option<Action>, resource: Option<Resource>, context: Option<Dict>)

  /** The `execute_all` options are the same for every batch the engine sends and are not carried. */
  datatype BatchRequest =
    BatchRequest(subject: Option<Subject>, action: Option<Action>, resource: Option<Resource>, context: Option<Dict>,
                 evaluations: seq<EvaluationItem>)

  // ----- Wire form: absent optional fields are dropped -----

  function DumpSubject(s: Subject): Json {
    Obj([Member("type", Str(s.typ)), Member("id", Str(s.id)), Member("properties", Obj(s.properties))])
  }

  function DumpAction(a: Action): Json {
    Obj([Member("name", Str(a.name)), Member("properties", Obj(a.properties))])
  }

  function DumpResource(r: Resource): Json {
    Obj([Member("type", Str(r.typ)), Member("id", Str(r.id)), Member("properties", Obj(r.properties))])
  }

  function DumpRequest(r: EvaluationRequest): Json {
    Obj([Member("subject", DumpSubject(r.subject)), Member("action", DumpAction(r.action)),
         Member("resource", DumpResource(r.resource))]
        + if r.context.Some? then [Member("context", Obj(r.context.value))] else [])
  }

  /** A subject or a resource on the wire: its three fields by name, and nothing else. */
  predicate IsTyped(v: Value, typ: string, id: string, properties: Dict) {
    && v.VObj? && v.m.Keys == {"type", "id", "properties"}
    && v.m["type"] == VStr(typ) && v.m["id"] == VStr(id) && v.m["properties"] == VObj(LoadMembers(properties))
  }

  predicate IsVerb(v: Value, name: string, properties: Dict) {
    && v.VObj? && v.m.Keys == {"name", "properties"}
    && v.m["name"] == VStr(name) && v.m["properties"] == VObj(LoadMembers(properties))
  }

  /** The text the cache key digests. */
  function KeyText(r: EvaluationRequest): string {
    CanonicalText.Dumps(DumpRequest(r))
  }

  lemma KeysAre(ms: seq<Member>, keys: set<string>)
    requires forall i :: 0 <= i < |ms| ==> ms[i].key in keys
    requires forall key :: key in keys ==> exists i :: 0 <= i < |ms| && ms[i].key == key
    ensures LoadMembers(ms).Keys == keys
  {
    hide LoadMembers;
    LoadMembersKeys(ms);
  }

  lemma TypedLoads(typ: string, id: string, properties: Dict)
    ensures IsTyped(Load(Obj([Member("type", Str(typ)), Member("id", Str(id)), Member("properties", Obj(properties))])),
                    typ, id, properties)
  {
    hide LoadMembers;
    var ms := [Member("type", Str(typ)), Member("id", Str(id)), Member("properties", Obj(properties))];
    assert ms[0].key == "type" && ms[1].key == "id" && ms[2].key == "properties";
    KeysAre(ms, {"type", "id", "properties"});
    LoadMembersAt(ms, 0);
    LoadMembersAt(ms, 1);
    LoadMembersAt(ms, 2);
  }

  lemma VerbLoads(name: string, properties: Dict)
    ensures IsVerb(Load(Obj([Member("name", Str(name)), Member("properties", Obj(properties))])), name, properties)
  {
    hide LoadMembers;
    var ms := [Member("name", Str(name)), Member("properties", Obj(properties))];
    assert ms[0].key == "name" && ms[1].key == "properties";
    KeysAre(ms, {"name", "properties"});
    LoadMembersAt(ms, 0);
    LoadMembersAt(ms, 1);
  }

  /** The body of a request says what the request says: three entities and, when there is one, the context. */
  lemma WireFormExact(r: EvaluationRequest)
    ensures var v := Load(DumpRequest(r));
      && v.VObj? && v.m.Keys == {"subject", "action", "resource"} + (if r.context.Some? then {"context"} else {})
      && IsTyped(v.m["subject"], r.subject.typ, r.subject.id, r.subject.properties)
      && IsVerb(v.m["action"], r.action.name, r.action.properties)
      && IsTyped(v.m["resource"], r.resource.typ, r.resource.id, r.resource.properties)
      && (r.context.Some? ==> v.m["context"] == VObj(LoadMembers(r.context.value)))
  {
    hide LoadMembers, IsTyped, IsVerb;
    var ms := DumpRequest(r).members;
    assert ms[0].key == "subject" && ms[1].key == "action" && ms[2].key == "resource";
    if r.context.Some? {
      assert ms[3].key == "context";
    }
    KeysAre(ms, {"subject", "action", "resource"} + (if r.context.Some? then {"context"} else {}));
    LoadMembersAt(ms, 0);
    LoadMembersAt(ms, 1);
    LoadMembersAt(ms, 2);
    if r.context.Some? {
      LoadMembersAt(ms, 3);
    }
    TypedLoads(r.subject.typ, r.subject.id, r.subject.properties);
    VerbLoads(r.action.name, r.action.properties);
    TypedLoads(r.resource.typ, r.resource.id, r.resource.properties);
  }

  // ----- Equality of requests -----

  ghost predicate SameDict(a: Dict, b: Dict) {
    Load(Obj(a)) == Load(Obj(b))
  }

  ghost predicate SameSubject(a: Subject, b: Subject) {
    a.typ == b.typ && a.id == b.id && SameDict(a.properties, b.properties)
  }

  /** Equality of two requests as JSON values: objects compare as mappings, and true is not the number 1. */
  ghost predicate SameRequest(a: EvaluationRequest, b: EvaluationRequest) {
    && SameSubject(a.subject, b.subject)
    && a.action.name == b.action.name && SameDict(a.action.properties, b.action.properties)
    && a.resource.typ == b.resource.typ && a.resource.id == b.resource.id
    && SameDict(a.resource.properties, b.resource.properties)
    && (a.context.Some? <==> b.context.Some?)
    && (a.context.Some? ==> SameDict(a.context.value, b.context.value))
  }

  /** What every Python dictionary satisfies, at any depth. */
  predicate WellFormed(r: EvaluationRequest) {
    && NoRepeats(Obj(r.subject.properties))
    && NoRepeats(Obj(r.action.properties))
    && NoRepeats(Obj(r.resource.properties))
    && (r.context.Some? ==> NoRepeats(Obj(r.context.value)))
  }

  lemma DumpNoRepeats(r: EvaluationRequest)
    requires WellFormed(r)
    ensures NoRepeats(DumpRequest(r))
  {
    assert NoRepeats(DumpSubject(r.subject));
    assert NoRepeats(DumpAction(r.action));
    assert NoRepeats(DumpResource(r.resource));
  }

  /** Members listed in the same order under the same distinct keys load equal exactly when they do one by one. */
  lemma LoadEqualPointwise(xs: seq<Member>, ys: seq<Member>)
    requires |xs| == |ys| && DistinctKeys(xs)
    requires forall i :: 0 <= i < |xs| ==> xs[i].key == ys[i].key
    ensures Load(Obj(xs)) == Load(Obj(ys)) <==> forall i :: 0 <= i < |xs| ==> Load(xs[i].val) == Load(ys[i].val)
  {
    assert DistinctKeys(ys);
    if Load(Obj(xs)) == Load(Obj(ys)) {
      assert LoadMembers(xs) == LoadMembers(ys);
      forall i | 0 <= i < |xs| ensures Load(xs[i].val) == Load(ys[i].val) {
        LoadMembersAt(xs, i);
        LoadMembersAt(ys, i);
      }
    } else if forall i :: 0 <= i < |xs| ==> Load(xs[i].val) == Load(ys[i].val) {
      CanonicalText.LoadPointwise(xs, ys);
    }
  }

  lemma DumpSubjectExact(a: Subject, b: Subject)
    ensures Load(DumpSubject(a)) == Load(DumpSubject(b)) <==> SameSubject(a, b)
  {
    var xs, ys := DumpSubject(a).members, DumpSubject(b).members;
    LoadEqualPointwise(xs, ys);
    assert xs[0].val == Str(a.typ) && xs[1].val == Str(a.id) && xs[2].val == Obj(a.properties);
    assert ys[0].val == Str(b.typ) && ys[1].val == Str(b.id) && ys[2].val == Obj(b.properties);
  }

  lemma DumpActionExact(a: Action, b: Action)
    ensures Load(DumpAction(a)) == Load(DumpAction(b)) <==> a.name == b.name && SameDict(a.properties, b.properties)
  {
    var xs, ys := DumpAction(a).members, DumpAction(b).members;
    LoadEqualPointwise(xs, ys);
    assert xs[0].val == Str(a.name) && xs[1].val == Obj(a.properties);
    assert ys[0].val == Str(b.name) && ys[1].val == Obj(b.properties);
  }

  lemma DumpResourceExact(a: Resource, b: Resource)
    ensures Load(DumpResource(a)) == Load(DumpResource(b))
            <==> a.typ == b.typ && a.id == b.id && SameDict(a.properties, b.properties)
  {
    DumpSubjectExact(Subject(a.typ, a.id, a.properties), Subject(b.typ, b.id, b.properties));
  }

  lemma DumpRequestExact(a: EvaluationRequest, b: EvaluationRequest)
    ensures Load(DumpRequest(a)) == Load(DumpRequest(b)) <==> SameRequest(a, b)
  {
    hide Load, LoadMembers, SameDict, SameSubject, DumpSubject, DumpAction, DumpResource;
    DumpSubjectExact(a.subject, b.subject);
    DumpActionExact(a.action, b.action);
    DumpResourceExact(a.resource, b.resource);
    if a.context.Some? != b.context.Some? {
      ContextPresence(a, b);
    } else {
      var xs, ys := DumpRequest(a).members, DumpRequest(b).members;
      LoadEqualPointwise(xs, ys);
      assert xs[0].val == DumpSubject(a.subject) && xs[1].val == DumpAction(a.action) && xs[2].val == DumpResource(a.resource);
      assert ys[0].val == DumpSubject(b.subject) && ys[1].val == DumpAction(b.action) && ys[2].val == DumpResource(b.resource);
      if a.context.Some? {
        assert xs[3].val == Obj(a.context.value) && ys[3].val == Obj(b.context.value);
        DictExact(a.context.value, b.context.value);
      }
    }
  }

  lemma DictExact(a: Dict, b: Dict)
    ensures Load(Obj(a)) == Load(Obj(b)) <==> SameDict(a, b)
  {
  }

  lemma ContextPresence(a: EvaluationRequest, b: EvaluationRequest)
    requires a.context.Some? != b.context.Some?
    ensures Load(DumpRequest(a)) != Load(DumpRequest(b))
  {
    LoadMembersKeys(DumpRequest(a).members);
    LoadMembersKeys(DumpRequest(b).members);
    var r := if a.context.Some? then a else b;
    assert DumpRequest(r).members[3].key == "context";
    assert "context" in LoadMembers(DumpRequest(r).members);
  }

  /**
   The cache-key text identifies requests: equal text exactly for equal requests, however their dictionaries are
   ordered.
   */
  lemma KeyTextIdentifiesRequests(a: EvaluationRequest, b: EvaluationRequest)
    requires WellFormed(a) && WellFormed(b)
    ensures KeyText(a) == KeyText(b) <==> SameRequest(a, b)
  {
    DumpNoRepeats(a);
    DumpNoRepeats(b);
    CanonicalText.DumpsInjective(DumpRequest(a), DumpRequest(b));
    DumpRequestExact(a, b);
  }
}
