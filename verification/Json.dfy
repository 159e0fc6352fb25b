/**
 JSON documents as a parser meets them (an object is a list of members, a key may repeat),
 the Python values they load to, and the strict reader of `src/apparitor/client.py`.
 */
module Json {
  import opened Wrappers

  datatype Json =
    | Null
    | Bool(b: bool)
    | Num(n: int)
    | Str(s: string)
    | Arr(items: seq<Json>)
    | Obj(members: seq<Member>)

  datatype Member = Member(key: string, val: Json)

  /** A loaded value; a Python dictionary compares as a map. */
  datatype Value =
    | VNull
    | VBool(b: bool)
    | VNum(n: int)
    | VStr(s: string)
    | VArr(items: seq<Value>)
    | VObj(m: map<string, Value>)

  predicate DistinctKeys(ms: seq<Member>) {
    forall i, j :: 0 <= i < j < |ms| ==> ms[i].key != ms[j].key
  }

  /** No object at any depth repeats a key; two sibling objects may share keys. */
  predicate NoRepeats(d: Json) {
    match d
    case Arr(items) => forall i :: 0 <= i < |items| ==> NoRepeats(items[i])
    case Obj(ms) => DistinctKeys(ms) && forall i :: 0 <= i < |ms| ==> NoRepeats(ms[i].val)
    case _ => true
  }

  // ----- The default reader: the last of two equal keys wins -----

  function Load(d: Json): Value {
    match d
    case Null => VNull
    case Bool(b) => VBool(b)
    case Num(n) => VNum(n)
    case Str(s) => VStr(s)
    case Arr(items) => VArr(seq(|items|, i requires 0 <= i < |items| => Load(items[i])))
    case Obj(ms) => VObj(LoadMembers(ms))
  }

  function LoadMembers(ms: seq<Member>): map<string, Value> {
    if |ms| == 0 then map[] else
    LoadMembers(ms[..|ms| - 1])[ms[|ms| - 1].key := Load(ms[|ms| - 1].val)]
  }

  lemma {:induction false} LoadMembersKeys(ms: seq<Member>)
    ensures forall k :: k in LoadMembers(ms) <==> exists i :: 0 <= i < |ms| && ms[i].key == k
  {
    if |ms| > 0 {
      var front := ms[..|ms| - 1];
      LoadMembersKeys(front);
      forall k ensures k in LoadMembers(ms) <==> exists i :: 0 <= i < |ms| && ms[i].key == k {
        if k in LoadMembers(front) {
          var i :| 0 <= i < |front| && front[i].key == k;
          assert ms[i].key == k;
        }
        if i :| 0 <= i < |ms| && ms[i].key == k {
          assert i < |front| ==> front[i].key == k;
        }
      }
    }
  }

  /** The default reader keeps the last of the members that share a key. */
  lemma {:induction false} LastMemberWins(ms: seq<Member>, i: nat)
    requires i < |ms| && forall j :: i < j < |ms| ==> ms[j].key != ms[i].key
    ensures ms[i].key in LoadMembers(ms) && LoadMembers(ms)[ms[i].key] == Load(ms[i].val)
  {
    if i < |ms| - 1 {
      LastMemberWins(ms[..|ms| - 1], i);
    }
  }

  /** With distinct keys every member is found under its own key. */
  lemma {:induction false} LoadMembersAt(ms: seq<Member>, i: nat)
    requires DistinctKeys(ms) && i < |ms|
    ensures ms[i].key in LoadMembers(ms) && LoadMembers(ms)[ms[i].key] == Load(ms[i].val)
  {
    if i < |ms| - 1 {
      LoadMembersAt(ms[..|ms| - 1], i);
    }
  }

  /** The document is an object that gives `key` the literal boolean `b`, and gives it once. */
  predicate Says(d: Json, key: string, b: bool) {
    d.Obj? && DistinctKeys(d.members) && Member(key, Bool(b)) in d.members
  }

  lemma SaysExact(d: Json, key: string, b: bool)
    requires NoRepeats(d)
    ensures Says(d, key, b) <==> Load(d).VObj? && key in Load(d).m && Load(d).m[key] == VBool(b)
  {
    if d.Obj? {
      LoadMembersKeys(d.members);
      if Says(d, key, b) {
        var i :| 0 <= i < |d.members| && d.members[i] == Member(key, Bool(b));
        LoadMembersAt(d.members, i);
      } else if key in LoadMembers(d.members) {
        var i :| 0 <= i < |d.members| && d.members[i].key == key;
        LoadMembersAt(d.members, i);
        assert d.members[i] == Member(key, d.members[i].val);
      }
    }
  }

  /** The document is an object that gives `key` the value `v`, and gives it once. */
  predicate Gives(d: Json, key: string, v: Json) {
    d.Obj? && DistinctKeys(d.members) && Member(key, v) in d.members
  }

  predicate Lacks(d: Json, key: string) {
    d.Obj? && forall i :: 0 <= i < |d.members| ==> d.members[i].key != key
  }

  /** What an object without repeats holds under a key is what its member loads to. */
  lemma MemberExact(d: Json, key: string)
    requires NoRepeats(d) && d.Obj?
    ensures key !in LoadMembers(d.members) <==> Lacks(d, key)
    ensures forall v :: Gives(d, key, v) ==> key in LoadMembers(d.members) && LoadMembers(d.members)[key] == Load(v)
    ensures key in LoadMembers(d.members) ==> exists v :: Gives(d, key, v)
  {
    LoadMembersKeys(d.members);
    forall v | Gives(d, key, v) ensures key in LoadMembers(d.members) && LoadMembers(d.members)[key] == Load(v) {
      var i :| 0 <= i < |d.members| && d.members[i] == Member(key, v);
      LoadMembersAt(d.members, i);
    }
    if key in LoadMembers(d.members) {
      var i :| 0 <= i < |d.members| && d.members[i].key == key;
      assert d.members[i] == Member(key, d.members[i].val);
      assert Gives(d, key, d.members[i].val);
    }
  }

  // ----- The strict reader -----

  function FromPairs(pairs: seq<(string, Value)>): map<string, Value> {
    if |pairs| == 0 then map[] else FromPairs(pairs[..|pairs| - 1])[pairs[|pairs| - 1].0 := pairs[|pairs| - 1].1]
  }

  predicate DistinctPairs(pairs: seq<(string, Value)>) {
    forall i, j :: 0 <= i < j < |pairs| ==> pairs[i].0 != pairs[j].0
  }

  function Hook(pairs: seq<(string, Value)>): Result<map<string, Value>, Fault> {
    if DistinctPairs(pairs) then Ok(FromPairs(pairs)) else Err(Malformed)
  }

  /** The duplicate-key hook: fills a fresh dictionary and refuses the first key it already holds. */
  method RejectDuplicates(pairs: seq<(string, Value)>) returns (r: Result<map<string, Value>, Fault>)
    ensures r.Ok? <==> forall i, j :: 0 <= i < j < |pairs| ==> pairs[i].0 != pairs[j].0
    ensures r.Ok? ==> forall i :: 0 <= i < |pairs| ==> pairs[i].0 in r.value && r.value[pairs[i].0] == pairs[i].1
    ensures r.Ok? ==> forall k :: k in r.value ==> exists i :: 0 <= i < |pairs| && pairs[i].0 == k
    ensures r.Err? ==> r.error == Malformed
    ensures r == Hook(pairs)
  {
    var result := map[];
    for n := 0 to |pairs|
      invariant DistinctPairs(pairs[..n])
      invariant result == FromPairs(pairs[..n])
    {
      var key := pairs[n].0;
      FromPairsKeys(pairs[..n]);
      if key in result {
        var i :| 0 <= i < n && pairs[..n][i].0 == key;
        assert pairs[i].0 == pairs[n].0;
        return Err(Malformed);
      }
      assert forall i :: 0 <= i < n ==> pairs[..n][i].0 != key;
      result := result[key := pairs[n].1];
      assert pairs[..n + 1][..n] == pairs[..n];
    }
    assert pairs[..|pairs|] == pairs;
    FromPairsKeys(pairs);
    forall i | 0 <= i < |pairs| ensures pairs[i].0 in result && result[pairs[i].0] == pairs[i].1 {
      FromPairsAt(pairs, i);
    }
    r := Ok(result);
  }

  lemma {:induction false} FromPairsKeys(pairs: seq<(string, Value)>)
    ensures forall k :: k in FromPairs(pairs) <==> exists i :: 0 <= i < |pairs| && pairs[i].0 == k
  {
    if |pairs| > 0 {
      var front := pairs[..|pairs| - 1];
      FromPairsKeys(front);
      forall k ensures k in FromPairs(pairs) <==> exists i :: 0 <= i < |pairs| && pairs[i].0 == k {
        if k in FromPairs(front) {
          var i :| 0 <= i < |front| && front[i].0 == k;
          assert pairs[i].0 == k;
        }
        if i :| 0 <= i < |pairs| && pairs[i].0 == k {
          assert i < |front| ==> front[i].0 == k;
        }
      }
    }
  }

  lemma {:induction false} FromPairsAt(pairs: seq<(string, Value)>, i: nat)
    requires DistinctPairs(pairs) && i < |pairs|
    ensures pairs[i].0 in FromPairs(pairs) && FromPairs(pairs)[pairs[i].0] == pairs[i].1
  {
    if i < |pairs| - 1 {
      FromPairsAt(pairs[..|pairs| - 1], i);
    }
  }

  /** `json.loads` with the hook called on each object once its members are read. */
  function StrictLoad(d: Json): Result<Value, Fault> {
    match d
    case Arr(items) => var vs :- StrictItems(items); Ok(VArr(vs))
    case Obj(ms) => var pairs :- StrictMembers(ms); var m :- Hook(pairs); Ok(VObj(m))
    case _ => Ok(Load(d))
  }

  function StrictItems(items: seq<Json>): Result<seq<Value>, Fault> {
    if |items| == 0 then Ok([]) else
    var front :- StrictItems(items[..|items| - 1]);
    var last :- StrictLoad(items[|items| - 1]);
    Ok(front + [last])
  }

  function StrictMembers(ms: seq<Member>): Result<seq<(string, Value)>, Fault> {
    if |ms| == 0 then Ok([]) else
    var front :- StrictMembers(ms[..|ms| - 1]);
    var last :- StrictLoad(ms[|ms| - 1].val);
    Ok(front + [(ms[|ms| - 1].key, last)])
  }

  /** A body that is not JSON at all and a body that repeats a key are the same malformed response. */
  function StrictJson(body: Option<Json>): Result<Value, Fault> {
    match body
    case None => Err(Malformed)
    case Some(d) => StrictLoad(d)
  }

  function LoadItems(items: seq<Json>): (vs: seq<Value>)
    ensures |vs| == |items|
  {
    seq(|items|, i requires 0 <= i < |items| => Load(items[i]))
  }

  function LoadPairs(ms: seq<Member>): (pairs: seq<(string, Value)>)
    ensures |pairs| == |ms|
  {
    seq(|ms|, i requires 0 <= i < |ms| => (ms[i].key, Load(ms[i].val)))
  }

  lemma {:induction false} StrictItemsExact(items: seq<Json>)
    ensures StrictItems(items)
         == if forall i :: 0 <= i < |items| ==> NoRepeats(items[i]) then Ok(LoadItems(items)) else Err(Malformed)
    decreases items
  {
    if |items| > 0 {
      var front, last := items[..|items| - 1], items[|items| - 1];
      StrictItemsExact(front);
      StrictReaderExact(last);
      assert forall i :: 0 <= i < |front| ==> front[i] == items[i];
      assert LoadItems(items) == LoadItems(front) + [Load(last)];
      if NoRepeats(last) && forall i :: 0 <= i < |front| ==> NoRepeats(front[i]) {
        assert forall i :: 0 <= i < |items| ==> i < |front| || items[i] == last;
      }
    }
  }

  lemma {:induction false} StrictMembersExact(ms: seq<Member>)
    ensures StrictMembers(ms)
         == if forall i :: 0 <= i < |ms| ==> NoRepeats(ms[i].val) then Ok(LoadPairs(ms)) else Err(Malformed)
    decreases ms
  {
    if |ms| > 0 {
      var front, last := ms[..|ms| - 1], ms[|ms| - 1];
      StrictMembersExact(front);
      StrictReaderExact(last.val);
      assert forall i :: 0 <= i < |front| ==> front[i] == ms[i];
      assert LoadPairs(ms) == LoadPairs(front) + [(last.key, Load(last.val))];
      if NoRepeats(last.val) && forall i :: 0 <= i < |front| ==> NoRepeats(front[i].val) {
        assert forall i :: 0 <= i < |ms| ==> i < |front| || ms[i] == last;
      }
    }
  }

  lemma {:induction false} FromPairsIsLoadMembers(ms: seq<Member>)
    ensures FromPairs(LoadPairs(ms)) == LoadMembers(ms)
  {
    if |ms| > 0 {
      FromPairsIsLoadMembers(ms[..|ms| - 1]);
      assert LoadPairs(ms)[..|ms| - 1] == LoadPairs(ms[..|ms| - 1]);
    }
  }

  /** The strict reader accepts exactly the documents that repeat no key, and then loads them as the default one. */
  lemma {:induction false} StrictReaderExact(d: Json)
    ensures StrictLoad(d) == if NoRepeats(d) then Ok(Load(d)) else Err(Malformed)
    decreases d
  {
    match d
    case Arr(items) => StrictItemsExact(items);
    case Obj(ms) =>
      StrictMembersExact(ms);
      if forall i :: 0 <= i < |ms| ==> NoRepeats(ms[i].val) {
        assert forall i :: 0 <= i < |ms| ==> LoadPairs(ms)[i].0 == ms[i].key;
        FromPairsIsLoadMembers(ms);
      }
    case _ =>
  }

  // ----- Order of members -----

  predicate Permutes(p: seq<nat>, n: nat) {
    && |p| == n
    && (forall i :: 0 <= i < n ==> p[i] < n)
    && (forall i, j :: 0 <= i < j < n ==> p[i] != p[j])
    && (forall x :: 0 <= x < n ==> x in p)
  }

  /** Member `i` of `ms` is named like member `p[i]` of `ns`. */
  predicate SameNames(ms: seq<Member>, ns: seq<Member>, p: seq<nat>) {
    && |ns| == |ms|
    && Permutes(p, |ms|)
    && forall i :: 0 <= i < |ms| ==> ms[i].key == ns[p[i]].key
  }

  /** `b` is `a` with the members of its objects permuted, at any depth. */
  ghost predicate Reordered(a: Json, b: Json) {
    match a
    case Arr(xs) => b.Arr? && |b.items| == |xs| && forall i :: 0 <= i < |xs| ==> Reordered(xs[i], b.items[i])
    case Obj(ms) =>
      b.Obj? &&
      exists p :: SameNames(ms, b.members, p) &&
        forall i :: 0 <= i < |ms| ==> Reordered(ms[i].val, b.members[p[i]].val)
    case _ => a == b
  }

  lemma SameNamesDistinct(ms: seq<Member>, ns: seq<Member>, p: seq<nat>)
    requires SameNames(ms, ns, p)
    ensures DistinctKeys(ms) <==> DistinctKeys(ns)
  {
    if DistinctKeys(ns) {
      forall i, j | 0 <= i < j < |ms| ensures ms[i].key != ms[j].key {
        assert ns[p[i]].key != ns[p[j]].key;
      }
    }
    if DistinctKeys(ms) {
      forall x, y | 0 <= x < y < |ns| ensures ns[x].key != ns[y].key {
        assert x in p && y in p;
        var i :| 0 <= i < |p| && p[i] == x;
        var j :| 0 <= j < |p| && p[j] == y;
        assert ms[i].key != ms[j].key;
      }
    }
  }

  lemma {:induction false} ReorderedKeepsNoRepeats(a: Json, b: Json)
    requires Reordered(a, b)
    ensures NoRepeats(a) <==> NoRepeats(b)
  {
    match a
    case Arr(xs) =>
      forall i | 0 <= i < |xs| ensures NoRepeats(xs[i]) <==> NoRepeats(b.items[i]) {
        ReorderedKeepsNoRepeats(xs[i], b.items[i]);
      }
    case Obj(ms) =>
      var ns := b.members;
      var p :| SameNames(ms, ns, p) && forall i :: 0 <= i < |ms| ==> Reordered(ms[i].val, ns[p[i]].val);
      SameNamesDistinct(ms, ns, p);
      forall i | 0 <= i < |ms| ensures NoRepeats(ms[i].val) <==> NoRepeats(ns[p[i]].val) {
        ReorderedKeepsNoRepeats(ms[i].val, ns[p[i]].val);
      }
      if NoRepeats(a) {
        forall x | 0 <= x < |ns| ensures NoRepeats(ns[x].val) {
          assert x in p;
        }
      }
    case _ =>
  }

  lemma {:induction false} ReorderedLoadsEqual(a: Json, b: Json)
    requires Reordered(a, b) && NoRepeats(a)
    ensures Load(a) == Load(b)
  {
    ReorderedKeepsNoRepeats(a, b);
    match a
    case Arr(xs) =>
      forall i | 0 <= i < |xs| ensures Load(xs[i]) == Load(b.items[i]) {
        ReorderedLoadsEqual(xs[i], b.items[i]);
      }
    case Obj(ms) =>
      var ns := b.members;
      var p :| SameNames(ms, ns, p) && forall i :: 0 <= i < |ms| ==> Reordered(ms[i].val, ns[p[i]].val);
      forall i | 0 <= i < |ms| ensures Load(ms[i].val) == Load(ns[p[i]].val) {
        ReorderedLoadsEqual(ms[i].val, ns[p[i]].val);
      }
      MatchedMembersLoadEqual(ms, ns, p);
    case _ =>
  }

  lemma MatchedMembersLoadEqual(ms: seq<Member>, ns: seq<Member>, p: seq<nat>)
    requires SameNames(ms, ns, p) && DistinctKeys(ms) && DistinctKeys(ns)
    requires forall i :: 0 <= i < |ms| ==> Load(ms[i].val) == Load(ns[p[i]].val)
    ensures LoadMembers(ms) == LoadMembers(ns)
  {
    LoadMembersKeys(ms);
    LoadMembersKeys(ns);
    forall k ensures k in LoadMembers(ms) <==> k in LoadMembers(ns) {
      if i :| 0 <= i < |ms| && ms[i].key == k {
        assert ns[p[i]].key == k;
      }
      if j :| 0 <= j < |ns| && ns[j].key == k {
        assert j in p;
        var i :| 0 <= i < |p| && p[i] == j;
        assert ms[i].key == k;
      }
    }
    forall k | k in LoadMembers(ms) ensures LoadMembers(ms)[k] == LoadMembers(ns)[k] {
      var i :| 0 <= i < |ms| && ms[i].key == k;
      LoadMembersAt(ms, i);
      LoadMembersAt(ns, p[i]);
    }
  }

  /** Permuting members at any depth changes neither acceptance nor the accepted value. */
  lemma StrictReaderIgnoresOrder(a: Json, b: Json)
    requires Reordered(a, b)
    ensures StrictLoad(a) == StrictLoad(b)
  {
    StrictReaderExact(a);
    StrictReaderExact(b);
    ReorderedKeepsNoRepeats(a, b);
    if NoRepeats(a) {
      ReorderedLoadsEqual(a, b);
    }
  }
}
