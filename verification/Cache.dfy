/** The ALLOW-only decision cache of `src/apparitor/cache.py`. */
module Cache {
  import opened Wrappers

  type Key = string

  /** The cache contents: a dictionary of expiry times with its insertion order. */
  datatype Entries = Entries(order: seq<Key>, expiry: map<Key, real>)

  const EMPTY := Entries([], map[])

  predicate Distinct(ks: seq<Key>) {
    forall i, j :: 0 <= i < j < |ks| ==> ks[i] != ks[j]
  }

  ghost predicate Ordered(c: Entries) {
    && Distinct(c.order)
    && (forall k :: k in c.order <==> k in c.expiry)
  }

  function Without(ks: seq<Key>, key: Key): (r: seq<Key>)
    ensures forall k :: k in r <==> k in ks && k != key
    ensures Distinct(ks) ==> Distinct(r)
  {
    if |ks| == 0 then [] else
    var rest := Without(ks[1..], key);
    assert Distinct(ks) ==> ks[0] !in rest;
    if ks[0] == key then rest else [ks[0]] + rest
  }

  function Delete(c: Entries, key: Key): Entries {
    Entries(Without(c.order, key), c.expiry - {key})
  }

  predicate Hit(c: Entries, key: Key, now: real) {
    key in c.expiry && now < c.expiry[key]
  }

  /** What a lookup leaves behind: an expired entry is deleted when it is met. */
  function AfterGet(c: Entries, key: Key, now: real): Entries {
    if key in c.expiry && c.expiry[key] <= now then Delete(c, key) else c
  }

  /** Overwriting keeps a key's place in the order; a new key goes last, after one eviction when full. */
  function AfterSet(c: Entries, key: Key, ttl: real, cap: nat, now: real): Entries
    requires cap > 0 && Ordered(c)
  {
    if ttl <= 0.0 then c
    else if key in c.expiry then Entries(c.order, c.expiry[key := now + ttl])
    else
      var room := if |c.order| >= cap then Delete(c, c.order[0]) else c;
      Entries(room.order + [key], room.expiry[key := now + ttl])
  }

  function Min(a: real, b: real): real {
    if a <= b then a else b
  }

  class DecisionCache {
    const ttlS: real
    const maxTtlS: real
    const maxEntries: nat
    var order: seq<Key>
    var expiry: map<Key, real>

    ghost predicate Valid()
      reads this
    {
      maxEntries > 0 && Ordered(Contents()) && |order| <= maxEntries
    }

    ghost function Contents(): Entries
      reads this
    {
      Entries(order, expiry)
    }

    constructor (ttlS: real, maxTtlS: real, maxEntries: int)
      ensures Valid() && Contents() == EMPTY
      ensures this.ttlS == (if ttlS < maxTtlS then ttlS else maxTtlS) && this.maxTtlS == maxTtlS
      ensures this.maxEntries == if maxEntries < 1 then 1 else maxEntries
    {
      this.ttlS := Min(ttlS, maxTtlS);
      this.maxTtlS := maxTtlS;
      this.maxEntries := if maxEntries < 1 then 1 else maxEntries;
      order, expiry := [], map[];
    }

    method Get(key: Key, now: real) returns (hit: bool)
      requires Valid()
      modifies this
      ensures Valid()
      ensures hit == Hit(old(Contents()), key, now)
      ensures Contents() == AfterGet(old(Contents()), key, now)
      ensures hit ==> Contents() == old(Contents())
    {
      if key !in expiry {
        return false;
      }
      if now >= expiry[key] {
        WithoutShorter(order, key);
        order, expiry := Without(order, key), expiry - {key};
        return false;
      }
      hit := true;
    }

    method SetAllow(key: Key, pdpTtlS: Option<real>, now: real)
      requires Valid()
      modifies this
      ensures Valid()
      ensures Contents() == AfterSet(old(Contents()), key, EffectiveTtl(pdpTtlS), maxEntries, now)
    {
      var ttl := if pdpTtlS.None? then ttlS else Min(pdpTtlS.value, maxTtlS);
      if ttl <= 0.0 {
        return;
      }
      SetKeepsOrder(Contents(), key, ttl, maxEntries, now);
      if key !in expiry && |order| >= maxEntries {
        var victim := order[0];
        order, expiry := Without(order, victim), expiry - {victim};
      }
      if key !in expiry {
        order := order + [key];
      }
      expiry := expiry[key := now + ttl];
    }

    /** A suggested lifetime is only ever clamped down. */
    function EffectiveTtl(pdpTtlS: Option<real>): (ttl: real)
      ensures pdpTtlS.Some? ==> ttl <= pdpTtlS.value && ttl <= maxTtlS && (ttl == pdpTtlS.value || ttl == maxTtlS)
      ensures pdpTtlS.None? ==> ttl == ttlS
    {
      if pdpTtlS.None? then ttlS else Min(pdpTtlS.value, maxTtlS)
    }

    method Clear()
      requires Valid()
      modifies this
      ensures Valid() && Contents() == EMPTY
    {
      order, expiry := [], map[];
    }
  }

  lemma {:induction false} WithoutShorter(ks: seq<Key>, key: Key)
    ensures |Without(ks, key)| <= |ks|
    ensures key in ks ==> |Without(ks, key)| < |ks|
  {
    if |ks| > 0 {
      WithoutShorter(ks[1..], key);
    }
  }

  lemma {:induction false} WithoutFirst(ks: seq<Key>)
    requires |ks| > 0 && Distinct(ks)
    ensures Without(ks, ks[0]) == ks[1..]
  {
    WithoutAbsent(ks[1..], ks[0]);
  }

  lemma {:induction false} WithoutAbsent(ks: seq<Key>, key: Key)
    requires key !in ks
    ensures Without(ks, key) == ks
  {
    if |ks| > 0 {
      WithoutAbsent(ks[1..], key);
    }
  }

  lemma GetKeepsOrder(c: Entries, key: Key, now: real)
    requires Ordered(c)
    ensures Ordered(AfterGet(c, key, now))
    ensures |AfterGet(c, key, now).order| <= |c.order|
  {
    WithoutShorter(c.order, key);
  }

  /** Storing keeps the dictionary consistent, respects the cap, and evicts nothing but the oldest insertion. */
  lemma SetKeepsOrder(c: Entries, key: Key, ttl: real, cap: nat, now: real)
    requires cap > 0 && Ordered(c) && |c.order| <= cap
    ensures var d := AfterSet(c, key, ttl, cap, now);
      && Ordered(d) && |d.order| <= cap
      && (ttl > 0.0 && key !in c.expiry ==> d.order == (if |c.order| == cap then c.order[1..] else c.order) + [key])
      && (key in c.expiry ==> d.order == c.order)
  {
    if ttl > 0.0 && key !in c.expiry && |c.order| == cap {
      WithoutFirst(c.order);
    }
  }

  // ----- Refinement of an unbounded map, over operation sequences -----

  datatype Op =
    | Get(key: Key, now: real)
    | SetAllow(key: Key, ttl: real, now: real)
    | Clear

  function Apply(c: Entries, cap: nat, op: Op): Entries
    requires cap > 0 && Ordered(c)
  {
    match op
    case Get(k, t) => AfterGet(c, k, t)
    case SetAllow(k, ttl, t) => AfterSet(c, k, ttl, cap, t)
    case Clear => EMPTY
  }

  lemma ApplyKeepsOrder(c: Entries, cap: nat, op: Op)
    requires cap > 0 && Ordered(c) && |c.order| <= cap
    ensures Ordered(Apply(c, cap, op)) && |Apply(c, cap, op).order| <= cap
  {
    match op
    case Get(k, t) => GetKeepsOrder(c, k, t);
    case SetAllow(k, ttl, t) => SetKeepsOrder(c, k, ttl, cap, t);
    case Clear =>
  }

  /** The cache after a sequence of operations on an empty one. */
  function Run(cap: nat, ops: seq<Op>): (c: Entries)
    requires cap > 0
    ensures Ordered(c) && |c.order| <= cap
  {
    if |ops| == 0 then EMPTY else
    var before := Run(cap, ops[..|ops| - 1]);
    ApplyKeepsOrder(before, cap, ops[|ops| - 1]);
    Apply(before, cap, ops[|ops| - 1])
  }

  /**
   The reference: when the newest unflushed storing of `key` expires. It has no capacity,
   never deletes, and reads nothing but the operations.
   */
  function Expiry(ops: seq<Op>, key: Key): Option<real> {
    if |ops| == 0 then None else
    match ops[|ops| - 1]
    case Clear => None
    case SetAllow(k, ttl, t) => if k == key && ttl > 0.0 then Some(t + ttl) else Expiry(ops[..|ops| - 1], key)
    case Get(_, _) => Expiry(ops[..|ops| - 1], key)
  }

  /** Clock readings never go back. */
  ghost predicate Monotone(ops: seq<Op>) {
    forall i, j :: 0 <= i < j < |ops| && !ops[i].Clear? && !ops[j].Clear? ==> ops[i].now <= ops[j].now
  }

  /** The TTL map without a capacity: an expired entry goes when a lookup meets it. */
  function Unbounded(ops: seq<Op>): map<Key, real> {
    if |ops| == 0 then map[] else
    var before := Unbounded(ops[..|ops| - 1]);
    match ops[|ops| - 1]
    case Clear => map[]
    case SetAllow(k, ttl, t) => if ttl > 0.0 then before[k := t + ttl] else before
    case Get(k, t) => if k in before && before[k] <= t then before - {k} else before
  }

  /** The bounded cache is a sub-map of the unbounded one: eviction only ever causes misses. */
  lemma {:induction false} RunIsSubmap(cap: nat, ops: seq<Op>)
    requires cap > 0
    ensures forall k :: k in Run(cap, ops).expiry ==> k in Unbounded(ops) && Unbounded(ops)[k] == Run(cap, ops).expiry[k]
  {
    if |ops| > 0 {
      RunIsSubmap(cap, ops[..|ops| - 1]);
    }
  }

  lemma {:induction false} DistinctCount(ks: seq<Key>, s: set<Key>)
    requires Distinct(ks)
    requires forall k :: k in ks <==> k in s
    ensures |ks| == |s|
  {
    if |ks| == 0 {
      assert s == {};
    } else {
      assert ks == [ks[0]] + ks[1..];
      assert ks[0] in s;
      DistinctCount(ks[1..], s - {ks[0]});
    }
  }

  /** At no point of the sequence does the unbounded map hold more than `cap` entries. */
  predicate NeverOutgrows(cap: nat, ops: seq<Op>) {
    |Unbounded(ops)| <= cap && (|ops| > 0 ==> NeverOutgrows(cap, ops[..|ops| - 1]))
  }

  /** While the unbounded map never outgrows the capacity the two are equal. */
  lemma {:induction false} RunIsUnboundedBelowCap(cap: nat, ops: seq<Op>)
    requires cap > 0 && NeverOutgrows(cap, ops)
    ensures Run(cap, ops).expiry == Unbounded(ops)
  {
    if |ops| > 0 {
      var prior, op := ops[..|ops| - 1], ops[|ops| - 1];
      RunIsUnboundedBelowCap(cap, prior);
      StepBelowCap(Run(cap, prior), Unbounded(prior), cap, op);
    }
  }

  lemma StepBelowCap(c: Entries, m: map<Key, real>, cap: nat, op: Op)
    requires cap > 0 && Ordered(c) && c.expiry == m
    requires op.SetAllow? && op.ttl > 0.0 ==> |m[op.key := op.now + op.ttl]| <= cap
    ensures op.SetAllow? && op.ttl > 0.0 ==> Apply(c, cap, op).expiry == m[op.key := op.now + op.ttl]
  {
    hide Without, Distinct;
    if op.SetAllow? && op.ttl > 0.0 && op.key !in m {
      assert m[op.key := op.now + op.ttl].Keys == m.Keys + {op.key};
      DistinctCount(c.order, m.Keys);
    }
  }

  /**
   With a clock that never goes back, a lookup of the unbounded map is exactly the newest unflushed storing,
   still alive.
   */
  lemma {:induction false} UnboundedMeansNewestStoring(ops: seq<Op>, key: Key, now: real)
    requires Monotone(ops)
    requires forall i :: 0 <= i < |ops| && !ops[i].Clear? ==> ops[i].now <= now
    ensures key in Unbounded(ops) ==> Expiry(ops, key) == Some(Unbounded(ops)[key])
    ensures key in Unbounded(ops) && now < Unbounded(ops)[key] <==> Expiry(ops, key).Some? && now < Expiry(ops, key).value
  {
    if |ops| > 0 {
      var prior, op := ops[..|ops| - 1], ops[|ops| - 1];
      if !op.Clear? {
        UnboundedMeansNewestStoring(prior, key, now);
        UnboundedMeansNewestStoring(prior, key, op.now);
      }
    }
  }

  /** A hit is always justified by a live storing since the last flush; below the capacity every such storing hits. */
  lemma HitMeansNewestStoring(cap: nat, ops: seq<Op>, key: Key, now: real)
    requires cap > 0 && Monotone(ops)
    requires forall i :: 0 <= i < |ops| && !ops[i].Clear? ==> ops[i].now <= now
    ensures Hit(Run(cap, ops), key, now) ==> Expiry(ops, key).Some? && now < Expiry(ops, key).value
    ensures NeverOutgrows(cap, ops)
            ==> (Hit(Run(cap, ops), key, now) <==> Expiry(ops, key).Some? && now < Expiry(ops, key).value)
  {
    RunIsSubmap(cap, ops);
    UnboundedMeansNewestStoring(ops, key, now);
    if NeverOutgrows(cap, ops) {
      RunIsUnboundedBelowCap(cap, ops);
    }
  }

  /** How many operations it took until `key` stood where it now stands; refreshing a held key does not count. */
  function InsertedAt(cap: nat, ops: seq<Op>, key: Key): (n: nat)
    requires cap > 0
    ensures n <= |ops|
  {
    if |ops| == 0 then 0 else
    var prior := ops[..|ops| - 1];
    if key in Run(cap, prior).expiry then InsertedAt(cap, prior, key) else |ops|
  }

  /** The held keys stand in the order of their insertions, so the evicted first one is the oldest insertion. */
  lemma {:induction false} OrderIsInsertionOrder(cap: nat, ops: seq<Op>, i: nat, j: nat)
    requires cap > 0 && i < j < |Run(cap, ops).order|
    ensures InsertedAt(cap, ops, Run(cap, ops).order[i]) < InsertedAt(cap, ops, Run(cap, ops).order[j])
  {
    var prior, op := ops[..|ops| - 1], ops[|ops| - 1];
    var c, d := Run(cap, prior), Run(cap, ops);
    var a, b := d.order[i], d.order[j];
    if b in c.expiry {
      OrderSurvives(c, cap, op, i, j);
      var x, y :| 0 <= x < y < |c.order| && c.order[x] == a && c.order[y] == b;
      OrderIsInsertionOrder(cap, prior, x, y);
    } else {
      assert a in c.expiry by { NewKeyIsLast(c, cap, op, j); assert a in d.order; }
    }
  }

  lemma {:induction false} WithoutOrder(ks: seq<Key>, key: Key, i: nat, j: nat)
    requires i < j < |Without(ks, key)|
    ensures exists x, y :: 0 <= x < y < |ks| && ks[x] == Without(ks, key)[i] && ks[y] == Without(ks, key)[j]
  {
    var r := Without(ks, key);
    if ks[0] == key {
      WithoutOrder(ks[1..], key, i, j);
      var x, y :| 0 <= x < y < |ks[1..]| && ks[1..][x] == r[i] && ks[1..][y] == r[j];
      assert ks[x + 1] == r[i] && ks[y + 1] == r[j];
    } else if i > 0 {
      WithoutOrder(ks[1..], key, i - 1, j - 1);
      var x, y :| 0 <= x < y < |ks[1..]| && ks[1..][x] == r[i] && ks[1..][y] == r[j];
      assert ks[x + 1] == r[i] && ks[y + 1] == r[j];
    } else {
      assert r[j] in Without(ks[1..], key);
      var y :| 0 <= y < |ks[1..]| && ks[1..][y] == r[j];
      assert ks[0] == r[i] && ks[y + 1] == r[j];
    }
  }

  lemma OrderSurvives(c: Entries, cap: nat, op: Op, i: nat, j: nat)
    requires cap > 0 && Ordered(c) && |c.order| <= cap
    requires i < j < |Apply(c, cap, op).order| && Apply(c, cap, op).order[j] in c.expiry
    ensures exists x, y :: 0 <= x < y < |c.order|
                           && c.order[x] == Apply(c, cap, op).order[i] && c.order[y] == Apply(c, cap, op).order[j]
  {
    var d := Apply(c, cap, op);
    if op.Get? && d != c {
      WithoutOrder(c.order, op.key, i, j);
    } else if op.SetAllow? && d != c && op.key !in c.expiry {
      SetKeepsOrder(c, op.key, op.ttl, cap, op.now);
      if |c.order| == cap {
        assert c.order[i + 1] == d.order[i] && c.order[j + 1] == d.order[j];
      } else {
        assert c.order[i] == d.order[i] && c.order[j] == d.order[j];
      }
    } else {
      assert c.order[i] == d.order[i] && c.order[j] == d.order[j];
    }
  }

  /** A key that was not held before can only stand last, behind keys that were. */
  lemma NewKeyIsLast(c: Entries, cap: nat, op: Op, j: nat)
    requires cap > 0 && Ordered(c) && |c.order| <= cap
    requires j < |Apply(c, cap, op).order| && Apply(c, cap, op).order[j] !in c.expiry
    ensures forall i :: 0 <= i < j ==> Apply(c, cap, op).order[i] in c.expiry
  {
    var d := Apply(c, cap, op);
    assert d.order[j] in d.order;
    if op.SetAllow? && op.ttl > 0.0 && op.key !in c.expiry {
      SetKeepsOrder(c, op.key, op.ttl, cap, op.now);
      forall i | 0 <= i < j ensures d.order[i] in c.expiry {
        assert d.order[i] in c.order;
      }
    }
  }
}
