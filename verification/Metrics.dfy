/** The in-memory metrics of `src/apparitor/metrics.py`, and the sink an engine writes through. */
module Metrics {
  import opened Wrappers
  import opened Decision

  datatype Observation = Observation(verdict: Verdict, status: Status, latency: real)

  type Label = (Verdict, Status)

  // ----- Sorted bucket bounds -----

  predicate Sorted(b: seq<real>) {
    forall i, j :: 0 <= i < j < |b| ==> b[i] <= b[j]
  }

  function InsertBound(x: real, b: seq<real>): (r: seq<real>)
    ensures multiset(r) == multiset(b) + multiset{x}
  {
    if |b| == 0 || x <= b[0] then [x] + b else
    assert b == [b[0]] + b[1..];
    [b[0]] + InsertBound(x, b[1..])
  }

  function SortBounds(b: seq<real>): (r: seq<real>)
    ensures multiset(r) == multiset(b)
  {
    if |b| == 0 then [] else
    assert b == [b[0]] + b[1..];
    InsertBound(b[0], SortBounds(b[1..]))
  }

  lemma {:induction false} InsertBoundSorted(x: real, b: seq<real>)
    requires Sorted(b)
    ensures Sorted(InsertBound(x, b))
  {
    if |b| > 0 && x > b[0] {
      InsertBoundSorted(x, b[1..]);
      var rest := InsertBound(x, b[1..]);
      forall i | 0 <= i < |rest| ensures b[0] <= rest[i] {
        assert rest[i] in multiset(rest);
        assert rest[i] == x || rest[i] in b[1..];
      }
    }
  }

  lemma {:induction false} SortBoundsSorted(b: seq<real>)
    ensures Sorted(SortBounds(b))
  {
    if |b| > 0 {
      SortBoundsSorted(b[1..]);
      InsertBoundSorted(b[0], SortBounds(b[1..]));
    }
  }

  /** The leftmost position whose bound is not below `x`, by binary search. */
  method BisectLeft(b: seq<real>, x: real) returns (i: nat)
    requires Sorted(b)
    ensures InSlot(b, x, i)
  {
    var lo, hi := 0, |b|;
    while lo < hi
      invariant 0 <= lo <= hi <= |b|
      invariant forall k :: 0 <= k < lo ==> b[k] < x
      invariant forall k :: hi <= k < |b| ==> x <= b[k]
    {
      var mid := (lo + hi) / 2;
      if b[mid] < x {
        lo := mid + 1;
      } else {
        hi := mid;
      }
    }
    i := lo;
  }

  /**
   Slot `i` takes the values above every earlier bound and not above bound `i`; the last slot has no upper bound.
   */
  predicate InSlot(b: seq<real>, x: real, i: nat) {
    i <= |b| && (forall k :: 0 <= k < i ==> b[k] < x) && (forall k :: i <= k < |b| ==> x <= b[k])
  }

  lemma SlotUnique(b: seq<real>, x: real, i: nat, j: nat)
    requires InSlot(b, x, i)
    ensures InSlot(b, x, j) <==> i == j
  {
    var first := if i < j then i else j;
    assert first < |b| ==> b[first] < x || x <= b[first];
  }

  // ----- What a list of observations amounts to -----

  function CountAtMost(seen: seq<Observation>, bound: real): nat {
    if |seen| == 0 then 0 else
    CountAtMost(seen[..|seen| - 1], bound) + if seen[|seen| - 1].latency <= bound then 1 else 0
  }

  function CountSlot(seen: seq<Observation>, b: seq<real>, i: nat): nat {
    if |seen| == 0 then 0 else
    CountSlot(seen[..|seen| - 1], b, i) + if InSlot(b, seen[|seen| - 1].latency, i) then 1 else 0
  }

  function CountLabel(seen: seq<Observation>, key: Label): nat {
    if |seen| == 0 then 0 else
    var last := seen[|seen| - 1];
    CountLabel(seen[..|seen| - 1], key) + if (last.verdict, last.status) == key then 1 else 0
  }

  function SumLatency(seen: seq<Observation>): real {
    if |seen| == 0 then 0.0 else SumLatency(seen[..|seen| - 1]) + seen[|seen| - 1].latency
  }

  function SumTo(counts: seq<nat>, n: nat): nat
    requires n <= |counts|
  {
    if n == 0 then 0 else SumTo(counts, n - 1) + counts[n - 1]
  }

  ghost function SumMap(m: map<Label, nat>): nat {
    if m.Keys == {} then 0 else
    var k :| k in m.Keys;
    m[k] + SumMap(m - {k})
  }

  /** Any key can be split off the sum, so the sum does not depend on the order of the keys. */
  lemma {:induction false} SumMapSplit(m: map<Label, nat>, k: Label)
    requires k in m
    ensures SumMap(m) == m[k] + SumMap(m - {k})
    decreases |m.Keys|
  {
    var j :| j in m.Keys && SumMap(m) == m[j] + SumMap(m - {j});
    if j != k {
      assert (m - {j}).Keys == m.Keys - {j};
      assert (m - {k}).Keys == m.Keys - {k};
      SumMapSplit(m - {j}, k);
      SumMapSplit(m - {k}, j);
      assert m - {j} - {k} == m - {k} - {j};
    }
  }

  lemma SumMapIncrement(m: map<Label, nat>, k: Label)
    ensures SumMap(m[k := (if k in m then m[k] else 0) + 1]) == SumMap(m) + 1
  {
    var n := m[k := (if k in m then m[k] else 0) + 1];
    SumMapSplit(n, k);
    assert n - {k} == m - {k};
    if k in m {
      SumMapSplit(m, k);
    } else {
      assert m - {k} == m;
    }
  }

  /**
   A latency falls into the first `i + 1` slots exactly when it is at most bound `i`: prefix sums of the slots
   count it right.
   */
  lemma {:induction false} SlotsSumToCount(seen: seq<Observation>, b: seq<real>, counts: seq<nat>, n: nat)
    requires Sorted(b) && |counts| == |b| + 1 && n <= |b| + 1
    requires forall i :: 0 <= i < n ==> counts[i] == CountSlot(seen, b, i)
    ensures n == |b| + 1 ==> SumTo(counts, n) == |seen|
    ensures 0 < n <= |b| ==> SumTo(counts, n) == CountAtMost(seen, b[n - 1])
  {
    SlotsSum(seen, b, counts, n);
    if n == |b| + 1 {
      InFirstSlotsAll(seen, b);
    } else if n > 0 {
      InFirstSlotsAtMost(seen, b, n);
    }
  }

  /** How many observations fall into one of the first `n` slots. */
  function InFirstSlots(seen: seq<Observation>, b: seq<real>, n: nat): nat {
    if n == 0 then 0 else InFirstSlots(seen, b, n - 1) + CountSlot(seen, b, n - 1)
  }

  lemma {:induction false} SlotsSum(seen: seq<Observation>, b: seq<real>, counts: seq<nat>, n: nat)
    requires n <= |counts| && forall i :: 0 <= i < n ==> counts[i] == CountSlot(seen, b, i)
    ensures SumTo(counts, n) == InFirstSlots(seen, b, n)
  {
    if n > 0 {
      SlotsSum(seen, b, counts, n - 1);
    }
  }

  lemma {:induction false} InFirstSlotsStep(seen: seq<Observation>, b: seq<real>, n: nat, slot: nat)
    requires |seen| > 0 && Sorted(b) && InSlot(b, seen[|seen| - 1].latency, slot)
    ensures InFirstSlots(seen, b, n) == InFirstSlots(seen[..|seen| - 1], b, n) + if slot < n then 1 else 0
  {
    if n > 0 {
      InFirstSlotsStep(seen, b, n - 1, slot);
      SlotUnique(b, seen[|seen| - 1].latency, slot, n - 1);
    }
  }

  lemma {:induction false} InFirstSlotsNone(seen: seq<Observation>, b: seq<real>, n: nat)
    requires |seen| == 0
    ensures InFirstSlots(seen, b, n) == 0
  {
    if n > 0 {
      InFirstSlotsNone(seen, b, n - 1);
    }
  }

  lemma {:induction false} InFirstSlotsAll(seen: seq<Observation>, b: seq<real>)
    requires Sorted(b)
    ensures InFirstSlots(seen, b, |b| + 1) == |seen|
  {
    if |seen| == 0 {
      InFirstSlotsNone(seen, b, |b| + 1);
    } else {
      var slot := SlotExists(b, seen[|seen| - 1].latency);
      InFirstSlotsAll(seen[..|seen| - 1], b);
      InFirstSlotsStep(seen, b, |b| + 1, slot);
    }
  }

  lemma {:induction false} InFirstSlotsAtMost(seen: seq<Observation>, b: seq<real>, n: nat)
    requires Sorted(b) && 0 < n <= |b|
    ensures InFirstSlots(seen, b, n) == CountAtMost(seen, b[n - 1])
  {
    if |seen| == 0 {
      InFirstSlotsNone(seen, b, n);
    } else {
      var slot := SlotExists(b, seen[|seen| - 1].latency);
      InFirstSlotsAtMost(seen[..|seen| - 1], b, n);
      InFirstSlotsStep(seen, b, n, slot);
    }
  }

  lemma {:induction false} SlotExists(b: seq<real>, x: real) returns (slot: nat)
    requires Sorted(b)
    ensures InSlot(b, x, slot)
  {
    slot := 0;
    while slot < |b| && b[slot] < x
      invariant slot <= |b| && forall k :: 0 <= k < slot ==> b[k] < x
    {
      slot := slot + 1;
    }
  }

  lemma {:induction false} CountAtMostGrows(seen: seq<Observation>, x: real, y: real)
    requires x <= y
    ensures CountAtMost(seen, x) <= CountAtMost(seen, y) <= |seen|
  {
    if |seen| > 0 {
      CountAtMostGrows(seen[..|seen| - 1], x, y);
    }
  }

  ghost predicate SlotsMatch(counts: seq<nat>, seen: seq<Observation>, b: seq<real>) {
    |counts| == |b| + 1 && forall i :: 0 <= i < |counts| ==> counts[i] == CountSlot(seen, b, i)
  }

  ghost predicate LabelsMatch(m: map<Label, nat>, seen: seq<Observation>) {
    forall k :: CountLabel(seen, k) == if k in m then m[k] else 0
  }

  lemma SlotsAfter(counts: seq<nat>, seen: seq<Observation>, b: seq<real>, o: Observation, slot: nat)
    requires SlotsMatch(counts, seen, b) && InSlot(b, o.latency, slot)
    ensures SlotsMatch(counts[slot := counts[slot] + 1], seen + [o], b)
  {
    assert (seen + [o])[..|seen|] == seen;
    forall i | 0 <= i < |counts| ensures counts[slot := counts[slot] + 1][i] == CountSlot(seen + [o], b, i) {
      SlotUnique(b, o.latency, slot, i);
    }
  }

  lemma LabelsAfter(m: map<Label, nat>, seen: seq<Observation>, o: Observation)
    requires LabelsMatch(m, seen)
    ensures var k := (o.verdict, o.status); LabelsMatch(m[k := (if k in m then m[k] else 0) + 1], seen + [o])
  {
    assert (seen + [o])[..|seen|] == seen;
  }

  lemma SumLatencyAfter(seen: seq<Observation>, o: Observation)
    ensures SumLatency(seen + [o]) == SumLatency(seen) + o.latency
  {
    assert (seen + [o])[..|seen|] == seen;
  }

  /** Entry `i` of the exported histogram: the observations at most bound `i`, and finally all of them. */
  function Entry(seen: seq<Observation>, b: seq<real>, i: nat): (Option<real>, nat) {
    if i < |b| then (Some(b[i]), CountAtMost(seen, b[i])) else (None, |seen|)
  }

  lemma EntriesGrow(seen: seq<Observation>, b: seq<real>, i: nat, j: nat)
    requires Sorted(b) && i <= j
    ensures Entry(seen, b, i).1 <= Entry(seen, b, j).1
  {
    if i < j && i < |b| {
      CountAtMostGrows(seen, b[i], if j < |b| then b[j] else b[i]);
    }
  }

  // ----- The sink -----

  class InMemoryMetrics {
    const buckets: seq<real>
    var decisions: map<Label, nat>
    var bucketCounts: seq<nat>
    var latencySumS: real
    var latencyCount: nat
    var cacheHits: nat
    var cacheMisses: nat
    /** The observations and cache lookups recorded since construction or the last reset. */
    ghost var seen: seq<Observation>
    ghost var lookups: seq<bool>

    ghost predicate Valid()
      reads this
    {
      && Sorted(buckets)
      && SlotsMatch(bucketCounts, seen, buckets)
      && LabelsMatch(decisions, seen)
      && SumMap(decisions) == latencyCount == |seen|
      && latencySumS == SumLatency(seen)
      && cacheHits + cacheMisses == |lookups|
      && cacheHits == multiset(lookups)[true] && cacheMisses == multiset(lookups)[false]
    }

    constructor (buckets: seq<real>)
      ensures Valid() && seen == [] && lookups == []
      ensures multiset(this.buckets) == multiset(buckets)
    {
      var sorted := SortBounds(buckets);
      this.buckets := sorted;
      decisions := map[];
      bucketCounts := seq(|sorted| + 1, _ => 0);
      latencySumS, latencyCount, cacheHits, cacheMisses := 0.0, 0, 0, 0;
      seen, lookups := [], [];
      new;
      SortBoundsSorted(buckets);
    }

    method RecordDecision(verdict: Verdict, status: Status, latencyS: real)
      requires Valid()
      modifies this
      ensures Valid()
      ensures seen == old(seen) + [Observation(verdict, status, latencyS)] && lookups == old(lookups)
    {
      var key := (verdict, status);
      ghost var o := Observation(verdict, status, latencyS);
      SumMapIncrement(decisions, key);
      LabelsAfter(decisions, seen, o);
      SumLatencyAfter(seen, o);
      decisions := decisions[key := (if key in decisions then decisions[key] else 0) + 1];
      var slot := BisectLeft(buckets, latencyS);
      SlotsAfter(bucketCounts, seen, buckets, o, slot);
      bucketCounts := bucketCounts[slot := bucketCounts[slot] + 1];
      latencySumS := latencySumS + latencyS;
      latencyCount := latencyCount + 1;
      seen := seen + [o];
    }

    method RecordCache(hit: bool)
      requires Valid()
      modifies this
      ensures Valid()
      ensures lookups == old(lookups) + [hit] && seen == old(seen)
    {
      if hit {
        cacheHits := cacheHits + 1;
      } else {
        cacheMisses := cacheMisses + 1;
      }
      lookups := lookups + [hit];
    }

    /** Cumulative counts: each bound with the number of observations at most that bound, then all of them. */
    method LatencyHistogram() returns (out: seq<(Option<real>, nat)>)
      requires Valid()
      ensures |out| == |buckets| + 1
      ensures forall i :: 0 <= i < |out| ==> out[i] == Entry(seen, buckets, i)
      ensures out[|buckets|].1 == latencyCount == SumMap(decisions)
      ensures forall i, j :: 0 <= i < j < |out| ==> out[i].1 <= out[j].1
    {
      var cumulative: nat := 0;
      out := [];
      for i := 0 to |buckets| + 1
        invariant |out| == i
        invariant cumulative == SumTo(bucketCounts, i)
        invariant forall k :: 0 <= k < i ==> out[k] == Entry(seen, buckets, k)
      {
        cumulative := cumulative + bucketCounts[i];
        SlotsSumToCount(seen, buckets, bucketCounts, i + 1);
        out := out + [(if i < |buckets| then Some(buckets[i]) else None, cumulative)];
      }
      forall i, j | 0 <= i < j < |out| ensures out[i].1 <= out[j].1 {
        EntriesGrow(seen, buckets, i, j);
      }
    }

    method Reset()
      requires Valid()
      modifies this
      ensures Valid() && seen == [] && lookups == []
    {
      decisions := map[];
      bucketCounts := seq(|buckets| + 1, _ => 0);
      latencySumS, latencyCount, cacheHits, cacheMisses := 0.0, 0, 0, 0;
      seen, lookups := [], [];
    }
  }
}
