/** What holds of every evaluation, across the single, batch and per-item paths of `src/apparitor/engine.py`. */
module EngineTheorems {
  import opened Wrappers
  import opened Models
  import opened Decision
  import opened Cache
  import opened Metrics
  import opened Engine

  // ----- The batch verdict is the join of its legs -----

  lemma {:induction false} AnyReviewExact(review: Review, answers: seq<EvaluationResponse>)
    requires forall i :: 0 <= i < |answers| ==> WantsReview(review, answers[i].context).Ok?
    ensures AnyReview(review, answers).Ok?
    ensures AnyReview(review, answers).value
            <==> exists i :: 0 <= i < |answers| && WantsReview(review, answers[i].context) == Ok(true)
  {
    if |answers| > 0 && !WantsReview(review, answers[0].context).value {
      AnyReviewExact(review, answers[1..]);
      assert forall i :: 0 < i < |answers| ==> answers[i] == answers[1..][i - 1];
    }
  }

  lemma AggregateExact(answers: seq<EvaluationResponse>, expected: nat)
    ensures Aggregate(Decisions(answers), expected) == Allow
            <==> |answers| == expected && forall i :: 0 <= i < |answers| ==> answers[i].decision
    ensures Aggregate(Decisions(answers), expected) in {Allow, Block}
  {
    assert forall i :: 0 <= i < |answers| ==> Decisions(answers)[i] == answers[i].decision;
  }

  // The review predicate and the decision, in the terms of one answer.

  /** The review predicate is there, is shown the answer's context, and wants a human. */
  predicate ReviewWanted(review: Review, a: EvaluationResponse) {
    review.Some? && a.context.Some? && review.value(a.context.value) == WantsIt
  }

  predicate ReviewRaises(review: Review, a: EvaluationResponse, fault: Fault) {
    review.Some? && a.context.Some? && review.value(a.context.value) == ReviewFault(fault)
  }

  /** Nobody wants a human: no predicate, nothing to show it, or a plain no. */
  predicate Unreviewed(review: Review, a: EvaluationResponse) {
    review.None? || a.context.None? || review.value(a.context.value) == WantsNot
  }

  /** An answer of `true` about which nobody wants a human. */
  predicate GrantedAnswer(review: Review, a: EvaluationResponse) {
    a.decision && Unreviewed(review, a)
  }

  /** The verdict that a list of answers deserves: one denial blocks, otherwise one wish for review asks for a human. */
  function VerdictOf(review: Review, answers: seq<EvaluationResponse>): Verdict {
    if exists i :: 0 <= i < |answers| && !answers[i].decision then Block
    else if exists i :: 0 <= i < |answers| && ReviewWanted(review, answers[i]) then HumanReview
    else Allow
  }

  lemma JoinByCase(review: Review, answers: seq<EvaluationResponse>, legs: seq<Verdict>)
    requires |answers| == |legs| > 0 && forall i :: 0 <= i < |answers| ==> Leg(review, answers[i]) == Ok(legs[i])
    ensures Join(legs) == VerdictOf(review, answers)
  {
    hide Join;
    JoinIsMaximum(legs);
    var j :| 0 <= j < |legs| && legs[j] == Join(legs);
    assert Leg(review, answers[j]) == Ok(legs[j]);
    if deny :| 0 <= deny < |answers| && !answers[deny].decision {
      assert Leg(review, answers[deny]) == Ok(legs[deny]);
    } else if wants :| 0 <= wants < |answers| && ReviewWanted(review, answers[wants]) {
      assert Leg(review, answers[wants]) == Ok(legs[wants]);
    }
  }

  /** Folding first and escalating once on any review is the same as joining the legs one by one. */
  lemma BatchAnswerIsJoin(review: Review, answers: seq<EvaluationResponse>, legs: seq<Verdict>)
    requires |answers| > 0 && Legs(review, answers) == Ok(legs)
    ensures BatchAnswer(review, |answers|, answers) == Ok(Clean(Join(legs)))
  {
    hide Join, Aggregate, Legs;
    forall i | 0 <= i < |answers| ensures WantsReview(review, answers[i].context).Ok? {
      assert Leg(review, answers[i]) == Ok(legs[i]);
    }
    AnyReviewExact(review, answers);
    AggregateExact(answers, |answers|);
    JoinByCase(review, answers, legs);
  }

  // ----- A decision point that answers requests one by one -----

  type Answering = EvaluationRequest -> Await<EvaluationResponse>

  predicate AllAnswered(f: Answering, rs: seq<EvaluationRequest>) {
    forall i :: 0 <= i < |rs| ==> f(rs[i]).Done?
  }

  function AnswersOf(f: Answering, rs: seq<EvaluationRequest>): (answers: seq<EvaluationResponse>)
    requires AllAnswered(f, rs)
    ensures |answers| == |rs| && forall i :: 0 <= i < |rs| ==> answers[i] == f(rs[i]).value
  {
    seq(|rs|, i requires 0 <= i < |rs| => f(rs[i]).value)
  }

  /** A batch is answered request by request, and fails with the failure of one of them if any fails. */
  ghost predicate FansOut(f: Answering, rs: seq<EvaluationRequest>, o: Await<seq<EvaluationResponse>>) {
    if AllAnswered(f, rs) then o == Done(AnswersOf(f, rs))
    else exists i :: 0 <= i < |rs| &&
           ((f(rs[i]).Cancelled? && o.Cancelled?) || (f(rs[i]).Raised? && o == Raised(f(rs[i]).fault)))
  }

  /** Both endpoints of the decision point agree with one answering of requests. */
  ghost predicate Deterministic(pdp: Pdp, f: Answering) {
    && (forall r :: pdp.single(r) == f(r))
    && (forall rs: seq<EvaluationRequest> :: FansOut(f, rs, pdp.batch(ToBatch(rs))))
  }

  /** Every request gets an answer, and the review predicate does not raise on it. */
  predicate Faultless(f: Answering, review: Review, rs: seq<EvaluationRequest>) {
    forall i :: 0 <= i < |rs| ==> f(rs[i]).Done? && Leg(review, f(rs[i]).value).Ok?
  }

  /** The verdict of one request on its own. */
  function LegOf(f: Answering, review: Review, r: EvaluationRequest): Verdict
    requires f(r).Done? && Leg(review, f(r).value).Ok?
  {
    Leg(review, f(r).value).value
  }

  function LegsOf(f: Answering, review: Review, rs: seq<EvaluationRequest>): (vs: seq<Verdict>)
    requires Faultless(f, review, rs)
    ensures |vs| == |rs| && forall i :: 0 <= i < |rs| ==> vs[i] == LegOf(f, review, rs[i])
  {
    seq(|rs|, i requires 0 <= i < |rs| => LegOf(f, review, rs[i]))
  }

  lemma {:induction false} LegsOfAnswers(f: Answering, review: Review, rs: seq<EvaluationRequest>)
    requires Faultless(f, review, rs)
    ensures AllAnswered(f, rs) && Legs(review, AnswersOf(f, rs)) == Ok(LegsOf(f, review, rs))
  {
    if |rs| > 0 {
      var front := rs[..|rs| - 1];
      LegsOfAnswers(f, review, front);
      assert AnswersOf(f, rs)[..|rs| - 1] == AnswersOf(f, front);
      assert LegsOf(f, review, rs) == LegsOf(f, review, front) + [LegOf(f, review, rs[|rs| - 1])];
    }
  }

  lemma {:induction false} LegsFail(f: Answering, review: Review, rs: seq<EvaluationRequest>)
    requires AllAnswered(f, rs) && !Faultless(f, review, rs)
    ensures Legs(review, AnswersOf(f, rs)).Err?
  {
    if |rs| > 0 {
      var front := rs[..|rs| - 1];
      assert AnswersOf(f, rs)[..|rs| - 1] == AnswersOf(f, front);
      if !Faultless(f, review, front) {
        LegsFail(f, review, front);
      } else if f(rs[|rs| - 1]).Done? && Leg(review, f(rs[|rs| - 1]).value).Ok? {
        assert forall i :: 0 <= i < |rs| ==> (i < |front| && front[i] == rs[i]) || i == |rs| - 1;
      }
    }
  }

  /**
   Without faults and without a cached answer, any non-empty list of requests gets the join of its legs, on
   either endpoint.
   */
  lemma GuardedIsJoin(cfg: EngineConfig, c: Entries, rs: seq<EvaluationRequest>, w: World, f: Answering)
    requires Ordered(c) && |rs| > 0 && !cfg.cacheEnabled
    requires Deterministic(w.pdp, f) && Faultless(f, w.review, rs)
    ensures EvaluateGuarded(cfg, c, rs, w) == (Done(Clean(Join(LegsOf(f, w.review, rs)))), c)
  {
    if |rs| == 1 {
      var legs := LegsOf(f, w.review, rs);
      assert w.pdp.single(rs[0]) == f(rs[0]);
      assert legs == [legs[0]];
      assert legs[..0] == [];
      assert Join(legs) == Escalate(Skip, legs[0]) == legs[0];
    } else {
      FaultlessBatch(w, f, rs);
      BatchAnswerIsJoin(w.review, AnswersOf(f, rs), LegsOf(f, w.review, rs));
    }
  }

  /** What the cache would answer now is what the decision point answers: a hit stands for a granted request. */
  ghost predicate Coherent(cfg: EngineConfig, c: Entries, w: World, f: Answering) {
    forall r: EvaluationRequest :: cfg.cacheEnabled && Hit(c, cfg.CacheKey(r), w.lookupAt) ==> GrantedBy(f, w.review, r)
  }

  predicate GrantedBy(f: Answering, review: Review, r: EvaluationRequest) {
    f(r).Done? && Leg(review, f(r).value) == Ok(Allow)
  }

  /** With a coherent cache the verdict is the join of the legs as well. */
  lemma GuardedVerdictIsJoin(cfg: EngineConfig, c: Entries, rs: seq<EvaluationRequest>, w: World, f: Answering)
    requires Ordered(c) && |rs| > 0 && Coherent(cfg, c, w, f)
    requires Deterministic(w.pdp, f) && Faultless(f, w.review, rs)
    ensures var o := EvaluateGuarded(cfg, c, rs, w).0;
      o.Done? && o.value.verdict == Join(LegsOf(f, w.review, rs))
  {
    if |rs| == 1 {
      SingleVerdictIsLeg(cfg, c, rs[0], w, f);
      JoinOfOne(LegsOf(f, w.review, rs));
    } else {
      FaultlessBatch(w, f, rs);
      BatchAnswerIsJoin(w.review, AnswersOf(f, rs), LegsOf(f, w.review, rs));
    }
  }

  lemma JoinOfOne(vs: seq<Verdict>)
    requires |vs| == 1
    ensures Join(vs) == vs[0]
  {
    assert vs[..0] == [];
  }

  lemma SingleVerdictIsLeg(cfg: EngineConfig, c: Entries, r: EvaluationRequest, w: World, f: Answering)
    requires Ordered(c) && Coherent(cfg, c, w, f)
    requires Deterministic(w.pdp, f) && f(r).Done? && Leg(w.review, f(r).value).Ok?
    ensures var o := EvaluateSingle(cfg, c, r, w).0; o.Done? && o.value.verdict == LegOf(f, w.review, r)
  {
    hide AfterGet, AfterSet;
    assert w.pdp.single(r) == f(r);
    if cfg.cacheEnabled && Hit(c, cfg.CacheKey(r), w.lookupAt) {
      assert GrantedBy(f, w.review, r);
    }
  }

  /**
   The message verdict is the join over everything the message maps to; an abstaining message has nothing to
   join.
   */
  lemma MessageVerdictIsJoin(cfg: EngineConfig, c: Entries, ms: seq<Mapped>, w: World, f: Answering)
    requires Ordered(c) && Coherent(cfg, c, w, f) && Groups(ms).Ok?
    requires Deterministic(w.pdp, f) && Faultless(f, w.review, Flatten(Groups(ms).value))
    ensures var o := Decide(cfg, c, ms, w).0;
      o.Done? && o.value.verdict == Join(LegsOf(f, w.review, Flatten(Groups(ms).value)))
  {
    var flat := Flatten(Groups(ms).value);
    if flat != [] {
      GuardedVerdictIsJoin(cfg, c, flat, w, f);
    }
  }

  lemma {:induction false} GroupsConcat(ms: seq<Mapped>, ns: seq<Mapped>)
    requires Groups(ms).Ok? && Groups(ns).Ok?
    ensures Groups(ms + ns) == Ok(Groups(ms).value + Groups(ns).value)
  {
    if |ns| == 0 {
      assert ms + ns == ms;
      assert Groups(ms).value + Groups(ns).value == Groups(ms).value;
    } else {
      GroupsConcat(ms, ns[..|ns| - 1]);
      assert (ms + ns)[..|ms + ns| - 1] == ms + ns[..|ns| - 1];
      var last := AsRequests(ns[|ns| - 1]).value;
      assert Groups(ns).value == Groups(ns[..|ns| - 1]).value + [last];
      assert Groups(ms).value + Groups(ns).value == (Groups(ms).value + Groups(ns[..|ns| - 1]).value) + [last];
    }
  }

  lemma {:induction false} FlattenConcat<T>(xs: seq<seq<T>>, ys: seq<seq<T>>)
    ensures Flatten(xs + ys) == Flatten(xs) + Flatten(ys)
  {
    if |ys| == 0 {
      assert xs + ys == xs;
    } else {
      FlattenConcat(xs, ys[..|ys| - 1]);
      assert (xs + ys)[..|xs + ys| - 1] == xs + ys[..|ys| - 1];
    }
  }

  lemma FaultlessConcat(f: Answering, review: Review, xs: seq<EvaluationRequest>, ys: seq<EvaluationRequest>)
    requires Faultless(f, review, xs) && Faultless(f, review, ys)
    ensures Faultless(f, review, xs + ys)
  {
  }

  lemma LegsOfConcat(f: Answering, review: Review, xs: seq<EvaluationRequest>, ys: seq<EvaluationRequest>)
    requires Faultless(f, review, xs) && Faultless(f, review, ys) && Faultless(f, review, xs + ys)
    ensures LegsOf(f, review, xs + ys) == LegsOf(f, review, xs) + LegsOf(f, review, ys)
  {
  }

  /** The third outcome is the more severe of the other two. */
  predicate Combines(a: Await<VerdictResult>, b: Await<VerdictResult>, ab: Await<VerdictResult>) {
    a.Done? && b.Done? && ab.Done? && ab.value.verdict == Escalate(a.value.verdict, b.value.verdict)
  }

  /** Evaluating two messages as one gives the more severe of their verdicts, with abstention as the unit. */
  lemma MessageVerdictIsHomomorphic(cfg: EngineConfig, c: Entries, ms: seq<Mapped>, ns: seq<Mapped>, w: World,
                                    f: Answering)
    requires Ordered(c) && Coherent(cfg, c, w, f) && Groups(ms).Ok? && Groups(ns).Ok?
    requires Deterministic(w.pdp, f)
    requires Faultless(f, w.review, Flatten(Groups(ms).value)) && Faultless(f, w.review, Flatten(Groups(ns).value))
    ensures Combines(Decide(cfg, c, ms, w).0, Decide(cfg, c, ns, w).0, Decide(cfg, c, ms + ns, w).0)
  {
    hide Decide, Groups, Flatten, Join, Escalate, LegsOf, Deterministic, Coherent;
    var xs, ys := Flatten(Groups(ms).value), Flatten(Groups(ns).value);
    GroupsConcat(ms, ns);
    FlattenConcat(Groups(ms).value, Groups(ns).value);
    FaultlessConcat(f, w.review, xs, ys);
    MessageVerdictIsJoin(cfg, c, ms, w, f);
    MessageVerdictIsJoin(cfg, c, ns, w, f);
    MessageVerdictIsJoin(cfg, c, ms + ns, w, f);
    LegsOfConcat(f, w.review, xs, ys);
    JoinConcat(LegsOf(f, w.review, xs), LegsOf(f, w.review, ys));
  }

  /** Only which requests are asked matters: permuting, regrouping or repeating calls keeps the verdict. */
  lemma MessageVerdictIgnoresOrder(cfg: EngineConfig, c: Entries, ms: seq<Mapped>, ns: seq<Mapped>, w: World,
                                   f: Answering)
    requires Ordered(c) && Coherent(cfg, c, w, f) && Groups(ms).Ok? && Groups(ns).Ok?
    requires Deterministic(w.pdp, f) && Faultless(f, w.review, Flatten(Groups(ms).value))
    requires forall r :: r in Flatten(Groups(ms).value) <==> r in Flatten(Groups(ns).value)
    ensures var a, b := Decide(cfg, c, ms, w).0, Decide(cfg, c, ns, w).0;
      a.Done? && b.Done? && a.value.verdict == b.value.verdict
  {
    var xs, ys := Flatten(Groups(ms).value), Flatten(Groups(ns).value);
    forall i | 0 <= i < |ys| ensures f(ys[i]).Done? && Leg(w.review, f(ys[i]).value).Ok? {
      assert ys[i] in xs;
    }
    MessageVerdictIsJoin(cfg, c, ms, w, f);
    MessageVerdictIsJoin(cfg, c, ns, w, f);
    SameLegs(f, w.review, xs, ys);
    SameLegs(f, w.review, ys, xs);
    JoinDependsOnMembers(LegsOf(f, w.review, xs), LegsOf(f, w.review, ys));
  }

  lemma SameLegs(f: Answering, review: Review, xs: seq<EvaluationRequest>, ys: seq<EvaluationRequest>)
    requires Faultless(f, review, xs) && Faultless(f, review, ys)
    requires forall r :: r in xs ==> r in ys
    ensures forall v :: v in LegsOf(f, review, xs) ==> v in LegsOf(f, review, ys)
  {
    forall v | v in LegsOf(f, review, xs) ensures v in LegsOf(f, review, ys) {
      var i :| 0 <= i < |xs| && LegsOf(f, review, xs)[i] == v;
      assert xs[i] in ys;
      var j :| 0 <= j < |ys| && ys[j] == xs[i];
      assert LegsOf(f, review, ys)[j] == v;
    }
  }

  // ----- Per-item verdicts -----

  /** The flattened list holds each group whole, at its offset. */
  lemma FlattenSlice<T>(groups: seq<seq<T>>, i: nat)
    requires i < |groups|
    ensures Offset(groups, i) + |groups[i]| <= |Flatten(groups)|
    ensures Flatten(groups)[Offset(groups, i)..Offset(groups, i) + |groups[i]|] == groups[i]
  {
    hide Offset, Flatten;
    OffsetsFit(groups);
    var slice := Flatten(groups)[Offset(groups, i)..Offset(groups, i) + |groups[i]|];
    forall k | 0 <= k < |groups[i]| ensures slice[k] == groups[i][k] {
      FlattenAt(groups, i, k);
    }
  }

  lemma LegsOfSlice(f: Answering, review: Review, rs: seq<EvaluationRequest>, from: nat, to: nat)
    requires Faultless(f, review, rs) && from <= to <= |rs|
    ensures Faultless(f, review, rs[from..to])
    ensures LegsOf(f, review, rs)[from..to] == LegsOf(f, review, rs[from..to])
  {
  }

  /** Regrouping by position gives every item exactly the answers to its own requests. */
  lemma GroupLegs(f: Answering, review: Review, groups: seq<seq<EvaluationRequest>>, i: nat)
    requires i < |groups| && Faultless(f, review, Flatten(groups))
    ensures Faultless(f, review, groups[i])
    ensures Offset(groups, i) + |groups[i]| <= |Flatten(groups)|
    ensures LegsOf(f, review, Flatten(groups))[Offset(groups, i)..Offset(groups, i) + |groups[i]|]
         == LegsOf(f, review, groups[i])
  {
    FlattenSlice(groups, i);
    LegsOfSlice(f, review, Flatten(groups), Offset(groups, i), Offset(groups, i) + |groups[i]|);
  }

  /**
   One verdict per call: the join of the legs of that call's own requests, and a fail-closed block for an
   abstention.
   */
  lemma ItemsArePointwise(cfg: EngineConfig, ms: seq<Mapped>, w: World, f: Answering, i: nat)
    requires Groups(ms).Ok? && i < |ms|
    requires Deterministic(w.pdp, f) && Faultless(f, w.review, Flatten(Groups(ms).value))
    ensures Faultless(f, w.review, Groups(ms).value[i])
    ensures var group, o := Groups(ms).value[i], DecideEach(cfg, ms, w);
      o.Done? && |o.value| == |ms| &&
      o.value[i] == if group == [] then ABSTAINED else Clean(Join(LegsOf(f, w.review, group)))
  {
    hide Join, Legs, LegsOf, Faultless, Groups, AsRequests, DecideEach, Flatten, Deterministic, AnswersOf;
    hide AllAnswered, Offset;
    var groups := Groups(ms).value;
    var flat := Flatten(groups);
    GroupLegs(f, w.review, groups, i);
    if flat == [] {
      NothingToAsk(cfg, ms, w);
    } else {
      FaultlessBatch(w, f, flat);
      AnsweredListing(cfg, ms, w, AnswersOf(f, flat), LegsOf(f, w.review, flat));
    }
  }

  lemma FaultlessBatch(w: World, f: Answering, rs: seq<EvaluationRequest>)
    requires Deterministic(w.pdp, f) && Faultless(f, w.review, rs)
    ensures AllAnswered(f, rs) && w.pdp.batch(ToBatch(rs)) == Done(AnswersOf(f, rs))
    ensures Legs(w.review, AnswersOf(f, rs)) == Ok(LegsOf(f, w.review, rs))
  {
    hide ToBatch;
    assert FansOut(f, rs, w.pdp.batch(ToBatch(rs)));
    LegsOfAnswers(f, w.review, rs);
  }

  lemma NothingToAsk(cfg: EngineConfig, ms: seq<Mapped>, w: World)
    requires Groups(ms).Ok? && Flatten(Groups(ms).value) == []
    ensures DecideEach(cfg, ms, w) == Done(seq(|ms|, _ => ABSTAINED))
    ensures forall i :: 0 <= i < |ms| ==> Groups(ms).value[i] == []
  {
    hide Groups, Flatten, Offset;
    OffsetsFit(Groups(ms).value);
  }

  lemma AnsweredListing(cfg: EngineConfig, ms: seq<Mapped>, w: World, answers: seq<EvaluationResponse>,
                        legs: seq<Verdict>)
    requires Groups(ms).Ok? && Flatten(Groups(ms).value) != []
    requires w.pdp.batch(ToBatch(Flatten(Groups(ms).value))) == Done(answers) && |answers| == |Flatten(Groups(ms).value)|
    requires Legs(w.review, answers) == Ok(legs)
    ensures DecideEach(cfg, ms, w) == Done(Items(Groups(ms).value, legs))
  {
    hide Legs, Groups, Flatten, Items;
  }

  predicate ShowsNothing(o: Await<seq<VerdictResult>>) {
    o.Done? ==> forall i :: 0 <= i < |o.value| ==> !IsAllowedGateway(o.value[i])
  }

  lemma FailedListing(cfg: EngineConfig, ms: seq<Mapped>, w: World)
    requires Groups(ms).Ok? && Flatten(Groups(ms).value) != []
    requires var o := w.pdp.batch(ToBatch(Flatten(Groups(ms).value))); o.Done? ==> Legs(w.review, o.value).Err?
    ensures ShowsNothing(DecideEach(cfg, ms, w))
  {
    hide Legs, Groups, Flatten, Items;
  }

  /** Group `i` is what call `i` maps to. */
  lemma {:induction false} GroupsAt(ms: seq<Mapped>, i: nat)
    requires Groups(ms).Ok? && i < |ms|
    ensures AsRequests(ms[i]) == Ok(Groups(ms).value[i])
  {
    if i < |ms| - 1 {
      GroupsAt(ms[..|ms| - 1], i);
    }
  }

  lemma GroupsOfOne(m: Mapped)
    requires AsRequests(m).Ok?
    ensures Groups([m]) == Ok([AsRequests(m).value])
    ensures Flatten(Groups([m]).value) == AsRequests(m).value
  {
    assert [m][..|[m]| - 1] == [];
    var none: seq<seq<EvaluationRequest>> := [];
    assert none + [AsRequests(m).value] == [AsRequests(m).value];
    var groups := [AsRequests(m).value];
    assert groups[..0] == [];
    assert Flatten(groups[..0]) == [];
  }

  lemma GroupsOfFault(m: Mapped)
    requires AsRequests(m).Err?
    ensures Groups([m]).Err?
  {
    assert [m][..|[m]| - 1] == [];
  }

  /** A listing in which some request or review fails shows nothing. */
  lemma FaultHidesListing(cfg: EngineConfig, ms: seq<Mapped>, w: World, f: Answering)
    requires Groups(ms).Ok? && Deterministic(w.pdp, f) && !Faultless(f, w.review, Flatten(Groups(ms).value))
    ensures ShowsNothing(DecideEach(cfg, ms, w))
  {
    hide Legs, Leg, Groups, DecideEach, Flatten;
    var flat := Flatten(Groups(ms).value);
    assert FansOut(f, flat, w.pdp.batch(ToBatch(flat)));
    if AllAnswered(f, flat) {
      LegsFail(f, w.review, flat);
    }
    FailedListing(cfg, ms, w);
  }

  /**
   Item `i` is shown exactly in a clean listing of a call allowed alone; a clean item with requests has the
   call's own result.
   */
  predicate Agree(listed: Await<seq<VerdictResult>>, i: nat, alone: Await<VerdictResult>, asks: bool, clean: bool) {
    && (listed.Done? ==> i < |listed.value|)
    && (listed.Done? && IsAllowedGateway(listed.value[i]) <==> clean && alone.Done? && IsAllowedGateway(alone.value))
    && (clean && asks ==> listed.Done? && alone == Done(listed.value[i]))
  }

  /**
   Visibility agrees with enforcement. A listed call is shown exactly when calling it alone would be allowed and
   nothing in the listing failed; then verdict, reason and status agree too, whichever endpoint the call would use.
   */
  lemma VisibleMeansCallable(cfg: EngineConfig, c: Entries, ms: seq<Mapped>, w: World, f: Answering, i: nat)
    requires Ordered(c) && !cfg.cacheEnabled && Groups(ms).Ok? && i < |ms| && Deterministic(w.pdp, f)
    ensures Agree(DecideEach(cfg, ms, w), i, Decide(cfg, c, [ms[i]], w).0, Groups(ms).value[i] != [],
                  Faultless(f, w.review, Flatten(Groups(ms).value)))
  {
    var groups := Groups(ms).value;
    GroupsAt(ms, i);
    GroupsOfOne(ms[i]);
    if Faultless(f, w.review, Flatten(groups)) {
      GroupLegs(f, w.review, groups, i);
      ItemsArePointwise(cfg, ms, w, f, i);
      if groups[i] != [] {
        GuardedIsJoin(cfg, c, groups[i], w, f);
      }
    } else {
      FaultHidesListing(cfg, ms, w, f);
    }
  }

  // ----- Fail closed, over all behaviours of mapper, decision point and review predicate -----

  /** What the decision point said to a list of requests, on the endpoint its length selects. */
  function Reply(pdp: Pdp, rs: seq<EvaluationRequest>): Await<seq<EvaluationResponse>> {
    if |rs| != 1 then pdp.batch(ToBatch(rs)) else
    match pdp.single(rs[0])
    case Done(a) => Done([a])
    case Raised(x) => Raised(x)
    case Cancelled => Cancelled
  }

  /** Each of the requests got `true`, and none of the answers wanted review. */
  predicate Granted(review: Review, rs: seq<EvaluationRequest>, reply: Await<seq<EvaluationResponse>>) {
    && reply.Done? && |reply.value| == |rs| > 0
    && forall i :: 0 <= i < |rs| ==> GrantedAnswer(review, reply.value[i])
  }

  predicate CachedGrant(cfg: EngineConfig, c: Entries, rs: seq<EvaluationRequest>, w: World) {
    cfg.cacheEnabled && |rs| == 1 && Hit(c, cfg.CacheKey(rs[0]), w.lookupAt)
  }

  lemma {:induction false} AnyReviewFalse(review: Review, answers: seq<EvaluationResponse>)
    ensures AnyReview(review, answers) == Ok(false)
            <==> forall i :: 0 <= i < |answers| ==> Unreviewed(review, answers[i])
  {
    if |answers| > 0 {
      AnyReviewFalse(review, answers[1..]);
      assert forall i :: 0 < i < |answers| ==> answers[i] == answers[1..][i - 1];
    }
  }

  /** ALLOW is given exactly on a cache hit or when every request was granted; it is always a clean success. */
  lemma AllowMeansGranted(cfg: EngineConfig, c: Entries, rs: seq<EvaluationRequest>, w: World)
    requires Ordered(c) && |rs| > 0
    ensures var o := EvaluateGuarded(cfg, c, rs, w).0;
      && (o.Done? && o.value.verdict == Allow <==> CachedGrant(cfg, c, rs, w) || Granted(w.review, rs, Reply(w.pdp, rs)))
      && (o.Done? && o.value.verdict == Allow ==> o.value.status == Success)
  {
    if |rs| == 1 {
      SingleAllow(cfg, c, rs[0], w);
    } else {
      BatchAllow(rs, w);
    }
  }

  lemma SingleAllow(cfg: EngineConfig, c: Entries, r: EvaluationRequest, w: World)
    requires Ordered(c)
    ensures var o := EvaluateSingle(cfg, c, r, w).0;
      && (o.Done? && o.value.verdict == Allow <==> CachedGrant(cfg, c, [r], w) || Granted(w.review, [r], Reply(w.pdp, [r])))
      && (o.Done? ==> o.value.status == Success)
  {
    var reply := Reply(w.pdp, [r]);
    if reply.Done? {
      assert reply.value[0] == w.pdp.single(r).value;
    }
  }

  lemma BatchAllow(rs: seq<EvaluationRequest>, w: World)
    requires |rs| > 1
    ensures var o := EvaluateBatch(rs, w);
      && (o.Done? && o.value.verdict == Allow <==> Granted(w.review, rs, Reply(w.pdp, rs)))
      && (o.Done? ==> o.value.status == Success)
  {
    var reply := w.pdp.batch(ToBatch(rs));
    if reply.Done? {
      AnyReviewFalse(w.review, reply.value);
      AggregateExact(reply.value, |rs|);
    }
  }

  /** The same for whole messages: nothing sent, an abstaining message or a failing mapper never allows. */
  lemma MessageFailsClosed(cfg: EngineConfig, c: Entries, ms: seq<Mapped>, w: World)
    requires Ordered(c)
    ensures var o := Decide(cfg, c, ms, w).0;
      && (o.Done? && IsAllowedGateway(o.value) <==>
          Groups(ms).Ok? && Flatten(Groups(ms).value) != [] &&
          (CachedGrant(cfg, c, Flatten(Groups(ms).value), w)
           || Granted(w.review, Flatten(Groups(ms).value), Reply(w.pdp, Flatten(Groups(ms).value)))))
      && (o.Done? && o.value.verdict == Allow ==> o.value.status == Success)
  {
    if Groups(ms).Ok? && Flatten(Groups(ms).value) != [] {
      AllowMeansGranted(cfg, c, Flatten(Groups(ms).value), w);
    }
  }

  /** In-runtime adapters pass what a gateway passes and, beyond that, only messages with nothing to authorize. */
  lemma InlinePassesExactly(cfg: EngineConfig, c: Entries, ms: seq<Mapped>, w: World)
    requires Ordered(c)
    ensures var o := Decide(cfg, c, ms, w).0;
      (o.Done? && IsAllowedInline(o.value))
      <==> ((o.Done? && IsAllowedGateway(o.value)) || (Groups(ms).Ok? && Flatten(Groups(ms).value) == []))
  {
    hide Flatten, Join;
    if Groups(ms).Ok? && Flatten(Groups(ms).value) != [] {
      NeverSkips(cfg, c, Flatten(Groups(ms).value), w);
    }
  }

  lemma NeverSkips(cfg: EngineConfig, c: Entries, rs: seq<EvaluationRequest>, w: World)
    requires Ordered(c)
    ensures var o := EvaluateGuarded(cfg, c, rs, w).0; o.Done? ==> o.value.verdict != Skip
  {
    hide AfterGet, AfterSet;
  }

  lemma {:induction false} AnyReviewFault(review: Review, answers: seq<EvaluationResponse>)
    requires AnyReview(review, answers).Err?
    ensures exists k :: 0 <= k < |answers|
                        && ReviewRaises(review, answers[k], AnyReview(review, answers).error)
  {
    if !WantsReview(review, answers[0].context).Err? {
      AnyReviewFault(review, answers[1..]);
      var k :| 0 <= k < |answers[1..]|
               && ReviewRaises(review, answers[1..][k], AnyReview(review, answers).error);
      assert answers[k + 1] == answers[1..][k];
    }
  }

  lemma {:induction false} LegsFaultMet(review: Review, answers: seq<EvaluationResponse>)
    requires Legs(review, answers).Err?
    ensures exists k :: 0 <= k < |answers| && ReviewRaises(review, answers[k], Legs(review, answers).error)
  {
    var n := |answers| - 1;
    if Legs(review, answers[..n]).Err? {
      LegsFaultMet(review, answers[..n]);
      var k :| 0 <= k < n && ReviewRaises(review, answers[..n][k], Legs(review, answers).error);
      assert answers[k] == answers[..n][k];
    } else {
      assert ReviewRaises(review, answers[n], Legs(review, answers).error);
    }
  }

  /** The decision point raised the fault, or the review of one of its answers did. */
  ghost predicate FailsWith(review: Review, reply: Await<seq<EvaluationResponse>>, fault: Fault) {
    reply == Raised(fault)
    || (reply.Done? && exists k :: 0 <= k < |reply.value| && ReviewRaises(review, reply.value[k], fault))
  }

  /** There is an answer list, and its length is not the number of requests. */
  predicate Misfits(rs: seq<EvaluationRequest>, reply: Await<seq<EvaluationResponse>>) {
    reply.Done? && |reply.value| != |rs|
  }

  /** Where a fault of a message can come from: its mapping, the decision point, or the review of an answer. */
  ghost predicate Suffers(ms: seq<Mapped>, w: World, fault: Fault) {
    match Groups(ms)
    case Err(f) => f == fault
    case Ok(groups) => FailsWith(w.review, Reply(w.pdp, Flatten(groups)), fault)
  }

  /** The same for a listing, which always asks in one batch. */
  ghost predicate ListingSuffers(ms: seq<Mapped>, w: World, fault: Fault) {
    match Groups(ms)
    case Err(f) => f == fault
    case Ok(groups) => FailsWith(w.review, w.pdp.batch(ToBatch(Flatten(groups))), fault)
  }

  /**
   An error result is the table's verdict on a fault that the message met; the only fault of the engine's own is an
   answer count that does not fit.
   */
  lemma FaultMet(cfg: EngineConfig, c: Entries, ms: seq<Mapped>, w: World) returns (fault: Fault)
    requires Ordered(c) && Decide(cfg, c, ms, w).0.Done? && Decide(cfg, c, ms, w).0.value.status == Error
    ensures IsFailure(Decide(cfg, c, ms, w).0.value, cfg.onError, fault)
    ensures Suffers(ms, w, fault)
            || (fault == Unexpected && Groups(ms).Ok?
                && Misfits(Flatten(Groups(ms).value), Reply(w.pdp, Flatten(Groups(ms).value))))
  {
    hide Flatten, Join, Aggregate, AfterGet, AfterSet;
    match Groups(ms) {
      case Err(f) => fault := f;
      case Ok(groups) =>
        var flat := Flatten(groups);
        var reply := Reply(w.pdp, flat);
        if reply.Raised? {
          fault := reply.fault;
        } else if |flat| == 1 {
          fault := WantsReview(w.review, reply.value[0].context).error;
        } else {
          fault := BatchAnswer(w.review, |flat|, reply.value).error;
          if AnyReview(w.review, reply.value).Err? {
            AnyReviewFault(w.review, reply.value);
          }
        }
    }
  }

  /** The same for an item of a listing that asked something: one fault of the mapping, the batch or a review. */
  lemma ItemFaultMet(cfg: EngineConfig, ms: seq<Mapped>, w: World, i: nat) returns (fault: Fault)
    requires i < |ms| && DecideEach(cfg, ms, w).Done? && DecideEach(cfg, ms, w).value[i].status == Error
    requires Groups(ms).Ok? ==> Groups(ms).value[i] != []
    ensures IsFailure(DecideEach(cfg, ms, w).value[i], cfg.onError, fault)
    ensures ListingSuffers(ms, w, fault)
            || (fault == ClientError && Groups(ms).Ok?
                && Misfits(Flatten(Groups(ms).value), w.pdp.batch(ToBatch(Flatten(Groups(ms).value)))))
  {
    hide Join, Flatten, Legs, Offset;
    match Groups(ms) {
      case Err(f) => fault := f;
      case Ok(groups) =>
        FlattenSlice(groups, i);
        var reply := w.pdp.batch(ToBatch(Flatten(groups)));
        if reply.Raised? {
          fault := reply.fault;
        } else if |reply.value| != |Flatten(groups)| {
          fault := ClientError;
        } else {
          fault := Legs(w.review, reply.value).error;
          LegsFaultMet(w.review, reply.value);
        }
    }
  }

  /** The service could not be reached in time or gave no usable answer. */
  predicate ServiceFailure(fault: Fault) {
    fault in {Unavailable, TimedOut, Malformed}
  }

  /** An error is a block; or a review, under that policy and for a service error that was met. */
  ghost predicate BlocksUnless(onError: OnError, v: VerdictResult, serviceErrorMet: bool) {
    v.status == Error ==> v.verdict == Block || (v.verdict == HumanReview && onError == ToHumanReview && serviceErrorMet)
  }

  /**
   On both paths an erroneous verdict is a block, unless a service error was met and the policy sends those to review.
   */
  lemma ReviewOnlyForServiceErrors(cfg: EngineConfig, c: Entries, ms: seq<Mapped>, w: World)
    requires Ordered(c)
    ensures var o := Decide(cfg, c, ms, w).0;
      o.Done? ==> BlocksUnless(cfg.onError, o.value, exists fault: Fault :: ServiceFailure(fault) && Suffers(ms, w, fault))
    ensures var o := DecideEach(cfg, ms, w);
      o.Done? ==> forall i :: 0 <= i < |ms| ==>
        BlocksUnless(cfg.onError, o.value[i], exists fault: Fault :: ServiceFailure(fault) && ListingSuffers(ms, w, fault))
  {
    hide Decide, DecideEach, Suffers, ListingSuffers;
    var o, listed := Decide(cfg, c, ms, w).0, DecideEach(cfg, ms, w);
    if o.Done? && o.value.status == Error {
      var fault := FaultMet(cfg, c, ms, w);
      assert ServiceFailure(fault) ==> Suffers(ms, w, fault);
    }
    if listed.Done? {
      forall i | 0 <= i < |ms|
        ensures BlocksUnless(cfg.onError, listed.value[i],
                             exists fault: Fault :: ServiceFailure(fault) && ListingSuffers(ms, w, fault))
      {
        if listed.value[i].status == Error {
          if Groups(ms).Ok? && Groups(ms).value[i] == [] {
            AbstainedItem(cfg, ms, w, i);
          } else {
            var fault := ItemFaultMet(cfg, ms, w, i);
            assert ServiceFailure(fault) ==> ListingSuffers(ms, w, fault);
          }
        }
      }
    }
  }

  /** A call that maps to nothing is blocked whatever happens to the rest of the listing. */
  lemma AbstainedItem(cfg: EngineConfig, ms: seq<Mapped>, w: World, i: nat)
    requires i < |ms| && Groups(ms).Ok? && Groups(ms).value[i] == []
    ensures DecideEach(cfg, ms, w).Done? ==> IsAbstained(DecideEach(cfg, ms, w).value[i])
  {
    hide Join, Flatten, Legs, Offset, Groups;
  }

  /** A batch of the wrong length is a hard block on both paths, whatever the error policy. */
  lemma WrongLengthBlocks(cfg: EngineConfig, c: Entries, ms: seq<Mapped>, w: World)
    requires Ordered(c) && Groups(ms).Ok?
    requires var flat := Flatten(Groups(ms).value);
      flat != [] && w.pdp.batch(ToBatch(flat)).Done? && |w.pdp.batch(ToBatch(flat)).value| != |flat|
    ensures |Flatten(Groups(ms).value)| != 1 ==> Decide(cfg, c, ms, w).0 == Done(VerdictResult(Block, "blocked by authorization policy", Error))
    ensures var o := DecideEach(cfg, ms, w);
      o.Done? && forall i :: 0 <= i < |ms| ==> o.value[i].verdict == Block && o.value[i].status == Error
  {
  }

  /** A shown item had requests, and each of them got `true` without review, at its own positions of the batch. */
  lemma ItemFailsClosed(cfg: EngineConfig, ms: seq<Mapped>, w: World, i: nat)
    requires i < |ms|
    ensures DecideEach(cfg, ms, w).Done? && IsAllowedGateway(DecideEach(cfg, ms, w).value[i]) ==> ItemGranted(ms, w, i)
  {
    hide Legs, Leg, Join, Flatten, Offset;
    if DecideEach(cfg, ms, w).Done? && IsAllowedGateway(DecideEach(cfg, ms, w).value[i]) {
      var groups := Groups(ms).value;
      var answers := w.pdp.batch(ToBatch(Flatten(groups))).value;
      assert DecideEach(cfg, ms, w) == Done(AnsweredItems(cfg, groups, w.review, answers));
      var legs := Legs(w.review, answers).value;
      FlattenSlice(groups, i);
      assert DecideEach(cfg, ms, w).value[i] == ItemVerdict(groups, legs, i);
      AllowedLegs(w.review, answers, legs, Offset(groups, i), Offset(groups, i) + |groups[i]|);
    }
  }

  /**
   Call `i` mapped to requests, the batch was answered in full, and the answers at their positions were all
   granted.
   */
  ghost predicate ItemGranted(ms: seq<Mapped>, w: World, i: nat)
    requires i < |ms|
  {
    Groups(ms).Ok? &&
    var groups := Groups(ms).value;
    var reply := w.pdp.batch(ToBatch(Flatten(groups)));
    var from, to := Offset(groups, i), Offset(groups, i) + |groups[i]|;
    && reply.Done? && |reply.value| == |Flatten(groups)| && from < to <= |reply.value|
    && Flatten(groups)[from..to] == groups[i]
    && forall a :: a in reply.value[from..to] ==> GrantedAnswer(w.review, a)
  }

  lemma AllowedLegs(review: Review, answers: seq<EvaluationResponse>, legs: seq<Verdict>, from: nat, to: nat)
    requires Legs(review, answers) == Ok(legs) && from <= to <= |legs| && Join(legs[from..to]) == Allow
    ensures forall a :: a in answers[from..to] ==> GrantedAnswer(review, a)
  {
    JoinIsMaximum(legs[from..to]);
    forall a | a in answers[from..to] ensures GrantedAnswer(review, a) {
      var k :| 0 <= k < to - from && answers[from..to][k] == a;
      assert Severity(legs[from..to][k]) <= 0;
      assert Leg(review, answers[from + k]) == Ok(legs[from + k]);
    }
  }

  /** Over a decision point that answers both endpoints alike, a list is granted exactly when each request is alone. */
  lemma GrantedPointwise(f: Answering, rs: seq<EvaluationRequest>, w: World)
    requires Deterministic(w.pdp, f) && |rs| > 0
    ensures Granted(w.review, rs, Reply(w.pdp, rs))
            <==> forall i :: 0 <= i < |rs| ==> f(rs[i]).Done? && GrantedAnswer(w.review, f(rs[i]).value)
  {
    hide ToBatch, GrantedAnswer;
    if |rs| == 1 {
      assert w.pdp.single(rs[0]) == f(rs[0]);
      if f(rs[0]).Done? {
        assert Reply(w.pdp, rs).value[0] == f(rs[0]).value;
      }
    } else {
      assert FansOut(f, rs, w.pdp.batch(ToBatch(rs)));
    }
  }

  // ----- What every evaluation keeps of the cache -----

  lemma GuardedKeepsOrder(cfg: EngineConfig, c: Entries, rs: seq<EvaluationRequest>, w: World)
    requires Ordered(c) && |c.order| <= cfg.Cap()
    ensures var d := EvaluateGuarded(cfg, c, rs, w).1; Ordered(d) && |d.order| <= cfg.Cap()
  {
    hide BatchAnswer, SingleAnswer, AfterSet, AfterGet;
    if |rs| == 1 {
      var looked := AfterGet(c, cfg.CacheKey(rs[0]), w.lookupAt);
      GetKeepsOrder(c, cfg.CacheKey(rs[0]), w.lookupAt);
      SetKeepsOrder(looked, cfg.CacheKey(rs[0]), cfg.Ttl(), cfg.Cap(), w.storeAt);
    }
  }
}
