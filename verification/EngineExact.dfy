/**
 Every verdict of the engine in the terms of what it met: the mapper's returns, the decision point's answers, the
 review predicate's replies and the error policy.
 */
module EngineExact {
  import opened Wrappers
  import opened Models
  import opened Decision
  import opened Cache
  import opened Engine
  import opened EngineTheorems

  // ----- What messages map to -----

  /** The mapper abstained, returned one request, or returned several. */
  predicate AsksFor(m: Mapped, rs: seq<EvaluationRequest>) {
    || (m.Abstain? && rs == [])
    || (m.One? && rs == [m.request])
    || (m.Many? && rs == m.requests)
  }

  ghost predicate MapsTo(ms: seq<Mapped>, groups: seq<seq<EvaluationRequest>>) {
    |groups| == |ms| && forall i :: 0 <= i < |ms| ==> AsksFor(ms[i], groups[i])
  }

  /** Call `i` is the first whose mapper raises. */
  predicate RaisesFirst(ms: seq<Mapped>, i: nat, fault: Fault) {
    i < |ms| && ms[i] == MapFault(fault) && forall j :: 0 <= j < i ==> !ms[j].MapFault?
  }

  /** A message maps to one group of requests per call, unless some mapping raises; then the first fault stands. */
  lemma {:induction false} GroupsExact(ms: seq<Mapped>)
    ensures Groups(ms).Ok? <==> forall i :: 0 <= i < |ms| ==> !ms[i].MapFault?
    ensures Groups(ms).Ok? ==> MapsTo(ms, Groups(ms).value)
    ensures Groups(ms).Err? ==> exists i: nat :: RaisesFirst(ms, i, Groups(ms).error)
  {
    if |ms| > 0 {
      var n := |ms| - 1;
      GroupsExact(ms[..n]);
      if Groups(ms[..n]).Err? {
        var i: nat :| RaisesFirst(ms[..n], i, Groups(ms[..n]).error);
        assert RaisesFirst(ms, i, Groups(ms).error);
      } else if AsRequests(ms[n]).Err? {
        assert forall j :: 0 <= j < n ==> AsksFor(ms[..n][j], Groups(ms[..n]).value[j]) && ms[..n][j] == ms[j];
        assert RaisesFirst(ms, n, Groups(ms).error);
      }
    }
  }

  lemma MapsToUnique(ms: seq<Mapped>, groups: seq<seq<EvaluationRequest>>)
    requires MapsTo(ms, groups)
    ensures Groups(ms) == Ok(groups)
  {
    GroupsExact(ms);
    assert forall i :: 0 <= i < |ms| ==> AsksFor(ms[i], groups[i]);
    assert forall i :: 0 <= i < |ms| ==> AsksFor(ms[i], Groups(ms).value[i]);
    assert groups == Groups(ms).value;
  }

  lemma RaisesFirstUnique(ms: seq<Mapped>, i: nat, fault: Fault)
    requires RaisesFirst(ms, i, fault)
    ensures Groups(ms) == Err(fault)
  {
    GroupsExact(ms);
    var k: nat :| RaisesFirst(ms, k, Groups(ms).error);
    assert i == k;
  }

  // ----- One question, single or batch -----

  /** Asking the answers one after the other, the review of answer `k` raises before any wants a human. */
  predicate StopsAt(review: Review, answers: seq<EvaluationResponse>, k: nat, fault: Fault) {
    && k < |answers| && ReviewRaises(review, answers[k], fault)
    && forall j :: 0 <= j < k ==> Unreviewed(review, answers[j])
  }

  /** What a list of answers to `n` requests comes to. */
  ghost predicate AnsweredAs(onError: OnError, review: Review, n: nat, answers: seq<EvaluationResponse>, v: VerdictResult) {
    if |answers| != n then IsFailure(v, onError, Unexpected)
    else
      && (forall k: nat, fault :: StopsAt(review, answers, k, fault) ==> IsFailure(v, onError, fault))
      && ((forall k: nat, fault :: !StopsAt(review, answers, k, fault)) ==> IsSettled(v, VerdictOf(review, answers)))
  }

  ghost predicate RepliedAs(onError: OnError, review: Review, n: nat, reply: Await<seq<EvaluationResponse>>,
                            o: Await<VerdictResult>) {
    match reply
    case Cancelled => o.Cancelled?
    case Raised(fault) => o.Done? && IsFailure(o.value, onError, fault)
    case Done(answers) => o.Done? && AnsweredAs(onError, review, n, answers, o.value)
  }

  lemma {:induction false} AnyReviewCases(review: Review, answers: seq<EvaluationResponse>)
    ensures forall k: nat, fault :: StopsAt(review, answers, k, fault) ==> AnyReview(review, answers) == Err(fault)
    ensures (forall k: nat, fault :: !StopsAt(review, answers, k, fault))
            ==> AnyReview(review, answers) == Ok(exists i :: 0 <= i < |answers| && ReviewWanted(review, answers[i]))
  {
    if |answers| > 0 {
      var tail := answers[1..];
      AnyReviewCases(review, tail);
      assert forall i :: 0 < i < |answers| ==> answers[i] == tail[i - 1];
      if Unreviewed(review, answers[0]) {
        forall k: nat, fault ensures StopsAt(review, tail, k, fault) <==> StopsAt(review, answers, k + 1, fault) {
          if StopsAt(review, answers, k + 1, fault) {
            assert forall j :: 0 <= j < k ==> tail[j] == answers[j + 1];
          }
        }
        forall k: nat, fault | StopsAt(review, answers, k, fault) ensures AnyReview(review, answers) == Err(fault) {
          assert StopsAt(review, tail, k - 1, fault);
        }
      } else if !ReviewWanted(review, answers[0]) {
        assert StopsAt(review, answers, 0, review.value(answers[0].context.value).fault);
      }
    }
  }

  lemma ReviewEscalates()
    ensures Escalate(Allow, HumanReview) == HumanReview && Escalate(Block, HumanReview) == Block
  {
  }

  lemma BatchAnsweredExact(onError: OnError, review: Review, n: nat, answers: seq<EvaluationResponse>)
    requires n > 0
    ensures var o := Guard(onError, Settle(BatchAnswer(review, n, answers)));
      o.Done? && AnsweredAs(onError, review, n, answers, o.value)
  {
    hide AnyReview, Aggregate, Escalate;
    AggregateExact(answers, n);
    AnyReviewCases(review, answers);
    ReviewEscalates();
    if k: nat, fault :| StopsAt(review, answers, k, fault) {
      FaultVerdictExact(onError, fault);
    }
    FaultVerdictExact(onError, Unexpected);
  }

  /**
   The verdict on a list of requests, completely: a cached ALLOW; or, by what the endpoint replied, the failure, the
   misfit, the fault of the review, or the verdict that the answers deserve. Only one request reads or writes the cache.
   */
  lemma GuardedExact(cfg: EngineConfig, c: Entries, rs: seq<EvaluationRequest>, w: World)
    requires Ordered(c) && |rs| > 0
    ensures var (o, d) := EvaluateGuarded(cfg, c, rs, w);
      && (if CachedGrant(cfg, c, rs, w) then o == Done(VerdictResult(Allow, "authorized by policy (cached)", Success))
          else RepliedAs(cfg.onError, w.review, |rs|, Reply(w.pdp, rs), o))
      && (|rs| != 1 ==> d == c)
  {
    if |rs| == 1 {
      SingleExact(cfg, c, rs[0], w);
    } else {
      var reply := w.pdp.batch(ToBatch(rs));
      if reply.Done? {
        BatchAnsweredExact(cfg.onError, w.review, |rs|, reply.value);
      } else if reply.Raised? {
        FaultVerdictExact(cfg.onError, reply.fault);
      }
    }
  }

  lemma SingleExact(cfg: EngineConfig, c: Entries, r: EvaluationRequest, w: World)
    requires Ordered(c)
    ensures var o := Guard(cfg.onError, EvaluateSingle(cfg, c, r, w).0);
      if CachedGrant(cfg, c, [r], w) then o == Done(VerdictResult(Allow, "authorized by policy (cached)", Success))
      else RepliedAs(cfg.onError, w.review, 1, Reply(w.pdp, [r]), o)
  {
    hide AfterGet, AfterSet;
    var reply := w.pdp.single(r);
    if reply.Done? {
      SingleAnsweredExact(cfg.onError, w.review, reply.value);
    } else if reply.Raised? {
      FaultVerdictExact(cfg.onError, reply.fault);
    }
  }

  lemma SingleAnsweredExact(onError: OnError, review: Review, a: EvaluationResponse)
    ensures var o := Guard(onError, Settle(SingleAnswer(review, a)));
      o.Done? && AnsweredAs(onError, review, 1, [a], o.value)
  {
    if !Unreviewed(review, a) && !ReviewWanted(review, a) {
      assert StopsAt(review, [a], 0, review.value(a.context.value).fault);
      FaultVerdictExact(onError, review.value(a.context.value).fault);
    } else {
      assert [a][0] == a;
    }
  }

  /** The verdict on a message, completely. */
  lemma MessageExact(cfg: EngineConfig, c: Entries, ms: seq<Mapped>, w: World)
    requires Ordered(c)
    ensures var (o, d) := Decide(cfg, c, ms, w);
      && (forall i: nat, fault :: RaisesFirst(ms, i, fault) ==> o.Done? && IsFailure(o.value, cfg.onError, fault) && d == c)
      && (forall groups :: MapsTo(ms, groups) ==>
            if Flatten(groups) == [] then o == Done(VerdictResult(Skip, "no tool call to authorize", Skipped)) && d == c
            else (o, d) == EvaluateGuarded(cfg, c, Flatten(groups), w))
  {
    hide Groups, Flatten, EvaluateGuarded;
    forall i: nat, fault | RaisesFirst(ms, i, fault)
      ensures Decide(cfg, c, ms, w).0.Done? && IsFailure(Decide(cfg, c, ms, w).0.value, cfg.onError, fault)
      ensures Decide(cfg, c, ms, w).1 == c
    {
      RaisesFirstUnique(ms, i, fault);
      FaultVerdictExact(cfg.onError, fault);
    }
    forall groups | MapsTo(ms, groups) ensures Groups(ms) == Ok(groups) {
      MapsToUnique(ms, groups);
    }
  }

  // ----- Listings -----

  /** The review of answer `k` is the first that raises; a listing asks about every answer. */
  predicate FailsAt(review: Review, answers: seq<EvaluationResponse>, k: nat, fault: Fault) {
    && k < |answers| && ReviewRaises(review, answers[k], fault)
    && forall j :: 0 <= j < k ==> Unreviewed(review, answers[j]) || ReviewWanted(review, answers[j])
  }

  predicate NothingRaises(review: Review, answers: seq<EvaluationResponse>) {
    forall j :: 0 <= j < |answers| ==> Unreviewed(review, answers[j]) || ReviewWanted(review, answers[j])
  }

  lemma {:induction false} LegsCases(review: Review, answers: seq<EvaluationResponse>)
    ensures Legs(review, answers).Ok? <==> NothingRaises(review, answers)
    ensures Legs(review, answers).Err? ==> exists k: nat :: FailsAt(review, answers, k, Legs(review, answers).error)
  {
    if |answers| > 0 {
      var n := |answers| - 1;
      var front := answers[..n];
      LegsCases(review, front);
      if Legs(review, front).Err? {
        var k: nat :| FailsAt(review, front, k, Legs(review, front).error);
        assert forall j :: 0 <= j <= k ==> front[j] == answers[j];
        assert FailsAt(review, answers, k, Legs(review, answers).error);
      } else {
        assert forall j :: 0 <= j < n ==> front[j] == answers[j];
        if Leg(review, answers[n]).Err? {
          assert FailsAt(review, answers, n, Leg(review, answers[n]).error);
        }
      }
    }
  }

  lemma FailsAtUnique(review: Review, answers: seq<EvaluationResponse>, k: nat, fault: Fault)
    requires FailsAt(review, answers, k, fault)
    ensures Legs(review, answers) == Err(fault)
  {
    LegsCases(review, answers);
    var j: nat :| FailsAt(review, answers, j, Legs(review, answers).error);
    assert j == k;
  }

  /** Item `i` of an answered listing: the fault of the listing, or the verdict its own answers deserve. */
  ghost predicate ItemAnsweredAs(onError: OnError, review: Review, groups: seq<seq<EvaluationRequest>>,
                                 answers: seq<EvaluationResponse>, i: nat, v: VerdictResult)
    requires i < |groups|
  {
    if |answers| != |Flatten(groups)| then IsFailure(v, onError, ClientError)
    else
      && (forall k: nat, fault :: FailsAt(review, answers, k, fault) ==> IsFailure(v, onError, fault))
      && ((forall k: nat, fault :: !FailsAt(review, answers, k, fault)) ==>
            && Offset(groups, i) + |groups[i]| <= |answers|
            && IsSettled(v, VerdictOf(review, answers[Offset(groups, i)..Offset(groups, i) + |groups[i]|])))
  }

  /** Item `i` of a listing whose requests were asked in one batch. */
  ghost predicate ItemRepliedAs(onError: OnError, review: Review, groups: seq<seq<EvaluationRequest>>,
                                reply: Await<seq<EvaluationResponse>>, i: nat, o: Await<seq<VerdictResult>>)
    requires i < |groups| && (o.Done? ==> |o.value| == |groups|)
  {
    match reply
    case Cancelled => o.Cancelled?
    case Raised(fault) =>
      o.Done? && if groups[i] == [] then IsAbstained(o.value[i]) else IsFailure(o.value[i], onError, fault)
    case Done(answers) =>
      o.Done? && if groups[i] == [] then IsAbstained(o.value[i])
                 else ItemAnsweredAs(onError, review, groups, answers, i, o.value[i])
  }

  lemma ItemAnsweredExact(cfg: EngineConfig, groups: seq<seq<EvaluationRequest>>, review: Review,
                          answers: seq<EvaluationResponse>, i: nat)
    requires i < |groups|
    ensures var v := AnsweredItems(cfg, groups, review, answers)[i];
      if groups[i] == [] then IsAbstained(v) else ItemAnsweredAs(cfg.onError, review, groups, answers, i, v)
  {
    hide Legs, Flatten, Offset, Join, VerdictOf;
    FaultVerdictExact(cfg.onError, ClientError);
    if |answers| == |Flatten(groups)| {
      OffsetsFit(groups);
      LegsCases(review, answers);
      forall k: nat, fault | FailsAt(review, answers, k, fault) ensures Legs(review, answers) == Err(fault) {
        FailsAtUnique(review, answers, k, fault);
      }
      match Legs(review, answers)
      case Err(fault) => FaultVerdictExact(cfg.onError, fault);
      case Ok(legs) =>
        var from, to := Offset(groups, i), Offset(groups, i) + |groups[i]|;
        if groups[i] != [] {
          forall k | 0 <= k < to - from ensures Leg(review, answers[from..to][k]) == Ok(legs[from..to][k]) {
            assert Leg(review, answers[from + k]) == Ok(legs[from + k]);
          }
          JoinByCase(review, answers[from..to], legs[from..to]);
          CleanIsSettled(review, answers[from..to]);
        }
    }
  }

  lemma CleanIsSettled(review: Review, answers: seq<EvaluationResponse>)
    ensures IsSettled(Clean(VerdictOf(review, answers)), VerdictOf(review, answers))
  {
  }

  /** The verdict on item `i` of a listing, completely. */
  lemma ListingExact(cfg: EngineConfig, ms: seq<Mapped>, w: World, i: nat)
    requires i < |ms|
    ensures var o := DecideEach(cfg, ms, w);
      && (forall k: nat, fault :: RaisesFirst(ms, k, fault) ==> o.Done? && IsFailure(o.value[i], cfg.onError, fault))
      && (forall groups :: MapsTo(ms, groups) ==>
            if Flatten(groups) == [] then o.Done? && IsAbstained(o.value[i]) else
            ItemRepliedAs(cfg.onError, w.review, groups, w.pdp.batch(ToBatch(Flatten(groups))), i, o))
  {
    hide Groups, Flatten, AnsweredItems, ItemAnsweredAs;
    forall k: nat, fault | RaisesFirst(ms, k, fault)
      ensures DecideEach(cfg, ms, w).Done? && IsFailure(DecideEach(cfg, ms, w).value[i], cfg.onError, fault)
    {
      RaisesFirstUnique(ms, k, fault);
      FaultVerdictExact(cfg.onError, fault);
    }
    forall groups | MapsTo(ms, groups) ensures Groups(ms) == Ok(groups) {
      MapsToUnique(ms, groups);
    }
    if Groups(ms).Ok? {
      var groups := Groups(ms).value;
      var reply := w.pdp.batch(ToBatch(Flatten(groups)));
      if reply.Done? {
        ItemAnsweredExact(cfg, groups, w.review, reply.value, i);
      } else if reply.Raised? {
        FaultVerdictExact(cfg.onError, reply.fault);
      }
    }
  }
}
