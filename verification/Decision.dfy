/** The verdict vocabulary and the severity lattice of `src/apparitor/decision.py`. */
module Decision {
  import opened Wrappers

  datatype Verdict = Allow | HumanReview | Block | Skip

  datatype Status = Success | Error | Skipped

  datatype VerdictResult = VerdictResult(verdict: Verdict, reason: string, status: Status)

  datatype OnError = Deny | ToHumanReview

  const ALLOW_REASON := "authorized by policy"
  const CACHED_REASON := "authorized by policy (cached)"
  const DENY_REASON := "blocked by authorization policy"
  const SKIP_REASON := "no tool call to authorize"
  const REVIEW_REASON := "authorization requires human review"
  const ABSTAIN_REASON := "mapper abstained (fail closed)"

  function Severity(v: Verdict): int {
    match v
    case Skip => -1
    case Allow => 0
    case HumanReview => 1
    case Block => 2
  }

  function Escalate(base: Verdict, target: Verdict): Verdict {
    if Severity(base) >= Severity(target) then base else target
  }

  function MapSingle(decision: bool, wantsReview: bool): Verdict {
    var base := if decision then Allow else Block;
    if wantsReview then Escalate(base, HumanReview) else base
  }

  function Aggregate(decisions: seq<bool>, expected: nat): Verdict {
    if |decisions| != expected || exists i :: 0 <= i < |decisions| && !decisions[i] then Block else Allow
  }

  function ReasonFor(v: Verdict): string {
    match v
    case Allow => ALLOW_REASON
    case HumanReview => REVIEW_REASON
    case _ => DENY_REASON
  }

  function ResolveError(onError: OnError, reason: string): VerdictResult {
    VerdictResult(if onError.Deny? then Block else HumanReview, reason, Error)
  }

  /** The one error table, shared by every evaluation path. */
  function FaultVerdict(onError: OnError, fault: Fault): VerdictResult {
    if fault.IsServiceError() then ResolveError(onError, DENY_REASON)
    else VerdictResult(Block, DENY_REASON, Error)
  }

  predicate IsAllowedInline(r: VerdictResult) {
    r.status != Error && (r.verdict == Allow || r.verdict == Skip)
  }

  predicate IsAllowedGateway(r: VerdictResult) {
    r.status != Error && r.verdict == Allow
  }

  // ----- What a caller sees, spelled out -----

  /** A clean verdict with its text. */
  predicate IsSettled(r: VerdictResult, v: Verdict) {
    || (v == Allow && r == VerdictResult(Allow, "authorized by policy", Success))
    || (v == HumanReview && r == VerdictResult(HumanReview, "authorization requires human review", Success))
    || (v == Block && r == VerdictResult(Block, "blocked by authorization policy", Success))
  }

  /** A fault blocks, unless the service failed and the policy sends service failures to review. */
  predicate IsFailure(r: VerdictResult, onError: OnError, fault: Fault) {
    && r.status == Error && r.reason == "blocked by authorization policy"
    && r.verdict == if onError == ToHumanReview && fault in {Unavailable, TimedOut, Malformed} then HumanReview else Block
  }

  /** An item of a listing that maps to nothing is hidden. */
  predicate IsAbstained(r: VerdictResult) {
    r == VerdictResult(Block, "mapper abstained (fail closed)", Error)
  }

  lemma FaultVerdictExact(onError: OnError, fault: Fault)
    ensures IsFailure(FaultVerdict(onError, fault), onError, fault)
  {
  }

  // ----- The lattice -----

  /** The most severe of several verdicts; nothing at all is `Skip`. */
  function Join(vs: seq<Verdict>): Verdict {
    if |vs| == 0 then Skip else Escalate(Join(vs[..|vs| - 1]), vs[|vs| - 1])
  }

  /** `Escalate` is the join of a bounded total order: least upper bound, so associative, commutative, idempotent. */
  lemma EscalateIsJoin(a: Verdict, b: Verdict, c: Verdict)
    ensures Severity(Escalate(a, b)) <= Severity(c) <==> Severity(a) <= Severity(c) && Severity(b) <= Severity(c)
    ensures Escalate(Escalate(a, b), c) == Escalate(a, Escalate(b, c))
    ensures Escalate(a, b) == Escalate(b, a) && Escalate(a, a) == a
    ensures Escalate(Skip, a) == a && Escalate(a, Block) == Block
  {
  }

  lemma {:induction false} JoinConcat(xs: seq<Verdict>, ys: seq<Verdict>)
    ensures Join(xs + ys) == Escalate(Join(xs), Join(ys))
  {
    if |ys| == 0 {
      assert xs + ys == xs;
    } else {
      JoinConcat(xs, ys[..|ys| - 1]);
      assert (xs + ys)[..|xs + ys| - 1] == xs + ys[..|ys| - 1];
      EscalateIsJoin(Join(xs), Join(ys[..|ys| - 1]), ys[|ys| - 1]);
    }
  }

  /** The join is the maximum: an upper bound that is attained. */
  lemma {:induction false} JoinIsMaximum(vs: seq<Verdict>)
    ensures forall i :: 0 <= i < |vs| ==> Severity(vs[i]) <= Severity(Join(vs))
    ensures |vs| > 0 ==> Join(vs) in vs
  {
    if |vs| > 0 {
      var front, last := vs[..|vs| - 1], vs[|vs| - 1];
      JoinIsMaximum(front);
      forall i | 0 <= i < |vs| ensures Severity(vs[i]) <= Severity(Join(vs)) {
        assert i < |front| ==> front[i] == vs[i];
      }
      if |front| > 0 {
        var i :| 0 <= i < |front| && front[i] == Join(front);
        assert vs[i] == Join(front);
      }
    }
  }

  /** Only which verdicts occur matters: neither order, nor grouping, nor repetition. */
  lemma JoinDependsOnMembers(xs: seq<Verdict>, ys: seq<Verdict>)
    requires forall v :: v in xs <==> v in ys
    ensures Join(xs) == Join(ys)
  {
    JoinIsMaximum(xs);
    JoinIsMaximum(ys);
    assert |xs| > 0 ==> xs[0] in ys;
    assert |ys| > 0 ==> ys[0] in xs;
    assert |xs| > 0 && |ys| > 0 ==> Join(xs) in ys && Join(ys) in xs;
  }
}
