/** The bounded retry loop of `src/apparitor/client.py`. Times are real numbers. */
module Client {
  import opened Wrappers
  import opened Json
  import opened Decision

  datatype Config =
    Config(requestBudgetS: real, connectTimeoutS: real, readTimeoutS: real,
           maxRetries: nat, backoffBaseS: real, backoffMaxS: real)
  {
    predicate Valid() {
      && requestBudgetS > 0.0 && connectTimeoutS > 0.0 && readTimeoutS > 0.0
      && backoffBaseS >= 0.0 && backoffMaxS >= 0.0
    }
  }

  /** How the await of one attempt ends: a response, one of the two caught exceptions, any other, or a cancellation. */
  datatype Reply =
    Response(status: int, body: Option<Json>) | TimeoutException | TransportError | OtherException | Interrupted

  /**
   Everything one request meets: the clock reading at entry and, for attempt `n`, the reading before it,
   its reply, when it ended, the readings of the retry decision and of the backoff, the random jitter, and when
   the sleep after it is cancelled, if it is.
   */
  datatype Script =
    Script(start: real, begin: nat -> real, reply: nat -> Reply, ended: nat -> real,
           check: nat -> real, pause: nat -> real, jitter: nat -> real, woken: nat -> Option<real>)

  datatype PostCall = PostCall(at: real, connect: real, read: real, write: real, pool: real)

  datatype Nap = Nap(at: real, length: real)

  /** What a request did: the attempts it made, the sleeps between them, its result, and when it ended. */
  datatype Trace = Trace(posts: seq<PostCall>, naps: seq<Nap>, result: Await<Value>, finish: real)

  predicate RetryStatus(status: int) {
    status == 429 || status == 502 || status == 503 || status == 504
  }

  predicate Retryable(r: Reply) {
    match r
    case Response(status, _) => RetryStatus(status)
    case TimeoutException => true
    case TransportError => true
    case _ => false
  }

  function HandleStatus(status: int, body: Option<Json>): Result<Value, Fault> {
    if 200 <= status < 300 then StrictJson(body)
    else if 300 <= status < 400 then Err(Unavailable)
    else if 400 <= status < 500 then Err(ClientError)
    else Err(Unavailable)
  }

  /** What a reply means when it is not retried. */
  function Interpret(r: Reply): Await<Value> {
    match r
    case Response(status, body) => AsAwait(HandleStatus(status, body))
    case TimeoutException => Raised(TimedOut)
    case TransportError => Raised(Unavailable)
    case OtherException => Raised(Unexpected)
    case Interrupted => Cancelled
  }

  function AsAwait(r: Result<Value, Fault>): Await<Value> {
    match r
    case Ok(v) => Done(v)
    case Err(f) => Raised(f)
  }

  function Min(a: real, b: real): real {
    if a <= b then a else b
  }

  function Pow2(n: nat): real {
    if n == 0 then 1.0 else 2.0 * Pow2(n - 1)
  }

  /** The backoff before jitter. */
  function Delay(cfg: Config, n: nat): real {
    Min(cfg.backoffBaseS * Pow2(n), cfg.backoffMaxS)
  }

  function Timeouts(cfg: Config, at: real, remaining: real): PostCall {
    PostCall(at, Min(cfg.connectTimeoutS, remaining), Min(cfg.readTimeoutS, remaining),
             Min(cfg.readTimeoutS, remaining), Min(cfg.connectTimeoutS, remaining))
  }

  function Deadline(cfg: Config, s: Script): real {
    s.start + cfg.requestBudgetS
  }

  /** The sleep of attempt `n`, clamped to what is left of the budget; none when nothing is left. */
  function NapAfter(cfg: Config, s: Script, n: nat): seq<Nap> {
    var remaining := Deadline(cfg, s) - s.pause(n);
    if remaining <= 0.0 then [] else [Nap(s.pause(n), Min(Delay(cfg, n) + s.jitter(n), remaining))]
  }

  predicate Retries(cfg: Config, s: Script, n: nat) {
    Retryable(s.reply(n)) && n < cfg.maxRetries && s.check(n) < Deadline(cfg, s)
  }

  /** The sleep after attempt `n` happens and is cancelled. */
  predicate NapCancelled(cfg: Config, s: Script, n: nat) {
    NapAfter(cfg, s, n) != [] && s.woken(n).Some?
  }

  /** Attempt `n` is followed by another look at the budget. */
  predicate Continues(cfg: Config, s: Script, n: nat) {
    Retries(cfg, s, n) && !NapCancelled(cfg, s, n)
  }

  /** The recursive specification: attempt `n` and whatever follows it. */
  function Attempts(cfg: Config, s: Script, n: nat): Trace
    requires n <= cfg.maxRetries
    decreases cfg.maxRetries - n
  {
    var remaining := Deadline(cfg, s) - s.begin(n);
    if remaining <= 0.0 then Trace([], [], Raised(TimedOut), s.begin(n))
    else if !Retries(cfg, s, n) then Trace([Timeouts(cfg, s.begin(n), remaining)], [], Interpret(s.reply(n)), s.ended(n))
    else if NapCancelled(cfg, s, n) then
      Trace([Timeouts(cfg, s.begin(n), remaining)], NapAfter(cfg, s, n), Cancelled, s.woken(n).value)
    else
      var rest := Attempts(cfg, s, n + 1);
      Trace([Timeouts(cfg, s.begin(n), remaining)] + rest.posts, NapAfter(cfg, s, n) + rest.naps, rest.result, rest.finish)
  }

  /** A run that first did `posts` and `naps` and then went on as `t`. */
  function After(posts: seq<PostCall>, naps: seq<Nap>, t: Trace): Trace {
    Trace(posts + t.posts, naps + t.naps, t.result, t.finish)
  }

  lemma AfterStep(posts: seq<PostCall>, naps: seq<Nap>, cfg: Config, s: Script, n: nat)
    requires n <= cfg.maxRetries && s.begin(n) < Deadline(cfg, s) && Continues(cfg, s, n)
    ensures After(posts, naps, Attempts(cfg, s, n))
         == After(posts + [Timeouts(cfg, s.begin(n), Deadline(cfg, s) - s.begin(n))], naps + NapAfter(cfg, s, n),
                  Attempts(cfg, s, n + 1))
  {
  }

  lemma AfterLast(posts: seq<PostCall>, naps: seq<Nap>, cfg: Config, s: Script, n: nat)
    requires n <= cfg.maxRetries && (s.begin(n) < Deadline(cfg, s) ==> !Continues(cfg, s, n))
    ensures var t := After(posts, naps, Attempts(cfg, s, n));
      if s.begin(n) < Deadline(cfg, s)
      then t.posts == posts + [Timeouts(cfg, s.begin(n), Deadline(cfg, s) - s.begin(n))]
           && t.naps == naps + (if Retries(cfg, s, n) then NapAfter(cfg, s, n) else [])
           && t.result == if Retries(cfg, s, n) then Cancelled else Interpret(s.reply(n))
      else t.posts == posts && t.naps == naps && t.result == Raised(TimedOut)
  {
  }

  class HTTPDecisionTransport {
    const cfg: Config
    /** The attempts sent and the sleeps taken so far. */
    var posts: seq<PostCall>
    var naps: seq<Nap>

    constructor (cfg: Config)
      ensures this.cfg == cfg && posts == [] && naps == []
    {
      this.cfg := cfg;
      posts, naps := [], [];
    }

    method Post(s: Script) returns (r: Await<Value>)
      modifies this
      ensures var t := Attempts(cfg, s, 0);
        r == t.result && posts == old(posts) + t.posts && naps == old(naps) + t.naps
    {
      hide Attempts, HandleStatus, NapAfter, NapCancelled, Delay, Pow2;
      var deadline := s.start + cfg.requestBudgetS;
      var attempt: nat := 0;
      while true
        invariant attempt <= cfg.maxRetries
        invariant After(old(posts), old(naps), Attempts(cfg, s, 0)) == After(posts, naps, Attempts(cfg, s, attempt))
        decreases cfg.maxRetries - attempt
      {
        var remaining := deadline - s.begin(attempt);
        if remaining <= 0.0 {
          AfterLast(posts, naps, cfg, s, attempt);
          return Raised(TimedOut);
        }
        var call := PostCall(s.begin(attempt), Min(cfg.connectTimeoutS, remaining), Min(cfg.readTimeoutS, remaining),
                             Min(cfg.readTimeoutS, remaining), Min(cfg.connectTimeoutS, remaining));
        if Continues(cfg, s, attempt) {
          AfterStep(posts, naps, cfg, s, attempt);
        } else {
          AfterLast(posts, naps, cfg, s, attempt);
        }
        posts := posts + [call];
        var retry := false;
        match s.reply(attempt) {
          case Interrupted =>
            return Cancelled;
          case OtherException =>
            return Raised(Unexpected);
          case TimeoutException =>
            retry := ShouldRetry(s, attempt, deadline);
            if !retry {
              return Raised(TimedOut);
            }
          case TransportError =>
            retry := ShouldRetry(s, attempt, deadline);
            if !retry {
              return Raised(Unavailable);
            }
          case Response(status, body) =>
            if RetryStatus(status) {
              retry := ShouldRetry(s, attempt, deadline);
            }
            if !retry {
              return AsAwait(HandleStatus(status, body));
            }
        }
        assert Retries(cfg, s, attempt);
        var cancelled := Backoff(s, attempt, deadline);
        if cancelled {
          return Cancelled;
        }
        attempt := attempt + 1;
      }
    }

    method ShouldRetry(s: Script, attempt: nat, deadline: real) returns (retry: bool)
      ensures retry <==> attempt < cfg.maxRetries && s.check(attempt) < deadline
    {
      retry := attempt < cfg.maxRetries && s.check(attempt) < deadline;
    }

    method Backoff(s: Script, attempt: nat, deadline: real) returns (cancelled: bool)
      requires deadline == Deadline(cfg, s)
      modifies this`naps
      ensures naps == old(naps) + NapAfter(cfg, s, attempt)
      ensures cancelled == NapCancelled(cfg, s, attempt)
    {
      var delay := Min(cfg.backoffBaseS * Pow2(attempt), cfg.backoffMaxS);
      assert delay == Delay(cfg, attempt);
      delay := delay + s.jitter(attempt);
      var remaining := deadline - s.pause(attempt);
      if remaining <= 0.0 {
        return false;
      }
      naps := naps + [Nap(s.pause(attempt), Min(delay, remaining))];
      cancelled := s.woken(attempt).Some?;
    }
  }

  // ----- What the loop promises -----

  /** A failure that may pass: no answer in time, no connection, or one of four statuses. */
  predicate Transient(r: Reply) {
    r.TimeoutException? || r.TransportError? || (r.Response? && r.status in {429, 502, 503, 504})
  }

  /** Attempt `i` failed transiently with attempts and time left. */
  predicate MayRetry(cfg: Config, s: Script, i: nat) {
    Transient(s.reply(i)) && i < cfg.maxRetries && s.check(i) < s.start + cfg.requestBudgetS
  }

  /** There was time to sleep after attempt `i`, and the sleep was cancelled. */
  predicate SleepCancelled(cfg: Config, s: Script, i: nat) {
    s.pause(i) < s.start + cfg.requestBudgetS && s.woken(i).Some?
  }

  /** What the last reply means to the caller. */
  predicate Means(r: Reply, result: Await<Value>) {
    match r
    case Response(status, body) =>
      if 200 <= status < 300 then
        result == if body.Some? && NoRepeats(body.value) then Done(Load(body.value)) else Raised(Malformed)
      else result == Raised(if 400 <= status < 500 then ClientError else Unavailable)
    case TimeoutException => result == Raised(TimedOut)
    case TransportError => result == Raised(Unavailable)
    case OtherException => result == Raised(Unexpected)
    case Interrupted => result == Cancelled
  }

  /**
   How a request can end after `n` attempts: all earlier attempts were retried, and either the budget was
   gone before another one, or the last reply stands because it may not or can not be retried, or the sleep
   before the next attempt was cancelled.
   */
  predicate EndsAfter(cfg: Config, s: Script, t: Trace, n: nat) {
    && n <= cfg.maxRetries + 1
    && (forall i :: 0 <= i < n ==> s.begin(i) < s.start + cfg.requestBudgetS)
    && (forall i :: 0 <= i < n - 1 ==> MayRetry(cfg, s, i) && !SleepCancelled(cfg, s, i))
    && ((n <= cfg.maxRetries && (n > 0 ==> MayRetry(cfg, s, n - 1) && !SleepCancelled(cfg, s, n - 1))
         && s.begin(n) >= s.start + cfg.requestBudgetS && t.result == Raised(TimedOut))
        || (n > 0 && !MayRetry(cfg, s, n - 1) && Means(s.reply(n - 1), t.result))
        || (n > 0 && MayRetry(cfg, s, n - 1) && SleepCancelled(cfg, s, n - 1) && t.result == Cancelled))
  }

  lemma LoopTestsExact(cfg: Config, s: Script, i: nat)
    ensures Retries(cfg, s, i) <==> MayRetry(cfg, s, i)
    ensures Retries(cfg, s, i) ==> i < cfg.maxRetries
    ensures Continues(cfg, s, i) <==> MayRetry(cfg, s, i) && !SleepCancelled(cfg, s, i)
  {
  }

  lemma InterpretExact(r: Reply)
    ensures Means(r, Interpret(r))
  {
    hide NoRepeats, Load, StrictLoad;
    if r.Response? && r.body.Some? {
      StrictReaderExact(r.body.value);
    }
  }

  lemma AttemptsUnfold(cfg: Config, s: Script, k: nat)
    requires k <= cfg.maxRetries
    ensures var t := Attempts(cfg, s, k);
      if s.begin(k) >= Deadline(cfg, s) then |t.posts| == 0 && t.result == Raised(TimedOut)
      else if !Retries(cfg, s, k) then |t.posts| == 1 && t.result == Interpret(s.reply(k))
      else if !Continues(cfg, s, k) then |t.posts| == 1 && t.result == Cancelled
      else |t.posts| == 1 + |Attempts(cfg, s, k + 1).posts| && t.result == Attempts(cfg, s, k + 1).result
  {
  }

  lemma {:induction false} AttemptsFrom(cfg: Config, s: Script, k: nat)
    requires k <= cfg.maxRetries
    requires forall i :: 0 <= i < k ==>
      s.begin(i) < s.start + cfg.requestBudgetS && MayRetry(cfg, s, i) && !SleepCancelled(cfg, s, i)
    ensures EndsAfter(cfg, s, Attempts(cfg, s, k), k + |Attempts(cfg, s, k).posts|)
    decreases cfg.maxRetries - k
  {
    hide MayRetry, SleepCancelled, Means, Interpret, Retries, NapCancelled, Continues, NapAfter;
    LoopTestsExact(cfg, s, k);
    InterpretExact(s.reply(k));
    AttemptsUnfold(cfg, s, k);
    if s.begin(k) < Deadline(cfg, s) && Continues(cfg, s, k) {
      AttemptsFrom(cfg, s, k + 1);
    }
  }

  /**
   Bounded attempts, only retryable replies retried, and the result is the last reply's meaning, an exhausted
   budget or a cancelled sleep.
   */
  lemma RetryLoopExact(cfg: Config, s: Script)
    ensures var t := Attempts(cfg, s, 0); EndsAfter(cfg, s, t, |t.posts|)
  {
    AttemptsFrom(cfg, s, 0);
  }

  /** The number of attempts is the only one that fits: the description above determines the run. */
  lemma EndsAfterUnique(cfg: Config, s: Script, t: Trace, u: Trace, m: nat, n: nat)
    requires EndsAfter(cfg, s, t, m) && EndsAfter(cfg, s, u, n)
    ensures m == n && t.result == u.result
  {
  }

  /** `x` is the smaller of the two. */
  predicate IsLeast(x: real, a: real, b: real) {
    x <= a && x <= b && (x == a || x == b)
  }

  /**
   Attempt `i` starts before the deadline, and each of its four timeouts is the configured one or, when that is less,
   all the time that is left.
   */
  predicate AttemptFits(cfg: Config, s: Script, i: nat, p: PostCall) {
    var left := s.start + cfg.requestBudgetS - s.begin(i);
    && p.at == s.begin(i) && left > 0.0
    && IsLeast(p.connect, cfg.connectTimeoutS, left) && IsLeast(p.pool, cfg.connectTimeoutS, left)
    && IsLeast(p.read, cfg.readTimeoutS, left) && IsLeast(p.write, cfg.readTimeoutS, left)
  }

  /** The sleep after attempt `i`: the backoff with its jitter or, when that is less, all the time that is left. */
  predicate NapFits(cfg: Config, s: Script, i: nat, nap: Nap) {
    var left := s.start + cfg.requestBudgetS - s.pause(i);
    nap.at == s.pause(i) && left > 0.0 && IsLeast(nap.length, Delay(cfg, i) + s.jitter(i), left)
  }

  /** The attempts among the first `n` that are followed by a sleep: retried, with time left to sleep in. */
  function Rests(cfg: Config, s: Script, n: nat): (at: seq<nat>)
    ensures forall k :: 0 <= k < |at| ==> at[k] < n
  {
    if n == 0 then [] else
    Rests(cfg, s, n - 1) + if MayRetry(cfg, s, n - 1) && s.pause(n - 1) < s.start + cfg.requestBudgetS then [n - 1] else []
  }

  predicate Fits(cfg: Config, s: Script, posts: seq<PostCall>, naps: seq<Nap>) {
    && (forall i :: 0 <= i < |posts| ==> AttemptFits(cfg, s, i, posts[i]))
    && |naps| == |Rests(cfg, s, |posts|)|
    && (forall k :: 0 <= k < |naps| ==> NapFits(cfg, s, Rests(cfg, s, |posts|)[k], naps[k]))
  }

  lemma FitsStep(cfg: Config, s: Script, posts: seq<PostCall>, naps: seq<Nap>)
    requires Fits(cfg, s, posts, naps) && s.begin(|posts|) < Deadline(cfg, s)
    ensures var n := |posts|;
      Fits(cfg, s, posts + [Timeouts(cfg, s.begin(n), Deadline(cfg, s) - s.begin(n))],
           naps + if Retries(cfg, s, n) then NapAfter(cfg, s, n) else [])
  {
    LoopTestsExact(cfg, s, |posts|);
  }

  lemma {:induction false} AttemptsFitFrom(cfg: Config, s: Script, posts: seq<PostCall>, naps: seq<Nap>)
    requires |posts| <= cfg.maxRetries && Fits(cfg, s, posts, naps)
    ensures var t := Attempts(cfg, s, |posts|); Fits(cfg, s, posts + t.posts, naps + t.naps)
    decreases cfg.maxRetries - |posts|
  {
    hide Fits, NapAfter, Timeouts, NapCancelled, Retries;
    var n := |posts|;
    if s.begin(n) < Deadline(cfg, s) {
      FitsStep(cfg, s, posts, naps);
      LoopTestsExact(cfg, s, n);
      var p := posts + [Timeouts(cfg, s.begin(n), Deadline(cfg, s) - s.begin(n))];
      var x := naps + if Retries(cfg, s, n) then NapAfter(cfg, s, n) else [];
      if Continues(cfg, s, n) {
        AttemptsFitFrom(cfg, s, p, x);
        var rest := Attempts(cfg, s, n + 1);
        assert posts + Attempts(cfg, s, n).posts == p + rest.posts;
        assert naps + Attempts(cfg, s, n).naps == x + rest.naps;
      } else {
        assert posts + Attempts(cfg, s, n).posts == p;
        assert naps + Attempts(cfg, s, n).naps == x;
      }
    } else {
      assert posts + Attempts(cfg, s, n).posts == posts;
      assert naps + Attempts(cfg, s, n).naps == naps;
    }
  }

  /**
   Every attempt starts before the deadline with four timeouts clamped to it; a sleep follows exactly the retried
   attempts that leave time for one, and none ends past the deadline.
   */
  lemma AttemptsWithinBudget(cfg: Config, s: Script)
    ensures var t := Attempts(cfg, s, 0);
      Fits(cfg, s, t.posts, t.naps) && forall k :: 0 <= k < |t.naps| ==> EndsBy(t.naps[k], Deadline(cfg, s))
  {
    AttemptsFitFrom(cfg, s, [], []);
    var t := Attempts(cfg, s, 0);
    assert [] + t.posts == t.posts && [] + t.naps == t.naps;
    forall k | 0 <= k < |t.naps| ensures EndsBy(t.naps[k], Deadline(cfg, s)) {
      assert NapFits(cfg, s, Rests(cfg, s, |t.posts|)[k], t.naps[k]);
    }
  }

  predicate EndsBy(nap: Nap, deadline: real) {
    nap.at + nap.length <= deadline
  }

  // ----- Time -----

  function Slept(naps: seq<Nap>): real {
    if |naps| == 0 then 0.0 else naps[0].length + Slept(naps[1..])
  }

  /** Time does not run backwards, and a sleep that is not cancelled lasts at least as long as it was asked to. */
  ghost predicate Timeline(cfg: Config, s: Script) {
    && s.start <= s.begin(0)
    && forall n: nat :: TimelineAt(cfg, s, n)
  }

  predicate TimelineAt(cfg: Config, s: Script, n: nat) {
    && s.begin(n) <= s.ended(n) <= s.check(n) <= s.pause(n)
    && (!NapCancelled(cfg, s, n) ==> s.pause(n) + Slept(NapAfter(cfg, s, n)) <= s.begin(n + 1))
    && 0.0 <= s.jitter(n) <= cfg.backoffBaseS
  }

  /** The longest sleep the configuration allows from attempt `n` on. */
  function BackoffBound(cfg: Config, n: nat): real
    requires n <= cfg.maxRetries
    decreases cfg.maxRetries - n
  {
    if n == cfg.maxRetries then 0.0 else Delay(cfg, n) + cfg.backoffBaseS + BackoffBound(cfg, n + 1)
  }

  lemma {:induction false} SleptConcat(xs: seq<Nap>, ys: seq<Nap>)
    ensures Slept(xs + ys) == Slept(xs) + Slept(ys)
  {
    if |xs| == 0 {
      assert xs + ys == ys;
    } else {
      assert (xs + ys)[1..] == xs[1..] + ys;
      SleptConcat(xs[1..], ys);
    }
  }

  lemma {:induction false} Pow2Positive(n: nat)
    ensures Pow2(n) >= 1.0
  {
    if n > 0 {
      Pow2Positive(n - 1);
    }
  }

  lemma DelayNonNegative(cfg: Config, n: nat)
    requires cfg.Valid()
    ensures Delay(cfg, n) >= 0.0
  {
    Pow2Positive(n);
    assert cfg.backoffBaseS * Pow2(n) >= 0.0;
  }

  lemma {:induction false} BackoffBoundNonNegative(cfg: Config, n: nat)
    requires cfg.Valid() && n <= cfg.maxRetries
    ensures BackoffBound(cfg, n) >= 0.0
    decreases cfg.maxRetries - n
  {
    if n < cfg.maxRetries {
      DelayNonNegative(cfg, n);
      BackoffBoundNonNegative(cfg, n + 1);
    }
  }

  lemma {:induction false} SleptFrom(cfg: Config, s: Script, n: nat)
    requires cfg.Valid() && n <= cfg.maxRetries && forall m: nat :: TimelineAt(cfg, s, m)
    ensures Slept(Attempts(cfg, s, n).naps) <= BackoffBound(cfg, n)
    ensures s.begin(n) <= Deadline(cfg, s) ==> Slept(Attempts(cfg, s, n).naps) <= Deadline(cfg, s) - s.begin(n)
    ensures s.begin(n) > Deadline(cfg, s) ==> Attempts(cfg, s, n).naps == []
    decreases cfg.maxRetries - n
  {
    BackoffBoundNonNegative(cfg, n);
    if s.begin(n) < Deadline(cfg, s) && Retries(cfg, s, n) {
      assert TimelineAt(cfg, s, n);
      DelayNonNegative(cfg, n);
      SleptOne(cfg, s, n);
      BackoffBoundNonNegative(cfg, n + 1);
      if Continues(cfg, s, n) {
        SleptFrom(cfg, s, n + 1);
        SleptConcat(NapAfter(cfg, s, n), Attempts(cfg, s, n + 1).naps);
      }
    }
  }

  lemma SleptOne(cfg: Config, s: Script, n: nat)
    requires cfg.Valid() && TimelineAt(cfg, s, n)
    ensures 0.0 <= Slept(NapAfter(cfg, s, n)) <= Delay(cfg, n) + cfg.backoffBaseS
    ensures s.pause(n) <= Deadline(cfg, s) ==> s.pause(n) + Slept(NapAfter(cfg, s, n)) <= Deadline(cfg, s)
    ensures s.pause(n) > Deadline(cfg, s) ==> NapAfter(cfg, s, n) == []
  {
    DelayNonNegative(cfg, n);
    var naps := NapAfter(cfg, s, n);
    if |naps| == 1 {
      assert naps[1..] == [];
    }
  }

  /** Total sleep is bounded by the budget and by the configured backoffs with full jitter. */
  lemma TotalSleepBounded(cfg: Config, s: Script)
    requires cfg.Valid() && Timeline(cfg, s)
    ensures Slept(Attempts(cfg, s, 0).naps) <= Min(cfg.requestBudgetS, BackoffBound(cfg, 0))
  {
    SleptFrom(cfg, s, 0);
  }

  /**
   `lag` bounds how late the event loop resumes after an attempt, between two readings and after a sleep, cancelled
   or not, and every attempt ends within the time it was handed.
   */
  ghost predicate Punctual(cfg: Config, s: Script, lag: real) {
    && s.begin(0) <= s.start + lag
    && forall n: nat :: PunctualAt(cfg, s, lag, n)
  }

  predicate PunctualAt(cfg: Config, s: Script, lag: real, n: nat) {
    && s.pause(n) <= s.check(n) + lag
    && s.begin(n + 1) <= s.pause(n) + Slept(NapAfter(cfg, s, n)) + lag
    && (NapCancelled(cfg, s, n) ==> s.woken(n).value <= s.pause(n) + Slept(NapAfter(cfg, s, n)) + lag)
    && (s.begin(n) < Deadline(cfg, s) ==> s.ended(n) <= Deadline(cfg, s))
  }

  lemma {:induction false} FinishFrom(cfg: Config, s: Script, lag: real, n: nat)
    requires cfg.Valid() && n <= cfg.maxRetries && lag >= 0.0
    requires forall m: nat :: TimelineAt(cfg, s, m) && PunctualAt(cfg, s, lag, m)
    requires s.begin(n) <= Deadline(cfg, s) + 2.0 * lag
    ensures Attempts(cfg, s, n).finish <= Deadline(cfg, s) + 2.0 * lag
    decreases cfg.maxRetries - n
  {
    assert TimelineAt(cfg, s, n) && PunctualAt(cfg, s, lag, n);
    if s.begin(n) < Deadline(cfg, s) && Retries(cfg, s, n) {
      SleptOne(cfg, s, n);
      if Continues(cfg, s, n) {
        FinishFrom(cfg, s, lag, n + 1);
      }
    }
  }

  /** The budget bounds the wall clock: late by at most two scheduling lags, and not at all on a punctual loop. */
  lemma BudgetBoundsWallClock(cfg: Config, s: Script, lag: real)
    requires cfg.Valid() && lag >= 0.0 && Timeline(cfg, s) && Punctual(cfg, s, lag)
    ensures Attempts(cfg, s, 0).finish <= s.start + cfg.requestBudgetS + 2.0 * lag
  {
    FinishFrom(cfg, s, lag, 0);
  }

  /** The first backoff is the base and each is twice the one before, up to the configured maximum. */
  lemma BackoffDoubles(cfg: Config, n: nat)
    requires cfg.Valid()
    ensures IsLeast(Delay(cfg, 0), cfg.backoffBaseS, cfg.backoffMaxS)
    ensures IsLeast(Delay(cfg, n + 1), 2.0 * Delay(cfg, n), cfg.backoffMaxS)
    ensures Delay(cfg, n) <= Delay(cfg, n + 1) <= cfg.backoffMaxS
  {
    DelayNonNegative(cfg, n);
    assert cfg.backoffBaseS * Pow2(n + 1) == 2.0 * (cfg.backoffBaseS * Pow2(n));
  }

  // ----- Outcomes -----

  /** The last reply, when the request ended with it. */
  function LastReply(cfg: Config, s: Script): Option<Reply> {
    var n := |Attempts(cfg, s, 0).posts|;
    if n > 0 && !MayRetry(cfg, s, n - 1) then Some(s.reply(n - 1)) else None
  }

  /** The body of the final 2xx reply, when there is one. */
  function FinalBody(cfg: Config, s: Script): Option<Json> {
    match LastReply(cfg, s)
    case Some(Response(status, body)) => if 200 <= status < 300 then body else None
    case _ => None
  }

  /** The sleep that was to follow the last attempt was cancelled. */
  predicate LastNapCancelled(cfg: Config, s: Script) {
    var n := |Attempts(cfg, s, 0).posts|;
    n > 0 && MayRetry(cfg, s, n - 1) && SleepCancelled(cfg, s, n - 1)
  }

  /**
   A value comes only from a final 2xx body that repeats no key, a client error only from a final 4xx, a timeout from
   a final timeout or an exhausted budget, and a cancellation only from a cancelled await.
   */
  lemma OutcomeExact(cfg: Config, s: Script)
    ensures var r, last := Attempts(cfg, s, 0).result, LastReply(cfg, s);
      && (r.Done? <==> last.Some? && last.value.Response? && 200 <= last.value.status < 300
                       && last.value.body.Some? && NoRepeats(last.value.body.value))
      && (r.Done? ==> r.value == Load(last.value.body.value))
      && (r == Raised(ClientError) <==> last.Some? && last.value.Response? && 400 <= last.value.status < 500)
      && (r == Raised(TimedOut) <==> last == Some(TimeoutException) || (last.None? && !LastNapCancelled(cfg, s)))
      && (r == Raised(Unexpected) <==> last == Some(OtherException))
      && (r.Cancelled? <==> last == Some(Interrupted) || LastNapCancelled(cfg, s))
  {
    hide Attempts, NoRepeats, Load, MayRetry, SleepCancelled;
    RetryLoopExact(cfg, s);
  }

  /** The final reply is a 2xx whose body repeats no key at any depth: `d`. */
  predicate EndsOn(cfg: Config, s: Script, d: Json) {
    FinalBody(cfg, s) == Some(d) && NoRepeats(d)
  }

  lemma EndsOnExact(cfg: Config, s: Script)
    ensures var result := Attempts(cfg, s, 0).result;
      && (result.Done? <==> exists d :: EndsOn(cfg, s, d))
      && forall d :: EndsOn(cfg, s, d) ==> result == Done(Load(d)) && FinalBody(cfg, s) == Some(d)
  {
    hide Attempts, NoRepeats, Load;
    OutcomeExact(cfg, s);
    if Attempts(cfg, s, 0).result.Done? {
      assert EndsOn(cfg, s, FinalBody(cfg, s).value);
    }
  }

  // ----- Through the error table -----

  /**
   When the last reply was a retryable failure and no sleep was cancelled. A 429 is a hard block exactly when its
   retry was refused; if instead the budget ran out before another attempt, the failure is a timeout and resolves
   through `on_error`, like every other retryable failure.
   */
  lemma ExhaustedFailure(cfg: Config, s: Script, onError: OnError)
    requires |Attempts(cfg, s, 0).posts| > 0 && Transient(s.reply(|Attempts(cfg, s, 0).posts| - 1))
    ensures var t := Attempts(cfg, s, 0);
      var last := |t.posts| - 1;
      var hard := s.reply(last).Response? && s.reply(last).status == 429 && !MayRetry(cfg, s, last);
      && (t.result.Cancelled? <==> LastNapCancelled(cfg, s))
      && (!t.result.Cancelled? ==>
            && t.result.Raised?
            && (t.result == Raised(ClientError) <==> hard)
            && var v := FaultVerdict(onError, t.result.fault);
               && v.status == Error && v.reason == "blocked by authorization policy"
               && v.verdict == if hard || onError == Deny then Block else HumanReview)
  {
    hide Attempts;
    RetryLoopExact(cfg, s);
  }

  /**
   A run that is throttled once and whose clamped backoff ends on the deadline: a timeout, so not a hard block. Its
   clock never goes back, and nothing in it is late.
   */
  lemma ThrottledUntilDeadline()
    ensures exists cfg: Config, s: Script ::
      && cfg.Valid() && Timeline(cfg, s) && Punctual(cfg, s, 0.0)
      && Attempts(cfg, s, 0).result == Raised(TimedOut)
      && |Attempts(cfg, s, 0).posts| == 1 && s.reply(0) == Response(429, None)
  {
    var cfg := Config(2.0, 1.0, 2.0, 2, 4.0, 4.0);
    var s := Script(0.0, n => if n == 0 then 0.0 else 2.0, n => Response(429, None), n => if n == 0 then 1.0 else 2.0,
                    n => if n == 0 then 1.0 else 2.0, n => if n == 0 then 1.0 else 2.0, n => 0.0, n => None);
    assert Attempts(cfg, s, 1) == Trace([], [], Raised(TimedOut), 2.0);
    assert Retries(cfg, s, 0);
    assert |Attempts(cfg, s, 0).posts| == 1;
    assert NapAfter(cfg, s, 0) == [Nap(1.0, 1.0)] && [Nap(1.0, 1.0)][1..] == [];
    forall n: nat ensures TimelineAt(cfg, s, n) && PunctualAt(cfg, s, 0.0, n) {
      assert n > 0 ==> NapAfter(cfg, s, n) == [];
    }
  }
}
