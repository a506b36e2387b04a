/** One call to the node: classify the answer, retry what is transient, with backoff, under the limiter. */
module RpcCalls {
  import opened Wrappers
  import opened Numbers
  import opened RpcLimiter

  datatype RpcError = Transient(msg: string, retryAfter: Option<nat>) | Rejected(reason: string)

  /** 429, 408 and the server errors can pass; any other failure status is an answer (section 4 of RFC 6585). */
  function ClassifyStatus(status: nat, retryAfter: Option<nat>, body: string): Option<RpcError> {
    if 200 <= status < 300 then None
    else if status == 429 || status == 408 || 500 <= status < 600 then Some(Transient(body, retryAfter))
    else Some(Rejected(body))
  }

  datatype Json = Malformed | HasError(error: string) | HasResult(result: string) | HasNeither

  /** What came back: nothing, a status whose body could not be read, or a whole answer. */
  datatype Response =
    | NoAnswer(msg: string)
    | BodyLost(status: nat, retryAfter: Option<nat>, msg: string)
    | Answer(status: nat, retryAfter: Option<nat>, text: string, json: Json)

  const NULL := "null"

  function TryOnce(r: Response): Result<string, RpcError> {
    match r
    case NoAnswer(msg) => Err(Transient(msg, None))
    case BodyLost(_, _, msg) => Err(Transient(msg, None))
    case Answer(status, retryAfter, text, json) =>
      var failure := ClassifyStatus(status, retryAfter, text);
      if failure.Some? then Err(failure.value)
      else
        match json
        case Malformed => Err(Rejected("bad json"))
        case HasError(e) => Err(Rejected(e))
        case HasResult(v) => Ok(v)
        case HasNeither => Ok(NULL)
  }

  predicate IsTransient(r: Result<string, RpcError>) {
    r.Err? && r.error.Transient?
  }

  /** Retried are exactly the unanswered, the half-read, and the statuses 408, 429 and 500 to 599, which carry the
      server's Retry-After; only a 2xx answer without an error field succeeds. */
  lemma RetriedExactly(r: Response)
    ensures IsTransient(TryOnce(r)) <==> !r.Answer? || r.status in {408, 429} || 500 <= r.status <= 599
    ensures IsTransient(TryOnce(r)) <==> Retried(r)
    ensures IsTransient(TryOnce(r)) ==> TryOnce(r).error.retryAfter == RetryAfter(r)
    ensures TryOnce(r).Ok? <==> r.Answer? && 200 <= r.status <= 299 && (r.json.HasResult? || r.json.HasNeither?)
  {
  }

  /** 408, 429 and the server errors. */
  predicate Passing(status: nat) {
    status in {408, 429} || 500 <= status <= 599
  }

  predicate Succeeded(status: nat) {
    200 <= status <= 299
  }

  /** What an answer means: no answer and a lost body can be retried; so can a passing status, which carries the body
      text and the server's Retry-After; any other failure status is a rejection with the body text. A success gives the
      result field, null without one, a rejection with the error field, and a rejection if it does not parse. */
  ghost predicate Means(last: Response, r: Result<string, RpcError>) {
    match last
    case NoAnswer(msg) => r == Err(Transient(msg, None))
    case BodyLost(_, _, msg) => r == Err(Transient(msg, None))
    case Answer(status, retryAfter, text, json) =>
      && (Passing(status) ==> r == Err(Transient(text, retryAfter)))
      && (!Passing(status) && !Succeeded(status) ==> r == Err(Rejected(text)))
      && (Succeeded(status) && json.HasResult? ==> r == Ok(json.result))
      && (Succeeded(status) && json.HasNeither? ==> r == Ok("null"))
      && (Succeeded(status) && json.HasError? ==> r == Err(Rejected(json.error)))
      && (Succeeded(status) && json.Malformed? ==> r.Err? && r.error.Rejected?)
  }

  lemma AnswersMean(r: Response)
    ensures Means(r, TryOnce(r))
  {
  }

  /** A response after which the call is tried again. */
  predicate Retried(r: Response) {
    r.Answer? ==> Passing(r.status)
  }

  function RetryAfter(r: Response): Option<nat> {
    if r.Answer? then r.retryAfter else None
  }

  datatype Limits = Limits(maxRetries: nat, baseBackoffMs: nat, maxBackoffMs: nat) {
    /** The jitter adds one to the cap, which must fit. */
    predicate Fits() { baseBackoffMs <= U64_MAX && maxBackoffMs < U64_MAX }
  }

  function SaturatingMul(a: nat, b: nat): nat {
    Min(a * b, U64_MAX)
  }

  /** The longest wait after failed attempt `attempt`. */
  function Ceiling(l: Limits, attempt: nat): nat {
    Min(SaturatingMul(l.baseBackoffMs, Pow2(Min(attempt, 20))), l.maxBackoffMs)
  }

  /** Somewhere in [0, capped], by the clock. */
  function Jitter(capped: nat, nanos: nat): nat {
    if capped == 0 then 0 else nanos % (capped + 1)
  }

  function Backoff(l: Limits, attempt: nat, retryAfter: Option<nat>, nanos: nat): nat {
    var jittered := Jitter(Ceiling(l, attempt), nanos);
    match retryAfter
    case Some(s) => Max(SaturatingMul(s, 1000), jittered)
    case None => jittered
  }

  lemma {:induction false} Pow2Grows(a: nat, b: nat)
    requires a <= b
    ensures 1 <= Pow2(a) <= Pow2(b)
    decreases b
  {
    if a < b {
      Pow2Grows(a, b - 1);
    } else if a > 0 {
      Pow2Grows(a - 1, b - 1);
    }
  }

  /** The ceiling is the base at first and doubles with every attempt, up to the cap; it stops at the twentieth. */
  lemma CeilingDoubles(l: Limits, attempt: nat)
    requires l.Fits()
    ensures Ceiling(l, 0) == Min(l.baseBackoffMs, l.maxBackoffMs)
    ensures Ceiling(l, attempt + 1)
         == if attempt < 20 then Min(2 * Ceiling(l, attempt), l.maxBackoffMs) else Ceiling(l, attempt)
  {
    if attempt < 20 {
      var x := l.baseBackoffMs * Pow2(attempt);
      assert l.baseBackoffMs * Pow2(attempt + 1) == 2 * x;
    }
  }

  /** The clock's nanoseconds within the second. */
  const NANOS_PER_SEC: nat := 1_000_000_000

  /** The longest wait the clock can give: the ceiling, or the largest clock reading. */
  function Reach(l: Limits, attempt: nat): nat {
    Min(Ceiling(l, attempt), NANOS_PER_SEC - 1)
  }

  /** The ceilings never shrink and stop at the cap; every wait within reach is possible for some clock reading; a
      server's Retry-After (section 10.2.3 of RFC 9110) is waited out and wins exactly when no jitter could exceed it.
      */
  lemma BackoffBounds(l: Limits, attempt: nat, nanos: nat, wait: nat, s: nat)
    requires l.Fits() && nanos < NANOS_PER_SEC && wait <= Reach(l, attempt)
    ensures Ceiling(l, attempt) <= Ceiling(l, attempt + 1) <= l.maxBackoffMs
    ensures Backoff(l, attempt, None, nanos) <= Reach(l, attempt)
    ensures Backoff(l, attempt, None, wait) == wait
    ensures Backoff(l, attempt, Some(s), nanos) >= SaturatingMul(s, 1000)
    ensures (forall clock: nat | clock < NANOS_PER_SEC :: Backoff(l, attempt, Some(s), clock) == SaturatingMul(s, 1000))
            <==> Reach(l, attempt) <= SaturatingMul(s, 1000)
  {
    var low, high := Pow2(Min(attempt, 20)), Pow2(Min(attempt + 1, 20));
    Pow2Grows(Min(attempt, 20), Min(attempt + 1, 20));
    assert l.baseBackoffMs * low <= l.baseBackoffMs * high;
    var ceiling := Ceiling(l, attempt);
    hide Ceiling, SaturatingMul, Pow2;
    var reach := Reach(l, attempt);
    JitterReaches(ceiling, reach);
    JitterReaches(ceiling, wait);
    assert Backoff(l, attempt, Some(s), reach) == Max(SaturatingMul(s, 1000), reach);
    forall clock: nat | clock < NANOS_PER_SEC
      ensures Jitter(ceiling, clock) <= reach
    {
      JitterBounded(ceiling, clock);
    }
  }

  lemma JitterReaches(capped: nat, wait: nat)
    requires wait <= capped
    ensures Jitter(capped, wait) == wait
  {
  }

  lemma JitterBounded(capped: nat, nanos: nat)
    ensures Jitter(capped, nanos) <= capped && Jitter(capped, nanos) <= nanos
  {
    if capped > 0 {
      assert nanos == (capped + 1) * (nanos / (capped + 1)) + nanos % (capped + 1);
      assert (capped + 1) * (nanos / (capped + 1)) >= 0;
    }
  }

  // ---- The retry loop ----

  /** The limiter after `k` failed attempts in a row: each takes a permit, halves the budget and gives the permit back.
      */
  ghost function AfterFailures(c: Config, b: Budget, k: nat): (after: Budget)
    requires b.free > 0
    ensures after.free > 0 && after.held == b.held
  {
    if k == 0 then b
    else
      var before := AfterFailures(c, b, k - 1);
      After(c, After(c, After(c, before, Acquire), OnTransient), Release)
  }

  /** So `k` failures in a row halve the budget `k` times, down to the minimum. */
  lemma {:induction false} FailuresHalve(c: Config, b: Budget, k: nat)
    requires b.free > 0 && c.min <= b.effective
    ensures AfterFailures(c, b, k).effective == Max(b.effective / Pow2(k), c.min)
  {
    if k > 0 {
      FailuresHalve(c, b, k - 1);
      HalvedAgain(b.effective, Pow2(k - 1));
      assert Pow2(k) == 2 * Pow2(k - 1);
    }
  }

  lemma HalvedAgain(x: nat, d: nat)
    requires d > 0
    ensures x / d / 2 == x / (2 * d)
  {
    var q := x / d;
    var h := q / 2;
    assert x == d * q + x % d;
    assert x == (2 * d) * h + (d * (q % 2) + x % d);
    var rest := d * (q % 2) + x % d;
    assert 0 <= rest < 2 * d;
    Quotient(x, 2 * d, h, rest);
  }

  /** The limiter after the attempt that ended the call. */
  ghost function AfterLast(c: Config, b: Budget, r: Result<string, RpcError>): (after: Budget)
    requires b.free > 0
  {
    var granted := After(c, b, Acquire);
    After(c, match r
             case Ok(_) => After(c, granted, OnSuccess)
             case Err(Transient(_, _)) => After(c, granted, OnTransient)
             case Err(Rejected(_)) => granted,
          Release)
  }

  /** The call returns the first answer that is not transient, or the last transient one when the retries are spent;
      it makes no attempt after either, waits the backoff of each failed attempt between two, and has returned every
      permit it took. */
  method Call(limits: Limits, limiter: AimdLimiter, node: nat -> Response, clock: nat -> nat)
    returns (r: Result<string, RpcError>, attempts: nat, waits: seq<nat>)
    requires limits.Fits() && limiter.free > 0
    modifies limiter
    ensures 1 <= attempts <= limits.maxRetries + 1
    ensures Means(node(attempts - 1), r)
    ensures forall i: nat | i < attempts - 1 :: Retried(node(i))
    ensures Retried(node(attempts - 1)) ==> attempts == limits.maxRetries + 1
    ensures |waits| == attempts - 1
    ensures forall i: nat | i < |waits| :: waits[i] == Backoff(limits, i, RetryAfter(node(i)), clock(i))
    ensures limiter.View()
         == AfterLast(limiter.config, AfterFailures(limiter.config, old(limiter.View()), attempts - 1), r)
    ensures limiter.held == old(limiter.held)
  {
    hide TryOnce, Backoff, After, Means, Retried, RetryAfter;
    var attempt := 0;
    waits := [];
    while true
      invariant attempt <= limits.maxRetries && |waits| == attempt
      invariant forall i: nat | i < attempt :: Retried(node(i))
      invariant forall i: nat | i < attempt :: waits[i] == Backoff(limits, i, RetryAfter(node(i)), clock(i))
      invariant limiter.View() == AfterFailures(limiter.config, old(limiter.View()), attempt)
      decreases limits.maxRetries - attempt
    {
      AcquireHolds(limiter.config, limiter.View());
      limiter.Acquire();
      r := TryOnce(node(attempt));
      AnswersMean(node(attempt));
      RetriedExactly(node(attempt));
      attempts := attempt + 1;
      match r
      case Ok(_) =>
        StillHeld(limiter.config, limiter.View());
        limiter.OnSuccess();
        limiter.Release();
        return;
      case Err(Rejected(_)) =>
        limiter.Release();
        return;
      case Err(Transient(_, retryAfter)) =>
        StillHeld(limiter.config, limiter.View());
        limiter.OnTransient();
        limiter.Release();
        if attempt >= limits.maxRetries {
          return;
        }
        waits := waits + [Backoff(limits, attempt, retryAfter, clock(attempt))];
        attempt := attempt + 1;
    }
  }

  lemma AcquireHolds(c: Config, b: Budget)
    requires b.free > 0
    ensures After(c, b, Acquire).held == b.held + 1
    ensures After(c, After(c, b, Acquire), Release).held == b.held
  {
  }

  lemma StillHeld(c: Config, b: Budget)
    requires b.held > 0
    ensures After(c, b, OnSuccess).held == b.held && After(c, b, OnTransient).held == b.held
    ensures After(c, After(c, b, OnSuccess), Release).held == b.held - 1
    ensures After(c, After(c, b, OnTransient), Release).held == b.held - 1
  {
  }
}
