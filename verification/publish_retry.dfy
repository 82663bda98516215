/**
  Retry decisions for a failed Check Run delivery: which failures are retried, after what
  delay, and when the row is dead-lettered. Delays are real numbers, so rounding in the
  floating-point arithmetic is not modelled; the special values a header can parse to are.
*/
module PublishRetry {
  import opened Wrappers

  const MAX_ATTEMPTS: nat := 12
  const MIN_DELAY_SECONDS: real := 30.0
  const MAX_DELAY_SECONDS: real := 3600.0

  /** What `float(text)` yields: a number, one of the three special values, or a ValueError. */
  datatype HeaderNumber = Finite(value: real) | NaN | PlusInfinity | MinusInfinity | Unparsable

  /** `rateLimitReset` is already relative: the parsed reset time minus the clock. */
  datatype PublishError =
    | HttpStatus(code: int, retryAfter: Option<HeaderNumber>, rateLimitReset: Option<HeaderNumber>)
    | Timeout
    | Transport
    | Unrecognised

  datatype DeadLetterReason =
    | HttpCode(code: int)
    | AttemptsExhausted
    | UnclassifiedError
    | MissingScanRunOrRepository

  datatype RetryDecision = Retry(delay: real) | DeadLetter(reason: DeadLetterReason)

  const RETRYABLE_STATUSES: set<int> := {401, 403, 404, 429}

  function TerminalReason(error: PublishError): Option<DeadLetterReason> {
    match error
    case HttpStatus(code, _, _) =>
      if code in RETRYABLE_STATUSES || code >= 500 then None else Some(HttpCode(code))
    case Timeout => None
    case Transport => None
    case Unrecognised => Some(UnclassifiedError)
  }

  /** The first header present decides; one that does not parse yields no delay at all. */
  function HeaderDelay(error: PublishError): Option<HeaderNumber>
    requires error.HttpStatus?
  {
    if error.retryAfter.Some? then
      if error.retryAfter.value.Unparsable? then None else error.retryAfter
    else if error.rateLimitReset.Some? then
      if error.rateLimitReset.value.Unparsable? then None else error.rateLimitReset
    else None
  }

  /** `min(MAX, max(MIN, x))` with Python's comparisons, which are false on NaN. */
  function Clamp(x: HeaderNumber): (r: real)
    ensures MIN_DELAY_SECONDS <= r <= MAX_DELAY_SECONDS
    ensures x.Finite? && MIN_DELAY_SECONDS <= x.value <= MAX_DELAY_SECONDS ==> r == x.value
    ensures (x.Finite? && x.value > MAX_DELAY_SECONDS) || x.PlusInfinity? ==> r == MAX_DELAY_SECONDS
    ensures (x.Finite? && x.value < MIN_DELAY_SECONDS) || x.MinusInfinity? || x.NaN? ==> r == MIN_DELAY_SECONDS
  {
    match x
    case Finite(v) =>
      var raised := if v > MIN_DELAY_SECONDS then v else MIN_DELAY_SECONDS;
      if raised < MAX_DELAY_SECONDS then raised else MAX_DELAY_SECONDS
    case PlusInfinity => MAX_DELAY_SECONDS
    case MinusInfinity => MIN_DELAY_SECONDS
    case NaN => MIN_DELAY_SECONDS
    case Unparsable => MIN_DELAY_SECONDS
  }

  /** `2.0 ** n`, also for the negative exponent that an attempt count below 1 would give. */
  function Pow2(n: int): (r: real)
    ensures r > 0.0
    decreases if n < 0 then -n else n
  {
    if n == 0 then 1.0
    else if n > 0 then 2.0 * Pow2(n - 1)
    else Pow2(n + 1) / 2.0
  }

  function UpperBound(attemptCount: int): real {
    var x := MIN_DELAY_SECONDS * Pow2(attemptCount - 1);
    if x < MAX_DELAY_SECONDS then x else MAX_DELAY_SECONDS
  }

  /** `uniform(a, b)` is `a + (b - a) * u` for a draw `u` from the unit interval. */
  function Uniform(a: real, b: real, u: real): real { a + (b - a) * u }

  function DelaySeconds(error: PublishError, attemptCount: int, u: real): real {
    if error.HttpStatus? && error.code == 429 && HeaderDelay(error).Some? then
      Clamp(HeaderDelay(error).value)
    else
      Uniform(MIN_DELAY_SECONDS, UpperBound(attemptCount), u)
  }

  function ClassifyPublishFailure(error: PublishError, attemptCount: int, u: real): RetryDecision {
    var reason := TerminalReason(error);
    if reason.Some? then DeadLetter(reason.value)
    else if attemptCount >= MAX_ATTEMPTS then DeadLetter(AttemptsExhausted)
    else Retry(DelaySeconds(error, attemptCount, u))
  }

  // ------------------------------------------------------------------ range of one delay

  lemma {:induction false} Pow2Monotone(n: nat)
    ensures Pow2(n) >= 1.0
  {
    if n > 0 { Pow2Monotone(n - 1); }
  }

  lemma {:induction false} Pow2Negative(n: int)
    requires n < 0
    ensures Pow2(n) <= 0.5
    decreases -n
  {
    if n < -1 { Pow2Negative(n + 1); }
  }

  lemma ProductNonNegative(x: real, y: real)
    requires x >= 0.0 && y >= 0.0
    ensures x * y >= 0.0
  {
  }

  lemma UniformWithin(a: real, b: real, u: real)
    requires a <= b && 0.0 <= u <= 1.0
    ensures a <= Uniform(a, b, u) <= b
  {
    ProductNonNegative(b - a, u);
    ProductNonNegative(b - a, 1.0 - u);
    assert (b - a) * (1.0 - u) == (b - a) - (b - a) * u;
  }

  predicate InRange(delay: real) { MIN_DELAY_SECONDS <= delay <= MAX_DELAY_SECONDS }

  /** Every delay a first or later attempt can be given lies between 30 seconds and one hour. */
  lemma DelayInRange(error: PublishError, attemptCount: int, u: real)
    requires attemptCount >= 1 && 0.0 <= u <= 1.0
    ensures InRange(DelaySeconds(error, attemptCount, u))
  {
    Pow2Monotone(attemptCount - 1);
    UniformWithin(MIN_DELAY_SECONDS, UpperBound(attemptCount), u);
  }

  /** The range holds for every draw exactly when the count includes the failed attempt. */
  lemma BackoffInRangeIffCountIncludesFailure(attemptCount: int)
    ensures (forall u: real | 0.0 <= u <= 1.0 :: InRange(DelaySeconds(Timeout, attemptCount, u)))
       <==> attemptCount >= 1
  {
    if attemptCount >= 1 {
      forall u: real | 0.0 <= u <= 1.0 ensures InRange(DelaySeconds(Timeout, attemptCount, u)) {
        DelayInRange(Timeout, attemptCount, u);
      }
    } else {
      Pow2Negative(attemptCount - 1);
      assert !InRange(DelaySeconds(Timeout, attemptCount, 1.0));
    }
  }

  // ------------------------------------------------------------------ which failures are retried

  /** A network failure, a server error, or a status a later sweep can recover from. */
  predicate IsRetryable(error: PublishError) {
    || error.Timeout?
    || error.Transport?
    || (error.HttpStatus? && (error.code >= 500 || error.code in {401, 403, 404, 429}))
  }

  /** A failure is retried iff its kind is retryable and fewer than twelve attempts were made. */
  lemma RetriedIff(error: PublishError, attemptCount: int, u: real)
    requires 1 <= attemptCount && 0.0 <= u <= 1.0
    ensures ClassifyPublishFailure(error, attemptCount, u).Retry?
       <==> IsRetryable(error) && attemptCount < MAX_ATTEMPTS
    ensures ClassifyPublishFailure(error, attemptCount, u).Retry? ==>
              InRange(ClassifyPublishFailure(error, attemptCount, u).delay)
    ensures ClassifyPublishFailure(error, attemptCount, u) == DeadLetter(AttemptsExhausted)
       <==> IsRetryable(error) && attemptCount >= MAX_ATTEMPTS
    ensures !IsRetryable(error) ==>
              ClassifyPublishFailure(error, attemptCount, u)
              == DeadLetter(if error.HttpStatus? then HttpCode(error.code) else UnclassifiedError)
  {
    if IsRetryable(error) && attemptCount < MAX_ATTEMPTS { DelayInRange(error, attemptCount, u); }
  }

  function Limited(retryAfter: Option<HeaderNumber>, rateLimitReset: Option<HeaderNumber>): PublishError {
    HttpStatus(429, retryAfter, rateLimitReset)
  }

  /**
    A Retry-After of a 429 alone decides the delay: never earlier than asked exactly when no
    more than an hour was asked for, never later exactly when at least half a minute was.
  */
  lemma RetryAfterHonoured(asked: real, rateLimitReset: Option<HeaderNumber>, attemptCount: int, u: real)
    ensures var delay := DelaySeconds(Limited(Some(Finite(asked)), rateLimitReset), attemptCount, u);
            && InRange(delay) && (delay >= asked <==> asked <= 3600.0) && (delay <= asked <==> asked >= 30.0)
            && forall otherReset, n, draw :: DelaySeconds(Limited(Some(Finite(asked)), otherReset), n, draw) == delay
  {
    hide Pow2;
  }

  /** Without a Retry-After the same holds of the time to the rate limit's reset. */
  lemma ResetHonoured(asked: real, attemptCount: int, u: real)
    ensures var delay := DelaySeconds(Limited(None, Some(Finite(asked))), attemptCount, u);
            && InRange(delay) && (delay >= asked <==> asked <= 3600.0) && (delay <= asked <==> asked >= 30.0)
            && forall n, draw :: DelaySeconds(Limited(None, Some(Finite(asked))), n, draw) == delay
  {
    hide Pow2;
  }

  /** A 429 whose deciding header parses; an unparsable Retry-After hides the reset time. */
  predicate Guided(error: PublishError) {
    && error.HttpStatus? && error.code == 429
    && (if error.retryAfter.Some? then !error.retryAfter.value.Unparsable?
        else error.rateLimitReset.Some? && !error.rateLimitReset.value.Unparsable?)
  }

  /**
    The delay ignores the attempt count and the draw iff it follows guidance; otherwise it is
    the back-off of a timeout.
  */
  lemma GuidanceHonoured(error: PublishError)
    ensures Guided(error)
       <==> forall m: int, n: int, u: real, v: real | m >= 1 && n >= 1 && 0.0 <= u <= 1.0 && 0.0 <= v <= 1.0 ::
                                 DelaySeconds(error, m, u) == DelaySeconds(error, n, v)
    ensures !Guided(error) ==> forall n, u :: DelaySeconds(error, n, u) == DelaySeconds(Timeout, n, u)
  {
    if !Guided(error) {
      assert Pow2(1) == 2.0;
      assert DelaySeconds(error, 2, 0.0) == 30.0 && DelaySeconds(error, 2, 1.0) == 60.0;
    }
  }

  // ------------------------------------------------------------------ a whole chain of failures

  datatype FailedAttempt = FailedAttempt(error: PublishError, draw: real)

  predicate ValidFailures(failures: seq<FailedAttempt>) {
    forall i | 0 <= i < |failures| :: 0.0 <= failures[i].draw <= 1.0
  }

  /** Attempts 1, 2, ... all fail, and each failure is answered with a retry. */
  predicate AllRetried(failures: seq<FailedAttempt>) {
    forall i | 0 <= i < |failures| ::
      ClassifyPublishFailure(failures[i].error, i + 1, failures[i].draw).Retry?
  }

  predicate ConsultsNoHeader(failures: seq<FailedAttempt>) {
    forall i | 0 <= i < |failures| ::
      !(failures[i].error.HttpStatus? && failures[i].error.code == 429)
  }

  function TotalDelay(failures: seq<FailedAttempt>): real {
    if failures == [] then 0.0
    else
      var last := |failures| - 1;
      TotalDelay(failures[..last])
      + DelaySeconds(failures[last].error, last + 1, failures[last].draw)
  }

  function TotalUpperBound(n: nat): real {
    if n == 0 then 0.0 else TotalUpperBound(n - 1) + UpperBound(n)
  }

  lemma UpperBoundValues()
    ensures TotalUpperBound(11) == 18210.0
    ensures forall n: nat | n <= 11 :: TotalUpperBound(n) <= 18210.0
  {
    assert Pow2(1) == 2.0 && Pow2(2) == 4.0 && Pow2(3) == 8.0 && Pow2(4) == 16.0;
    assert Pow2(5) == 32.0 && Pow2(6) == 64.0 && Pow2(7) == 128.0 && Pow2(8) == 256.0;
    assert Pow2(9) == 512.0 && Pow2(10) == 1024.0;
    assert TotalUpperBound(3) == 210.0;
    assert TotalUpperBound(6) == 1890.0;
    assert TotalUpperBound(8) == 7410.0;
    assert TotalUpperBound(11) == 18210.0;
    forall n: nat | n <= 11 ensures TotalUpperBound(n) <= 18210.0 { TotalUpperBoundMonotone(n, 11); }
  }

  lemma {:induction false} TotalUpperBoundMonotone(m: nat, n: nat)
    requires m <= n
    ensures TotalUpperBound(m) <= TotalUpperBound(n)
    decreases n
  {
    if m < n { TotalUpperBoundMonotone(m, n - 1); }
  }

  lemma {:induction false} TotalDelayAtMostUpperBounds(failures: seq<FailedAttempt>)
    requires ValidFailures(failures) && ConsultsNoHeader(failures)
    ensures TotalDelay(failures) <= TotalUpperBound(|failures|)
  {
    if failures != [] {
      var last := |failures| - 1;
      TotalDelayAtMostUpperBounds(failures[..last]);
      Pow2Monotone(last);
      UniformWithin(MIN_DELAY_SECONDS, UpperBound(last + 1), failures[last].draw);
    }
  }

  /**
    A chain of retried failures has at most eleven links, and when no 429 guidance is consulted
    its delays add up to at most 18210 seconds.
  */
  lemma RetryChainBounded(failures: seq<FailedAttempt>)
    requires ValidFailures(failures) && AllRetried(failures)
    ensures |failures| <= 11
    ensures ConsultsNoHeader(failures) ==> TotalDelay(failures) <= 18210.0
  {
    if |failures| >= 12 {
      RetriedIff(failures[11].error, 12, failures[11].draw);
      assert false;
    }
    UpperBoundValues();
    if ConsultsNoHeader(failures) { TotalDelayAtMostUpperBounds(failures); }
  }

  /** The bound is attained: eleven timeouts drawing the top of the jitter take 18210 seconds. */
  lemma RetryChainBoundAttained()
    ensures exists failures ::
              && ValidFailures(failures) && AllRetried(failures) && ConsultsNoHeader(failures)
              && |failures| == 11 && TotalDelay(failures) == 18210.0
  {
    var failures := WorstCase(11);
    WorstCaseTotal(11);
    UpperBoundValues();
    assert AllRetried(failures);
  }

  function WorstCase(n: nat): seq<FailedAttempt> { seq(n, _ => FailedAttempt(Timeout, 1.0)) }

  lemma {:induction false} WorstCaseTotal(n: nat)
    ensures TotalDelay(WorstCase(n)) == TotalUpperBound(n)
  {
    if n > 0 {
      WorstCaseTotal(n - 1);
      assert WorstCase(n)[..n - 1] == WorstCase(n - 1);
    }
  }
}
