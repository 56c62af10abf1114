/** Retry policy: the retry configuration, the per-runner retry counter with
    its decision and delay functions, the generic attempt loop `with_retry`,
    and the stand-alone backoff calculator. Delays are exact reals (seconds). */
module Retry {
  import opened Wrappers

  /** A raised Python exception as the policy sees it: its class name, and
      whether it is an instance of the builtin ConnectionError or TimeoutError. */
  datatype Exception = Exception(typeName: string, isBuiltinNetworkError: bool)

  datatype RetryConfig = RetryConfig(
    maxRetries: int,
    initialDelay: real,
    maxDelay: real,
    exponentialBase: real,
    retryOnStatusCodes: seq<int>)

  /** Rate limiting and the transient server errors. */
  const DefaultRetryStatusCodes: seq<int> := [429, 500, 502, 503, 504]

  /** `RetryConfig(...)`: the status list falls back to the default only when
      none is given; an explicitly empty list stays empty. */
  function MakeRetryConfig(
    maxRetries: int, initialDelay: real, maxDelay: real, exponentialBase: real,
    retryOnStatusCodes: Option<seq<int>>): (c: RetryConfig)
    ensures c.retryOnStatusCodes == retryOnStatusCodes.GetOr(DefaultRetryStatusCodes)
    ensures c.maxRetries == maxRetries && c.initialDelay == initialDelay
    ensures c.maxDelay == maxDelay && c.exponentialBase == exponentialBase
  {
    RetryConfig(maxRetries, initialDelay, maxDelay, exponentialBase, retryOnStatusCodes.GetOr(DefaultRetryStatusCodes))
  }

  /** `RetryConfig()` with every field at its default. */
  function DefaultConfig(): (c: RetryConfig)
    ensures c.maxRetries == 3 && c.initialDelay == 1.0 && c.maxDelay == 32.0 && c.exponentialBase == 2.0
    ensures c.retryOnStatusCodes == [429, 500, 502, 503, 504]
  {
    MakeRetryConfig(3, 1.0, 32.0, 2.0, None)
  }

  /** The mutable state of a `RetryHandler`, as a value. */
  datatype Handler = Handler(config: RetryConfig, retryCount: nat, lastError: Option<Exception>)

  /** `RetryHandler(config)`: a missing configuration means the defaults. */
  function NewHandler(config: Option<RetryConfig>): (h: Handler)
    ensures h.retryCount == 0 && h.lastError.None?
    ensures h.config == config.GetOr(DefaultConfig())
  {
    Handler(config.GetOr(DefaultConfig()), 0, None)
  }

  /** The class names treated as retryable network failures. */
  const RetryableExceptionNames: seq<string> := ["ConnectionError", "Timeout", "ReadTimeout", "ConnectTimeout"]

  predicate IsRetryableException(e: Exception) {
    e.isBuiltinNetworkError || e.typeName in RetryableExceptionNames
  }

  /** Python truthiness of an optional status code: present and non-zero. */
  predicate StatusTruthy(status: Option<int>) {
    status.Some? && status.value != 0
  }

  /** The budget in retries: a negative configured maximum allows none. */
  function RetryBudget(config: RetryConfig): nat {
    if config.maxRetries < 0 then 0 else config.maxRetries
  }

  /** `should_retry`: the budget check comes first, then the configured status
      codes, then the exception's class. */
  function ShouldRetry(h: Handler, status: Option<int>, exception: Option<Exception>): (b: bool)
    ensures h.retryCount >= h.config.maxRetries ==> !b
    ensures b <==> (h.retryCount < h.config.maxRetries &&
                    ((StatusTruthy(status) && status.value in h.config.retryOnStatusCodes) ||
                     (exception.Some? && IsRetryableException(exception.value))))
  {
    if h.retryCount >= h.config.maxRetries then false
    else if status.Some? && status.value != 0 && status.value in h.config.retryOnStatusCodes then true
    else if exception.Some? then
      var e := exception.value;
      if e.isBuiltinNetworkError then true
      else e.typeName in RetryableExceptionNames
    else false
  }

  /** Under the budget, every default status code is retried; a missing or
      zero status code never is, unless the exception is retryable. */
  lemma DefaultStatusCodesRetried(h: Handler, code: int, exception: Option<Exception>)
    requires h.config.retryOnStatusCodes == DefaultRetryStatusCodes
    requires h.retryCount < h.config.maxRetries
    ensures code in {429, 500, 502, 503, 504} ==> ShouldRetry(h, Some(code), exception)
    ensures !(exception.Some? && IsRetryableException(exception.value)) ==>
      !ShouldRetry(h, None, exception) && !ShouldRetry(h, Some(0), exception)
  {
  }

  /** `b ** n` for a natural exponent. */
  function Pow(b: real, n: nat): real
    decreases n
  {
    if n == 0 then 1.0 else b * Pow(b, n - 1)
  }

  lemma {:induction false} PowAtLeastOne(b: real, n: nat)
    requires b >= 1.0
    ensures Pow(b, n) >= 1.0
    decreases n
  {
    if n > 0 {
      PowAtLeastOne(b, n - 1);
    }
  }

  lemma {:induction false} PowMonotone(b: real, m: nat, n: nat)
    requires b >= 1.0 && m <= n
    ensures Pow(b, m) <= Pow(b, n)
    decreases n
  {
    if m < n {
      PowMonotone(b, m, n - 1);
      PowAtLeastOne(b, n - 1);
      assert Pow(b, n) == b * Pow(b, n - 1);
    }
  }

  function MinReal(a: real, b: real): real { if a <= b then a else b }

  /** `initial_delay * exponential_base ** n`, before the cap. */
  function UncappedDelay(config: RetryConfig, n: nat): real {
    config.initialDelay * Pow(config.exponentialBase, n)
  }

  /** `get_delay`: exponential growth in the retries already counted, capped. */
  function GetDelay(h: Handler): (d: real)
    ensures d <= h.config.maxDelay && d <= UncappedDelay(h.config, h.retryCount)
    ensures d == h.config.maxDelay || d == UncappedDelay(h.config, h.retryCount)
  {
    MinReal(UncappedDelay(h.config, h.retryCount), h.config.maxDelay)
  }

  lemma {:induction false} PowSign(b: real, n: nat)
    ensures b >= 0.0 ==> Pow(b, n) >= 0.0
    ensures b > 0.0 ==> Pow(b, n) > 0.0
    decreases n
  {
    if n > 0 {
      PowSign(b, n - 1);
      if b > 0.0 {
        ScaleMonotone(b, 0.0, Pow(b, n - 1));
        assert b * Pow(b, n - 1) > 0.0;
      } else if b == 0.0 {
        assert Pow(b, n) == 0.0;
      }
    }
  }

  /** The sign of the pause `wait` sleeps for: with no negative parameter it
      is never negative, while a negative cap, or a negative initial delay
      with a positive base, makes it negative, which `time.sleep` rejects. */
  lemma DelaySign(h: Handler)
    ensures h.config.initialDelay >= 0.0 && h.config.maxDelay >= 0.0 && h.config.exponentialBase >= 0.0 ==>
      GetDelay(h) >= 0.0
    ensures h.config.maxDelay < 0.0 ==> GetDelay(h) < 0.0
    ensures h.config.initialDelay < 0.0 && h.config.exponentialBase > 0.0 ==> GetDelay(h) < 0.0
  {
    var c := h.config;
    PowSign(c.exponentialBase, h.retryCount);
    if c.initialDelay >= 0.0 && c.exponentialBase >= 0.0 {
      ScaleMonotone(c.initialDelay, 0.0, Pow(c.exponentialBase, h.retryCount));
    }
    if c.initialDelay < 0.0 && c.exponentialBase > 0.0 {
      assert c.initialDelay * Pow(c.exponentialBase, h.retryCount) < 0.0;
    }
  }

  /** With a non-negative initial delay and a base of at least 1, the delay
      never shrinks as the retry count grows. */
  lemma GetDelayMonotone(h: Handler, k: nat)
    requires h.config.initialDelay >= 0.0 && h.config.exponentialBase >= 1.0
    requires h.retryCount <= k
    ensures GetDelay(h) <= GetDelay(h.(retryCount := k))
  {
    var h' := h.(retryCount := k);
    PowMonotone(h.config.exponentialBase, h.retryCount, k);
    ScaleMonotone(h.config.initialDelay, Pow(h.config.exponentialBase, h.retryCount), Pow(h.config.exponentialBase, k));
    assert UncappedDelay(h.config, h.retryCount) <= UncappedDelay(h'.config, h'.retryCount);
    assert GetDelay(h) == MinReal(UncappedDelay(h.config, h.retryCount), h.config.maxDelay);
    assert GetDelay(h') == MinReal(UncappedDelay(h'.config, h'.retryCount), h.config.maxDelay);
  }

  lemma ScaleMonotone(a: real, x: real, y: real)
    requires a >= 0.0 && x <= y
    ensures a * x <= a * y
  {
    assert a * y - a * x == a * (y - x);
  }

  /** `increment_retry`. */
  function IncrementRetry(h: Handler): (r: Handler)
    ensures r.retryCount == h.retryCount + 1
    ensures r.config == h.config && r.lastError == h.lastError
  {
    h.(retryCount := h.retryCount + 1)
  }

  /** `reset`. */
  function Reset(h: Handler): (r: Handler)
    ensures r.retryCount == 0 && r.lastError.None?
    ensures r.config == h.config
  {
    Handler(h.config, 0, None)
  }

  /** `get_remaining_retries`. */
  function RemainingRetries(h: Handler): (n: nat)
    ensures h.retryCount <= h.config.maxRetries ==> n + h.retryCount == h.config.maxRetries
    ensures n == 0 <==> h.retryCount >= h.config.maxRetries
  {
    if h.config.maxRetries - h.retryCount > 0 then h.config.maxRetries - h.retryCount else 0
  }

  /** The counter and the remaining budget move in lock step: a reset restores
      the whole budget, an increment under the budget spends exactly one retry,
      and a retry is only ever granted while some budget remains. */
  lemma RemainingTracksCounter(h: Handler, status: Option<int>, exception: Option<Exception>)
    ensures RemainingRetries(Reset(h)) == RetryBudget(h.config)
    ensures h.retryCount < h.config.maxRetries ==>
      RemainingRetries(IncrementRetry(h)) == RemainingRetries(h) - 1
    ensures ShouldRetry(h, status, exception) ==> RemainingRetries(h) > 0
  {
  }

  /** One call of the wrapped function: a value or a raised exception. */
  datatype Attempt<T> = Returned(value: T) | Raised(error: Exception)

  /** `with_retry`. The wrapped function is an oracle: `call(i)` is what its
      i-th invocation (from 0) does. Besides the final outcome the method
      returns how many calls were made and the delays waited in between. */
  method WithRetry<T>(config: Option<RetryConfig>, call: nat -> Attempt<T>)
    returns (r: Attempt<T>, calls: nat, waits: seq<real>)
    ensures 1 <= calls <= RetryBudget(config.GetOr(DefaultConfig())) + 1
    ensures r == call(calls - 1)
    ensures forall i :: 0 <= i < calls - 1 ==> call(i).Raised? && IsRetryableException(call(i).error)
    ensures r.Raised? ==>
      !ShouldRetry(Handler(config.GetOr(DefaultConfig()), calls - 1, Some(r.error)), None, Some(r.error))
    ensures |waits| == calls - 1
    ensures forall j :: 0 <= j < |waits| ==>
      waits[j] == GetDelay(Handler(config.GetOr(DefaultConfig()), j + 1, None))
  {
    var h := NewHandler(config);
    var cfg := h.config;
    calls := 0;
    waits := [];
    while true
      invariant h.config == cfg && h.retryCount == calls
      invariant calls <= RetryBudget(cfg)
      invariant forall i :: 0 <= i < calls ==> call(i).Raised? && IsRetryableException(call(i).error)
      invariant |waits| == calls
      invariant forall j :: 0 <= j < |waits| ==> waits[j] == GetDelay(Handler(cfg, j + 1, None))
      decreases cfg.maxRetries - h.retryCount
    {
      var a := call(calls);
      match a
      case Returned(_) =>
        h := Reset(h);
        r := a;
        calls := calls + 1;
        return;
      case Raised(e) =>
        h := h.(lastError := Some(e));
        if ShouldRetry(h, None, Some(e)) {
          h := IncrementRetry(h);
          waits := waits + [GetDelay(h)];
          calls := calls + 1;
        } else {
          r := a;
          calls := calls + 1;
          return;
        }
    }
  }

  /** `2 ** attempt` for any integer attempt; a negative one gives a fraction. */
  function Pow2(attempt: int): (p: real)
    ensures p > 0.0
  {
    if attempt >= 0 then PowPositive(2.0, attempt); Pow(2.0, attempt)
    else PowPositive(2.0, -attempt); 1.0 / Pow(2.0, -attempt)
  }

  lemma PowPositive(b: real, n: nat)
    requires b >= 1.0
    ensures Pow(b, n) > 0.0
  {
    PowAtLeastOne(b, n);
  }

  /** `calculate_backoff_delay` with its defaults of 1 and 32 seconds passed
      explicitly. */
  function CalculateBackoffDelay(attempt: int, initialDelay: real, maxDelay: real): (d: real)
    ensures d <= maxDelay
    ensures initialDelay >= 0.0 ==> d >= 0.0 || d == maxDelay
  {
    MinReal(initialDelay * Pow2(attempt), maxDelay)
  }

  /** For a non-negative attempt the stand-alone calculator is the handler's
      delay under base 2 with the same initial delay and cap. */
  lemma BackoffAgreesWithHandler(attempt: nat, cfg: RetryConfig)
    requires cfg.exponentialBase == 2.0
    ensures CalculateBackoffDelay(attempt, cfg.initialDelay, cfg.maxDelay) ==
      GetDelay(Handler(cfg, attempt, None))
  {
  }

  /** With the defaults, attempts 0 to 6 wait 1, 2, 4, 8, 16, 32 and 32 seconds. */
  lemma DefaultBackoffSequence()
    ensures CalculateBackoffDelay(0, 1.0, 32.0) == 1.0
    ensures CalculateBackoffDelay(1, 1.0, 32.0) == 2.0
    ensures CalculateBackoffDelay(2, 1.0, 32.0) == 4.0
    ensures CalculateBackoffDelay(3, 1.0, 32.0) == 8.0
    ensures CalculateBackoffDelay(4, 1.0, 32.0) == 16.0
    ensures CalculateBackoffDelay(5, 1.0, 32.0) == 32.0
    ensures CalculateBackoffDelay(6, 1.0, 32.0) == 32.0
  {
    assert Pow(2.0, 5) == 32.0;
    assert Pow(2.0, 6) == 64.0;
  }

  /** Once the delay reaches the cap it stays there, for any attempt further on
      (initial delay non-negative). */
  lemma {:induction false} CalculateBackoffCapped(attempt: nat, k: nat, initialDelay: real, maxDelay: real)
    requires initialDelay >= 0.0 && attempt <= k
    requires CalculateBackoffDelay(attempt, initialDelay, maxDelay) == maxDelay
    ensures CalculateBackoffDelay(k, initialDelay, maxDelay) == maxDelay
  {
    PowMonotone(2.0, attempt, k);
    ScaleMonotone(initialDelay, Pow(2.0, attempt), Pow(2.0, k));
  }
}
