/** The request executor: one attempt maps a transport outcome to a
    RequestResult; `Execute` repeats attempts while the retry policy allows.
    The HTTP transport is an oracle: `transport(i)` is the outcome of the
    i-th attempt (from 0). */
module Runner {
  import opened Wrappers
  import opened Text
  import opened Retry
  import opened Auth
  import Utils

  datatype RequestConfig = RequestConfig(
    httpMethod: string,
    url: string,
    headers: map<string, string>,
    params: map<string, string>,
    body: Option<string>,   // the printed JSON payload; a falsy payload is None
    timeout: int,
    verifySsl: bool,
    allowRedirects: bool)

  /** `RequestConfig(httpMethod, url, headers, params, body, timeout)` with the
      remaining fields at their defaults. */
  function MakeRequestConfig(httpMethod: string, url: string, headers: map<string, string>,
                             params: map<string, string>, body: Option<string>, timeout: int): (c: RequestConfig)
    ensures c.verifySsl && c.allowRedirects
    ensures c.httpMethod == httpMethod && c.url == url && c.headers == headers
    ensures c.params == params && c.body == body && c.timeout == timeout
  {
    RequestConfig(httpMethod, url, headers, params, body, timeout, true, true)
  }

  datatype RequestResult = RequestResult(
    success: bool,
    statusCode: Option<int>,
    responseSize: nat,
    responseBody: Option<string>,
    responseHeaders: map<string, string>,
    error: Option<string>,
    errorType: Option<string>,
    retryCount: nat,
    requestMethod: string,
    requestUrl: string,
    requestHeaders: map<string, string>,
    requestBody: Option<string>)

  /** The first `except` clause that catches a raised exception. */
  datatype ExceptionClass =
    | TimeoutRaised      // requests' Timeout (including ConnectTimeout)
    | ConnectionRaised   // requests' ConnectionError
    | RequestRaised      // any other RequestException
    | OtherRaised        // any other Exception

  /** What the transport did on one attempt. `ok` is the response's verdict
      on its status; `text` is None when the body could not be decoded. */
  datatype Outcome =
    | Responded(statusCode: int, ok: bool, headers: map<string, string>, contentLength: nat, text: Option<string>)
    | Failed(raised: ExceptionClass, message: string)

  /** The arguments handed to the transport for one attempt. */
  datatype PreparedRequest = PreparedRequest(
    httpMethod: string,
    url: string,
    headers: map<string, string>,
    params: map<string, string>,
    json: Option<string>,
    timeout: int,
    verify: bool,
    allowRedirects: bool,
    basicAuth: Option<(string, string)>)

  /** The headers a configured handler contributes. */
  function AuthHeaders(auth: Option<AuthHandler>): map<string, string> {
    if auth.Some? && IsConfigured(auth.value) then GetAuthHeaders(auth.value) else map[]
  }

  /** The Basic credentials handed to the transport. */
  function BasicAuthFor(auth: Option<AuthHandler>): Option<(string, string)> {
    if auth.Some? && auth.value.authType == Some(Basic) then GetBasicAuthTuple(auth.value) else None
  }

  /** Header preparation and transport arguments of `_execute_single_request`. */
  function PrepareRequest(auth: Option<AuthHandler>, config: RequestConfig): (p: PreparedRequest)
    ensures p.httpMethod == Upper(config.httpMethod) && p.url == config.url
    ensures p.headers.Keys == config.headers.Keys + AuthHeaders(auth).Keys
    ensures forall k :: k in AuthHeaders(auth) ==> p.headers[k] == AuthHeaders(auth)[k]
    ensures forall k :: k in config.headers && k !in AuthHeaders(auth) ==> p.headers[k] == config.headers[k]
    ensures p.basicAuth.Some? <==>
      (auth.Some? && auth.value.authType == Some(Basic) && GetBasicAuthTuple(auth.value).Some?)
    ensures p.basicAuth.Some? ==>
      p.basicAuth.value == (auth.value.credentials["username"], auth.value.credentials["password"])
    ensures p.params == config.params && p.json == config.body && p.timeout == config.timeout
    ensures p.verify == config.verifySsl && p.allowRedirects == config.allowRedirects
  {
    PreparedRequest(Upper(config.httpMethod), config.url, Utils.MergeDicts(config.headers, AuthHeaders(auth)),
                    config.params, config.body, config.timeout, config.verifySsl, config.allowRedirects,
                    BasicAuthFor(auth))
  }

  /** Headers set by a successful `set_bearer_token` reach the transport and
      override a config header of the same name, and no Basic tuple is sent. */
  lemma PreparedBearerOverridesConfig(h: AuthHandler, token: string, config: RequestConfig, env: Env)
    requires token != ""
    ensures var p := PrepareRequest(Some(SetBearerToken(h, Some(token), None, env).handler), config);
      "Authorization" in p.headers && p.headers["Authorization"] == "Bearer " + token && p.basicAuth.None?
  {
    var b := SetBearerToken(h, Some(token), None, env).handler;
    assert "token" in b.credentials && b.credentials["token"] == token;
    assert IsConfigured(b);
  }

  /** Without a handler the configured headers go out unchanged and no Basic
      tuple is sent. */
  lemma PreparedWithoutHandler(config: RequestConfig)
    ensures PrepareRequest(None, config).headers == config.headers
    ensures PrepareRequest(None, config).basicAuth.None?
  {
  }

  const HttpErrorType: string := "HTTP_ERROR"
  const TimeoutType: string := "TIMEOUT"
  const ConnectionErrorType: string := "CONNECTION_ERROR"
  const RequestErrorType: string := "REQUEST_ERROR"
  const UnknownErrorType: string := "UNKNOWN_ERROR"

  const BinaryBody: string := "<binary data>"
  const HttpErrorPrefix: string := "HTTP "
  const TimeoutMessage: string := "Request timeout"
  const ConnectionMessage: string := "Connection error"

  function ErrorTypeOf(c: ExceptionClass): string {
    match c
    case TimeoutRaised => TimeoutType
    case ConnectionRaised => ConnectionErrorType
    case RequestRaised => RequestErrorType
    case OtherRaised => UnknownErrorType
  }

  function ErrorMessageOf(c: ExceptionClass, message: string): string {
    match c
    case TimeoutRaised => TimeoutMessage
    case ConnectionRaised => ConnectionMessage
    case _ => message
  }

  /** `_execute_single_request` for a given transport outcome. */
  function ExecuteSingle(auth: Option<AuthHandler>, config: RequestConfig, outcome: Outcome): (r: RequestResult)
    ensures r.requestMethod == Upper(config.httpMethod) && r.requestUrl == config.url
    ensures r.requestBody == config.body && r.retryCount == 0
    ensures r.requestHeaders == PrepareRequest(auth, config).headers
    ensures r.success <==> outcome.Responded? && outcome.ok
    ensures r.success ==> r.error.None? && r.errorType.None?
    ensures !r.success ==> r.error.Some? && r.errorType.Some?
    ensures outcome.Responded? ==> r.statusCode == Some(outcome.statusCode)
    ensures outcome.Responded? ==> r.responseBody == Some(outcome.text.GetOr(BinaryBody))
    ensures outcome.Responded? ==> r.responseSize == outcome.contentLength && r.responseHeaders == outcome.headers
    ensures outcome.Responded? && !outcome.ok ==>
      r.error == Some(HttpErrorPrefix + IntToString(outcome.statusCode)) && r.errorType == Some(HttpErrorType)
    ensures outcome.Failed? ==> r.statusCode.None? && r.responseBody.None? && r.responseSize == 0 && r.responseHeaders == map[]
    ensures outcome.Failed? ==> r.errorType == Some(ErrorTypeOf(outcome.raised))
    ensures outcome.Failed? && outcome.raised == TimeoutRaised ==> r.error == Some(TimeoutMessage)
    ensures outcome.Failed? && outcome.raised == ConnectionRaised ==> r.error == Some(ConnectionMessage)
    ensures outcome.Failed? && (outcome.raised == RequestRaised || outcome.raised == OtherRaised) ==>
      r.error == Some(outcome.message)
  {
    var p := PrepareRequest(auth, config);
    var base := RequestResult(false, None, 0, None, map[], None, None, 0, p.httpMethod, config.url, p.headers, config.body);
    match outcome
    case Responded(code, ok, headers, size, text) =>
      var answered := base.(statusCode := Some(code), responseHeaders := headers, responseSize := size,
                            responseBody := Some(text.GetOr(BinaryBody)), success := ok);
      if ok then answered
      else answered.(error := Some(HttpErrorPrefix + IntToString(code)), errorType := Some(HttpErrorType))
    case Failed(c, message) =>
      base.(error := Some(ErrorMessageOf(c, message)), errorType := Some(ErrorTypeOf(c)))
  }

  /** The four exception classes are told apart by the error type they record,
      and none of them records the HTTP error type. */
  lemma ErrorTypeIdentifiesClass(auth: Option<AuthHandler>, config: RequestConfig, a: Outcome, b: Outcome)
    requires a.Failed? && b.Failed?
    ensures ExecuteSingle(auth, config, a).errorType != Some(HttpErrorType)
    ensures ExecuteSingle(auth, config, a).errorType == ExecuteSingle(auth, config, b).errorType ==> a.raised == b.raised
  {
  }

  /** The plain `Exception` that `execute` builds from an error text. */
  const PlainException: Exception := Exception("Exception", false)

  /** The exception `execute` hands to the policy, present only when the
      error text is non-empty. */
  function WrapError(error: Option<string>): (e: Option<Exception>)
    ensures e.Some? <==> Truthy(error)
  {
    if Truthy(error) then Some(PlainException) else None
  }

  /** The wrapper is never a retryable exception, so the policy's exception
      branch is dead inside `execute`: only the status code can earn a retry. */
  lemma WrappedErrorNeverRetryable(h: Handler, status: Option<int>, error: Option<string>)
    ensures ShouldRetry(h, status, WrapError(error)) == ShouldRetry(h, status, None)
    ensures ShouldRetry(h, status, WrapError(error)) ==>
      StatusTruthy(status) && status.value in h.config.retryOnStatusCodes
  {
  }

  /** The state of an `APIRunner`: its auth handler and its retry handler. */
  datatype Runner = Runner(auth: Option<AuthHandler>, retryHandler: Handler)

  /** `APIRunner(auth_handler, retry_config)`. */
  function NewRunner(auth: Option<AuthHandler>, retryConfig: Option<RetryConfig>): (r: Runner)
    ensures r.auth == auth && r.retryHandler.retryCount == 0
    ensures r.retryHandler.config == retryConfig.GetOr(DefaultConfig())
  {
    Runner(auth, NewHandler(retryConfig))
  }

  /** Whether `execute` retries after the attempt made at retry count `i`. */
  predicate RetriesAfter(auth: Option<AuthHandler>, cfg: RetryConfig, config: RequestConfig,
                         transport: nat -> Outcome, i: nat) {
    var a := ExecuteSingle(auth, config, transport(i));
    !a.success && ShouldRetry(Handler(cfg, i, None), a.statusCode, WrapError(a.error))
  }

  /** Declarative reading of one `execute` call: attempts 0..k-1 each asked
      for a retry, attempt k did not, the result is attempt k's with
      `retryCount = k`, and the j-th wait (from 0) is the delay at count j+1. */
  ghost predicate IsExecution(auth: Option<AuthHandler>, cfg: RetryConfig, config: RequestConfig,
                              transport: nat -> Outcome, r: RequestResult, waits: seq<real>) {
    var k := r.retryCount;
    && (forall i :: 0 <= i < k ==> RetriesAfter(auth, cfg, config, transport, i))
    && !RetriesAfter(auth, cfg, config, transport, k)
    && r == ExecuteSingle(auth, config, transport(k)).(retryCount := k)
    && |waits| == k
    && (forall j :: 0 <= j < k ==> waits[j] == GetDelay(Handler(cfg, j + 1, None)))
  }

  /** A recursive reference for the retry loop: the result of an execution
      whose attempt `k` is the next to be made. */
  function RunFrom(auth: Option<AuthHandler>, cfg: RetryConfig, config: RequestConfig,
                   transport: nat -> Outcome, k: nat): RequestResult
    decreases cfg.maxRetries - k
  {
    if RetriesAfter(auth, cfg, config, transport, k) then RunFrom(auth, cfg, config, transport, k + 1)
    else ExecuteSingle(auth, config, transport(k)).(retryCount := k)
  }

  /** The pauses of an execution that retried `n` times: the delay at each
      retry count reached, 1 to `n`. */
  function Waits(cfg: RetryConfig, n: nat): (w: seq<real>)
    ensures |w| == n
  {
    seq(n, j requires 0 <= j => GetDelay(Handler(cfg, j + 1, None)))
  }

  /** The reference result and waits of one `execute` call. */
  function Run(auth: Option<AuthHandler>, cfg: RetryConfig, config: RequestConfig,
               transport: nat -> Outcome): (RequestResult, seq<real>)
  {
    var r := RunFrom(auth, cfg, config, transport, 0);
    (r, Waits(cfg, r.retryCount))
  }

  /** The attempt `RunFrom` stops at: not before `k`, it asks for no retry,
      and the result is that attempt's. */
  lemma {:induction false} RunFromStops(auth: Option<AuthHandler>, cfg: RetryConfig, config: RequestConfig,
                                        transport: nat -> Outcome, k: nat)
    ensures var r := RunFrom(auth, cfg, config, transport, k);
      && k <= r.retryCount
      && !RetriesAfter(auth, cfg, config, transport, r.retryCount)
      && r == ExecuteSingle(auth, config, transport(r.retryCount)).(retryCount := r.retryCount)
    decreases cfg.maxRetries - k
  {
    if RetriesAfter(auth, cfg, config, transport, k) {
      RunFromStops(auth, cfg, config, transport, k + 1);
    }
  }

  /** Every attempt `RunFrom` makes before the one it stops at asks for a retry. */
  lemma {:induction false} RunFromRetries(auth: Option<AuthHandler>, cfg: RetryConfig, config: RequestConfig,
                                          transport: nat -> Outcome, k: nat, i: nat)
    requires k <= i < RunFrom(auth, cfg, config, transport, k).retryCount
    ensures RetriesAfter(auth, cfg, config, transport, i)
    decreases cfg.maxRetries - k
  {
    if i > k {
      RunFromRetries(auth, cfg, config, transport, k + 1, i);
    }
  }

  /** The attempts `RunFrom` makes from attempt `k` on: each before the
      last asks for a retry, the last does not and gives the result. */
  lemma RunFromAttempts(auth: Option<AuthHandler>, cfg: RetryConfig, config: RequestConfig,
                        transport: nat -> Outcome, k: nat)
    ensures var r := RunFrom(auth, cfg, config, transport, k);
      && k <= r.retryCount
      && (forall i :: k <= i < r.retryCount ==> RetriesAfter(auth, cfg, config, transport, i))
      && !RetriesAfter(auth, cfg, config, transport, r.retryCount)
      && r == ExecuteSingle(auth, config, transport(r.retryCount)).(retryCount := r.retryCount)
  {
    RunFromStops(auth, cfg, config, transport, k);
    forall i | k <= i < RunFrom(auth, cfg, config, transport, k).retryCount
      ensures RetriesAfter(auth, cfg, config, transport, i)
    {
      RunFromRetries(auth, cfg, config, transport, k, i);
    }
  }

  /** The reference is an execution in the declarative sense. */
  lemma RunIsExecution(auth: Option<AuthHandler>, cfg: RetryConfig, config: RequestConfig, transport: nat -> Outcome)
    ensures IsExecution(auth, cfg, config, transport, Run(auth, cfg, config, transport).0, Run(auth, cfg, config, transport).1)
  {
    RunFromAttempts(auth, cfg, config, transport, 0);
  }

  /** The pauses of an execution are never negative when no delay parameter
      is; with a negative cap every pause is negative, and the program's
      `time.sleep` raises on the first retry instead of waiting. */
  lemma RunWaitsSign(auth: Option<AuthHandler>, cfg: RetryConfig, config: RequestConfig, transport: nat -> Outcome)
    ensures var w := Run(auth, cfg, config, transport).1;
      cfg.initialDelay >= 0.0 && cfg.maxDelay >= 0.0 && cfg.exponentialBase >= 0.0 ==>
        forall j :: 0 <= j < |w| ==> w[j] >= 0.0
    ensures var w := Run(auth, cfg, config, transport).1;
      cfg.maxDelay < 0.0 ==> forall j :: 0 <= j < |w| ==> w[j] < 0.0
  {
    WaitsSign(cfg, Run(auth, cfg, config, transport).0.retryCount);
  }

  /** The sign of each of the first `n` pauses. */
  lemma WaitsSign(cfg: RetryConfig, n: nat)
    ensures cfg.initialDelay >= 0.0 && cfg.maxDelay >= 0.0 && cfg.exponentialBase >= 0.0 ==>
      forall j :: 0 <= j < n ==> Waits(cfg, n)[j] >= 0.0
    ensures cfg.maxDelay < 0.0 ==> forall j :: 0 <= j < n ==> Waits(cfg, n)[j] < 0.0
  {
    forall j | 0 <= j < n
      ensures (cfg.initialDelay >= 0.0 && cfg.maxDelay >= 0.0 && cfg.exponentialBase >= 0.0 ==> Waits(cfg, n)[j] >= 0.0)
           && (cfg.maxDelay < 0.0 ==> Waits(cfg, n)[j] < 0.0)
    {
      DelaySign(Handler(cfg, j + 1, None));
    }
  }

  /** The reference never retries past the budget. */
  lemma RunBounded(auth: Option<AuthHandler>, cfg: RetryConfig, config: RequestConfig, transport: nat -> Outcome)
    ensures Run(auth, cfg, config, transport).0.retryCount <= RetryBudget(cfg)
    ensures |Run(auth, cfg, config, transport).1| == Run(auth, cfg, config, transport).0.retryCount
  {
    RunIsExecution(auth, cfg, config, transport);
    var (r, w) := Run(auth, cfg, config, transport);
    ExecutionBounded(auth, cfg, config, transport, r, w);
  }

  /** `execute`. The handler is reset first, so neither the result nor the
      waits depend on the retry count left over from an earlier call. */
  method Execute(runner: Runner, config: RequestConfig, transport: nat -> Outcome)
    returns (result: RequestResult, runner': Runner, waits: seq<real>)
    ensures IsExecution(runner.auth, runner.retryHandler.config, config, transport, result, waits)
    ensures (result, waits) == Run(runner.auth, runner.retryHandler.config, config, transport)
    ensures result.retryCount <= RetryBudget(runner.retryHandler.config)
    ensures runner'.auth == runner.auth
    ensures runner'.retryHandler == Handler(runner.retryHandler.config, result.retryCount, None)
  {
    var cfg := runner.retryHandler.config;
    var h := Reset(runner.retryHandler);
    waits := [];
    while true
      invariant h == Handler(cfg, h.retryCount, None)
      invariant h.retryCount <= RetryBudget(cfg)
      invariant RetriedThrough(runner.auth, cfg, config, transport, h.retryCount, waits)
      decreases cfg.maxRetries - h.retryCount
    {
      var k := h.retryCount;
      var r := ExecuteSingle(runner.auth, config, transport(k));
      if !r.success && ShouldRetry(h, r.statusCode, WrapError(r.error)) {
        assert RetriesAfter(runner.auth, cfg, config, transport, k);
        ExecuteStep(runner.auth, cfg, config, transport, k, waits);
        h := IncrementRetry(h);
        waits := waits + [GetDelay(h)];
      } else {
        assert !RetriesAfter(runner.auth, cfg, config, transport, k);
        result := r.(retryCount := k);
        runner' := runner.(retryHandler := h);
        ExecuteExit(runner.auth, cfg, config, transport, result, waits);
        return;
      }
    }
  }

  /** Attempts 0..k-1 each asked for a retry, and `waits` holds the delay
      computed after each of them. */
  ghost predicate RetriedThrough(auth: Option<AuthHandler>, cfg: RetryConfig, config: RequestConfig,
                                 transport: nat -> Outcome, k: nat, waits: seq<real>) {
    && (forall i :: 0 <= i < k ==> RetriesAfter(auth, cfg, config, transport, i))
    && |waits| == k
    && (forall j :: 0 <= j < k ==> waits[j] == GetDelay(Handler(cfg, j + 1, None)))
  }

  /** One retry of the loop of `execute`. */
  lemma ExecuteStep(auth: Option<AuthHandler>, cfg: RetryConfig, config: RequestConfig,
                    transport: nat -> Outcome, k: nat, waits: seq<real>)
    requires RetriedThrough(auth, cfg, config, transport, k, waits)
    requires RetriesAfter(auth, cfg, config, transport, k)
    ensures RetriedThrough(auth, cfg, config, transport, k + 1, waits + [GetDelay(Handler(cfg, k + 1, None))])
  {
    var w := waits + [GetDelay(Handler(cfg, k + 1, None))];
    forall j | 0 <= j < k + 1
      ensures w[j] == GetDelay(Handler(cfg, j + 1, None))
    {
      if j < k {
        assert w[j] == waits[j];
      }
    }
  }

  /** Leaving the loop of `execute`: the attempt that asks for no retry gives
      the execution, which is the reference's. */
  lemma ExecuteExit(auth: Option<AuthHandler>, cfg: RetryConfig, config: RequestConfig,
                    transport: nat -> Outcome, result: RequestResult, waits: seq<real>)
    requires RetriedThrough(auth, cfg, config, transport, result.retryCount, waits)
    requires !RetriesAfter(auth, cfg, config, transport, result.retryCount)
    requires result == ExecuteSingle(auth, config, transport(result.retryCount)).(retryCount := result.retryCount)
    ensures IsExecution(auth, cfg, config, transport, result, waits)
    ensures (result, waits) == Run(auth, cfg, config, transport)
  {
    RunIsExecution(auth, cfg, config, transport);
    var (r', w') := Run(auth, cfg, config, transport);
    ExecutionUnique(auth, cfg, config, transport, result, waits, r', w');
  }

  /** An execution is determined by its inputs: two results (and wait
      sequences) that both satisfy IsExecution are equal. */
  lemma ExecutionUnique(auth: Option<AuthHandler>, cfg: RetryConfig, config: RequestConfig, transport: nat -> Outcome,
                        r1: RequestResult, w1: seq<real>, r2: RequestResult, w2: seq<real>)
    requires IsExecution(auth, cfg, config, transport, r1, w1)
    requires IsExecution(auth, cfg, config, transport, r2, w2)
    ensures r1 == r2 && w1 == w2
  {
  }

  /** Attempts made = retries + 1, never more than the budget allows. */
  lemma ExecutionBounded(auth: Option<AuthHandler>, cfg: RetryConfig, config: RequestConfig, transport: nat -> Outcome,
                         r: RequestResult, waits: seq<real>)
    requires IsExecution(auth, cfg, config, transport, r, waits)
    ensures r.retryCount + 1 <= RetryBudget(cfg) + 1
    ensures |waits| == r.retryCount
  {
    if r.retryCount > 0 {
      var last := r.retryCount - 1;
      assert RetriesAfter(auth, cfg, config, transport, last);
    }
  }

  /** A successful attempt is the last one: `execute` stops no later than the
      first success, and if every attempt before it asked for a retry, the
      result is that success. */
  lemma SuccessEndsExecution(auth: Option<AuthHandler>, cfg: RetryConfig, config: RequestConfig, transport: nat -> Outcome,
                             r: RequestResult, waits: seq<real>, j: nat)
    requires IsExecution(auth, cfg, config, transport, r, waits)
    requires transport(j).Responded? && transport(j).ok
    ensures r.retryCount <= j
    ensures (forall i :: 0 <= i < j ==> RetriesAfter(auth, cfg, config, transport, i)) ==>
      r.retryCount == j && r.success
  {
    assert !RetriesAfter(auth, cfg, config, transport, j);
  }

  /** Every retried attempt failed with a configured status code; a timeout or
      connection failure (no status code) therefore always ends `execute`. */
  lemma OnlyStatusCodesRetried(auth: Option<AuthHandler>, cfg: RetryConfig, config: RequestConfig, transport: nat -> Outcome,
                               r: RequestResult, waits: seq<real>)
    requires IsExecution(auth, cfg, config, transport, r, waits)
    ensures forall i :: 0 <= i < r.retryCount ==>
      transport(i).Responded? && !transport(i).ok && transport(i).statusCode != 0 &&
      transport(i).statusCode in cfg.retryOnStatusCodes
    ensures transport(r.retryCount).Failed? ==> r.statusCode.None? && r.errorType.Some?
  {
    forall i | 0 <= i < r.retryCount
      ensures transport(i).Responded? && !transport(i).ok && transport(i).statusCode != 0 &&
        transport(i).statusCode in cfg.retryOnStatusCodes
    {
      assert RetriesAfter(auth, cfg, config, transport, i);
      var a := ExecuteSingle(auth, config, transport(i));
      WrappedErrorNeverRetryable(Handler(cfg, i, None), a.statusCode, a.error);
    }
  }

  /** A first attempt that times out or cannot connect is final, whatever the
      retry budget. */
  lemma NetworkFailureNotRetried(auth: Option<AuthHandler>, cfg: RetryConfig, config: RequestConfig, transport: nat -> Outcome,
                                 r: RequestResult, waits: seq<real>)
    requires IsExecution(auth, cfg, config, transport, r, waits)
    requires transport(0).Failed? && transport(0).raised in {TimeoutRaised, ConnectionRaised}
    ensures r.retryCount == 0 && waits == []
    ensures r.errorType == Some(if transport(0).raised == TimeoutRaised then TimeoutType else ConnectionErrorType)
  {
    OnlyStatusCodesRetried(auth, cfg, config, transport, r, waits);
  }

  /** Because the count is incremented before the delay is taken, the wait
      before the k-th retry (from 1) is `initial * base^k`, capped. */
  lemma WaitBeforeKthRetry(auth: Option<AuthHandler>, cfg: RetryConfig, config: RequestConfig, transport: nat -> Outcome,
                           r: RequestResult, waits: seq<real>, k: nat)
    requires IsExecution(auth, cfg, config, transport, r, waits)
    requires 1 <= k <= r.retryCount
    ensures waits[k - 1] == MinReal(UncappedDelay(cfg, k), cfg.maxDelay)
  {
    var j := k - 1;
    assert waits[j] == GetDelay(Handler(cfg, j + 1, None));
  }

  /** With the default configuration there are at most three retries and the
      waits are 2, 4 and 8 seconds: the first wait is already doubled. */
  lemma DefaultWaits(auth: Option<AuthHandler>, config: RequestConfig, transport: nat -> Outcome,
                     r: RequestResult, waits: seq<real>)
    requires IsExecution(auth, DefaultConfig(), config, transport, r, waits)
    ensures |waits| <= 3
    ensures waits == [2.0, 4.0, 8.0][..|waits|]
  {
    ExecutionBounded(auth, DefaultConfig(), config, transport, r, waits);
    assert Pow(2.0, 1) == 2.0;
    assert Pow(2.0, 2) == 4.0;
    assert Pow(2.0, 3) == 8.0;
  }

  /** The retry configuration a dictionary supplies; an absent key is None. */
  datatype RetryOverrides = RetryOverrides(
    maxRetries: Option<int>,
    initialDelay: Option<real>,
    maxDelay: Option<real>,
    exponentialBase: Option<real>,
    retryOnStatusCodes: Option<seq<int>>)

  const NoOverrides: RetryOverrides := RetryOverrides(None, None, None, None, None)

  /** `create_runner_from_config`; a missing or empty dictionary is None. */
  function CreateRunnerFromConfig(authConfig: map<string, string>, retryConfig: Option<RetryOverrides>, env: Env): (r: Runner)
    ensures r.retryHandler.retryCount == 0 && r.retryHandler.lastError.None?
    ensures var o := retryConfig.GetOr(NoOverrides);
      r.retryHandler.config == MakeRetryConfig(o.maxRetries.GetOr(3), o.initialDelay.GetOr(1.0), o.maxDelay.GetOr(32.0),
                                               o.exponentialBase.GetOr(2.0), o.retryOnStatusCodes)
    ensures authConfig == map[] ==> r.auth.None?
    ensures authConfig != map[] ==> r.auth == CreateAuthFromConfig(authConfig, env)
    ensures r.auth.Some? ==> IsConfigured(r.auth.value)
  {
    var auth := if authConfig != map[] then CreateAuthFromConfig(authConfig, env) else None;
    var cfg := if retryConfig.Some? then
        var o := retryConfig.value;
        Some(MakeRetryConfig(o.maxRetries.GetOr(3), o.initialDelay.GetOr(1.0), o.maxDelay.GetOr(32.0),
                             o.exponentialBase.GetOr(2.0), o.retryOnStatusCodes))
      else None;
    NewRunner(auth, cfg)
  }

  /** Without retry settings the runner gets 3 retries, 1 s initial delay,
      32 s cap, base 2 and the default status list. */
  lemma CreateRunnerDefaults(authConfig: map<string, string>, env: Env)
    ensures CreateRunnerFromConfig(authConfig, None, env).retryHandler.config == DefaultConfig()
    ensures CreateRunnerFromConfig(authConfig, Some(NoOverrides), env).retryHandler.config == DefaultConfig()
  {
  }
}
