# API-Watch request core in Dafny

This project models the decision logic of API-Watch, a command-line tool that
runs HTTP API checks. The model covers how a request is executed and retried,
how a failure is diagnosed, and how test-suite entries become request
configurations. Everything is pure Dafny: immutable records and functions,
plus methods where the source has loops. The mutable Python objects
(`RetryHandler`, `AuthHandler`, `APIRunner`) are modelled as state records.
Each operation maps one state value to the next.

Modules, in dependency order:

- `Wrappers`: `Option` and the two forms of `dict.get`.
- `Text`: Python truthiness of optional strings, ASCII `upper`/`lower`, and
  `str(n)` for integers.
- `Utils`: `truncate_string`, `sanitize_filename`, `merge_dicts`.
- `Retry`: `RetryConfig`, the `RetryHandler` state and its operations,
  `with_retry`, `calculate_backoff_delay`.
- `Auth`: the `AuthHandler` state, its setters (which may raise ValueError),
  the header and Basic-tuple getters, and `create_auth_from_config`.
- `Runner`: `RequestConfig`/`RequestResult`, `_execute_single_request`, the
  `execute` retry loop, and `create_runner_from_config`.
- `DiagnosisEngine`: the status table, the `diagnose` rule cascade,
  `diagnose_batch` and `get_summary`.
- `Report`: the format dispatch of `generate`, the de-duplicated failure list
  of the HTML report, and the per-result records of the JSON report.
- `Suite`: per-test resolution and the test loop of `execute_test_suite`,
  plus the body preview of `display_single_result`.

The HTTP transport is an oracle. `transport(i)` is the outcome of attempt
`i`: either a response (status, `ok` verdict, headers, content length,
decoded text if any) or one of four exception classes. The suite's
transport is indexed by test and attempt. The process environment is a
`map<string, string>`. Waits are recorded as a sequence of delays rather than
slept. Floating-point delays are exact `real`s.

The `execute` loop is tied to two independent descriptions, and both are
proved:

- `IsExecution` is declarative. Every attempt before the last asked for a
  retry, the last did not, and the j-th wait is the delay at count j+1.
- `Run` is a recursive reference.

Facts about the code that the model makes explicit:

- The runner increments the counter before computing the delay, so the
  first wait is `initial_delay * base`. With the defaults the waits are 2,
  4 and 8 seconds (runner.py:97-106).
- `max_delay` defaults to 32.0 (retry.py:15).
- `execute` hands the policy a plain `Exception` built from the error text.
  Timeouts and connection failures are therefore never retried; only the
  configured status codes are (runner.py:93-96).
- In the status table, 401 and 500 are critical; 400, 403, 422, 502, 503
  and 504 are high; 404, 405 and 429 are medium. A timeout is high and a
  connection failure is critical (diagnose.py:24-150).
- Unlisted 4xx and 5xx codes are client/high and server/high. Only other
  failures fall back to unknown/medium (diagnose.py:151-181).

## Model

| member | source | states |
|---|---|---|
| Retry.MakeRetryConfig | src/retry.py:10-23 | the status list falls back to [429, 500, 502, 503, 504] only when none is given (an explicit empty list stays empty); other fields are kept as given |
| Retry.DefaultConfig | src/retry.py:13-23 | the defaults are 3 retries, 1 s initial delay, 32 s cap, base 2 and the five default status codes |
| Retry.NewHandler | src/retry.py:29-38 | a new handler has count 0 and no last error; a missing configuration means the defaults |
| Retry.ShouldRetry | src/retry.py:40-74 | false once the count reaches max_retries whatever the inputs; otherwise true exactly when a truthy status is in the configured list or the exception is a builtin network error or named ConnectionError/Timeout/ReadTimeout/ConnectTimeout |
| Retry.DefaultStatusCodesRetried | src/retry.py:52-57 | under the budget each default status is retried; a missing or zero status is never retried for a non-retryable exception |
| Retry.GetDelay | src/retry.py:76-84 | the delay is the minimum of `initial * base^count` and the cap: no larger than either, equal to one of them |
| Retry.GetDelayMonotone | src/retry.py:83-84 | with initial delay ≥ 0 and base ≥ 1 the delay never decreases as the count grows |
| Retry.DelaySign | src/retry.py:76-89 | with no negative delay parameter the delay is ≥ 0; a negative cap, or a negative initial delay with a positive base, makes it negative |
| Retry.IncrementRetry | src/retry.py:91-93 | adds exactly one to the count and changes nothing else |
| Retry.Reset | src/retry.py:95-98 | count 0, last error cleared, configuration kept |
| Retry.RemainingRetries | src/retry.py:109-116 | remaining + count == max_retries while count ≤ max_retries; zero exactly when the budget is spent |
| Retry.RemainingTracksCounter | src/retry.py:91-116 | reset restores the whole budget, an increment under budget spends exactly one, and a granted retry implies budget remains |
| Retry.WithRetry | src/retry.py:119-159 | between 1 and max_retries+1 calls; returns the last call's outcome; every earlier call raised a retryable exception; a final raise is one the policy refuses; the j-th wait is the delay at count j+1 |
| Retry.CalculateBackoffDelay | src/retry.py:162-175 | the result never exceeds the cap and is non-negative (or the cap) for a non-negative initial delay |
| Retry.BackoffAgreesWithHandler | src/retry.py:162-175 | for attempt ≥ 0 the stand-alone calculator equals the handler's delay under base 2 |
| Retry.DefaultBackoffSequence | src/retry.py:162-175 | with the defaults (1, 32), attempts 0..6 give 1, 2, 4, 8, 16, 32, 32 |
| Retry.CalculateBackoffCapped | src/retry.py:174-175 | once an attempt's delay reaches the cap, every later attempt's delay is the cap |
| Runner.MakeRequestConfig | src/runner.py:17-27 | SSL verification and redirects default to on; the given fields are kept |
| Runner.PrepareRequest | src/runner.py:133-162 | method upper-cased; header keys are config ∪ auth; auth headers win on clashes, other config headers kept; a Basic tuple is passed exactly when the handler is Basic and has one, and it is the stored (username, password); params, body, timeout, SSL verification and redirects are passed as configured |
| Runner.PreparedBearerOverridesConfig | src/runner.py:135-147 | after a successful bearer setter the transport receives `Authorization: Bearer <token>`, overriding a configured header of that name, and no Basic tuple |
| Runner.PreparedWithoutHandler | src/runner.py:135-147 | with no handler the configured headers go out unchanged and no Basic tuple is sent |
| Runner.ExecuteSingle | src/runner.py:115-209 | success iff the response is ok; a response records its status, headers, content length and body, undecodable text being "<binary data>"; a non-ok response gives "HTTP <code>"/HTTP_ERROR; timeout, connection, request and other exceptions give TIMEOUT, CONNECTION_ERROR, REQUEST_ERROR, UNKNOWN_ERROR with no status, size 0 and no headers; request details recorded; a request or other exception records its own message as the error |
| Runner.ErrorTypeIdentifiesClass | src/runner.py:185-207 | the four exception classes record four distinct error types, none of them HTTP_ERROR |
| Runner.WrapError | src/runner.py:93-96 | an exception is passed exactly when the error text is truthy |
| Runner.WrappedErrorNeverRetryable | src/runner.py:93-96 | the wrapped error never changes the policy's answer: only a truthy configured status can earn a retry |
| Runner.NewRunner | src/runner.py:54-71 | the runner keeps the auth handler; its retry handler starts at 0 with the given or default configuration |
| Runner.RunFromAttempts | src/runner.py:86-109 | the reference loop from attempt k ends at some count ≥ k; every attempt in between asked for a retry, the last did not, and the result is that attempt with its count |
| Runner.RunIsExecution | src/runner.py:83-113 | the recursive reference satisfies the declarative reading of `execute` |
| Runner.RunBounded | src/runner.py:86-109 | the reference never exceeds the retry budget and waits once per retry |
| Runner.RunWaitsSign | src/runner.py:97-106 | with no negative delay parameter every pause of an execution is ≥ 0; with a negative cap every pause is negative |
| Runner.Execute | src/runner.py:73-113 | the loop's result and waits satisfy the declarative reading and equal the reference; retries stay within budget; the handler is left at this call's count (reset first, so earlier calls do not leak in) |
| Runner.ExecutionUnique | src/runner.py:73-113 | the declarative reading determines the result and the waits |
| Runner.ExecutionBounded | src/runner.py:86-109 | attempts = retries + 1 ≤ max_retries + 1, one wait per retry |
| Runner.SuccessEndsExecution | src/runner.py:93-109 | a successful attempt ends the loop: the count is at most its index, and is exactly that index (with success) when all earlier attempts were retried |
| Runner.OnlyStatusCodesRetried | src/runner.py:93-96 | every retried attempt was a non-ok response whose non-zero status is in the configured list; an exception on the last attempt leaves no status and an error type |
| Runner.NetworkFailureNotRetried | src/runner.py:93-96 | a first attempt that times out or cannot connect is final, with no wait and error type TIMEOUT or CONNECTION_ERROR |
| Runner.WaitBeforeKthRetry | src/runner.py:97-106 | the wait before the k-th retry is `min(initial * base^k, max_delay)` because the increment comes first |
| Runner.DefaultWaits | src/runner.py:97-106 | with the defaults there are at most 3 waits, and they are a prefix of [2, 4, 8] |
| Runner.CreateRunnerFromConfig | src/runner.py:237-271 | retry settings default to 3, 1.0, 32.0, 2.0 and the default list; no auth dictionary gives no handler; a non-empty one gives exactly the handler `create_auth_from_config` builds, which is configured |
| Runner.CreateRunnerDefaults | src/runner.py:261-269 | without retry settings, or with none of the keys, the configuration is the default one |
| Auth.SetBearerToken | src/auth.py:17-35 | the type becomes bearer even on failure; success iff a truthy token or a truthy environment value under a truthy name; a direct token wins, otherwise the stored token is the environment value; on failure credentials are unchanged; only "token" is touched |
| Auth.SetApiKey | src/auth.py:37-63 | the type and header name are stored even on failure; success iff a truthy key or environment value; a direct key wins, otherwise the stored key is the environment value; only "header_name" and "api_key" are touched |
| Auth.SetBasicAuth | src/auth.py:65-75 | never fails; stores both strings (even empty); other credentials untouched |
| Auth.GetAuthHeaders | src/auth.py:77-98 | bearer gives exactly {"Authorization": "Bearer " + token}, with an empty token when none is stored; api_key gives exactly {header_name: api_key}; basic or no type gives {} |
| Auth.GetBasicAuthTuple | src/auth.py:100-112 | a tuple exactly when the type is basic and both username and password are present and non-empty, and then it is those two |
| Auth.ConfiguredSurvivesSetters | src/auth.py:114-121 | `is_configured` is false for a fresh handler, true after any successful setter and after every `set_api_key` or `set_basic_auth`, and a configured handler stays configured after a failed `set_bearer_token` |
| Auth.SettersRoundTrip | src/auth.py:17-112 | after a successful setter the handler is configured and yields the header or tuple carrying the stored secret |
| Auth.BearerFromEnvironment | src/auth.py:28-31 | a token read from the environment is used as found |
| Auth.FailedBearerOnFreshHandler | src/auth.py:25-35 | a failed bearer setter leaves a bearer-typed, unconfigured handler whose header is "Bearer " |
| Auth.FailedApiKeyLooksConfigured | src/auth.py:51-63 | a failed api-key setter still makes the handler configured, with an empty key header unless a key was stored earlier |
| Auth.SwitchingKeepsCredentials | src/auth.py:25-75 | switching from bearer to basic keeps the stored token |
| Auth.CreateAuthFromConfig | src/auth.py:133-175 | none for an empty configuration, an unknown type, or a failing setter; otherwise a configured handler of the named type whose credentials are exactly the resolved token, the header name (default "X-API-Key") and resolved key, or the configured username and password (default "") |
| Auth.CreatedHandlerSends | src/auth.py:149-166 | a handler built from a configuration sends "Bearer " + the resolved token, or the resolved key under the configured header name; a basic one sends no header and passes the configured pair exactly when both parts are non-empty |
| Auth.CreateAuthIgnoresTypeCase | src/auth.py:149-166 | upper-casing the "type" value builds the same handler |
| Auth.CreateAuthReadsOnly | src/auth.py:145-166 | two configurations with the same lower-cased type and the same other entries build the same handler |
| Utils.TruncateString | src/utils.py:131-144 | text that fits is unchanged; longer text ends in "..." and, for limits ≥ 3, has exactly the limit's length and keeps the text's prefix; below 3 the negative slice bound drops that many characters from the end of the text, and the rest comes before the "..." |
| Utils.TruncateIdempotent | src/utils.py:142-144 | for limits ≥ 3 the result fits and truncating again changes nothing |
| Utils.TruncateBelowThreeOverflows | src/utils.py:144 | for limits below 3 the negative slice bound makes over-long text come back longer than the limit ("abcdef" at 2 gives "abcde...") |
| Utils.ReplaceEachIsMask | src/utils.py:157-159 | the one-character-at-a-time replacement equals a single pass that masks every listed character |
| Utils.SanitizeFilename | src/utils.py:147-160 | same length; no invalid character remains; valid characters keep their position; invalid ones become "_" |
| Utils.SanitizeIdempotent | src/utils.py:147-160 | sanitizing twice equals sanitizing once |
| Utils.MergeDicts | src/utils.py:163-176 | keys are the union; override values win; base-only keys keep base values |
| Utils.MergeDictsIdentities | src/utils.py:174-176 | empty override and empty base are identities; merging the same override twice changes nothing |
| DiagnosisEngine.NamesDistinct | src/diagnose.py:16-17 | severity and category names are distinct, so grouping by the enumeration is grouping by the strings |
| DiagnosisEngine.Rule | src/diagnose.py:24-109 | the table has entries for exactly 400, 401, 403, 404, 405, 422, 429, 500, 502, 503 and 504, and each entry's category agrees with its code's range: 401/403 auth, 429 rate limit, other 4xx client, 5xx server |
| DiagnosisEngine.Diagnose | src/diagnose.py:112-182 | the category follows the cascade success → timeout/connection → status table → 4xx → 5xx → unknown (each case an iff); a timeout gives the fixed network/high diagnosis and a connection failure the network/critical one; table codes return their entry; unlisted 4xx/5xx are high with the code in the issue, a 4xx blaming invalid request data and suggesting a review of the request, a 5xx blaming the server and suggesting a later retry; the fallback is unknown/medium with the error text as cause, or "Unknown error occurred" when that text is missing or empty, and the suggestion to check the request configuration |
| DiagnosisEngine.TableSeverities | src/diagnose.py:24-149 | 401 and 500 critical, 400/403/422/502/503/504 high, 404/405/429 medium, timeout high, connection failure critical |
| DiagnosisEngine.RangeIssuesNameTheCode | src/diagnose.py:157-173 | two unlisted 4xx/5xx codes with the same issue text are the same code |
| DiagnosisEngine.SeverityPartition | src/diagnose.py:195-206 | the four severity lists together have as many entries as the input |
| DiagnosisEngine.BatchStep | src/diagnose.py:202-204 | appending a diagnosis to its severity's list keeps every list equal to the filter of the diagnoses seen |
| DiagnosisEngine.DiagnoseBatch | src/diagnose.py:185-206 | exactly the four severity keys; each list is the in-order filter of all diagnoses by severity (with `SeverityPartition`, the four lists together have one entry per result) |
| DiagnosisEngine.Bump | src/diagnose.py:229 | a count is added to an existing key or a new key is appended with 1; keys stay distinct; the total grows by one |
| DiagnosisEngine.BumpKeys | src/diagnose.py:229 | bumping adds the bumped key to the key set and nothing else |
| DiagnosisEngine.CountCategoryPositive | src/diagnose.py:224-229 | a category has a positive count exactly when some failure falls in it |
| DiagnosisEngine.FailedDiagnoses | src/diagnose.py:235 | one diagnosis per failed result, none of them in the success category |
| DiagnosisEngine.SummaryStep | src/diagnose.py:225-229 | reading one more result keeps the summary counts exact |
| DiagnosisEngine.OrderStep | src/diagnose.py:225-229 | one more result keeps the error-count keys in first-failure order: existing keys stay, a new key goes last |
| DiagnosisEngine.GetSummary | src/diagnose.py:209-245 | successful + failed = total; error-count keys are distinct, are exactly the categories with a failure, and never "success"; they come in the order their categories first fail (dict insertion order); each count is that category's number of failures; counts sum to failed; the diagnoses are those of the failures |
| Report.AnyIssue | src/report.py:466 | true exactly when some listed diagnosis has the issue |
| Report.DedupKeep | src/report.py:466-467 | appending a diagnosis with a new issue keeps the list equal to the first occurrences and covering every issue seen |
| Report.DedupSkip | src/report.py:466 | skipping a diagnosis whose issue is listed keeps both properties |
| Report.FirstOccurrencesDistinct | src/report.py:466-467 | a first-occurrence list never repeats an issue |
| Report.FirstOccurrencesUnique | src/report.py:461-467 | the first-occurrence list is unique, so it is fixed by the input |
| Report.SummaryDetermined | src/diagnose.py:219-245 | two summaries of the same results agree in every field: the error counts are fixed by their keys, counts and first-failure order, so the summary is a function of the results |
| Report.CountsDetermined | src/diagnose.py:223-228 | two count lists with exactly the failed categories as keys, their failure counts as values and first-failure order are equal |
| Report.KeysByFirstFailure | src/diagnose.py:224-228 | in first-failure order, each key's first failure comes strictly after the previous key's |
| Report.FailedDiagnosesFromFailures | src/diagnose.py:235 | every failed diagnosis is the diagnosis of some failed result |
| Report.FailedDiagnosesByIssue | src/report.py:461-467 | no two entries share an issue; each entry diagnoses a failed result; every failure's issue is listed; the list is the first occurrence of each issue, in order |
| Report.KeptFromFailures | src/report.py:461-467 | a first-occurrence list of the failed diagnoses repeats no issue and holds only diagnoses of failed results |
| Report.RecordOf | src/report.py:504-526 | a record copies success, status, method, URL, response size, retry count, error, error type, response body and headers, and holds the diagnosis's issue, cause text, suggestion text, severity name and category name |
| Report.JsonRecords | src/report.py:502-527 | one record per result, in input order |
| Report.RecordCategoryAgrees | src/report.py:507-522 | a record's category is "success" exactly when it records a success |
| Report.JsonAgreesWithSummary | src/report.py:502-527 | the JSON records' successes plus the summary's failures equal the number of results |
| Report.Generate | src/report.py:417-450 | the keys are {html} for "html", {json} for "json", both for "both", none otherwise (case-sensitive); the HTML data is the de-duplicated failures, the JSON data the records; every report's summary is the input's full summary in the sense of `get_summary` (totals, ordered error counts, diagnoses) |
| Suite.TestUrl | src/main.py:182 | with a base URL, the URL is base followed by path; without one it is the path |
| Suite.TestHeaders | src/main.py:185-186 | the defaults' headers overridden by the test's own, union of keys |
| Suite.TestTimeout | src/main.py:191 | the test's timeout, else the defaults', else 10 |
| Suite.ResolveTest | src/main.py:178-201 | id defaults to "unknown", method to "GET"; URL, headers, params, body and timeout as resolved |
| Suite.BareTestUsesSuiteValues | src/main.py:179-191 | a test giving only a path gets the suite's headers and timeout, id "unknown" and method GET |
| Suite.SuiteRetryConfig | src/main.py:164-167 | the suite's policy is the default configuration with `retries` (default 3) as max_retries |
| Suite.ExecuteAll | src/main.py:178-206 | one result per test, in test order, each the runner's reference result for that test |
| Suite.ExecuteTestSuite | src/main.py:150-206 | the suite's runner uses the auth section's handler and the suite policy; result t is the reference run of test t's resolved request |
| Suite.BodyPreview | src/main.py:273-276 | no preview for an empty body; otherwise at most 500 characters plus the marker, the body itself when it fits, and its first 500 characters followed by "\n... (truncated)" when it does not |
| Suite.PreviewIsWholeBody | src/main.py:273-276 | the preview equals the body exactly when it fits in 500 characters, or when it already ends in the marker at character 500 |

## Left out

- The HTTP transport: `requests.Session.request` is an oracle of outcomes, and `response.ok` is a given boolean.
- Time: `time.sleep` and `time.time`. Waits are returned as a sequence; `response_time` and `timestamp` are not modelled.
- Runner.Execute / Retry.WithRetry: `time.sleep` raises ValueError on a negative delay, and nothing catches it where `wait` (retry.py:86-89) is called, neither in `execute` (runner.py:106) nor in the `except` branch of `with_retry` (retry.py:156), so the program aborts the run at the first retry whose delay is negative. The retry parameters are taken from the configuration unchecked (runner.py:263-270). The model has no such error: it returns the result with the negative number among the waits. `Runner.RunWaitsSign` and `Retry.DelaySign` state when this cannot happen (no negative delay parameter) and when it always happens (a negative `max_delay`). The odd-count case with a negative base is not stated.
- Logging, console output, progress bars, and the `print` calls in `with_retry` and `create_auth_from_config`. None of them influences a result.
- Files and rendering: HTML template rendering, file writes, output directories and timestamps in file names. `Report.Generate` returns the report data keyed by format instead of file paths.
- Parsing and argument handling: YAML loading, JSON dumping and argparse. A key missing from the suite file is `None`. A key present with a null value is not distinguished.
- The environment: `os.getenv`/`load_dotenv` are replaced by an explicit map.
- Retry.CalculateBackoffDelay / Retry.GetDelay: Python raises OverflowError once the power no longer fits a float (`2 ** attempt` for attempt ≥ 1024 in `calculate_backoff_delay`, `base ** retry_count` for a count ≥ 1024 at base 2, sooner for larger bases, in `get_delay`). The model computes with unbounded reals and has no error case, so `Retry.CalculateBackoffCapped` and `Retry.GetDelayMonotone` hold in the model even at exponents where the program raises.
- Float formatting and averages: `format_bytes`, `format_duration`, `success_rate` and `avg_response_time`. Delays are exact reals without rounding.
- Text.Upper: `str.upper`/`str.lower` are modelled on ASCII letters only. Other Unicode case mappings are left out.
- Runner.ExecuteSingle: the request body is taken as the already-printed `str(config.body)` (None when falsy). `response_size` is the transport's content length.
- DiagnosisEngine.GetSummary: the float fields `success_rate` and `avg_response_time` are not modelled. Only the integer counts and the diagnoses are.
- Report.RecordOf: `response_time` and `timestamp` are not in the record.
- Report.Generate: the `test_suite_name` argument and the report metadata are not modelled.
- Trivial accessors are not separate operations: `get_retry_count`, `get_auth_type`, `wait` and `close`. They read a field or sleep.
- Other files: `src/webhook_server.py` (an async web server), `test_installation.py` and `src/__init__.py` are not part of this model.
