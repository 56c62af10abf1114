/** The test-suite driver: how one test entry of a suite file becomes a
    request configuration, how the suite's runner is set up, the loop that
    executes every test, and the preview of a response body. Keys a suite
    file leaves out are `None` here. */
module Suite {
  import opened Wrappers
  import opened Text
  import Utils
  import opened Retry
  import opened Auth
  import opened Runner

  /** One entry of the suite's `tests` list. */
  datatype TestCase = TestCase(
    id: Option<string>,
    httpMethod: Option<string>,
    path: Option<string>,
    headers: Option<map<string, string>>,
    body: Option<string>,
    params: Option<map<string, string>>,
    timeoutSeconds: Option<int>)

  /** The suite's `defaults` section. */
  datatype Defaults = Defaults(
    retries: Option<int>,
    headers: Option<map<string, string>>,
    timeoutSeconds: Option<int>)

  const NoDefaults := Defaults(None, None, None)

  /** A loaded suite file; a missing `auth` section is the empty map. */
  datatype SuiteFile = SuiteFile(
    baseUrl: Option<string>,
    defaults: Option<Defaults>,
    auth: map<string, string>,
    tests: seq<TestCase>)

  const DefaultTimeout := 10

  /** `base_url + path if base_url else path`. */
  function TestUrl(baseUrl: string, path: string): (url: string)
    ensures baseUrl == "" ==> url == path
    ensures |url| == |baseUrl| + |path|
    ensures url[..|baseUrl|] == baseUrl && url[|baseUrl|..] == path
  {
    if baseUrl != "" then baseUrl + path else path
  }

  /** The defaults' headers overridden by the test's own. */
  function TestHeaders(defaults: Defaults, test: TestCase): (h: map<string, string>)
    ensures h.Keys == defaults.headers.GetOr(map[]).Keys + test.headers.GetOr(map[]).Keys
    ensures forall k :: k in test.headers.GetOr(map[]) ==> h[k] == test.headers.GetOr(map[])[k]
    ensures forall k :: k in defaults.headers.GetOr(map[]) && k !in test.headers.GetOr(map[]) ==>
      h[k] == defaults.headers.GetOr(map[])[k]
  {
    Utils.MergeDicts(defaults.headers.GetOr(map[]), test.headers.GetOr(map[]))
  }

  /** The test's timeout, else the defaults' timeout, else ten seconds. */
  function TestTimeout(defaults: Defaults, test: TestCase): (t: int)
    ensures test.timeoutSeconds.Some? ==> t == test.timeoutSeconds.value
    ensures test.timeoutSeconds.None? && defaults.timeoutSeconds.Some? ==> t == defaults.timeoutSeconds.value
    ensures test.timeoutSeconds.None? && defaults.timeoutSeconds.None? ==> t == DefaultTimeout
  {
    test.timeoutSeconds.GetOr(defaults.timeoutSeconds.GetOr(DefaultTimeout))
  }

  /** The id shown for a test, and the request it makes. */
  datatype ResolvedTest = ResolvedTest(id: string, config: RequestConfig)

  function ResolveTest(suite: SuiteFile, test: TestCase): (r: ResolvedTest)
    ensures r.id == test.id.GetOr("unknown")
    ensures r.config.httpMethod == test.httpMethod.GetOr("GET")
    ensures r.config.url == TestUrl(suite.baseUrl.GetOr(""), test.path.GetOr(""))
    ensures r.config.headers == TestHeaders(suite.defaults.GetOr(NoDefaults), test)
    ensures r.config.params == test.params.GetOr(map[]) && r.config.body == test.body
    ensures r.config.timeout == TestTimeout(suite.defaults.GetOr(NoDefaults), test)
    ensures r.config.verifySsl && r.config.allowRedirects
  {
    var defaults := suite.defaults.GetOr(NoDefaults);
    ResolvedTest(
      test.id.GetOr("unknown"),
      MakeRequestConfig(
        test.httpMethod.GetOr("GET"),
        TestUrl(suite.baseUrl.GetOr(""), test.path.GetOr("")),
        TestHeaders(defaults, test),
        test.params.GetOr(map[]),
        test.body,
        TestTimeout(defaults, test)))
  }

  /** A test that gives nothing but a path gets the suite-wide values. */
  lemma BareTestUsesSuiteValues(suite: SuiteFile, path: string)
    ensures var r := ResolveTest(suite, TestCase(None, None, Some(path), None, None, None, None));
      && r.id == "unknown" && r.config.httpMethod == "GET"
      && r.config.headers == suite.defaults.GetOr(NoDefaults).headers.GetOr(map[])
      && r.config.timeout == suite.defaults.GetOr(NoDefaults).timeoutSeconds.GetOr(DefaultTimeout)
      && (suite.baseUrl.None? ==> r.config.url == path)
  {
    var h := suite.defaults.GetOr(NoDefaults).headers.GetOr(map[]);
    Utils.MergeDictsIdentities(h, map[]);
  }

  /** The suite's retry policy: `retries` from the defaults (three if
      absent), a one-second initial delay, the rest as in `RetryConfig`. */
  function SuiteRetryConfig(defaults: Defaults): (c: RetryConfig)
    ensures c.maxRetries == defaults.retries.GetOr(3) && c.initialDelay == 1.0
    ensures c == DefaultConfig().(maxRetries := defaults.retries.GetOr(3))
  {
    MakeRetryConfig(defaults.retries.GetOr(3), 1.0, 32.0, 2.0, None)
  }

  /** The transport seen by test `t`: its own sequence of attempt outcomes. */
  function TestTransport(transport: (nat, nat) -> Outcome, t: nat): nat -> Outcome {
    (k: nat) => transport(t, k)
  }

  /** The loop of `execute_test_suite` over the resolved requests: each in
      order through the same runner; result `t` and the pauses slept during
      request `t` are what the runner's retry loop (`Run`) gives for it. */
  method ExecuteAll(runner: Runner, configs: seq<RequestConfig>, transport: (nat, nat) -> Outcome)
    returns (results: seq<RequestResult>, waits: seq<seq<real>>)
    ensures |results| == |configs| && |waits| == |configs|
    ensures forall t :: 0 <= t < |results| ==>
      (results[t], waits[t]) == Run(runner.auth, runner.retryHandler.config, configs[t], TestTransport(transport, t))
  {
    var current := runner;
    results, waits := [], [];
    var i := 0;
    while i < |configs|
      invariant 0 <= i <= |configs|
      invariant current.auth == runner.auth && current.retryHandler.config == runner.retryHandler.config
      invariant |results| == i && |waits| == i
      invariant forall t :: 0 <= t < i ==>
        (results[t], waits[t]) == Run(runner.auth, runner.retryHandler.config, configs[t], TestTransport(transport, t))
    {
      var result, slept;
      result, current, slept := Execute(current, configs[i], TestTransport(transport, i));
      RunsAppend(runner, configs, transport, results, waits, result, slept);
      results, waits := results + [result], waits + [slept];
      i := i + 1;
    }
  }

  /** Appending the next request's run keeps every earlier run in place. */
  lemma RunsAppend(runner: Runner, configs: seq<RequestConfig>, transport: (nat, nat) -> Outcome,
                   results: seq<RequestResult>, waits: seq<seq<real>>, result: RequestResult, slept: seq<real>)
    requires |results| == |waits| < |configs|
    requires forall t :: 0 <= t < |results| ==>
      (results[t], waits[t]) == Run(runner.auth, runner.retryHandler.config, configs[t], TestTransport(transport, t))
    requires (result, slept) ==
      Run(runner.auth, runner.retryHandler.config, configs[|results|], TestTransport(transport, |results|))
    ensures forall t :: 0 <= t < |results| + 1 ==>
      ((results + [result])[t], (waits + [slept])[t]) ==
      Run(runner.auth, runner.retryHandler.config, configs[t], TestTransport(transport, t))
  {
  }

  /** The request each test of the suite makes, in order. */
  function TestConfigs(suite: SuiteFile): (cs: seq<RequestConfig>)
    ensures |cs| == |suite.tests|
    ensures forall t :: 0 <= t < |cs| ==> cs[t] == ResolveTest(suite, suite.tests[t]).config
  {
    seq(|suite.tests|, t requires 0 <= t < |suite.tests| => ResolveTest(suite, suite.tests[t]).config)
  }

  /** `execute_test_suite`: the authentication from the suite's `auth`
      section, the suite's retry policy, one runner, then every test. */
  method ExecuteTestSuite(suite: SuiteFile, env: Env, transport: (nat, nat) -> Outcome)
    returns (results: seq<RequestResult>, waits: seq<seq<real>>)
    ensures |results| == |suite.tests| && |waits| == |suite.tests|
    ensures forall t :: 0 <= t < |results| ==>
      (results[t], waits[t]) == Run(CreateAuthFromConfig(suite.auth, env), SuiteRetryConfig(suite.defaults.GetOr(NoDefaults)),
                                    ResolveTest(suite, suite.tests[t]).config, TestTransport(transport, t))
  {
    var auth := CreateAuthFromConfig(suite.auth, env);
    var runner := NewRunner(auth, Some(SuiteRetryConfig(suite.defaults.GetOr(NoDefaults))));
    results, waits := ExecuteAll(runner, TestConfigs(suite), transport);
  }

  const PreviewLength := 500
  const TruncationMarker := "\n... (truncated)"

  /** The body panel of a single result: nothing for an empty or missing
      body, else its first 500 characters, marked when more were cut. */
  function BodyPreview(body: Option<string>): (p: Option<string>)
    ensures p.Some? <==> Truthy(body)
    ensures p.Some? ==> |p.value| <= PreviewLength + |TruncationMarker|
    ensures p.Some? && |body.value| <= PreviewLength ==> p.value == body.value
    ensures p.Some? && |body.value| > PreviewLength ==>
      |p.value| == PreviewLength + |TruncationMarker| &&
      p.value[..PreviewLength] == body.value[..PreviewLength] &&
      p.value[PreviewLength..] == TruncationMarker
  {
    if !Truthy(body) then None
    else
      var preview := Utils.PrefixSlice(body.value, PreviewLength);
      Some(if |body.value| > PreviewLength then preview + TruncationMarker else preview)
  }

  /** The preview equals the body exactly when nothing was cut, or when the
      body already ends, at character 500, in the truncation marker. */
  lemma PreviewIsWholeBody(body: string)
    requires body != ""
    ensures BodyPreview(Some(body)) == Some(body) <==>
      |body| <= PreviewLength || body == body[..PreviewLength] + TruncationMarker
  {
    if |body| > PreviewLength {
      assert BodyPreview(Some(body)).value == body[..PreviewLength] + TruncationMarker;
    }
  }
}
