/** The diagnosis engine: a fixed rule cascade from a request result to an
    issue, cause, suggestion, severity and category; the batch grouping by
    severity; and the summary counts. */
module DiagnosisEngine {
  import opened Wrappers
  import opened Text
  import opened Runner

  /** The severity strings the engine uses, as a closed enumeration. */
  datatype Severity = Critical | High | Medium | Low

  /** The category strings the engine uses, "success" included. */
  datatype Category = Auth | RateLimit | Server | Client | Network | Unknown | Success

  function SeverityName(s: Severity): string {
    match s
    case Critical => "critical"
    case High => "high"
    case Medium => "medium"
    case Low => "low"
  }

  function CategoryName(c: Category): string {
    match c
    case Auth => "auth"
    case RateLimit => "rate_limit"
    case Server => "server"
    case Client => "client"
    case Network => "network"
    case Unknown => "unknown"
    case Success => "success"
  }

  /** The names are distinct, so grouping by enumeration value is grouping by
      the strings the source uses as dictionary keys. */
  lemma NamesDistinct(a: Severity, b: Severity, c: Category, d: Category)
    ensures SeverityName(a) == SeverityName(b) ==> a == b
    ensures CategoryName(c) == CategoryName(d) ==> c == d
  {
  }

  /** The suggestion texts, one tag per distinct text. */
  datatype Remedy =
    | CheckToken
    | CheckScopes
    | BackOff
    | FixRequestSyntax
    | CheckEndpoint
    | CheckMethods
    | ValidateFields
    | RetryServerError
    | RetryBadGateway
    | AwaitService
    | RaiseGatewayTimeout
    | RaiseTimeout
    | CheckConnectivity
    | ReviewClientRequest
    | RetryLater
    | CheckConfiguration
    | NoAction

  /** The suggestion a remedy stands for, word for word. */
  function RemedyText(r: Remedy): string {
    match r
    case CheckToken =>
      "Verify your API token/key is correct and not expired. Check if token is properly included in Authorization header."
    case CheckScopes =>
      "Verify your API key has the necessary permissions/scopes for this endpoint. Contact API provider to check access rights."
    case BackOff =>
      "Wait before retrying. Implement exponential backoff. Check rate limit headers for reset time. Consider upgrading API plan if needed."
    case FixRequestSyntax =>
      "Check request body format, required fields, and parameter types. Review API documentation for correct request structure."
    case CheckEndpoint =>
      "Verify the endpoint URL is correct. Check if the resource ID is valid. Ensure you're using the correct API version."
    case CheckMethods =>
      "Check API documentation for supported HTTP methods (GET/POST/PUT/DELETE) for this endpoint."
    case ValidateFields =>
      "Validate all field values against API requirements. Check data types, formats, and business logic constraints."
    case RetryServerError =>
      "This is a server-side issue. Retry the request after a short delay. If problem persists, contact API provider support."
    case RetryBadGateway =>
      "Temporary server infrastructure issue. Retry after a short delay. Contact API provider if persists."
    case AwaitService =>
      "Service may be under maintenance or overloaded. Wait and retry. Check API provider status page."
    case RaiseGatewayTimeout =>
      "Increase request timeout. Check if endpoint typically has slow response. Retry after delay."
    case RaiseTimeout =>
      "Increase timeout value. Check network connectivity. Verify endpoint performance. Consider if endpoint is experiencing high load."
    case CheckConnectivity =>
      "Check network connectivity. Verify the URL is correct. Check if firewall/proxy is blocking the request. Ensure DNS resolution is working."
    case ReviewClientRequest =>
      "Review API documentation. Check request format, parameters, and authentication."
    case RetryLater =>
      "Retry request after delay. Contact API provider if issue persists."
    case CheckConfiguration =>
      "Check request configuration. Review logs for details. Ensure all required parameters are provided."
    case NoAction => "No action needed"
  }

  /** The cause texts of the fixed diagnoses, one tag per distinct text;
      `Reported` carries the result's own error message. */
  datatype Cause =
    | TokenProblem
    | MissingScopes
    | TooManyRequests
    | MalformedRequest
    | NoSuchResource
    | MethodUnsupported
    | SemanticErrors
    | UnexpectedCondition
    | InvalidUpstream
    | TemporarilyUnable
    | UpstreamTimeout
    | TooSlow
    | NoConnection
    | InvalidData
    | ServerSide
    | NotApplicable
    | Reported(message: string)

  /** The cause a tag stands for, word for word. */
  function CauseText(c: Cause): string {
    match c
    case TokenProblem => "Authentication token is missing, invalid, or expired"
    case MissingScopes => "Insufficient permissions or API key lacks required scopes"
    case TooManyRequests => "Too many requests sent in a given timeframe"
    case MalformedRequest => "Request syntax is malformed or invalid parameters"
    case NoSuchResource => "The requested resource or endpoint does not exist"
    case MethodUnsupported => "HTTP method not supported for this endpoint"
    case SemanticErrors => "Request is well-formed but contains semantic errors"
    case UnexpectedCondition => "Server encountered an unexpected condition"
    case InvalidUpstream => "Server received invalid response from upstream server"
    case TemporarilyUnable => "Server is temporarily unable to handle the request"
    case UpstreamTimeout => "Server did not receive timely response from upstream"
    case TooSlow => "Request took longer than configured timeout period"
    case NoConnection => "Unable to establish connection to server"
    case InvalidData => "Request contains invalid data or parameters"
    case ServerSide => "Server-side error occurred"
    case NotApplicable => "N/A"
    case Reported(message) => message
  }

  /** A diagnosis; the cause and suggestion are carried as tags, and their
      texts are `CauseText(cause)` and `RemedyText(suggestion)`. */
  datatype Diagnosis = Diagnosis(issue: string, cause: Cause, suggestion: Remedy, severity: Severity, category: Category)

  /** The status codes the table has an entry for. */
  const TableCodes: set<int> := {400, 401, 403, 404, 405, 422, 429, 500, 502, 503, 504}

  /** The per-status table: the entry for `code`, if it has one. Its
      categories agree with the status ranges `CategoryOf` reads. */
  function Rule(code: int): (e: Option<Diagnosis>)
    ensures e.Some? <==> code in TableCodes
    ensures e.Some? && (code == 401 || code == 403) ==> e.value.category == Auth
    ensures e.Some? && code == 429 ==> e.value.category == RateLimit
    ensures e.Some? && 400 <= code < 500 && code != 401 && code != 403 && code != 429 ==> e.value.category == Client
    ensures e.Some? && 500 <= code < 600 ==> e.value.category == Server
  {
    match code
    case 401 => Some(Diagnosis("Unauthorized Access (401)",
      TokenProblem,
      CheckToken, Critical, Auth))
    case 403 => Some(Diagnosis("Forbidden Access (403)",
      MissingScopes,
      CheckScopes, High, Auth))
    case 429 => Some(Diagnosis("Rate Limit Exceeded (429)",
      TooManyRequests,
      BackOff, Medium, RateLimit))
    case 400 => Some(Diagnosis("Bad Request (400)",
      MalformedRequest,
      FixRequestSyntax, High, Client))
    case 404 => Some(Diagnosis("Not Found (404)",
      NoSuchResource,
      CheckEndpoint, Medium, Client))
    case 405 => Some(Diagnosis("Method Not Allowed (405)",
      MethodUnsupported,
      CheckMethods, Medium, Client))
    case 422 => Some(Diagnosis("Unprocessable Entity (422)",
      SemanticErrors,
      ValidateFields, High, Client))
    case 500 => Some(Diagnosis("Internal Server Error (500)",
      UnexpectedCondition,
      RetryServerError, Critical, Server))
    case 502 => Some(Diagnosis("Bad Gateway (502)",
      InvalidUpstream,
      RetryBadGateway, High, Server))
    case 503 => Some(Diagnosis("Service Unavailable (503)",
      TemporarilyUnable,
      AwaitService, High, Server))
    case 504 => Some(Diagnosis("Gateway Timeout (504)",
      UpstreamTimeout,
      RaiseGatewayTimeout, High, Server))
    case _ => None
  }

  const SuccessDiagnosis: Diagnosis :=
    Diagnosis("Request Successful", NotApplicable, NoAction, Low, Success)

  const TimeoutDiagnosis: Diagnosis :=
    Diagnosis("Request Timeout",
              TooSlow,
              RaiseTimeout, High, Network)

  const ConnectionDiagnosis: Diagnosis :=
    Diagnosis("Connection Failed",
              NoConnection,
              CheckConnectivity, Critical, Network)

  const UnknownErrorCause: string := "Unknown error occurred"

  /** `result.error or "Unknown error occurred"`: an empty message counts as none. */
  function ReportedError(error: Option<string>): string {
    if Truthy(error) then error.value else UnknownErrorCause
  }

  function ClientErrorIssue(code: int): string { "Client Error (" + IntToString(code) + ")" }
  function ServerErrorIssue(code: int): string { "Server Error (" + IntToString(code) + ")" }

  /** Failed, not a network failure, and carrying a truthy status code. */
  predicate HasStatus(r: RequestResult) {
    && !r.success
    && r.errorType != Some(TimeoutType)
    && r.errorType != Some(ConnectionErrorType)
    && r.statusCode.Some? && r.statusCode.value != 0
  }

  predicate IsNetworkFailure(r: RequestResult) {
    !r.success && (r.errorType == Some(TimeoutType) || r.errorType == Some(ConnectionErrorType))
  }

  /** The category alone, read off the result without the status table: the
      grouping the summary counts by. */
  function CategoryOf(r: RequestResult): Category {
    if r.success then Success
    else if IsNetworkFailure(r) then Network
    else if HasStatus(r) && r.statusCode.value in {401, 403} then Auth
    else if HasStatus(r) && r.statusCode.value == 429 then RateLimit
    else if HasStatus(r) && 400 <= r.statusCode.value < 500 then Client
    else if HasStatus(r) && 500 <= r.statusCode.value < 600 then Server
    else Unknown
  }

  /** `diagnose`: success, then timeout, then connection failure, then the
      status table, then the 4xx and 5xx ranges, then the generic fallback. */
  function Diagnose(r: RequestResult): (d: Diagnosis)
    ensures d.category == CategoryOf(r)
    ensures d.category == Success <==> r.success
    ensures r.success ==> d == SuccessDiagnosis
    ensures d.category == Network <==> IsNetworkFailure(r)
    ensures !r.success && r.errorType == Some(TimeoutType) ==> d == TimeoutDiagnosis
    ensures !r.success && r.errorType == Some(ConnectionErrorType) ==> d == ConnectionDiagnosis
    ensures d.category == Auth <==> HasStatus(r) && r.statusCode.value in {401, 403}
    ensures d.category == RateLimit <==> HasStatus(r) && r.statusCode.value == 429
    ensures d.category == Client <==>
      HasStatus(r) && 400 <= r.statusCode.value < 500 && r.statusCode.value !in {401, 403, 429}
    ensures d.category == Server <==> HasStatus(r) && 500 <= r.statusCode.value < 600
    ensures d.category == Unknown <==>
      !r.success && !IsNetworkFailure(r) && !(HasStatus(r) && 400 <= r.statusCode.value < 600)
    ensures d.category == Unknown ==>
      d.issue == "Unknown Error" && d.severity == Medium &&
      d.cause == Reported(if Truthy(r.error) then r.error.value else UnknownErrorCause)
    ensures HasStatus(r) && Rule(r.statusCode.value).Some? ==> d == Rule(r.statusCode.value).value
    ensures HasStatus(r) && Rule(r.statusCode.value).None? && 400 <= r.statusCode.value < 600 ==>
      d.severity == High &&
      d.issue == (if r.statusCode.value < 500 then "Client Error (" else "Server Error (") + NatToString(r.statusCode.value) + ")"
    ensures HasStatus(r) && Rule(r.statusCode.value).None? && 400 <= r.statusCode.value < 500 ==>
      d.cause == InvalidData && d.suggestion == ReviewClientRequest
    ensures HasStatus(r) && Rule(r.statusCode.value).None? && 500 <= r.statusCode.value < 600 ==>
      d.cause == ServerSide && d.suggestion == RetryLater
    ensures d.category == Unknown ==> d.suggestion == CheckConfiguration
  {
    if r.success then SuccessDiagnosis
    else if r.errorType == Some(TimeoutType) then TimeoutDiagnosis
    else if r.errorType == Some(ConnectionErrorType) then ConnectionDiagnosis
    else if r.statusCode.Some? && r.statusCode.value != 0 && Rule(r.statusCode.value).Some? then Rule(r.statusCode.value).value
    else if r.statusCode.Some? && r.statusCode.value != 0 && 400 <= r.statusCode.value < 500 then
      Diagnosis(ClientErrorIssue(r.statusCode.value),
                InvalidData,
                ReviewClientRequest, High, Client)
    else if r.statusCode.Some? && r.statusCode.value != 0 && 500 <= r.statusCode.value < 600 then
      Diagnosis(ServerErrorIssue(r.statusCode.value),
                ServerSide,
                RetryLater, High, Server)
    else
      Diagnosis("Unknown Error",
                Reported(ReportedError(r.error)),
                CheckConfiguration, Medium, Unknown)
  }

  /** The severities the engine actually assigns: 401 and 500 are critical;
      400, 403, 422, 502, 503 and 504 high; 404, 405 and 429 medium; a
      timeout high and a connection failure critical. */
  lemma TableSeverities()
    ensures Rule(401).value.severity == Critical && Rule(403).value.severity == High
    ensures Rule(500).value.severity == Critical && Rule(502).value.severity == High
    ensures Rule(503).value.severity == High && Rule(504).value.severity == High
    ensures Rule(400).value.severity == High && Rule(422).value.severity == High
    ensures Rule(404).value.severity == Medium && Rule(405).value.severity == Medium
    ensures Rule(429).value.severity == Medium && Rule(429).value.category == RateLimit
    ensures TimeoutDiagnosis.severity == High && ConnectionDiagnosis.severity == Critical
  {
  }

  /** `p + str(n) + ")"` determines `n`. */
  lemma {:induction false} WrappedCodeInjective(p: string, m: nat, n: nat)
    requires p + NatToString(m) + ")" == p + NatToString(n) + ")"
    ensures m == n
  {
    var sm, sn := NatToString(m), NatToString(n);
    assert |sm| == |sn|;
    assert sm == (p + sm + ")")[|p|..|p| + |sm|];
    assert sn == (p + sn + ")")[|p|..|p| + |sn|];
    NatToStringInjective(m, n);
  }

  /** Unlisted 4xx and 5xx codes get an issue naming the code, so two distinct
      unlisted codes never share an issue. */
  lemma RangeIssuesNameTheCode(a: RequestResult, b: RequestResult)
    requires HasStatus(a) && HasStatus(b)
    requires Rule(a.statusCode.value).None? && Rule(b.statusCode.value).None?
    requires 400 <= a.statusCode.value < 600 && 400 <= b.statusCode.value < 600
    requires Diagnose(a).issue == Diagnose(b).issue
    ensures a.statusCode == b.statusCode
  {
    var m, n := a.statusCode.value, b.statusCode.value;
    var pa := if m < 500 then "Client Error (" else "Server Error (";
    var pb := if n < 500 then "Client Error (" else "Server Error (";
    assert Diagnose(a).issue[0] == pa[0];
    assert Diagnose(b).issue[0] == pb[0];
    assert pa == pb;
    WrappedCodeInjective(pa, m, n);
  }

  /** The diagnoses of `results`, in order. */
  function DiagnoseAll(results: seq<RequestResult>): (ds: seq<Diagnosis>)
    ensures |ds| == |results|
    ensures forall i :: 0 <= i < |results| ==> ds[i] == Diagnose(results[i])
  {
    seq(|results|, i requires 0 <= i < |results| => Diagnose(results[i]))
  }

  /** The diagnoses of the given severity, in order. */
  function WithSeverity(ds: seq<Diagnosis>, severity: Severity): (r: seq<Diagnosis>)
    ensures |r| <= |ds|
    ensures forall d :: d in r ==> d in ds && d.severity == severity
  {
    if |ds| == 0 then []
    else
      var last := ds[|ds| - 1];
      WithSeverity(ds[..|ds| - 1], severity) + (if last.severity == severity then [last] else [])
  }

  lemma DiagnoseAllStep(results: seq<RequestResult>, i: nat)
    requires i < |results|
    ensures DiagnoseAll(results[..i + 1]) == DiagnoseAll(results[..i]) + [Diagnose(results[i])]
  {
  }

  lemma WithSeverityAppend(ds: seq<Diagnosis>, d: Diagnosis, severity: Severity)
    ensures WithSeverity(ds + [d], severity) == WithSeverity(ds, severity) + (if d.severity == severity then [d] else [])
  {
    assert (ds + [d])[..|ds|] == ds;
  }

  /** Appending `d` to its severity's list keeps every list equal to the
      filter of the diagnoses seen so far. */
  lemma BatchStep(bySeverity: map<Severity, seq<Diagnosis>>, seen: seq<Diagnosis>, d: Diagnosis)
    requires forall s: Severity :: s in bySeverity && bySeverity[s] == WithSeverity(seen, s)
    ensures var next := bySeverity[d.severity := bySeverity[d.severity] + [d]];
      bySeverity.Keys == next.Keys &&
      forall s: Severity :: s in next && next[s] == WithSeverity(seen + [d], s)
  {
    forall s: Severity {
      WithSeverityAppend(seen, d, s);
    }
  }

  /** Splitting by the four severities loses and duplicates nothing. */
  lemma {:induction false} SeverityPartition(ds: seq<Diagnosis>)
    ensures |WithSeverity(ds, Critical)| + |WithSeverity(ds, High)| +
            |WithSeverity(ds, Medium)| + |WithSeverity(ds, Low)| == |ds|
  {
    if |ds| > 0 {
      SeverityPartition(ds[..|ds| - 1]);
    }
  }

  /** `diagnose_batch`: the four severity lists, each in input order. Every
      severity has its list from the start, so no diagnosis can miss a key;
      by `SeverityPartition` the lists together have one entry per result. */
  method DiagnoseBatch(results: seq<RequestResult>) returns (bySeverity: map<Severity, seq<Diagnosis>>)
    ensures forall severity: Severity :: severity in bySeverity
    ensures forall severity :: severity in bySeverity ==> bySeverity[severity] == WithSeverity(DiagnoseAll(results), severity)
  {
    bySeverity := map[Critical := [], High := [], Medium := [], Low := []];
    ghost var seen: seq<Diagnosis> := [];
    forall s: Severity ensures s in bySeverity {
      match s
      case Critical =>
      case High =>
      case Medium =>
      case Low =>
    }
    var i := 0;
    while i < |results|
      invariant 0 <= i <= |results|
      invariant seen == DiagnoseAll(results[..i])
      invariant bySeverity.Keys == {Critical, High, Medium, Low}
      invariant forall s: Severity :: s in bySeverity && bySeverity[s] == WithSeverity(seen, s)
    {
      var d := Diagnose(results[i]);
      BatchStep(bySeverity, seen, d);
      bySeverity := bySeverity[d.severity := bySeverity[d.severity] + [d]];
      seen := seen + [d];
      DiagnoseAllStep(results, i);
      i := i + 1;
    }
    assert results[..|results|] == results;
  }

  /** `error_counts`: a Python dict, kept in insertion order. */
  type Counts = seq<(Category, nat)>

  predicate DistinctKeys(c: Counts) {
    forall i, j :: 0 <= i < j < |c| ==> c[i].0 != c[j].0
  }

  predicate HasKey(c: Counts, key: Category) {
    exists i :: 0 <= i < |c| && c[i].0 == key
  }

  function SumCounts(c: Counts): nat {
    if |c| == 0 then 0 else SumCounts(c[..|c| - 1]) + c[|c| - 1].1
  }

  lemma SumCountsAppend(c: Counts, e: (Category, nat))
    ensures SumCounts(c + [e]) == SumCounts(c) + e.1
  {
    assert (c + [e])[..|c|] == c;
  }

  lemma {:induction false} SumCountsBumpAt(c: Counts, k: nat)
    requires k < |c|
    ensures SumCounts(c[k := (c[k].0, c[k].1 + 1)]) == SumCounts(c) + 1
    decreases |c|
  {
    var c' := c[k := (c[k].0, c[k].1 + 1)];
    if k < |c| - 1 {
      assert c'[..|c| - 1] == c[..|c| - 1][k := (c[k].0, c[k].1 + 1)];
      SumCountsBumpAt(c[..|c| - 1], k);
    } else {
      assert c'[..|c| - 1] == c[..|c| - 1];
    }
  }

  /** `counts[key] = counts.get(key, 0) + 1`. */
  function Bump(c: Counts, key: Category): (r: Counts)
    requires DistinctKeys(c)
    ensures DistinctKeys(r)
    ensures |r| == |c| + (if HasKey(c, key) then 0 else 1)
    ensures forall i :: 0 <= i < |c| ==> r[i].0 == c[i].0
    ensures !HasKey(c, key) ==> r[|c|] == (key, 1)
    ensures forall i :: 0 <= i < |c| ==> r[i].1 == c[i].1 + (if c[i].0 == key then 1 else 0)
    ensures SumCounts(r) == SumCounts(c) + 1
  {
    if HasKey(c, key) then
      var k :| 0 <= k < |c| && c[k].0 == key;
      SumCountsBumpAt(c, k);
      c[k := (key, c[k].1 + 1)]
    else
      SumCountsAppend(c, (key, 1));
      c + [(key, 1)]
  }

  /** Bumping adds `key` to the keys and nothing else. */
  lemma BumpKeys(c: Counts, key: Category, k: Category)
    requires DistinctKeys(c)
    ensures HasKey(Bump(c, key), k) <==> HasKey(c, k) || k == key
  {
    var r := Bump(c, key);
    if HasKey(c, k) {
      var i :| 0 <= i < |c| && c[i].0 == k;
      assert r[i].0 == k;
    }
    if k == key && !HasKey(c, k) {
      assert r[|c|].0 == k;
    }
    if HasKey(r, k) {
      var i :| 0 <= i < |r| && r[i].0 == k;
      assert i < |c| ==> c[i].0 == k;
    }
  }

  /** Failed results whose diagnosis falls in `category`. */
  function CountCategory(results: seq<RequestResult>, category: Category): nat {
    if |results| == 0 then 0
    else
      var last := results[|results| - 1];
      CountCategory(results[..|results| - 1], category) + (if !last.success && CategoryOf(last) == category then 1 else 0)
  }

  function CountFailed(results: seq<RequestResult>): nat {
    if |results| == 0 then 0
    else CountFailed(results[..|results| - 1]) + (if results[|results| - 1].success then 0 else 1)
  }

  /** Whether some failed result diagnoses to `category`. */
  predicate SomeFailureIn(results: seq<RequestResult>, category: Category) {
    exists i :: 0 <= i < |results| && !results[i].success && CategoryOf(results[i]) == category
  }

  /** A category is counted at all exactly when some failure falls in it. */
  lemma {:induction false} CountCategoryPositive(results: seq<RequestResult>, category: Category)
    ensures CountCategory(results, category) > 0 <==> SomeFailureIn(results, category)
  {
    if |results| > 0 {
      var front := results[..|results| - 1];
      CountCategoryPositive(front, category);
      if SomeFailureIn(front, category) {
        var j :| 0 <= j < |front| && !front[j].success && CategoryOf(front[j]) == category;
        assert results[j] == front[j];
      }
      if SomeFailureIn(results, category) && !SomeFailureIn(front, category) {
        var j :| 0 <= j < |results| && !results[j].success && CategoryOf(results[j]) == category;
        if j < |front| {
          assert front[j] == results[j];
        }
      }
    }
  }

  /** The diagnoses of the failed results, in order. */
  function FailedDiagnoses(results: seq<RequestResult>): (ds: seq<Diagnosis>)
    ensures |ds| == CountFailed(results)
    ensures forall d :: d in ds ==> d.category != Success
  {
    if |results| == 0 then []
    else
      var last := results[|results| - 1];
      FailedDiagnoses(results[..|results| - 1]) + (if last.success then [] else [Diagnose(last)])
  }

  /** What the summary loop knows after reading `rs`. */
  ghost predicate SummaryInv(rs: seq<RequestResult>, successful: nat, counts: Counts) {
    && successful + CountFailed(rs) == |rs|
    && DistinctKeys(counts)
    && (forall c :: HasKey(counts, c) <==> SomeFailureIn(rs, c))
    && (forall j :: 0 <= j < |counts| ==> counts[j].1 == CountCategory(rs, counts[j].0))
    && SumCounts(counts) == CountFailed(rs)
  }

  /** Reading one more result: what each aggregate gains. */
  lemma FailuresAppend(rs: seq<RequestResult>, r: RequestResult)
    ensures forall c :: SomeFailureIn(rs + [r], c) <==> SomeFailureIn(rs, c) || (!r.success && CategoryOf(r) == c)
    ensures forall c ::
      CountCategory(rs + [r], c) == CountCategory(rs, c) + (if !r.success && CategoryOf(r) == c then 1 else 0)
    ensures CountFailed(rs + [r]) == CountFailed(rs) + (if r.success then 0 else 1)
  {
    var rs' := rs + [r];
    assert rs'[..|rs|] == rs;
    forall c | SomeFailureIn(rs', c) && !(!r.success && CategoryOf(r) == c)
      ensures SomeFailureIn(rs, c)
    {
      var j :| 0 <= j < |rs'| && !rs'[j].success && CategoryOf(rs'[j]) == c;
      assert j < |rs| && rs[j] == rs'[j];
    }
    forall c | SomeFailureIn(rs, c) ensures SomeFailureIn(rs', c) {
      var j :| 0 <= j < |rs| && !rs[j].success && CategoryOf(rs[j]) == c;
      assert rs'[j] == rs[j];
    }
    assert rs'[|rs|] == r;
  }

  /** Bumping the failed result's category keeps the counts exact. */
  lemma CountsStep(rs: seq<RequestResult>, r: RequestResult, counts: Counts)
    requires !r.success && DistinctKeys(counts)
    requires forall c :: HasKey(counts, c) <==> SomeFailureIn(rs, c)
    requires forall j :: 0 <= j < |counts| ==> counts[j].1 == CountCategory(rs, counts[j].0)
    ensures var counts' := Bump(counts, CategoryOf(r));
      && (forall c :: HasKey(counts', c) <==> SomeFailureIn(rs + [r], c))
      && (forall j :: 0 <= j < |counts'| ==> counts'[j].1 == CountCategory(rs + [r], counts'[j].0))
  {
    var key := CategoryOf(r);
    var counts' := Bump(counts, key);
    FailuresAppend(rs, r);
    forall c ensures HasKey(counts', c) <==> HasKey(counts, c) || c == key {
      BumpKeys(counts, key, c);
    }
    if !HasKey(counts, key) {
      CountCategoryPositive(rs, key);
    }
  }

  lemma SummaryStep(results: seq<RequestResult>, i: nat, successful: nat, counts: Counts)
    requires i < |results|
    requires SummaryInv(results[..i], successful, counts)
    ensures results[i].success ==> SummaryInv(results[..i + 1], successful + 1, counts)
    ensures !results[i].success ==> SummaryInv(results[..i + 1], successful, Bump(counts, CategoryOf(results[i])))
  {
    var rs, r := results[..i], results[i];
    assert results[..i + 1] == rs + [r];
    FailuresAppend(rs, r);
    if !r.success {
      CountsStep(rs, r, counts);
    }
  }

  /** Python dicts keep insertion order: a key comes after another only if
      the other's category had already failed before any failure of its own. */
  ghost predicate FirstSeenOrder(results: seq<RequestResult>, c: Counts) {
    forall i, j, m :: 0 <= i < j < |c| && 0 <= m < |results| && !results[m].success && CategoryOf(results[m]) == c[j].0 ==>
      SomeFailureIn(results[..m], c[i].0)
  }

  /** Reading one more result keeps the keys in first-failure order: an
      existing key stays in place and a new key goes last. */
  lemma OrderStep(rs: seq<RequestResult>, r: RequestResult, counts: Counts)
    requires DistinctKeys(counts)
    requires forall c :: HasKey(counts, c) <==> SomeFailureIn(rs, c)
    requires FirstSeenOrder(rs, counts)
    ensures r.success ==> FirstSeenOrder(rs + [r], counts)
    ensures !r.success ==> FirstSeenOrder(rs + [r], Bump(counts, CategoryOf(r)))
  {
    var rs' := rs + [r];
    var counts' := if r.success then counts else Bump(counts, CategoryOf(r));
    forall i, j, m | 0 <= i < j < |counts'| && 0 <= m < |rs'| && !rs'[m].success && CategoryOf(rs'[m]) == counts'[j].0
      ensures SomeFailureIn(rs'[..m], counts'[i].0)
    {
      assert i < |counts| && counts'[i].0 == counts[i].0;
      assert HasKey(counts, counts[i].0);
      if m < |rs| {
        assert rs'[..m] == rs[..m] && rs'[m] == rs[m];
        assert SomeFailureIn(rs, counts'[j].0);
        assert HasKey(counts, counts'[j].0);
        assert j < |counts| && counts'[j].0 == counts[j].0;
      } else {
        assert rs'[..m] == rs;
      }
    }
  }

  lemma OrderStepAt(results: seq<RequestResult>, i: nat, successful: nat, counts: Counts)
    requires i < |results|
    requires SummaryInv(results[..i], successful, counts) && FirstSeenOrder(results[..i], counts)
    ensures results[i].success ==> FirstSeenOrder(results[..i + 1], counts)
    ensures !results[i].success ==> FirstSeenOrder(results[..i + 1], Bump(counts, CategoryOf(results[i])))
  {
    assert results[..i + 1] == results[..i] + [results[i]];
    OrderStep(results[..i], results[i], counts);
  }

  /** The integer part of `get_summary`. */
  datatype Summary = Summary(total: nat, successful: nat, failed: nat, errorCounts: Counts, diagnoses: seq<Diagnosis>)

  /** `s` is the summary of `results`: the totals; `error_counts` with one
      entry per category that failed, holding its number of failures, in
      the order the categories first failed; and the failures' diagnoses. */
  ghost predicate IsSummaryOf(results: seq<RequestResult>, s: Summary) {
    && s.total == |results| && s.successful + s.failed == s.total
    && s.failed == CountFailed(results)
    && DistinctKeys(s.errorCounts)
    && (forall c :: HasKey(s.errorCounts, c) <==> SomeFailureIn(results, c))
    && !HasKey(s.errorCounts, Success)
    && (forall i :: 0 <= i < |s.errorCounts| ==> s.errorCounts[i].1 == CountCategory(results, s.errorCounts[i].0))
    && FirstSeenOrder(results, s.errorCounts)
    && SumCounts(s.errorCounts) == s.failed
    && s.diagnoses == FailedDiagnoses(results)
  }

  /** `get_summary` (without the rates and averages). */
  method GetSummary(results: seq<RequestResult>) returns (summary: Summary)
    ensures IsSummaryOf(results, summary)
  {
    var successful := 0;
    var counts: Counts := [];
    var i := 0;
    while i < |results|
      invariant 0 <= i <= |results|
      invariant SummaryInv(results[..i], successful, counts)
      invariant FirstSeenOrder(results[..i], counts)
    {
      var r := results[i];
      SummaryStep(results, i, successful, counts);
      OrderStepAt(results, i, successful, counts);
      if r.success {
        successful := successful + 1;
      } else {
        var category := Diagnose(r).category;
        counts := Bump(counts, category);
      }
      i := i + 1;
    }
    assert results[..|results|] == results;
    summary := Summary(|results|, successful, |results| - successful, counts, FailedDiagnoses(results));
  }
}
