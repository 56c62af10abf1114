/** The data side of the report generator: which report kinds a format asks
    for, the de-duplicated failure list shown in the HTML report, and the
    per-result records of the JSON report. Rendering, timestamps and file
    writes are not modelled; a generated report is represented by its data. */
module Report {
  import opened Wrappers
  import opened Runner
  import opened DiagnosisEngine

  /* ---------- Failed diagnoses, one per issue ---------- */

  /** `any(d.issue == issue for d in ds)`. */
  function AnyIssue(ds: seq<Diagnosis>, issue: string): (b: bool)
    ensures b <==> exists j :: 0 <= j < |ds| && ds[j].issue == issue
  {
    if |ds| == 0 then false
    else
      var rest := AnyIssue(ds[1..], issue);
      assert rest <==> exists j :: 1 <= j < |ds| && ds[j].issue == issue by {
        if rest {
          var j :| 0 <= j < |ds[1..]| && ds[1..][j].issue == issue;
          assert ds[j + 1].issue == issue;
        }
      }
      ds[0].issue == issue || rest
  }

  /** Index `k` holds the first diagnosis of `ds` with its issue. */
  ghost predicate IsFirst(ds: seq<Diagnosis>, k: int) {
    0 <= k < |ds| && forall k' :: 0 <= k' < k ==> ds[k'].issue != ds[k].issue
  }

  /** `kept` is the list of first occurrences of `ds`, in order: `picked`
      holds their indices, strictly increasing, and names every first
      occurrence there is. */
  ghost predicate FirstOccurrences(ds: seq<Diagnosis>, kept: seq<Diagnosis>, picked: seq<int>) {
    && |picked| == |kept|
    && (forall j :: 0 <= j < |picked| ==> IsFirst(ds, picked[j]) && kept[j] == ds[picked[j]])
    && (forall j1, j2 :: 0 <= j1 < j2 < |picked| ==> picked[j1] < picked[j2])
    && (forall k :: IsFirst(ds, k) ==> k in picked)
  }

  /** Every issue of `ds` appears in `kept`. */
  ghost predicate Covers(ds: seq<Diagnosis>, kept: seq<Diagnosis>) {
    forall k :: 0 <= k < |ds| ==> AnyIssue(kept, ds[k].issue)
  }

  /** Appending to `ds` keeps its earlier first occurrences. */
  lemma IsFirstAppend(ds: seq<Diagnosis>, d: Diagnosis, k: int)
    requires 0 <= k < |ds|
    ensures IsFirst(ds + [d], k) <==> IsFirst(ds, k)
  {
    var ds' := ds + [d];
    assert forall k' :: 0 <= k' <= k ==> ds'[k'] == ds[k'];
  }

  /** One more failed result whose issue is already kept: nothing is added. */
  lemma DedupSkip(ds: seq<Diagnosis>, kept: seq<Diagnosis>, picked: seq<int>, d: Diagnosis)
    requires FirstOccurrences(ds, kept, picked) && Covers(ds, kept)
    requires AnyIssue(kept, d.issue)
    ensures FirstOccurrences(ds + [d], kept, picked) && Covers(ds + [d], kept)
  {
    var ds' := ds + [d];
    var j :| 0 <= j < |kept| && kept[j].issue == d.issue;
    assert ds'[picked[j]].issue == ds'[|ds|].issue;
    assert !IsFirst(ds', |ds|);
    forall i | 0 <= i < |picked|
      ensures IsFirst(ds', picked[i]) && kept[i] == ds'[picked[i]]
    {
      IsFirstAppend(ds, d, picked[i]);
    }
    forall k | IsFirst(ds', k)
      ensures k in picked
    {
      IsFirstAppend(ds, d, k);
    }
    forall k | 0 <= k < |ds'|
      ensures AnyIssue(kept, ds'[k].issue)
    {
      if k < |ds| {
        assert ds'[k] == ds[k];
      }
    }
  }

  /** A diagnosis whose issue is not yet kept is the first with its issue. */
  lemma NewIssueIsFirst(ds: seq<Diagnosis>, kept: seq<Diagnosis>, d: Diagnosis)
    requires Covers(ds, kept) && !AnyIssue(kept, d.issue)
    ensures IsFirst(ds + [d], |ds|)
  {
    var ds' := ds + [d];
    forall k' | 0 <= k' < |ds|
      ensures ds'[k'].issue != d.issue
    {
      assert ds'[k'] == ds[k'] && AnyIssue(kept, ds[k'].issue);
    }
  }

  lemma CoversAppend(ds: seq<Diagnosis>, kept: seq<Diagnosis>, d: Diagnosis)
    requires Covers(ds, kept)
    ensures Covers(ds + [d], kept + [d])
  {
    var ds', kept' := ds + [d], kept + [d];
    forall k | 0 <= k < |ds'|
      ensures AnyIssue(kept', ds'[k].issue)
    {
      if k == |ds| {
        assert kept'[|kept|].issue == ds'[k].issue;
      } else {
        assert ds'[k] == ds[k] && AnyIssue(kept, ds[k].issue);
        var j :| 0 <= j < |kept| && kept[j].issue == ds[k].issue;
        assert kept'[j] == kept[j];
      }
    }
  }

  /** Appending a first occurrence extends the first-occurrence list. */
  lemma FirstOccurrencesAppend(ds: seq<Diagnosis>, kept: seq<Diagnosis>, picked: seq<int>, d: Diagnosis)
    requires FirstOccurrences(ds, kept, picked)
    requires IsFirst(ds + [d], |ds|)
    ensures FirstOccurrences(ds + [d], kept + [d], picked + [|ds|])
  {
    var ds', kept', picked' := ds + [d], kept + [d], picked + [|ds|];
    forall j | 0 <= j < |picked'|
      ensures IsFirst(ds', picked'[j]) && kept'[j] == ds'[picked'[j]]
    {
      if j < |picked| {
        assert picked'[j] == picked[j] && kept'[j] == kept[j];
        IsFirstAppend(ds, d, picked[j]);
      }
    }
    forall j1, j2 | 0 <= j1 < j2 < |picked'|
      ensures picked'[j1] < picked'[j2]
    {
      assert IsFirst(ds, picked[j1]);
      if j2 < |picked| {
        assert picked'[j1] == picked[j1] && picked'[j2] == picked[j2];
      }
    }
    forall k | IsFirst(ds', k)
      ensures k in picked'
    {
      if k < |ds| {
        IsFirstAppend(ds, d, k);
        assert k in picked;
      }
    }
  }

  /** One more failed result with a new issue: it is appended. */
  lemma DedupKeep(ds: seq<Diagnosis>, kept: seq<Diagnosis>, picked: seq<int>, d: Diagnosis)
    requires FirstOccurrences(ds, kept, picked) && Covers(ds, kept)
    requires !AnyIssue(kept, d.issue)
    ensures FirstOccurrences(ds + [d], kept + [d], picked + [|ds|]) && Covers(ds + [d], kept + [d])
  {
    NewIssueIsFirst(ds, kept, d);
    CoversAppend(ds, kept, d);
    FirstOccurrencesAppend(ds, kept, picked, d);
  }

  /** First occurrences never share an issue. */
  lemma FirstOccurrencesDistinct(ds: seq<Diagnosis>, kept: seq<Diagnosis>, picked: seq<int>)
    requires FirstOccurrences(ds, kept, picked)
    ensures forall i, j :: 0 <= i < j < |kept| ==> kept[i].issue != kept[j].issue
  {
    forall i, j | 0 <= i < j < |kept|
      ensures kept[i].issue != kept[j].issue
    {
      assert IsFirst(ds, picked[j]) && picked[i] < picked[j];
    }
  }

  /** Two strictly increasing sequences with the same elements are equal. */
  lemma {:induction false} IncreasingUnique(a: seq<int>, b: seq<int>)
    requires forall i, j :: 0 <= i < j < |a| ==> a[i] < a[j]
    requires forall i, j :: 0 <= i < j < |b| ==> b[i] < b[j]
    requires forall x :: x in a <==> x in b
    ensures a == b
    decreases |a| + |b|
  {
    assert |a| > 0 ==> a[0] in a;
    assert |b| > 0 ==> b[0] in b;
    if |a| > 0 && |b| > 0 {
      assert a[0] in a && b[0] in b;
      var i :| 0 <= i < |b| && b[i] == a[0];
      var k :| 0 <= k < |a| && a[k] == b[0];
      assert a[0] == b[0];
      forall x
        ensures x in a[1..] <==> x in b[1..]
      {
        if x in a[1..] {
          var i :| 0 <= i < |a[1..]| && a[1..][i] == x;
          assert a[i + 1] == x && x in a;
          var k :| 0 <= k < |b| && b[k] == x;
          assert k != 0 && b[1..][k - 1] == x;
        }
        if x in b[1..] {
          var i :| 0 <= i < |b[1..]| && b[1..][i] == x;
          assert b[i + 1] == x && x in b;
          var k :| 0 <= k < |a| && a[k] == x;
          assert k != 0 && a[1..][k - 1] == x;
        }
      }
      IncreasingUnique(a[1..], b[1..]);
      assert a == [a[0]] + a[1..] && b == [b[0]] + b[1..];
    }
  }

  /** The first-occurrence list of a sequence is unique, so the loop below
      computes the only list that meets the description. */
  lemma FirstOccurrencesUnique(ds: seq<Diagnosis>, kept1: seq<Diagnosis>, picked1: seq<int>,
                               kept2: seq<Diagnosis>, picked2: seq<int>)
    requires FirstOccurrences(ds, kept1, picked1) && FirstOccurrences(ds, kept2, picked2)
    ensures kept1 == kept2
  {
    forall x
      ensures x in picked1 <==> x in picked2
    {
      if x in picked1 {
        var j :| 0 <= j < |picked1| && picked1[j] == x;
        assert IsFirst(ds, x);
      }
      if x in picked2 {
        var j :| 0 <= j < |picked2| && picked2[j] == x;
        assert IsFirst(ds, x);
      }
    }
    IncreasingUnique(picked1, picked2);
  }

  lemma FailedDiagnosesStep(results: seq<RequestResult>, i: nat)
    requires i < |results|
    ensures FailedDiagnoses(results[..i + 1]) ==
      FailedDiagnoses(results[..i]) + (if results[i].success then [] else [Diagnose(results[i])])
  {
    assert results[..i + 1][..i] == results[..i];
  }

  /** `d` is the diagnosis of some failed result. */
  ghost predicate FromFailure(results: seq<RequestResult>, d: Diagnosis) {
    exists k :: 0 <= k < |results| && !results[k].success && d == Diagnose(results[k])
  }

  /** The position of a failed result whose diagnosis is `d`. */
  lemma {:induction false} FailureIndexOf(results: seq<RequestResult>, d: Diagnosis) returns (k: int)
    requires d in FailedDiagnoses(results)
    ensures 0 <= k < |results| && !results[k].success && d == Diagnose(results[k])
  {
    var front := results[..|results| - 1];
    if d in FailedDiagnoses(front) {
      k := FailureIndexOf(front, d);
      assert results[k] == front[k];
    } else {
      k := |results| - 1;
    }
  }

  /** Every failed diagnosis comes from a failed result. */
  lemma FailedDiagnosesFromFailures(results: seq<RequestResult>)
    ensures forall d :: d in FailedDiagnoses(results) ==> FromFailure(results, d)
  {
    forall d | d in FailedDiagnoses(results)
      ensures FromFailure(results, d)
    {
      var k := FailureIndexOf(results, d);
    }
  }

  /** The failed-diagnosis list of the HTML report: for each failed result
      in order, its diagnosis unless one with the same issue is already in
      the list. */
  method FailedDiagnosesByIssue(results: seq<RequestResult>) returns (kept: seq<Diagnosis>)
    ensures forall i, j :: 0 <= i < j < |kept| ==> kept[i].issue != kept[j].issue
    ensures forall j :: 0 <= j < |kept| ==> FromFailure(results, kept[j])
    ensures Covers(FailedDiagnoses(results), kept)
    ensures exists picked :: FirstOccurrences(FailedDiagnoses(results), kept, picked)
  {
    kept := [];
    ghost var seen: seq<Diagnosis> := [];
    ghost var picked: seq<int> := [];
    var i := 0;
    while i < |results|
      invariant 0 <= i <= |results|
      invariant seen == FailedDiagnoses(results[..i])
      invariant FirstOccurrences(seen, kept, picked) && Covers(seen, kept)
    {
      FailedDiagnosesStep(results, i);
      if !results[i].success {
        var d := Diagnose(results[i]);
        if !AnyIssue(kept, d.issue) {
          DedupKeep(seen, kept, picked, d);
          kept := kept + [d];
          picked := picked + [|seen|];
        } else {
          DedupSkip(seen, kept, picked, d);
        }
        seen := seen + [d];
      }
      i := i + 1;
    }
    assert results[..|results|] == results;
    KeptFromFailures(results, kept, picked);
  }

  /** The first-occurrence list of the failed diagnoses repeats no issue and
      holds only diagnoses of failed results. */
  lemma KeptFromFailures(results: seq<RequestResult>, kept: seq<Diagnosis>, picked: seq<int>)
    requires FirstOccurrences(FailedDiagnoses(results), kept, picked)
    ensures forall i, j :: 0 <= i < j < |kept| ==> kept[i].issue != kept[j].issue
    ensures forall j :: 0 <= j < |kept| ==> FromFailure(results, kept[j])
  {
    FirstOccurrencesDistinct(FailedDiagnoses(results), kept, picked);
    FirstOccurrencesIn(FailedDiagnoses(results), kept, picked);
    DrawnFromFailures(results, kept);
  }

  /** A list drawn from the failed diagnoses holds only diagnoses of failed
      results. */
  lemma DrawnFromFailures(results: seq<RequestResult>, kept: seq<Diagnosis>)
    requires forall j :: 0 <= j < |kept| ==> kept[j] in FailedDiagnoses(results)
    ensures forall j :: 0 <= j < |kept| ==> FromFailure(results, kept[j])
  {
    forall j | 0 <= j < |kept|
      ensures FromFailure(results, kept[j])
    {
      var k := FailureIndexOf(results, kept[j]);
    }
  }

  /** Every first occurrence is an element of the list it was taken from. */
  lemma FirstOccurrencesIn(ds: seq<Diagnosis>, kept: seq<Diagnosis>, picked: seq<int>)
    requires FirstOccurrences(ds, kept, picked)
    ensures forall j :: 0 <= j < |kept| ==> kept[j] in ds
  {
    forall j | 0 <= j < |kept|
      ensures kept[j] in ds
    {
      assert ds[picked[j]] == kept[j];
    }
  }

  /* ---------- JSON records ---------- */

  /** The `diagnosis` object of a JSON record, with enum values as the
      strings the report writes. */
  datatype DiagnosisRecord = DiagnosisRecord(issue: string, cause: string, suggestion: string, severity: string, category: string)

  /** One entry of the JSON report's `results` list (response time and
      timestamp are not modelled); the diagnosis is written as its strings. */
  datatype ResultRecord = ResultRecord(
    success: bool,
    statusCode: Option<int>,
    httpMethod: string,
    url: string,
    responseSize: nat,
    retryCount: nat,
    error: Option<string>,
    errorType: Option<string>,
    diagnosis: DiagnosisRecord,
    responseBody: Option<string>,
    responseHeaders: map<string, string>)

  function RecordOf(r: RequestResult): (rec: ResultRecord)
    ensures rec.success == r.success && rec.statusCode == r.statusCode
    ensures rec.httpMethod == r.requestMethod && rec.url == r.requestUrl
    ensures rec.error == r.error && rec.errorType == r.errorType
    ensures rec.retryCount == r.retryCount && rec.responseSize == r.responseSize
    ensures rec.responseBody == r.responseBody && rec.responseHeaders == r.responseHeaders
    ensures rec.diagnosis.category == CategoryName(CategoryOf(r))
    ensures rec.diagnosis.issue == Diagnose(r).issue
    ensures rec.diagnosis.cause == CauseText(Diagnose(r).cause)
    ensures rec.diagnosis.suggestion == RemedyText(Diagnose(r).suggestion)
    ensures rec.diagnosis.severity == SeverityName(Diagnose(r).severity)
  {
    var d := Diagnose(r);
    ResultRecord(r.success, r.statusCode, r.requestMethod, r.requestUrl, r.responseSize, r.retryCount,
                 r.error, r.errorType,
                 DiagnosisRecord(d.issue, CauseText(d.cause), RemedyText(d.suggestion), SeverityName(d.severity), CategoryName(d.category)),
                 r.responseBody, r.responseHeaders)
  }

  /** One record per result, in input order; successes get a diagnosis too. */
  function JsonRecords(results: seq<RequestResult>): (recs: seq<ResultRecord>)
    ensures |recs| == |results|
    ensures forall i :: 0 <= i < |results| ==> recs[i] == RecordOf(results[i])
  {
    seq(|results|, i requires 0 <= i < |results| => RecordOf(results[i]))
  }

  /** A record says "success" as its category exactly when it records a
      success. */
  lemma RecordCategoryAgrees(r: RequestResult)
    ensures RecordOf(r).diagnosis.category == "success" <==> RecordOf(r).success
  {
    NamesDistinct(Low, Low, CategoryOf(r), Success);
  }

  /** Records whose diagnosis category is "success". */
  function SuccessRecords(recs: seq<ResultRecord>): nat {
    if |recs| == 0 then 0
    else SuccessRecords(recs[..|recs| - 1]) + (if recs[|recs| - 1].diagnosis.category == "success" then 1 else 0)
  }

  /** The JSON records and the summary agree on how many requests failed. */
  lemma {:induction false} JsonAgreesWithSummary(results: seq<RequestResult>)
    ensures SuccessRecords(JsonRecords(results)) + CountFailed(results) == |results|
  {
    if |results| > 0 {
      var n := |results| - 1;
      JsonAgreesWithSummary(results[..n]);
      assert JsonRecords(results)[..n] == JsonRecords(results[..n]);
      RecordCategoryAgrees(results[n]);
    }
  }

  /* ---------- The summary is determined ---------- */

  /** The index of the first failure that falls in `category`. */
  ghost function FirstFailure(results: seq<RequestResult>, category: Category): (m: nat)
    requires SomeFailureIn(results, category)
    ensures m < |results| && !results[m].success && CategoryOf(results[m]) == category
    ensures forall p :: 0 <= p < m ==> results[p].success || CategoryOf(results[p]) != category
    decreases |results|
  {
    var init := results[..|results| - 1];
    if SomeFailureIn(init, category) then
      var m := FirstFailure(init, category);
      assert forall p :: 0 <= p < m ==> init[p] == results[p];
      m
    else
      var i :| 0 <= i < |results| && !results[i].success && CategoryOf(results[i]) == category;
      assert forall p :: 0 <= p < |results| - 1 ==> init[p] == results[p];
      |results| - 1
  }

  /** Keys in first-failure order have strictly increasing first failures. */
  lemma {:induction false} KeysByFirstFailure(results: seq<RequestResult>, c: Counts) returns (f: seq<int>)
    requires forall i :: 0 <= i < |c| ==> SomeFailureIn(results, c[i].0)
    requires FirstSeenOrder(results, c)
    ensures |f| == |c|
    ensures forall i :: 0 <= i < |c| ==> f[i] == FirstFailure(results, c[i].0)
    ensures forall i, j :: 0 <= i < j < |f| ==> f[i] < f[j]
  {
    f := seq(|c|, i requires 0 <= i < |c| => FirstFailure(results, c[i].0));
    forall i, j | 0 <= i < j < |f|
      ensures f[i] < f[j]
    {
      var m := FirstFailure(results, c[j].0);
      assert SomeFailureIn(results[..m], c[i].0);
      var p :| 0 <= p < m && !results[..m][p].success && CategoryOf(results[..m][p]) == c[i].0;
      assert results[..m][p] == results[p];
    }
  }

  /** Two count lists that both hold, in first-failure order, exactly the
      categories that failed are the same list. */
  lemma {:induction false} CountsDetermined(results: seq<RequestResult>, a: Counts, b: Counts)
    requires forall c :: HasKey(a, c) <==> SomeFailureIn(results, c)
    requires forall c :: HasKey(b, c) <==> SomeFailureIn(results, c)
    requires FirstSeenOrder(results, a) && FirstSeenOrder(results, b)
    requires forall i :: 0 <= i < |a| ==> a[i].1 == CountCategory(results, a[i].0)
    requires forall i :: 0 <= i < |b| ==> b[i].1 == CountCategory(results, b[i].0)
    ensures a == b
  {
    forall i | 0 <= i < |a|
      ensures SomeFailureIn(results, a[i].0)
    {
      assert HasKey(a, a[i].0);
    }
    forall i | 0 <= i < |b|
      ensures SomeFailureIn(results, b[i].0)
    {
      assert HasKey(b, b[i].0);
    }
    var fa := KeysByFirstFailure(results, a);
    var fb := KeysByFirstFailure(results, b);
    forall x
      ensures x in fa <==> x in fb
    {
      if x in fa {
        var i :| 0 <= i < |fa| && fa[i] == x;
        assert HasKey(b, a[i].0);
        var j :| 0 <= j < |b| && b[j].0 == a[i].0;
        assert fb[j] == x;
      }
      if x in fb {
        var j :| 0 <= j < |fb| && fb[j] == x;
        assert HasKey(a, b[j].0);
        var i :| 0 <= i < |a| && a[i].0 == b[j].0;
        assert fa[i] == x;
      }
    }
    IncreasingUnique(fa, fb);
    forall i | 0 <= i < |a|
      ensures a[i] == b[i]
    {
      assert fa[i] == fb[i];
    }
  }

  /** `get_summary` has one possible result: a summary of the same results
      agrees with it in every field, `error_counts` order included. */
  lemma {:induction false} SummaryDetermined(results: seq<RequestResult>, s: Summary, t: Summary)
    requires IsSummaryOf(results, s) && IsSummaryOf(results, t)
    ensures s == t
  {
    CountsDetermined(results, s.errorCounts, t.errorCounts);
  }

  /* ---------- Format dispatch ---------- */

  /** A generated report, represented by the data it is rendered from. */
  datatype Report =
    | HtmlReport(summary: Summary, failedDiagnoses: seq<Diagnosis>)
    | JsonReport(summary: Summary, records: seq<ResultRecord>)

  /** `generate`: one summary, then the HTML report if the format is "html"
      or "both", then the JSON report if it is "json" or "both". */
  method Generate(results: seq<RequestResult>, format: string) returns (files: map<string, Report>)
    ensures "html" in files <==> format == "html" || format == "both"
    ensures "json" in files <==> format == "json" || format == "both"
    ensures forall k :: k in files ==> k == "html" || k == "json"
    ensures format != "html" && format != "json" && format != "both" ==> files == map[]
    ensures "html" in files ==>
      && files["html"].HtmlReport?
      && exists picked :: FirstOccurrences(FailedDiagnoses(results), files["html"].failedDiagnoses, picked)
    ensures "json" in files ==> files["json"].JsonReport? && files["json"].records == JsonRecords(results)
    ensures forall k :: k in files ==> IsSummaryOf(results, files[k].summary)
  {
    var summary := GetSummary(results);
    files := map[];
    if format == "html" || format == "both" {
      var kept := FailedDiagnosesByIssue(results);
      files := files["html" := HtmlReport(summary, kept)];
    }
    if format == "json" || format == "both" {
      files := files["json" := JsonReport(summary, JsonRecords(results))];
    }
  }
}
