/**
  GoogleTest JSON reports as the pipeline reads them: the shape check,
  the flattening of suites into test rows (all of them, or only the
  performance tests) and the per-platform summaries built from rows.
 */
module Reports {
  import opened Common
  import opened Strings
  import opened Durations
  import opened Platforms

  /** A JSON field as far as the pipeline tells values apart. */
  datatype Value = Missing | Null | Number(n: real) | Text(s: string) | Other

  /** One entry of a suite's `testsuite` array. */
  datatype TestCase = TestCase(name: Option<string>, time: Option<string>, result: Option<string>)

  /** One entry of `testsuites`; `cases` is None when `testsuite` is absent. */
  datatype Suite = Suite(name: Option<string>, cases: Option<seq<TestCase>>)

  /** A parsed report document; `testsuites` is None when that field is not an array. */
  datatype Document = Document(
    tests: Value,
    failures: Value,
    errors: Value,
    time: Option<string>,
    timestamp: Value,
    testsuites: Option<seq<Suite>>)

  /** `typeof parsed.tests === "number" && Array.isArray(parsed.testsuites)`. */
  predicate IsReportShape(d: Document)
  {
    d.tests.Number? && d.testsuites.Some?
  }

  datatype Row = Row(
    platform: Platform,
    suite: Option<string>,
    test: Option<string>,
    fullName: string,
    timeMs: real,
    status: string)

  /** How a template literal prints a possibly missing name. */
  function NameText(name: Option<string>): string
  {
    name.GetOr("undefined")
  }

  function SuitesOf(d: Document): seq<Suite> { d.testsuites.GetOr([]) }

  function CasesOf(s: Suite): seq<TestCase> { s.cases.GetOr([]) }

  /** The row that one test case of one suite becomes. */
  function RowOf(p: Platform, suite: Suite, t: TestCase): Row
  {
    Row(p, suite.name, t.name, NameText(suite.name) + "." + NameText(t.name),
        ParseTimeToMilliseconds(t.time), t.result.GetOr("UNKNOWN"))
  }

  function CaseRows(p: Platform, suite: Suite, cases: seq<TestCase>): (r: seq<Row>)
    ensures |r| == |cases|
  {
    if cases == [] then [] else [RowOf(p, suite, cases[0])] + CaseRows(p, suite, cases[1..])
  }

  /**
    `isPerformanceTest`: the suite or the test name, lower-cased, starts with
    "performance" or "testperformance"; a missing name counts as "".
   */
  predicate IsPerformanceTest(suiteName: Option<string>, testName: Option<string>)
  {
    var suite := ToLower(suiteName.GetOr(""));
    var test := ToLower(testName.GetOr(""));
    StartsWith(suite, "performance") || StartsWith(suite, "testperformance")
    || StartsWith(test, "performance") || StartsWith(test, "testperformance")
  }

  /** The filter `extractRows` applies to the tests of `suite`. */
  function PerformanceCase(suite: Suite): TestCase -> bool
  {
    (t: TestCase) => IsPerformanceTest(suite.name, t.name)
  }

  predicate IsPerformanceRow(r: Row) { IsPerformanceTest(r.suite, r.test) }

  function AllSuiteRows(p: Platform, suites: seq<Suite>): seq<Row>
  {
    if suites == [] then []
    else CaseRows(p, suites[0], CasesOf(suites[0])) + AllSuiteRows(p, suites[1..])
  }

  function PerformanceSuiteRows(p: Platform, suites: seq<Suite>): seq<Row>
  {
    if suites == [] then []
    else
      var s := suites[0];
      CaseRows(p, s, Filter(CasesOf(s), PerformanceCase(s)))
      + PerformanceSuiteRows(p, suites[1..])
  }

  /** `extractRows` without a filter: every test case of every suite. */
  function ExtractAllRows(d: Document, p: Platform): seq<Row>
  {
    AllSuiteRows(p, SuitesOf(d))
  }

  /** `extractRows` with the performance filter. */
  function ExtractPerformanceRows(d: Document, p: Platform): seq<Row>
  {
    PerformanceSuiteRows(p, SuitesOf(d))
  }

  /** The number of test cases in `suites`. */
  function CaseCount(suites: seq<Suite>): nat
  {
    if suites == [] then 0 else |CasesOf(suites[0])| + CaseCount(suites[1..])
  }

  lemma {:induction false} CaseRowsAt(p: Platform, suite: Suite, cases: seq<TestCase>, j: nat)
    requires j < |cases|
    ensures CaseRows(p, suite, cases)[j] == RowOf(p, suite, cases[j])
  {
    if j > 0 {
      CaseRowsAt(p, suite, cases[1..], j - 1);
    }
  }

  /**
    Unfiltered extraction yields one row per test case, suite by suite and
    test by test: the row of test `j` of suite `i` sits after the rows of
    all earlier suites, carries both names, joins them with ".", and says
    "UNKNOWN" when the test has no result.
   */
  lemma AllRowsLayout(p: Platform, suites: seq<Suite>, i: nat, j: nat)
    requires i < |suites| && j < |CasesOf(suites[i])|
    ensures |AllSuiteRows(p, suites)| == CaseCount(suites)
    ensures CaseCount(suites[..i]) + j < CaseCount(suites)
    ensures var row := AllSuiteRows(p, suites)[CaseCount(suites[..i]) + j];
      var t := CasesOf(suites[i])[j];
      && row.platform == p && row.suite == suites[i].name && row.test == t.name
      && row.fullName == NameText(suites[i].name) + "." + NameText(t.name)
      && row.timeMs == ParseTimeToMilliseconds(t.time)
      && (t.result.None? ==> row.status == "UNKNOWN")
      && (t.result.Some? ==> row.status == t.result.value)
  {
    RowCount(p, suites);
    AllRowsAt(p, suites, i, j);
  }

  /** The row of test `j` of suite `i` comes after the rows of all earlier suites. */
  lemma {:induction false} AllRowsAt(p: Platform, suites: seq<Suite>, i: nat, j: nat)
    requires i < |suites| && j < |CasesOf(suites[i])|
    requires |AllSuiteRows(p, suites)| == CaseCount(suites)
    ensures CaseCount(suites[..i]) + j < CaseCount(suites)
    ensures AllSuiteRows(p, suites)[CaseCount(suites[..i]) + j] == RowOf(p, suites[i], CasesOf(suites[i])[j])
  {
    var first := CaseRows(p, suites[0], CasesOf(suites[0]));
    if i == 0 {
      assert suites[..0] == [];
      CaseRowsAt(p, suites[0], CasesOf(suites[0]), j);
      assert AllSuiteRows(p, suites)[j] == first[j];
    } else {
      RowCount(p, suites[1..]);
      AllRowsAt(p, suites[1..], i - 1, j);
      CaseCountOfPrefix(suites, i);
      var k := CaseCount(suites[1..][..i - 1]) + j;
      assert AllSuiteRows(p, suites)[|first| + k] == AllSuiteRows(p, suites[1..])[k];
    }
  }

  /** A non-empty prefix counts the cases of its first suite and then those of the rest. */
  lemma CaseCountOfPrefix(suites: seq<Suite>, i: nat)
    requires 0 < i <= |suites|
    ensures CaseCount(suites[..i]) == |CasesOf(suites[0])| + CaseCount(suites[1..][..i - 1])
  {
    assert suites[..i][0] == suites[0];
    assert suites[..i][1..] == suites[1..][..i - 1];
  }

  lemma {:induction false} RowCount(p: Platform, suites: seq<Suite>)
    ensures |AllSuiteRows(p, suites)| == CaseCount(suites)
  {
    if suites != [] {
      RowCount(p, suites[1..]);
    }
  }

  lemma {:induction false} FilterCaseRows(p: Platform, suite: Suite, cases: seq<TestCase>)
    ensures Filter(CaseRows(p, suite, cases), IsPerformanceRow)
         == CaseRows(p, suite, Filter(cases, PerformanceCase(suite)))
  {
    if cases != [] {
      FilterCaseRows(p, suite, cases[1..]);
      var rows := CaseRows(p, suite, cases);
      assert rows[0] == RowOf(p, suite, cases[0]);
      assert rows[1..] == CaseRows(p, suite, cases[1..]);
      var kept := Filter(cases, PerformanceCase(suite));
      if IsPerformanceTest(suite.name, cases[0].name) {
        assert kept[0] == cases[0];
        assert kept[1..] == Filter(cases[1..], PerformanceCase(suite));
      } else {
        assert kept == Filter(cases[1..], PerformanceCase(suite));
      }
    }
  }

  /**
    The performance extraction is exactly the unfiltered extraction with
    the non-performance rows removed, order kept.
   */
  lemma {:induction false} PerformanceRowsAreFilteredRows(d: Document, p: Platform)
    ensures ExtractPerformanceRows(d, p) == Filter(ExtractAllRows(d, p), IsPerformanceRow)
    ensures IsSubseq(ExtractPerformanceRows(d, p), ExtractAllRows(d, p))
  {
    PerformanceSuitesFiltered(p, SuitesOf(d));
    FilterIsSubseq(ExtractAllRows(d, p), IsPerformanceRow);
  }

  lemma {:induction false} PerformanceSuitesFiltered(p: Platform, suites: seq<Suite>)
    ensures PerformanceSuiteRows(p, suites) == Filter(AllSuiteRows(p, suites), IsPerformanceRow)
  {
    if suites != [] {
      PerformanceSuitesFiltered(p, suites[1..]);
      FilterCaseRows(p, suites[0], CasesOf(suites[0]));
      FilterAppend(CaseRows(p, suites[0], CasesOf(suites[0])), AllSuiteRows(p, suites[1..]), IsPerformanceRow);
    }
  }

  /** Every row extracted for platform `p` is tagged with `p`. */
  lemma {:induction false} RowsCarryPlatform(p: Platform, suites: seq<Suite>)
    ensures forall r :: r in AllSuiteRows(p, suites) ==> r.platform == p
    ensures forall r :: r in PerformanceSuiteRows(p, suites) ==> r.platform == p
  {
    if suites != [] {
      RowsCarryPlatform(p, suites[1..]);
      CaseRowsCarryPlatform(p, suites[0], CasesOf(suites[0]));
      CaseRowsCarryPlatform(p, suites[0], Filter(CasesOf(suites[0]), PerformanceCase(suites[0])));
    }
  }

  lemma {:induction false} CaseRowsCarryPlatform(p: Platform, suite: Suite, cases: seq<TestCase>)
    ensures forall r :: r in CaseRows(p, suite, cases) ==> r.platform == p
  {
    if cases != [] {
      CaseRowsCarryPlatform(p, suite, cases[1..]);
    }
  }

  function IsOn(p: Platform): Row -> bool
  {
    (r: Row) => r.platform == p
  }

  /** `extract` tags every row it yields with the platform it was given. */
  ghost predicate TagsRows(extract: (Document, Platform) -> seq<Row>)
  {
    forall d, p, r :: r in extract(d, p) ==> r.platform == p
  }

  /** Both extractions tag their rows with the platform. */
  lemma ExtractionsTagRows()
    ensures TagsRows(ExtractAllRows) && TagsRows(ExtractPerformanceRows)
  {
    forall d, p ensures forall r :: r in ExtractAllRows(d, p) ==> r.platform == p
                ensures forall r :: r in ExtractPerformanceRows(d, p) ==> r.platform == p
    {
      RowsCarryPlatform(p, SuitesOf(d));
    }
  }

  /** `expectedPlatforms.flatMap((platform) => extractRows(reportsByPlatform.get(platform), platform))`. */
  function FlatRows(m: map<Platform, Document>, ps: seq<Platform>, extract: (Document, Platform) -> seq<Row>): seq<Row>
    requires forall p :: p in ps ==> p in m
  {
    if ps == [] then [] else extract(m[ps[0]], ps[0]) + FlatRows(m, ps[1..], extract)
  }

  /**
    Taking the rows of one platform out of the rows of several distinct
    platforms gives that platform's rows, or nothing for a platform not
    among them.
   */
  lemma {:induction false} FlatRowsOfPlatform(m: map<Platform, Document>, ps: seq<Platform>,
                                              extract: (Document, Platform) -> seq<Row>, p: Platform)
    requires forall q :: q in ps ==> q in m
    requires forall i, j :: 0 <= i < j < |ps| ==> ps[i] != ps[j]
    requires TagsRows(extract)
    ensures Filter(FlatRows(m, ps, extract), IsOn(p)) == if p in ps then extract(m[p], p) else []
  {
    if ps != [] {
      var q := ps[0];
      var head := extract(m[q], q);
      FlatRowsOfPlatform(m, ps[1..], extract, p);
      FilterAppend(head, FlatRows(m, ps[1..], extract), IsOn(p));
      assert forall k :: 0 <= k < |head| ==> head[k] in head;
      if q == p {
        FilterAll(head, IsOn(p));
        assert p !in ps[1..];
      } else {
        FilterNone(head, IsOn(p));
      }
    }
  }

  /** The rows of the three platforms, Linux, Windows and macOS in that order. */
  lemma FlatRowsOfAll(m: map<Platform, Document>, extract: (Document, Platform) -> seq<Row>)
    requires HasAllPlatforms(m)
    ensures FlatRows(m, RequiredPlatforms, extract)
         == extract(m[Linux], Linux) + extract(m[Windows], Windows) + extract(m[MacOS], MacOS)
  {
    assert RequiredPlatforms[1..] == [Windows, MacOS] && [Windows, MacOS][1..] == [MacOS] && [MacOS][1..] == [];
    assert FlatRows(m, [MacOS], extract) == extract(m[MacOS], MacOS);
  }

  /** The summed `timeMs` of `rows`. */
  function SumMs(rows: seq<Row>): real
  {
    if rows == [] then 0.0 else rows[0].timeMs + SumMs(rows[1..])
  }

  predicate IsFailure(r: Row) { r.status != "COMPLETED" }

  datatype PlatformSummary = PlatformSummary(
    platform: Platform,
    tests: nat,
    failures: nat,
    errors: nat,
    totalMs: real,
    timestamp: Value)

  /** The summary of one platform's rows: counts, failures, summed time; errors are always 0. */
  function SummarizeRows(p: Platform, rows: seq<Row>, timestamp: Value): (s: PlatformSummary)
    ensures s.platform == p && s.tests == |rows| && s.errors == 0
    ensures s.failures <= s.tests
    ensures s.failures == |Filter(rows, IsFailure)|
    ensures s.totalMs == SumMs(rows) && s.timestamp == timestamp
  {
    PlatformSummary(p, |rows|, Count(rows, IsFailure), 0, SumMs(rows), timestamp)
  }

  /** `report.timestamp ?? null`. */
  function NullIfMissing(v: Value): Value
  {
    if v.Missing? then Null else v
  }

  datatype PerformanceSummary = PerformanceSummary(
    platforms: seq<PlatformSummary>,
    meanTotalMs: real,
    maxTotalMs: real)

  function SumTotals(s: seq<PlatformSummary>): real
  {
    if s == [] then 0.0 else s[0].totalMs + SumTotals(s[1..])
  }

  function Totals(s: seq<PlatformSummary>): (t: seq<real>)
    ensures |t| == |s| && forall k :: 0 <= k < |s| ==> t[k] == s[k].totalMs
  {
    seq(|s|, k requires 0 <= k < |s| => s[k].totalMs)
  }

  /** `Math.max(...)` of the platforms' totals, 0 for none. */
  function MaxTotal(s: seq<PlatformSummary>): (m: real)
    ensures forall k :: 0 <= k < |s| ==> s[k].totalMs <= m
    ensures s != [] ==> m in Totals(s)
    ensures s == [] ==> m == 0.0
  {
    if s == [] then 0.0
    else if |s| == 1 then s[0].totalMs
    else
      var rest := MaxTotal(s[1..]);
      assert forall k :: 1 <= k < |s| ==> s[k].totalMs == s[1..][k - 1].totalMs;
      if s[0].totalMs >= rest then s[0].totalMs else rest
  }

  /** The platforms of `m` in the fixed order Linux, Windows, macOS. */
  function PresentPlatforms<T>(m: map<Platform, T>): (ps: seq<Platform>)
    ensures forall p :: p in ps <==> p in m
    ensures forall k :: 0 <= k < |ps| ==> ps[k] in m
    ensures IsSubseq(ps, RequiredPlatforms)
  {
    RequiredPlatformsComplete();
    FilterIsSubseq(RequiredPlatforms, p => p in m);
    Filter(RequiredPlatforms, p => p in m)
  }

  /** The performance summary of one platform's report. */
  function SummarizePlatform(p: Platform, d: Document): (s: PlatformSummary)
    ensures s.platform == p && s.tests == |ExtractPerformanceRows(d, p)|
    ensures s.failures <= s.tests && s.errors == 0
    ensures s.failures == |Filter(ExtractPerformanceRows(d, p), IsFailure)|
    ensures s.totalMs == SumMs(ExtractPerformanceRows(d, p))
    ensures s.timestamp == NullIfMissing(d.timestamp)
  {
    SummarizeRows(p, ExtractPerformanceRows(d, p), NullIfMissing(d.timestamp))
  }

  /**
    One performance summary per platform of `m`, in the fixed platform
    order: each counts that platform's performance rows and their
    failures, sums their times and keeps the report's timestamp.
   */
  function PlatformSummaries(m: map<Platform, Document>): (r: seq<PlatformSummary>)
    ensures var ps := PresentPlatforms(m);
      && |r| == |ps| <= 3
      && forall k :: 0 <= k < |ps| ==> r[k] == SummarizePlatform(ps[k], m[ps[k]])
  {
    var ps := PresentPlatforms(m);
    assert |ps| <= |RequiredPlatforms|;
    SummarizeEach(m, ps)
  }

  /** The summary of each platform of `ps`, in order. */
  function SummarizeEach(m: map<Platform, Document>, ps: seq<Platform>): (r: seq<PlatformSummary>)
    requires forall k :: 0 <= k < |ps| ==> ps[k] in m
    ensures |r| == |ps| && forall k :: 0 <= k < |ps| ==> r[k] == SummarizePlatform(ps[k], m[ps[k]])
  {
    seq(|ps|, k requires 0 <= k < |ps| => SummarizePlatform(ps[k], m[ps[k]]))
  }

  /** `x` added up `n` times. */
  function Times(n: nat, x: real): real
  {
    if n == 0 then 0.0 else x + Times(n - 1, x)
  }

  /** `Times` for the counts a platform list can have. */
  lemma TimesSmall(n: nat, x: real)
    requires n <= 3
    ensures n == 1 ==> Times(n, x) == x
    ensures n == 2 ==> Times(n, x) == x + x
    ensures n == 3 ==> Times(n, x) == x + x + x
  {
  }

  /** The totals add up to at most `bound` once per platform when each one is at most `bound`. */
  lemma {:induction false} SumTotalsBound(s: seq<PlatformSummary>, bound: real)
    requires forall k :: 0 <= k < |s| ==> s[k].totalMs <= bound
    ensures SumTotals(s) <= Times(|s|, bound)
  {
    if s != [] {
      SumTotalsBound(s[1..], bound);
      assert s[0].totalMs <= bound;
    }
  }

  /**
    The mean of the totals, 0 for none; it never exceeds the largest
    total.  A commit has at most three platforms, so the division by their
    number is spelled out case by case.
   */
  function MeanTotal(s: seq<PlatformSummary>): (mean: real)
    requires |s| <= 3
    ensures s == [] ==> mean == 0.0
    ensures s != [] ==> mean <= MaxTotal(s)
  {
    if s == [] then 0.0
    else
      SumTotalsBound(s, MaxTotal(s));
      TimesSmall(|s|, MaxTotal(s));
      if |s| == 1 then SumTotals(s)
      else if |s| == 2 then SumTotals(s) / 2.0
      else SumTotals(s) / 3.0
  }

  /** The mean, added once per platform, gives back the summed totals. */
  lemma MeanTotalTimesCount(s: seq<PlatformSummary>)
    requires |s| <= 3
    ensures Times(|s|, MeanTotal(s)) == SumTotals(s)
  {
    TimesSmall(|s|, MeanTotal(s));
  }

  /**
    The performance summary of a list of platform summaries: the list
    itself with the mean and the maximum of its totals; the maximum bounds
    every total and is one of them, and both are 0 for an empty list.
   */
  function SummarizeTotals(platforms: seq<PlatformSummary>): (r: PerformanceSummary)
    requires |platforms| <= 3
    ensures r.platforms == platforms
    ensures forall k :: 0 <= k < |platforms| ==> platforms[k].totalMs <= r.maxTotalMs
    ensures platforms != [] ==> r.maxTotalMs in Totals(platforms)
    ensures platforms == [] ==> r.meanTotalMs == 0.0 && r.maxTotalMs == 0.0
    ensures Times(|platforms|, r.meanTotalMs) == SumTotals(platforms)
    ensures r.meanTotalMs <= r.maxTotalMs
  {
    MeanTotalTimesCount(platforms);
    PerformanceSummary(platforms, MeanTotal(platforms), MaxTotal(platforms))
  }

  /**
    `summarizePerformanceByCommit`: the summaries of the platforms that
    have a report, in the fixed platform order, with their mean and
    maximum total.
   */
  function SummarizePerformanceByCommit(m: map<Platform, Document>): PerformanceSummary
  {
    SummarizeTotals(PlatformSummaries(m))
  }
}
