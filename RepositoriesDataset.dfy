/**
  The end of the repository pipeline: the choice among the repositories'
  selections (newest author date first, ties kept in repository order),
  the platform check, and the test rows and per-platform summary of the
  picked commit.
 */
module RepositoriesDataset {
  import opened Common
  import opened Platforms
  import opened Reports
  import opened RepoList
  import opened CommitWindow
  import opened RepositoryScan

  datatype PipelineError =
    | WindowFailed(window: WindowError)
      /** `No usable build artifacts found across repositories (<keys>) within <days> days`. */
    | NoUsableArtifacts(repositories: seq<string>, maxCommitAgeDays: int)
      /** `Missing gtest reports for: <platforms>`. */
    | MissingReports(platforms: seq<Platform>)

  /** `Date.parse` of the selected commit's author date. */
  function DateOf(s: SuccessfulSelection): Option<int>
  {
    s.selectedData.commit.time
  }

  /** The comparator puts `a` before `b`: both dates parse and `a`'s is later. */
  predicate Newer(a: SuccessfulSelection, b: SuccessfulSelection)
  {
    DateOf(a).Some? && DateOf(b).Some? && DateOf(a).value > DateOf(b).value
  }

  /** `x` placed after the leading entries of `t` that are newer than it. */
  function Insert(x: SuccessfulSelection, t: seq<SuccessfulSelection>): (r: seq<SuccessfulSelection>)
    ensures |r| == |t| + 1
    ensures multiset(r) == multiset(t) + multiset{x}
  {
    if t == [] then [x]
    else if Newer(t[0], x) then
      assert t == [t[0]] + t[1..];
      [t[0]] + Insert(x, t[1..])
    else [x] + t
  }

  /**
    The sort by author date, newest first, as a stable insertion sort:
    an entry moves behind another only when that one is newer.
   */
  function SortByDate(s: seq<SuccessfulSelection>): (r: seq<SuccessfulSelection>)
    ensures |r| == |s|
    ensures multiset(r) == multiset(s)
  {
    if s == [] then []
    else
      assert s == [s[0]] + s[1..];
      Insert(s[0], SortByDate(s[1..]))
  }

  predicate AllDated(s: seq<SuccessfulSelection>)
  {
    forall k :: 0 <= k < |s| ==> DateOf(s[k]).Some?
  }

  /** No entry is newer than one placed before it. */
  predicate NewestFirst(s: seq<SuccessfulSelection>)
  {
    forall i, j :: 0 <= i < j < |s| ==> !Newer(s[j], s[i])
  }

  lemma {:induction false} InsertNewestFirst(x: SuccessfulSelection, t: seq<SuccessfulSelection>)
    requires DateOf(x).Some? && AllDated(t) && NewestFirst(t)
    ensures NewestFirst(Insert(x, t))
  {
    if t != [] && Newer(t[0], x) {
      var rest := t[1..];
      assert AllDated(rest) && NewestFirst(rest);
      InsertNewestFirst(x, rest);
      var r := Insert(x, t);
      assert r == [t[0]] + Insert(x, rest);
      forall j | 1 <= j < |r| ensures !Newer(r[j], r[0]) {
        assert r[j] in multiset(Insert(x, rest));
        assert r[j] in multiset(rest) || r[j] == x;
        if r[j] in rest {
          var k :| 0 <= k < |rest| && rest[k] == r[j];
          assert t[k + 1] == r[j];
        }
      }
    }
  }

  /** When every date parses, the sort leaves no entry behind a newer one. */
  lemma {:induction false} SortByDateNewestFirst(s: seq<SuccessfulSelection>)
    requires AllDated(s)
    ensures NewestFirst(SortByDate(s))
  {
    if s != [] {
      var rest := s[1..];
      assert AllDated(rest);
      SortByDateNewestFirst(rest);
      var sorted := SortByDate(rest);
      forall k | 0 <= k < |sorted| ensures DateOf(sorted[k]).Some? {
        assert sorted[k] in multiset(rest);
        var j :| 0 <= j < |rest| && rest[j] == sorted[k];
      }
      InsertNewestFirst(s[0], sorted);
    }
  }

  /**
    `x` sits at index `k` of `s` with the latest date of all entries, and
    every entry before it is strictly older.
   */
  predicate LatestFirstAt(s: seq<SuccessfulSelection>, x: SuccessfulSelection, k: int)
  {
    && 0 <= k < |s| && s[k] == x && DateOf(x).Some?
    && (forall j :: 0 <= j < |s| ==> DateOf(s[j]).Some? && DateOf(s[j]).value <= DateOf(x).value)
    && (forall j :: 0 <= j < k ==> DateOf(s[j]).value < DateOf(x).value)
  }

  lemma LatestFirstCons(s: seq<SuccessfulSelection>, next: SuccessfulSelection, k: int)
    requires |s| > 0 && LatestFirstAt(s[1..], next, k) && DateOf(s[0]).Some?
    ensures Newer(next, s[0]) ==> LatestFirstAt(s, next, k + 1)
    ensures !Newer(next, s[0]) ==> LatestFirstAt(s, s[0], 0)
  {
    assert forall j :: 1 <= j < |s| ==> s[j] == s[1..][j - 1];
  }

  /**
    When every date parses, the first entry after the sort has the latest
    date, and it is the earliest-listed entry with that date.
   */
  lemma {:induction false} SortByDateHead(s: seq<SuccessfulSelection>)
    requires s != [] && AllDated(s)
    ensures exists k :: LatestFirstAt(s, SortByDate(s)[0], k)
  {
    if |s| == 1 {
      assert LatestFirstAt(s, SortByDate(s)[0], 0);
    } else {
      var rest := s[1..];
      assert AllDated(rest) by {
        assert forall j :: 0 <= j < |rest| ==> rest[j] == s[j + 1];
      }
      SortByDateHead(rest);
      var next := SortByDate(rest)[0];
      var k :| LatestFirstAt(rest, next, k);
      assert DateOf(s[0]).Some?;
      LatestFirstCons(s, next, k);
      SortByDateFirst(s);
      var head := SortByDate(s)[0];
      if Newer(next, s[0]) {
        assert head == next;
        assert LatestFirstAt(s, head, k + 1);
      } else {
        assert head == s[0];
        assert LatestFirstAt(s, head, 0);
      }
    }
  }

  /** The head after sorting a longer list: the rest's head if it is newer, else the first entry. */
  lemma SortByDateFirst(s: seq<SuccessfulSelection>)
    requires |s| > 1
    ensures var next := SortByDate(s[1..])[0];
      SortByDate(s)[0] == if Newer(next, s[0]) then next else s[0]
  {
    var sorted := SortByDate(s[1..]);
    assert SortByDate(s) == Insert(s[0], sorted);
  }

  /** The sorted entries are the entries: the first one is one of them. */
  lemma SortByDateHeadIsEntry(s: seq<SuccessfulSelection>)
    requires s != []
    ensures SortByDate(s)[0] in s
  {
    assert SortByDate(s)[0] in multiset(SortByDate(s));
  }

  /** One entry of the final summary: the platform's rows counted, failures counted, times summed. */
  function FinalEntry(m: map<Platform, Document>, tests: seq<Row>, p: Platform): PlatformSummary
    requires p in m
  {
    SummarizeRows(p, Filter(tests, IsOn(p)), m[p].timestamp)
  }

  /** The final summary: one entry per platform, Linux, Windows, macOS. */
  function FinalSummary(m: map<Platform, Document>, tests: seq<Row>): (r: seq<PlatformSummary>)
    requires HasAllPlatforms(m)
    ensures |r| == |RequiredPlatforms|
  {
    seq(|RequiredPlatforms|, k requires 0 <= k < |RequiredPlatforms| => FinalEntry(m, tests, RequiredPlatforms[k]))
  }

  /** What the pipeline writes about the picked commit. */
  datatype Dataset = Dataset(
    picked: SuccessfulSelection,
    baseCommitSha: Option<string>,
    repositories: seq<string>,
    scannedRepositories: seq<RepositoryScanRecord>,
    raw: map<Platform, Document>,
    tests: seq<Row>,
    summary: seq<PlatformSummary>)

  /** The output for one set of selections, or the missing-reports error. */
  function Output(totals: ScanTotals, targets: seq<RepoTarget>, baseBy: map<string, string>): Result<Dataset, PipelineError>
    requires totals.selections != []
  {
    var picked := SortByDate(totals.selections)[0];
    var m := picked.selectedData.actionData.reportsByPlatform;
    var missing := MissingPlatforms(m);
    if missing != [] then Err(MissingReports(missing))
    else
      var tests := FlatRows(m, RequiredPlatforms, ExtractPerformanceRows);
      Ok(Dataset(picked, BaseOf(baseBy, picked.repository.key), Keys(targets), totals.scans, m, tests,
                 FinalSummary(m, tests)))
  }

  /**
    The whole repository pipeline: scan every repository, fail when none
    has a usable commit, pick the newest selection, and summarize its
    reports.
   */
  function DatasetOf(h: Hosting, targets: seq<RepoTarget>, baseBy: map<string, string>, now: int, days: int)
    : Result<Dataset, PipelineError>
  {
    match ScanAll(h, targets, baseBy, now, days)
    case Err(e) => Err(WindowFailed(e))
    case Ok(totals) =>
      if totals.selections == [] then Err(NoUsableArtifacts(Keys(targets), days))
      else Output(totals, targets, baseBy)
  }

  /** The top level of the repository pipeline. */
  method BuildDataset(h: Hosting, targets: seq<RepoTarget>, baseBy: map<string, string>, now: int, days: int)
    returns (r: Result<Dataset, PipelineError>)
    ensures r == DatasetOf(h, targets, baseBy, now, days)
  {
    var scanned := ScanRepositories(h, targets, baseBy, now, days);
    if scanned.Err? {
      return Err(WindowFailed(scanned.error));
    }
    var successfulSelections := scanned.value.selections;
    if |successfulSelections| == 0 {
      return Err(NoUsableArtifacts(Keys(targets), days));
    }
    successfulSelections := SortByDate(successfulSelections);
    var picked := successfulSelections[0];
    var reportsByPlatform := picked.selectedData.actionData.reportsByPlatform;
    var missing := MissingPlatforms(reportsByPlatform);
    if |missing| > 0 {
      return Err(MissingReports(missing));
    }
    var tests := FlatRows(reportsByPlatform, RequiredPlatforms, ExtractPerformanceRows);
    var summary := FinalSummary(reportsByPlatform, tests);
    return Ok(Dataset(picked, BaseOf(baseBy, picked.repository.key), Keys(targets), scanned.value.scans,
                      reportsByPlatform, tests, summary));
  }

  /**
    The pipeline's errors: a window error exactly when some repository's
    window fails, the no-usable-artifacts error naming every repository
    exactly when the scan completes without a selection, and never the
    missing-reports error, since every selection has all three platforms.
   */
  lemma DatasetErrors(h: Hosting, targets: seq<RepoTarget>, baseBy: map<string, string>, now: int, days: int)
    ensures var r := DatasetOf(h, targets, baseBy, now, days);
      var scan := ScanAll(h, targets, baseBy, now, days);
      && (r.Err? && r.error.WindowFailed? <==> scan.Err?)
      && (r == Err(NoUsableArtifacts(Keys(targets), days)) <==> scan.Ok? && scan.value.selections == [])
      && !(r.Err? && r.error.MissingReports?)
  {
    var scan := ScanAll(h, targets, baseBy, now, days);
    ScanAllSpec(h, targets, baseBy, now, days);
    if scan.Ok? && scan.value.selections != [] {
      SortByDateHeadIsEntry(scan.value.selections);
    }
  }

  /**
    The picked selection is one of the repositories' selections, with
    reports for all three platforms; when every selected commit's date
    parses, it has the latest date and comes from the earliest-listed
    repository among those with that date.
   */
  lemma DatasetPick(h: Hosting, targets: seq<RepoTarget>, baseBy: map<string, string>, now: int, days: int)
    ensures var r := DatasetOf(h, targets, baseBy, now, days);
      r.Ok? ==>
        var sel := ScanAll(h, targets, baseBy, now, days).value.selections;
        && r.value.picked in sel
        && r.value.picked.repository in targets
        && HasAllPlatforms(r.value.raw)
        && r.value.raw == r.value.picked.selectedData.actionData.reportsByPlatform
        && (exists k :: LatestFirstAt(sel, r.value.picked, k))
        && (exists i :: PickedAmong(Outcomes(h, targets, baseBy, now, days), r.value.picked, i))
  {
    var r := DatasetOf(h, targets, baseBy, now, days);
    if r.Ok? {
      var totals := ScanAll(h, targets, baseBy, now, days).value;
      ScanAllSpec(h, targets, baseBy, now, days);
      SelectionsAreDated(h, targets, baseBy, now, days);
      OutputPick(totals, targets, baseBy);
      var k :| LatestFirstAt(totals.selections, r.value.picked, k);
      NewestAmongOutcomes(Outcomes(h, targets, baseBy, now, days), r.value.picked, k);
    }
  }

  /** A repository's selection is one of its windowed commits, so its author date parsed. */
  lemma SelectionDated(h: Hosting, target: RepoTarget, baseBy: map<string, string>, now: int, days: int)
    requires RepositoryResult(h, target, baseBy, now, days).Ok?
    requires RepositoryResult(h, target, baseBy, now, days).value.selection.Some?
    ensures DateOf(RepositoryResult(h, target, baseBy, now, days).value.selection.value).Some?
  {
    RepositoryResultSpec(h, target, baseBy, now, days);
    CommitsInWindowSpec(target.key, h.commits(target.key), BaseOf(baseBy, target.key), now, days);
  }

  /**
    Every selection of a completed scan has a parsed author date, so the
    sort's comparator never meets an unparseable date here.
   */
  lemma SelectionsAreDated(h: Hosting, targets: seq<RepoTarget>, baseBy: map<string, string>, now: int, days: int)
    requires ScanAll(h, targets, baseBy, now, days).Ok?
    ensures AllDated(ScanAll(h, targets, baseBy, now, days).value.selections)
  {
    var outcomes := Outcomes(h, targets, baseBy, now, days);
    var sel := Collect(outcomes).value.selections;
    CollectSelections(outcomes);
    forall j | 0 <= j < |sel|
      ensures DateOf(sel[j]).Some?
    {
      assert sel[j] in sel;
      var k :| 0 <= k < |outcomes| && outcomes[k].Ok? && outcomes[k].value.selection == Some(sel[j]);
      SelectionDated(h, targets[k], baseBy, now, days);
    }
  }

  /**
    `x` is the selection of outcome `i`; every outcome's selection has a
    parsed date no later than `x`'s, and the selections of the outcomes
    before `i` are strictly older.
   */
  predicate PickedAmong(outcomes: seq<Result<RepositoryOutcome, WindowError>>, x: SuccessfulSelection, i: int)
  {
    && 0 <= i < |outcomes| && SelectionOf(outcomes[i]) == [x] && DateOf(x).Some?
    && (forall j :: 0 <= j < |outcomes| && SelectionOf(outcomes[j]) != [] ==>
          DateOf(SelectionOf(outcomes[j])[0]).Some? && DateOf(SelectionOf(outcomes[j])[0]).value <= DateOf(x).value)
    && (forall j :: 0 <= j < i && SelectionOf(outcomes[j]) != [] ==>
          DateOf(SelectionOf(outcomes[j])[0]).Some? && DateOf(SelectionOf(outcomes[j])[0]).value < DateOf(x).value)
  }

  /**
    The newest entry of the selections, the earliest among equals, is the
    newest selection over all outcomes, the earliest outcome among equals.
   */
  lemma NewestAmongOutcomes(outcomes: seq<Result<RepositoryOutcome, WindowError>>, x: SuccessfulSelection, k: int)
    requires LatestFirstAt(Selections(outcomes), x, k)
    ensures exists i :: PickedAmong(outcomes, x, i)
  {
    var s := Selections(outcomes);
    SelectionsPosition(outcomes, k);
    var i :| 0 <= i < |outcomes| && SelectionOf(outcomes[i]) == [s[k]] && Selections(outcomes[..i]) == s[..k];
    forall j | 0 <= j < |outcomes| && SelectionOf(outcomes[j]) != []
      ensures DateOf(SelectionOf(outcomes[j])[0]).Some? && DateOf(SelectionOf(outcomes[j])[0]).value <= DateOf(x).value
    {
      SelectionsComplete(outcomes, j);
      var m :| 0 <= m < |s| && s[m] == SelectionOf(outcomes[j])[0];
    }
    forall j | 0 <= j < i && SelectionOf(outcomes[j]) != []
      ensures DateOf(SelectionOf(outcomes[j])[0]).Some? && DateOf(SelectionOf(outcomes[j])[0]).value < DateOf(x).value
    {
      EarlierSelection(outcomes, i, j);
      var m :| 0 <= m < k && s[..k][m] == SelectionOf(outcomes[j])[0];
    }
    assert PickedAmong(outcomes, x, i);
  }

  /** The selection of an outcome before `i` is among the selections of the first `i` outcomes. */
  lemma EarlierSelection(outcomes: seq<Result<RepositoryOutcome, WindowError>>, i: int, j: int)
    requires 0 <= j < i <= |outcomes| && SelectionOf(outcomes[j]) != []
    ensures SelectionOf(outcomes[j])[0] in Selections(outcomes[..i])
  {
    assert outcomes[..i][j] == outcomes[j];
    SelectionsComplete(outcomes[..i], j);
  }

  /** The window of a repository succeeds and none of its commits has reports for all three platforms. */
  predicate NothingCovered(h: Hosting, target: RepoTarget, baseBy: map<string, string>, now: int, days: int)
  {
    var window := CommitsInWindow(target.key, h.commits(target.key), BaseOf(baseBy, target.key), now, days);
    window.Ok? && forall k :: 0 <= k < |window.value| ==> !IsCovered(h, target.key, window.value[k])
  }

  /**
    The "no usable artifacts" error comes exactly when every repository's
    window succeeds and no repository has a commit in it with reports for
    all three platforms.
   */
  lemma NoUsableArtifactsSpec(h: Hosting, targets: seq<RepoTarget>, baseBy: map<string, string>, now: int, days: int)
    ensures DatasetOf(h, targets, baseBy, now, days) == Err(NoUsableArtifacts(Keys(targets), days)) <==>
      forall k :: 0 <= k < |targets| ==> NothingCovered(h, targets[k], baseBy, now, days)
  {
    var outcomes := Outcomes(h, targets, baseBy, now, days);
    DatasetErrors(h, targets, baseBy, now, days);
    ScanAllSpec(h, targets, baseBy, now, days);
    SelectionsEmpty(outcomes);
    forall k | 0 <= k < |targets|
      ensures NothingCovered(h, targets[k], baseBy, now, days) <==> outcomes[k].Ok? && outcomes[k].value.selection.None?
    {
      RepositoryResultSpec(h, targets[k], baseBy, now, days);
    }
  }

  lemma OutputPick(totals: ScanTotals, targets: seq<RepoTarget>, baseBy: map<string, string>)
    requires totals.selections != [] && SelectionsCovered(totals.selections, targets)
    ensures var r := Output(totals, targets, baseBy);
      var sel := totals.selections;
      && r.Ok?
      && r.value.picked in sel
      && r.value.picked.repository in targets
      && HasAllPlatforms(r.value.raw)
      && r.value.raw == r.value.picked.selectedData.actionData.reportsByPlatform
      && (AllDated(sel) ==> exists k :: LatestFirstAt(sel, r.value.picked, k))
  {
    var sel := totals.selections;
    SortByDateHeadIsEntry(sel);
    if AllDated(sel) {
      SortByDateHead(sel);
    }
  }

  /**
    The final rows and summary: the rows are the performance rows of
    Linux, Windows and macOS in that order; the summary has one entry per
    platform in that order, agreeing with the per-commit performance
    summary of the platform's report on tests, failures, errors and total
    time, with no more failures than tests and no errors.
   */
  lemma FinalSummarySpec(m: map<Platform, Document>)
    requires HasAllPlatforms(m)
    ensures var tests := FlatRows(m, RequiredPlatforms, ExtractPerformanceRows);
      && tests == ExtractPerformanceRows(m[Linux], Linux) + ExtractPerformanceRows(m[Windows], Windows)
                  + ExtractPerformanceRows(m[MacOS], MacOS)
      && var summary := FinalSummary(m, tests);
      && |summary| == 3
      && forall k :: 0 <= k < 3 ==>
           var p := RequiredPlatforms[k];
           var expected := SummarizePlatform(p, m[p]);
           && summary[k].platform == p
           && summary[k].tests == expected.tests == |ExtractPerformanceRows(m[p], p)|
           && summary[k].failures == expected.failures <= summary[k].tests
           && summary[k].errors == expected.errors == 0
           && summary[k].totalMs == expected.totalMs
           && summary[k].timestamp == m[p].timestamp
  {
    var tests := FlatRows(m, RequiredPlatforms, ExtractPerformanceRows);
    FlatRowsOfAll(m, ExtractPerformanceRows);
    ExtractionsTagRows();
    forall k | 0 <= k < 3
      ensures Filter(tests, IsOn(RequiredPlatforms[k])) == ExtractPerformanceRows(m[RequiredPlatforms[k]], RequiredPlatforms[k])
    {
      FlatRowsOfPlatform(m, RequiredPlatforms, ExtractPerformanceRows, RequiredPlatforms[k]);
    }
  }

  /**
    The written dataset: a scan record for every repository, in order;
    the picked commit's performance rows, Linux then Windows then macOS;
    and one summary entry per platform in that order, agreeing with the
    per-commit performance summary of that platform's report.
   */
  lemma DatasetSummary(h: Hosting, targets: seq<RepoTarget>, baseBy: map<string, string>, now: int, days: int)
    ensures var r := DatasetOf(h, targets, baseBy, now, days);
      r.Ok? ==>
        var m := r.value.raw;
        && HasAllPlatforms(m)
        && |r.value.scannedRepositories| == |targets|
        && (forall k :: 0 <= k < |targets| ==>
              && RepositoryResult(h, targets[k], baseBy, now, days).Ok?
              && r.value.scannedRepositories[k] == RepositoryResult(h, targets[k], baseBy, now, days).value.scan)
        && r.value.tests == ExtractPerformanceRows(m[Linux], Linux) + ExtractPerformanceRows(m[Windows], Windows)
                            + ExtractPerformanceRows(m[MacOS], MacOS)
        && |r.value.summary| == 3
        && forall k :: 0 <= k < 3 ==>
             var p := RequiredPlatforms[k];
             var expected := SummarizePlatform(p, m[p]);
             && r.value.summary[k].platform == p
             && r.value.summary[k].tests == expected.tests
             && r.value.summary[k].failures == expected.failures <= r.value.summary[k].tests
             && r.value.summary[k].errors == 0
             && r.value.summary[k].totalMs == expected.totalMs
  {
    var scan := ScanAll(h, targets, baseBy, now, days);
    ScanAllSpec(h, targets, baseBy, now, days);
    if scan.Ok? && scan.value.selections != [] {
      OutputSummary(scan.value, targets, baseBy);
    }
  }

  /** The output built from a completed scan: its records, its platform map, rows and summary. */
  lemma OutputSummary(totals: ScanTotals, targets: seq<RepoTarget>, baseBy: map<string, string>)
    requires totals.selections != []
    ensures var r := Output(totals, targets, baseBy);
      r.Ok? ==>
        var m := r.value.raw;
        && HasAllPlatforms(m)
        && r.value.scannedRepositories == totals.scans
        && r.value.tests == ExtractPerformanceRows(m[Linux], Linux) + ExtractPerformanceRows(m[Windows], Windows)
                            + ExtractPerformanceRows(m[MacOS], MacOS)
        && |r.value.summary| == 3
        && forall k :: 0 <= k < 3 ==>
             var p := RequiredPlatforms[k];
             var expected := SummarizePlatform(p, m[p]);
             && r.value.summary[k].platform == p
             && r.value.summary[k].tests == expected.tests
             && r.value.summary[k].failures == expected.failures <= r.value.summary[k].tests
             && r.value.summary[k].errors == 0
             && r.value.summary[k].totalMs == expected.totalMs
  {
    var r := Output(totals, targets, baseBy);
    if r.Ok? {
      FinalSummarySpec(r.value.raw);
    }
  }
}
