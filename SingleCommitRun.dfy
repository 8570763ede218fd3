/**
  The single-commit variant: one fixed commit of one repository, its
  first build-like run, that run's artifacts filed by platform as in the
  repository pipeline, the local snapshot reports when fetching fails,
  and a summary copied from the reports' own counters.

  The hosting service is an input: None when a request fails, otherwise
  the repository's history, the runs of the commit, and the artifacts of
  each run.
 */
module SingleCommitRun {
  import opened Common
  import opened Durations
  import opened Platforms
  import opened Reports
  import opened Artifacts
  import opened BuildRuns
  import opened CommitWindow

  /** The commit this variant reports on. */
  const CommitSha: string := "5e5e76cf451bccddaf1b38245b6085695b69f7fa"

  datatype RunHosting = RunHosting(commits: seq<Commit>, runs: seq<Run>, artifacts: int -> seq<Artifact>)

  datatype FetchError =
      /** `Commit not found: <sha>`. */
    | CommitNotFound(sha: string)
      /** `No GitHub Actions runs found for commit <sha>`. */
    | NoRuns(sha: string)
      /** `No artifacts found for build run <id>`. */
    | NoArtifacts(runId: int)

  /** What `fetchCommitAndActionsData` returns. */
  datatype GithubData = GithubData(
    reportsByPlatform: map<Platform, Document>,
    commit: Commit,
    runs: seq<Run>,
    selectedBuildRun: Run,
    artifacts: seq<ArtifactInfo>)

  function HasSha(sha: string): Commit -> bool
  {
    (c: Commit) => c.sha == sha
  }

  /**
    The commit with `sha` in the history, its first build-like run (else
    its first run), and that run's artifacts filed by platform; an error
    when the commit, its runs or the run's artifacts are missing.
   */
  function FetchData(h: RunHosting, sha: string): Result<GithubData, FetchError>
  {
    match Find(h.commits, HasSha(sha))
    case None => Err(CommitNotFound(sha))
    case Some(commit) =>
      if h.runs == [] then Err(NoRuns(sha))
      else
        var build := FirstBuildRun(h.runs);
        var artifacts := h.artifacts(build.id);
        if artifacts == [] then Err(NoArtifacts(build.id))
        else Ok(GithubData(PlatformMap(artifacts), commit, h.runs, build, Infos(artifacts)))
  }

  /** `fetchCommitAndActionsData`. */
  method FetchCommitAndActionsData(h: RunHosting, sha: string) returns (r: Result<GithubData, FetchError>)
    ensures r == FetchData(h, sha)
  {
    var matchedCommit := Find(h.commits, HasSha(sha));
    if matchedCommit.None? {
      return Err(CommitNotFound(sha));
    }
    var runs := h.runs;
    if |runs| == 0 {
      return Err(NoRuns(sha));
    }
    var buildRun := FirstBuildRun(runs);
    var artifacts := h.artifacts(buildRun.id);
    if |artifacts| == 0 {
      return Err(NoArtifacts(buildRun.id));
    }
    var reportsByPlatform, artifactSummaries := FoldArtifacts(artifacts);
    return Ok(GithubData(reportsByPlatform, matchedCommit.value, runs, buildRun, artifactSummaries));
  }

  /**
    The fetch's errors, checked in order: the commit is missing from the
    history; else the commit has no runs; else the chosen run has no
    artifacts.  Otherwise the data holds the first commit with the sha,
    all runs, the first build-like run, and the run's artifacts with the
    reports filed by platform.
   */
  lemma FetchDataSpec(h: RunHosting, sha: string)
    ensures var r := FetchData(h, sha);
      var found := exists k :: 0 <= k < |h.commits| && h.commits[k].sha == sha;
      && (r == Err(CommitNotFound(sha)) <==> !found)
      && (r == Err(NoRuns(sha)) <==> found && h.runs == [])
      && (r.Err? && r.error.NoArtifacts? <==> found && h.runs != [] && h.artifacts(FirstBuildRun(h.runs).id) == [])
      && (r.Err? && r.error.NoArtifacts? ==> r.error.runId == FirstBuildRun(h.runs).id)
      && (r.Ok? ==>
            var d := r.value;
            && d.commit.sha == sha
            && (exists k :: 0 <= k < |h.commits| && h.commits[k] == d.commit
                            && forall j :: 0 <= j < k ==> h.commits[j].sha != sha)
            && d.runs == h.runs
            && d.selectedBuildRun == FirstBuildRun(h.runs)
            && h.artifacts(d.selectedBuildRun.id) != []
            && d.artifacts == Infos(h.artifacts(d.selectedBuildRun.id))
            && d.reportsByPlatform == PlatformMap(h.artifacts(d.selectedBuildRun.id)))
  {
    var found := Find(h.commits, HasSha(sha));
    if found.Some? {
      var k :| 0 <= k < |h.commits| && h.commits[k] == found.value && HasSha(sha)(h.commits[k])
               && forall j :: 0 <= j < k ==> !HasSha(sha)(h.commits[j]);
      assert forall j :: 0 <= j < k ==> h.commits[j].sha != sha;
    } else {
      assert forall k :: 0 <= k < |h.commits| ==> !HasSha(sha)(h.commits[k]);
    }
  }

  /** `fetchCommitAndActionsData` when it returns; None when a request or one of its checks failed. */
  function Attempt(service: Option<RunHosting>): Option<GithubData>
  {
    if service.None? then None
    else
      match FetchData(service.value, CommitSha)
      case Ok(d) => Some(d)
      case Err(_) => None
  }

  datatype SourceMode = GithubArtifacts | LocalFallback

  /** The local snapshot reports of the three platforms. */
  datatype Snapshots = Snapshots(linux: Document, windows: Document, macos: Document)

  /** `fetchReportsFromLocalFiles`: the snapshots under their platforms. */
  function FallbackReports(s: Snapshots): (m: map<Platform, Document>)
    ensures HasAllPlatforms(m)
    ensures m[Linux] == s.linux && m[Windows] == s.windows && m[MacOS] == s.macos
  {
    map[Linux := s.linux, Windows := s.windows, MacOS := s.macos]
  }

  /** One entry of this variant's summary. */
  datatype RunSummary = RunSummary(
    platform: Platform,
    tests: Value,
    failures: Value,
    errors: Value,
    totalMs: real,
    timestamp: Value)

  function SummaryEntry(p: Platform, d: Document): RunSummary
  {
    RunSummary(p, d.tests, d.failures, d.errors, ParseTimeToMilliseconds(d.time), d.timestamp)
  }

  /** The summary: one entry per platform, Linux, Windows, macOS. */
  function RunSummaries(m: map<Platform, Document>): (r: seq<RunSummary>)
    requires HasAllPlatforms(m)
    ensures |r| == |RequiredPlatforms|
  {
    seq(|RequiredPlatforms|, k requires 0 <= k < |RequiredPlatforms| => SummaryEntry(RequiredPlatforms[k], m[RequiredPlatforms[k]]))
  }

  /** `Missing gtest reports for: <platforms>`. */
  datatype RunError = MissingReports(platforms: seq<Platform>)

  /** What this variant writes. */
  datatype RunDataset = RunDataset(
    mode: SourceMode,
    github: Option<GithubData>,
    summary: seq<RunSummary>,
    tests: seq<Row>,
    raw: map<Platform, Document>)

  /** The reports to summarize: the fetched ones, else the snapshots. */
  function ReportsOf(service: Option<RunHosting>, snapshots: Snapshots): map<Platform, Document>
  {
    match Attempt(service)
    case Some(d) => d.reportsByPlatform
    case None => FallbackReports(snapshots)
  }

  /** The whole variant: fetch or fall back, check the platforms, summarize. */
  function RunDatasetOf(service: Option<RunHosting>, snapshots: Snapshots): Result<RunDataset, RunError>
  {
    var m := ReportsOf(service, snapshots);
    var missing := MissingPlatforms(m);
    if missing != [] then Err(MissingReports(missing))
    else
      var mode := if Attempt(service).Some? then GithubArtifacts else LocalFallback;
      Ok(RunDataset(mode, Attempt(service), RunSummaries(m), FlatRows(m, RequiredPlatforms, ExtractAllRows), m))
  }

  /** The top level of the variant, with its try/catch around the fetch. */
  method BuildRunDataset(service: Option<RunHosting>, snapshots: Snapshots) returns (r: Result<RunDataset, RunError>)
    ensures r == RunDatasetOf(service, snapshots)
  {
    var reportsByPlatform: map<Platform, Document>;
    var sourceMode := GithubArtifacts;
    var githubData: Option<GithubData> := None;
    var fetched: Result<GithubData, FetchError> := Err(CommitNotFound(CommitSha));
    if service.Some? {
      fetched := FetchCommitAndActionsData(service.value, CommitSha);
    }
    if fetched.Ok? {
      githubData := Some(fetched.value);
      reportsByPlatform := fetched.value.reportsByPlatform;
    } else {
      reportsByPlatform := FallbackReports(snapshots);
      sourceMode := LocalFallback;
    }
    var missing := MissingPlatforms(reportsByPlatform);
    if |missing| > 0 {
      return Err(MissingReports(missing));
    }
    var summary := RunSummaries(reportsByPlatform);
    var tests := FlatRows(reportsByPlatform, RequiredPlatforms, ExtractAllRows);
    return Ok(RunDataset(sourceMode, githubData, summary, tests, reportsByPlatform));
  }

  /**
    The variant fails exactly when the fetch succeeded and left a
    platform without a report; the error lists exactly those platforms,
    in the order Linux, Windows, macOS.  A failed fetch falls back to the
    snapshots, which cover every platform.
   */
  lemma RunDatasetErrors(service: Option<RunHosting>, snapshots: Snapshots)
    ensures var r := RunDatasetOf(service, snapshots);
      var attempt := Attempt(service);
      && (r.Err? <==> attempt.Some? && !HasAllPlatforms(attempt.value.reportsByPlatform))
      && (r.Err? ==>
            && IsSubseq(r.error.platforms, RequiredPlatforms)
            && forall p: Platform :: p in r.error.platforms <==> p !in attempt.value.reportsByPlatform)
      && (r.Ok? ==> (r.value.mode == LocalFallback <==> attempt.None?)
                    && (attempt.None? ==> r.value.raw == FallbackReports(snapshots))
                    && (attempt.Some? ==> r.value.raw == attempt.value.reportsByPlatform))
  {
  }

  /**
    The summary and the rows: one summary entry per platform, Linux,
    Windows, macOS, copying the report's tests, failures, errors and
    timestamp and taking its total time from the report's `time`; and
    every test case of the three reports as a row, the platforms in that
    order, so that the rows of one platform are exactly its report's rows.
   */
  lemma RunDatasetSummary(service: Option<RunHosting>, snapshots: Snapshots)
    ensures var r := RunDatasetOf(service, snapshots);
      r.Ok? ==>
        var m := r.value.raw;
        && HasAllPlatforms(m)
        && |r.value.summary| == 3
        && (forall k :: 0 <= k < 3 ==>
              var p := RequiredPlatforms[k];
              && r.value.summary[k].platform == p
              && r.value.summary[k].tests == m[p].tests
              && r.value.summary[k].failures == m[p].failures
              && r.value.summary[k].errors == m[p].errors
              && r.value.summary[k].timestamp == m[p].timestamp
              && r.value.summary[k].totalMs == ParseTimeToMilliseconds(m[p].time)
              && Filter(r.value.tests, IsOn(p)) == ExtractAllRows(m[p], p))
        && r.value.tests == ExtractAllRows(m[Linux], Linux) + ExtractAllRows(m[Windows], Windows)
                            + ExtractAllRows(m[MacOS], MacOS)
  {
    var r := RunDatasetOf(service, snapshots);
    if r.Ok? {
      var m := r.value.raw;
      FlatRowsOfAll(m, ExtractAllRows);
      ExtractionsTagRows();
      forall k | 0 <= k < 3
        ensures Filter(r.value.tests, IsOn(RequiredPlatforms[k])) == ExtractAllRows(m[RequiredPlatforms[k]], RequiredPlatforms[k])
      {
        FlatRowsOfPlatform(m, RequiredPlatforms, ExtractAllRows, RequiredPlatforms[k]);
      }
    }
  }

  /**
    The two variants read the same reports alike: keeping only the
    performance tests of this variant's rows gives the repository
    pipeline's rows for the same reports.
   */
  lemma {:induction false} PerformanceRowsOfAllRows(m: map<Platform, Document>, ps: seq<Platform>)
    requires forall p :: p in ps ==> p in m
    ensures Filter(FlatRows(m, ps, ExtractAllRows), IsPerformanceRow) == FlatRows(m, ps, ExtractPerformanceRows)
  {
    if ps != [] {
      PerformanceRowsOfAllRows(m, ps[1..]);
      PerformanceRowsAreFilteredRows(m[ps[0]], ps[0]);
      FilterAppend(ExtractAllRows(m[ps[0]], ps[0]), FlatRows(m, ps[1..], ExtractAllRows), IsPerformanceRow);
    }
  }
}
