/**
  The scan of the repository pipeline: for one commit, the build run and
  its platform reports (`fetchActionsForCommit`); for one repository, the
  trail of every commit in the window and the first commit with reports
  for all three platforms; and the loop over all target repositories.

  The hosting service is an input: its answers are total functions from
  the request's parameters to the listing it would return.
 */
module RepositoryScan {
  import opened Common
  import opened Platforms
  import opened Reports
  import opened Artifacts
  import opened BuildRuns
  import opened RepoList
  import opened CommitWindow

  /** The listings the pipeline requests, keyed by their request parameters. */
  datatype Hosting = Hosting(
    commits: string -> seq<Commit>,
    runs: (string, string) -> seq<Run>,
    artifacts: (string, int) -> seq<Artifact>)

  /** What `fetchActionsForCommit` returns. */
  datatype ActionData = ActionData(
    runs: seq<Run>,
    selectedBuildRun: Option<Run>,
    artifacts: seq<ArtifactInfo>,
    reportsByPlatform: map<Platform, Document>)

  /**
    The action data of commit `sha` of repository `key`: nothing when the
    commit has no runs; otherwise the run `pickBuildRun` chooses, the
    summaries of its artifacts and the platform map their reports fold into.
   */
  function ActionsFor(h: Hosting, key: string, sha: string): ActionData
  {
    var runs := h.runs(key, sha);
    if runs == [] then ActionData([], None, [], map[])
    else
      var build := PickBuildRun(runs).value;
      var artifacts := h.artifacts(key, build.id);
      ActionData(runs, Some(build), Infos(artifacts), PlatformMap(artifacts))
  }

  /** `fetchActionsForCommit`. */
  method FetchActionsForCommit(h: Hosting, key: string, sha: string) returns (data: ActionData)
    ensures data == ActionsFor(h, key, sha)
  {
    var runs := h.runs(key, sha);
    if |runs| == 0 {
      return ActionData([], None, [], map[]);
    }
    var buildRun := PickBuildRun(runs);
    var artifacts := h.artifacts(key, buildRun.value.id);
    var reportsByPlatform, summaries := FoldArtifacts(artifacts);
    data := ActionData(runs, buildRun, summaries, reportsByPlatform);
  }

  /**
    What the action data of a commit holds: no run and no report when the
    commit has no runs; otherwise the chosen run is one of the commit's
    runs, and a platform has a report exactly when one of that run's
    reports is filed under it, the last one so filed.
   */
  lemma ActionsForSpec(h: Hosting, key: string, sha: string, p: Platform)
    ensures var d := ActionsFor(h, key, sha);
      var runs := h.runs(key, sha);
      && (runs == [] ==> d.selectedBuildRun.None? && d.reportsByPlatform == map[])
      && (runs != [] ==>
            && d.selectedBuildRun == PickBuildRun(runs) && d.selectedBuildRun.value in runs
            && var c := Candidates(h.artifacts(key, d.selectedBuildRun.value.id));
            && (p in d.reportsByPlatform <==> exists k :: 0 <= k < |c| && c[k].platform == Some(p))
            && forall k :: (0 <= k < |c| && c[k].platform == Some(p)
                            && (forall j :: k < j < |c| ==> c[j].platform != Some(p)))
                           ==> d.reportsByPlatform[p] == c[k].report)
  {
    var runs := h.runs(key, sha);
    if runs != [] {
      PlatformMapLastWriteWins(h.artifacts(key, PickBuildRun(runs).value.id), p);
    }
  }

  /** One entry of a repository's trail. */
  datatype CommitScan = CommitScan(
    commit: Commit,
    runs: seq<Run>,
    selectedBuildRun: Option<Run>,
    artifacts: seq<ArtifactInfo>,
    performance: PerformanceSummary)

  /** A commit together with its action data. */
  datatype Selection = Selection(commit: Commit, actionData: ActionData)

  function ScanOf(h: Hosting, key: string, c: Commit): CommitScan
  {
    var d := ActionsFor(h, key, c.sha);
    CommitScan(c, d.runs, d.selectedBuildRun, d.artifacts, SummarizePerformanceByCommit(d.reportsByPlatform))
  }

  /** The trail: one entry per commit, in the commits' order. */
  function Trail(h: Hosting, key: string, commits: seq<Commit>): (r: seq<CommitScan>)
    ensures |r| == |commits|
    ensures forall k :: 0 <= k < |commits| ==> r[k] == ScanOf(h, key, commits[k])
  {
    Map(commits, (c: Commit) => ScanOf(h, key, c))
  }

  /** The commit's build run has reports for all three platforms. */
  predicate IsCovered(h: Hosting, key: string, c: Commit)
  {
    HasAllPlatforms(ActionsFor(h, key, c.sha).reportsByPlatform)
  }

  function Covered(h: Hosting, key: string): Commit -> bool
  {
    c => IsCovered(h, key, c)
  }

  /** The first covered commit, with its action data. */
  function FirstSelection(h: Hosting, key: string, commits: seq<Commit>): (r: Option<Selection>)
  {
    match Find(commits, Covered(h, key))
    case Some(c) => Some(Selection(c, ActionsFor(h, key, c.sha)))
    case None => None
  }

  /**
    The selection of a repository: none exactly when no commit is covered;
    otherwise the first covered commit, whose action data has all three
    platforms.
   */
  lemma FirstSelectionSpec(h: Hosting, key: string, commits: seq<Commit>)
    ensures var r := FirstSelection(h, key, commits);
      && (r.None? <==> forall k :: 0 <= k < |commits| ==> !IsCovered(h, key, commits[k]))
      && (r.Some? ==>
            && HasAllPlatforms(r.value.actionData.reportsByPlatform)
            && r.value.actionData == ActionsFor(h, key, r.value.commit.sha)
            && exists k :: (0 <= k < |commits| && commits[k] == r.value.commit
                            && forall j :: 0 <= j < k ==> !IsCovered(h, key, commits[j])))
  {
    var r := FirstSelection(h, key, commits);
    if r.Some? {
      var k :| 0 <= k < |commits| && commits[k] == r.value.commit && Covered(h, key)(commits[k])
               && forall j :: 0 <= j < k ==> !Covered(h, key)(commits[j]);
      assert forall j :: 0 <= j < k ==> !IsCovered(h, key, commits[j]);
    } else {
      assert forall k :: 0 <= k < |commits| ==> !Covered(h, key)(commits[k]);
    }
  }

  /** Scanning one commit further keeps an earlier selection. */
  lemma FirstSelectionSnoc(h: Hosting, key: string, commits: seq<Commit>, c: Commit)
    ensures FirstSelection(h, key, commits + [c])
         == if FirstSelection(h, key, commits).Some? then FirstSelection(h, key, commits)
            else if IsCovered(h, key, c) then Some(Selection(c, ActionsFor(h, key, c.sha)))
            else None
  {
    FindSnoc(commits, c, Covered(h, key));
  }

  /**
    The loop over one repository's candidate commits: every commit gets a
    trail entry, in order, and the first covered commit is selected; a
    later covered commit never replaces it.
   */
  method ScanCommits(h: Hosting, key: string, commits: seq<Commit>) returns (trail: seq<CommitScan>, selected: Option<Selection>)
    ensures trail == Trail(h, key, commits)
    ensures selected == FirstSelection(h, key, commits)
  {
    trail := [];
    selected := None;
    var i := 0;
    while i < |commits|
      invariant 0 <= i <= |commits|
      invariant trail == Trail(h, key, commits[..i])
      invariant selected == FirstSelection(h, key, commits[..i])
    {
      var commit := commits[i];
      var actionData := FetchActionsForCommit(h, key, commit.sha);
      var performance := SummarizePerformanceByCommit(actionData.reportsByPlatform);
      ScanStep(h, key, commits[..i], commit, actionData);
      trail := trail + [CommitScan(commit, actionData.runs, actionData.selectedBuildRun, actionData.artifacts, performance)];
      if selected.None? && HasAllPlatforms(actionData.reportsByPlatform) {
        selected := Some(Selection(commit, actionData));
      }
      PrefixSnoc(commits, i);
      i := i + 1;
    }
    assert commits[..i] == commits;
  }

  /** One more commit: one more trail entry, and a selection only if there was none. */
  lemma ScanStep(h: Hosting, key: string, commits: seq<Commit>, commit: Commit, data: ActionData)
    requires data == ActionsFor(h, key, commit.sha)
    ensures Trail(h, key, commits + [commit])
         == Trail(h, key, commits)
            + [CommitScan(commit, data.runs, data.selectedBuildRun, data.artifacts,
                          SummarizePerformanceByCommit(data.reportsByPlatform))]
    ensures FirstSelection(h, key, commits + [commit])
         == if FirstSelection(h, key, commits).None? && HasAllPlatforms(data.reportsByPlatform)
            then Some(Selection(commit, data)) else FirstSelection(h, key, commits)
  {
    MapSnoc(commits, commit, (c: Commit) => ScanOf(h, key, c));
    FirstSelectionSnoc(h, key, commits, commit);
  }

  /** The entry of `repositoryScans` for one repository. */
  datatype RepositoryScanRecord = RepositoryScanRecord(
    repository: string,
    baseCommitSha: Option<string>,
    scannedCommitCount: nat,
    commits: seq<CommitScan>)

  /** An entry of `successfulSelections`. */
  datatype SuccessfulSelection = SuccessfulSelection(
    repository: RepoTarget,
    selectedData: Selection,
    scannedCommitCount: nat,
    actionsByCommit: seq<CommitScan>)

  /** `BASE_COMMIT_BY_REPOSITORY[repository.key]`. */
  function BaseOf(baseBy: map<string, string>, key: string): Option<string>
  {
    if key in baseBy then Some(baseBy[key]) else None
  }

  /** What one repository contributes: its scan record and its selection, if it has one. */
  datatype RepositoryOutcome = RepositoryOutcome(scan: RepositoryScanRecord, selection: Option<SuccessfulSelection>)

  /** `repositoryScans` and `successfulSelections` after the loop over the repositories. */
  datatype ScanTotals = ScanTotals(scans: seq<RepositoryScanRecord>, selections: seq<SuccessfulSelection>)

  /** The totals with one more repository's outcome appended. */
  function AddOutcome(done: ScanTotals, one: RepositoryOutcome): ScanTotals
  {
    ScanTotals(done.scans + [one.scan],
               if one.selection.Some? then done.selections + [one.selection.value] else done.selections)
  }

  /** The record and the selection (if any) of one repository. */
  function RepositoryResult(h: Hosting, target: RepoTarget, baseBy: map<string, string>, now: int, days: int)
    : Result<RepositoryOutcome, WindowError>
  {
    var base := BaseOf(baseBy, target.key);
    match CommitsInWindow(target.key, h.commits(target.key), base, now, days)
    case Err(e) => Err(e)
    case Ok(candidates) =>
      var trail := Trail(h, target.key, candidates);
      var record := RepositoryScanRecord(target.key, base, |candidates|, trail);
      match FirstSelection(h, target.key, candidates)
      case None => Ok(RepositoryOutcome(record, None))
      case Some(s) => Ok(RepositoryOutcome(record, Some(SuccessfulSelection(target, s, |candidates|, trail))))
  }

  /**
    One repository's outcome: an error exactly when its window fails;
    otherwise a record of every commit in the window, and a selection
    exactly when some commit there is covered, naming this repository and
    holding reports for all three platforms: the first covered commit of
    the window.
   */
  lemma RepositoryResultSpec(h: Hosting, target: RepoTarget, baseBy: map<string, string>, now: int, days: int)
    ensures var r := RepositoryResult(h, target, baseBy, now, days);
      var window := CommitsInWindow(target.key, h.commits(target.key), BaseOf(baseBy, target.key), now, days);
      && (r.Err? <==> window.Err?)
      && (r.Err? ==> r.error == window.error)
      && (r.Ok? ==>
            && r.value.scan.repository == target.key
            && r.value.scan.baseCommitSha == BaseOf(baseBy, target.key)
            && r.value.scan.scannedCommitCount == |window.value|
            && r.value.scan.commits == Trail(h, target.key, window.value)
            && (r.value.selection.None? <==> forall k :: 0 <= k < |window.value| ==> !IsCovered(h, target.key, window.value[k]))
            && (r.value.selection.Some? ==>
                  && r.value.selection.value.repository == target
                  && r.value.selection.value.selectedData.commit in window.value
                  && FirstSelection(h, target.key, window.value) == Some(r.value.selection.value.selectedData)
                  && HasAllPlatforms(r.value.selection.value.selectedData.actionData.reportsByPlatform)))
  {
    var base := BaseOf(baseBy, target.key);
    var window := CommitsInWindow(target.key, h.commits(target.key), base, now, days);
    if window.Ok? {
      var candidates := window.value;
      var trail := Trail(h, target.key, candidates);
      var sel := FirstSelection(h, target.key, candidates);
      FirstSelectionSpec(h, target.key, candidates);
      OutcomeOfWindow(RepositoryResult(h, target, baseBy, now, days), target, base, candidates, trail, sel);
    }
  }

  /** How `RepositoryResult` assembles a successful outcome, stated over its parts. */
  lemma OutcomeOfWindow(r: Result<RepositoryOutcome, WindowError>, target: RepoTarget, base: Option<string>,
                        candidates: seq<Commit>, trail: seq<CommitScan>, sel: Option<Selection>)
    requires r == match sel
                  case None => Ok(RepositoryOutcome(RepositoryScanRecord(target.key, base, |candidates|, trail), None))
                  case Some(s) => Ok(RepositoryOutcome(RepositoryScanRecord(target.key, base, |candidates|, trail),
                                                       Some(SuccessfulSelection(target, s, |candidates|, trail))))
    ensures r.Ok? && r.value.scan == RepositoryScanRecord(target.key, base, |candidates|, trail)
    ensures r.value.selection.None? <==> sel.None?
    ensures sel.Some? ==> r.value.selection.value.repository == target && r.value.selection.value.selectedData == sel.value
  {
  }

  /** The outcome of every target repository, in order. */
  function Outcomes(h: Hosting, targets: seq<RepoTarget>, baseBy: map<string, string>, now: int, days: int)
    : (r: seq<Result<RepositoryOutcome, WindowError>>)
    ensures |r| == |targets|
    ensures forall k :: 0 <= k < |targets| ==> r[k] == RepositoryResult(h, targets[k], baseBy, now, days)
  {
    seq(|targets|, k requires 0 <= k < |targets| => RepositoryResult(h, targets[k], baseBy, now, days))
  }

  /**
    The loop's accumulation over the outcomes in order: every scan record
    and every selection, or the first error, which ends the loop.
   */
  function Collect(outcomes: seq<Result<RepositoryOutcome, WindowError>>): Result<ScanTotals, WindowError>
  {
    if outcomes == [] then Ok(ScanTotals([], []))
    else
      match Collect(outcomes[..|outcomes| - 1])
      case Err(e) => Err(e)
      case Ok(done) =>
        match outcomes[|outcomes| - 1]
        case Err(e) => Err(e)
        case Ok(one) => Ok(AddOutcome(done, one))
  }

  /** The scans and the selections of all repositories, or the first window error. */
  function ScanAll(h: Hosting, targets: seq<RepoTarget>, baseBy: map<string, string>, now: int, days: int)
    : Result<ScanTotals, WindowError>
  {
    Collect(Outcomes(h, targets, baseBy, now, days))
  }

  /** The accumulation succeeds exactly when every outcome does; a failure is the first failing outcome's error. */
  lemma {:induction false} CollectOk(outcomes: seq<Result<RepositoryOutcome, WindowError>>)
    ensures Collect(outcomes).Ok? <==> forall k :: 0 <= k < |outcomes| ==> outcomes[k].Ok?
    ensures Collect(outcomes).Err? ==>
      exists k :: 0 <= k < |outcomes| && outcomes[k] == Err(Collect(outcomes).error)
                  && forall j :: 0 <= j < k ==> outcomes[j].Ok?
  {
    if outcomes != [] {
      var init := outcomes[..|outcomes| - 1];
      CollectOk(init);
      assert forall k :: 0 <= k < |init| ==> init[k] == outcomes[k];
    }
  }

  /** A complete accumulation holds one scan record per outcome, in order. */
  lemma {:induction false} CollectScans(outcomes: seq<Result<RepositoryOutcome, WindowError>>)
    requires Collect(outcomes).Ok?
    ensures |Collect(outcomes).value.scans| == |outcomes|
    ensures forall k :: 0 <= k < |outcomes| ==> outcomes[k].Ok? && Collect(outcomes).value.scans[k] == outcomes[k].value.scan
  {
    if outcomes != [] {
      var init := outcomes[..|outcomes| - 1];
      CollectScans(init);
      assert forall k :: 0 <= k < |init| ==> init[k] == outcomes[k];
    }
  }

  /** A complete accumulation holds at most one selection per outcome, and each is some outcome's selection. */
  lemma {:induction false} CollectSelections(outcomes: seq<Result<RepositoryOutcome, WindowError>>)
    requires Collect(outcomes).Ok?
    ensures Collect(outcomes).value.selections == Selections(outcomes)
    ensures |Collect(outcomes).value.selections| <= |outcomes|
    ensures forall s :: s in Collect(outcomes).value.selections ==>
      exists k :: 0 <= k < |outcomes| && outcomes[k].Ok? && outcomes[k].value.selection == Some(s)
  {
    if outcomes != [] {
      var init := outcomes[..|outcomes| - 1];
      CollectSelections(init);
      assert forall k :: 0 <= k < |init| ==> init[k] == outcomes[k];
    }
    CollectSelectionsInOrder(outcomes);
  }

  /** The selection an outcome contributes: one for a successful outcome with a selection, else none. */
  function SelectionOf(o: Result<RepositoryOutcome, WindowError>): seq<SuccessfulSelection>
  {
    if o.Ok? && o.value.selection.Some? then [o.value.selection.value] else []
  }

  /** The selections of the outcomes, read front to back in the outcomes' order. */
  function Selections(outcomes: seq<Result<RepositoryOutcome, WindowError>>): seq<SuccessfulSelection>
  {
    if outcomes == [] then [] else SelectionOf(outcomes[0]) + Selections(outcomes[1..])
  }

  /** Reading one more outcome at the back adds its selection at the back. */
  lemma {:induction false} SelectionsSnoc(outcomes: seq<Result<RepositoryOutcome, WindowError>>)
    requires outcomes != []
    ensures Selections(outcomes) == Selections(outcomes[..|outcomes| - 1]) + SelectionOf(outcomes[|outcomes| - 1])
  {
    if |outcomes| > 1 {
      var init := outcomes[..|outcomes| - 1];
      SelectionsSnoc(outcomes[1..]);
      assert outcomes[1..][..|outcomes| - 2] == init[1..];
      assert init[0] == outcomes[0];
    } else {
      assert outcomes[..0] == [];
    }
  }

  /**
    A complete accumulation holds exactly the selections of the
    outcomes, in the outcomes' order: every repository with a selection
    contributes it, and no other entry is there.
   */
  lemma {:induction false} CollectSelectionsInOrder(outcomes: seq<Result<RepositoryOutcome, WindowError>>)
    requires Collect(outcomes).Ok?
    ensures Collect(outcomes).value.selections == Selections(outcomes)
  {
    if outcomes != [] {
      var init := outcomes[..|outcomes| - 1];
      CollectSelectionsInOrder(init);
      SelectionsSnoc(outcomes);
    }
  }

  /** Every successful outcome's selection is among the selections. */
  lemma {:induction false} SelectionsComplete(outcomes: seq<Result<RepositoryOutcome, WindowError>>, k: nat)
    requires k < |outcomes| && outcomes[k].Ok? && outcomes[k].value.selection.Some?
    ensures outcomes[k].value.selection.value in Selections(outcomes)
  {
    if k > 0 {
      SelectionsComplete(outcomes[1..], k - 1);
    }
  }

  /** There are no selections exactly when no outcome has one. */
  lemma {:induction false} SelectionsEmpty(outcomes: seq<Result<RepositoryOutcome, WindowError>>)
    ensures Selections(outcomes) == [] <==>
      forall k :: 0 <= k < |outcomes| ==> !(outcomes[k].Ok? && outcomes[k].value.selection.Some?)
  {
    if outcomes != [] {
      SelectionsEmpty(outcomes[1..]);
      assert forall k :: 1 <= k < |outcomes| ==> outcomes[k] == outcomes[1..][k - 1];
    }
  }

  /**
    Entry `k` of the selections is the selection of some outcome `i`, and
    the entries before it are exactly the selections of the outcomes
    before `i`.
   */
  lemma {:induction false} SelectionsPosition(outcomes: seq<Result<RepositoryOutcome, WindowError>>, k: nat)
    requires k < |Selections(outcomes)|
    ensures exists i :: 0 <= i < |outcomes| && SelectionOf(outcomes[i]) == [Selections(outcomes)[k]]
                        && Selections(outcomes[..i]) == Selections(outcomes)[..k]
  {
    var first := SelectionOf(outcomes[0]);
    var rest := outcomes[1..];
    if first != [] && k == 0 {
      assert outcomes[..0] == [];
      assert SelectionOf(outcomes[0]) == [Selections(outcomes)[0]];
    } else {
      var k' := k - |first|;
      SelectionsPosition(rest, k');
      var i' :| 0 <= i' < |rest| && SelectionOf(rest[i']) == [Selections(rest)[k']]
                && Selections(rest[..i']) == Selections(rest)[..k'];
      assert outcomes[..i' + 1][1..] == rest[..i'];
      assert Selections(outcomes[..i' + 1]) == first + Selections(rest)[..k'];
      assert Selections(outcomes)[..k] == first + Selections(rest)[..k'];
      assert SelectionOf(outcomes[i' + 1]) == [Selections(outcomes)[k]];
    }
  }

  /** Every selection in `sel` names one of `targets` and has all three platforms. */
  predicate SelectionsCovered(sel: seq<SuccessfulSelection>, targets: seq<RepoTarget>)
  {
    forall s :: s in sel ==> s.repository in targets && HasAllPlatforms(s.selectedData.actionData.reportsByPlatform)
  }

  /**
    The loop over the repositories: it completes exactly when no window
    fails, and otherwise stops with the first failing repository's error;
    a complete loop has one scan record per repository, in order, and the
    selections of the repositories that have one, in repository order,
    each naming a target and having reports for all three platforms.
   */
  lemma ScanAllSpec(h: Hosting, targets: seq<RepoTarget>, baseBy: map<string, string>, now: int, days: int)
    ensures var r := ScanAll(h, targets, baseBy, now, days);
      && (r.Ok? <==> forall k :: 0 <= k < |targets| ==> RepositoryResult(h, targets[k], baseBy, now, days).Ok?)
      && (r.Err? ==> exists k :: 0 <= k < |targets| && RepositoryResult(h, targets[k], baseBy, now, days) == Err(r.error)
                                 && forall j :: 0 <= j < k ==> RepositoryResult(h, targets[j], baseBy, now, days).Ok?)
      && (r.Ok? ==>
            && |r.value.scans| == |targets| && |r.value.selections| <= |targets|
            && (forall k :: 0 <= k < |targets| ==> r.value.scans[k] == RepositoryResult(h, targets[k], baseBy, now, days).value.scan)
            && r.value.selections == Selections(Outcomes(h, targets, baseBy, now, days))
            && (forall k :: 0 <= k < |targets| && RepositoryResult(h, targets[k], baseBy, now, days).Ok?
                            && RepositoryResult(h, targets[k], baseBy, now, days).value.selection.Some? ==>
                  RepositoryResult(h, targets[k], baseBy, now, days).value.selection.value in r.value.selections)
            && SelectionsCovered(r.value.selections, targets))
  {
    var outcomes := Outcomes(h, targets, baseBy, now, days);
    CollectOk(outcomes);
    if Collect(outcomes).Ok? {
      CollectScans(outcomes);
      CollectSelections(outcomes);
      forall s | s in Collect(outcomes).value.selections
        ensures s.repository in targets && HasAllPlatforms(s.selectedData.actionData.reportsByPlatform)
      {
        var k :| 0 <= k < |outcomes| && outcomes[k].Ok? && outcomes[k].value.selection == Some(s);
        RepositoryResultSpec(h, targets[k], baseBy, now, days);
      }
      forall k | 0 <= k < |targets| && outcomes[k].Ok? && outcomes[k].value.selection.Some?
        ensures outcomes[k].value.selection.value in Collect(outcomes).value.selections
      {
        SelectionsComplete(outcomes, k);
      }
    }
  }

  /** The body of the top-level loop for one repository. */
  method ScanRepository(h: Hosting, repository: RepoTarget, baseBy: map<string, string>, now: int, days: int)
    returns (r: Result<RepositoryOutcome, WindowError>)
    ensures r == RepositoryResult(h, repository, baseBy, now, days)
  {
    var baseCommitSha := BaseOf(baseBy, repository.key);
    var window := CommitsInWindow(repository.key, h.commits(repository.key), baseCommitSha, now, days);
    if window.Err? {
      return Err(window.error);
    }
    var candidateCommits := window.value;
    var actionsByCommit, selectedData := ScanCommits(h, repository.key, candidateCommits);
    var scan := RepositoryScanRecord(repository.key, baseCommitSha, |candidateCommits|, actionsByCommit);
    if selectedData.Some? {
      return Ok(RepositoryOutcome(scan, Some(SuccessfulSelection(repository, selectedData.value, |candidateCommits|, actionsByCommit))));
    }
    return Ok(RepositoryOutcome(scan, None));
  }

  /** One more successful outcome appends its scan and its selection. */
  lemma CollectStep(outcomes: seq<Result<RepositoryOutcome, WindowError>>, i: nat, done: ScanTotals, one: RepositoryOutcome)
    requires i < |outcomes|
    requires Collect(outcomes[..i]) == Ok(done) && outcomes[i] == Ok(one)
    ensures Collect(outcomes[..i + 1]) == Ok(AddOutcome(done, one))
  {
    assert outcomes[..i + 1][..i] == outcomes[..i];
  }

  /** The first failing outcome is the result of the whole accumulation. */
  lemma CollectFails(outcomes: seq<Result<RepositoryOutcome, WindowError>>, i: nat)
    requires i < |outcomes|
    requires Collect(outcomes[..i]).Ok? && outcomes[i].Err?
    ensures Collect(outcomes) == Err(outcomes[i].error)
  {
    assert outcomes[..i + 1][..i] == outcomes[..i];
    CollectStopsAtError(outcomes, i + 1);
  }

  /** Once the accumulation fails, later outcomes change nothing. */
  lemma {:induction false} CollectStopsAtError(outcomes: seq<Result<RepositoryOutcome, WindowError>>, n: nat)
    requires n <= |outcomes| && Collect(outcomes[..n]).Err?
    ensures Collect(outcomes) == Collect(outcomes[..n])
  {
    if n < |outcomes| {
      var init := outcomes[..|outcomes| - 1];
      assert init[..n] == outcomes[..n];
      CollectStopsAtError(init, n);
    } else {
      assert outcomes[..n] == outcomes;
    }
  }

  /** The top-level loop over the target repositories. */
  method ScanRepositories(h: Hosting, targets: seq<RepoTarget>, baseBy: map<string, string>, now: int, days: int)
    returns (r: Result<ScanTotals, WindowError>)
    ensures r == ScanAll(h, targets, baseBy, now, days)
  {
    ghost var outcomes := Outcomes(h, targets, baseBy, now, days);
    var repositoryScans := [];
    var successfulSelections := [];
    var i := 0;
    while i < |targets|
      invariant 0 <= i <= |targets|
      invariant Collect(outcomes[..i]) == Ok(ScanTotals(repositoryScans, successfulSelections))
    {
      var result := ScanRepository(h, targets[i], baseBy, now, days);
      if result.Err? {
        CollectFails(outcomes, i);
        return Err(result.error);
      }
      CollectStep(outcomes, i, ScanTotals(repositoryScans, successfulSelections), result.value);
      var scan := result.value.scan;
      var selection := result.value.selection;
      repositoryScans := repositoryScans + [scan];
      if selection.Some? {
        successfulSelections := successfulSelections + [selection.value];
      }
      i := i + 1;
    }
    assert outcomes[..i] == outcomes;
    return Ok(ScanTotals(repositoryScans, successfulSelections));
  }
}
