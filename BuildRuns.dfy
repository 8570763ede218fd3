/**
  Choosing the workflow run whose artifacts hold the test reports of a
  commit: `pickBuildRun` of the repository scan, and the simpler inline
  choice of the single-commit variant.
 */
module BuildRuns {
  import opened Common
  import opened Strings

  /** The fields of a workflow run the choice looks at. */
  datatype Run = Run(id: int, name: Option<string>, displayTitle: Option<string>, conclusion: Option<string>)

  /** `/build/i.test(text)`. */
  predicate MentionsBuild(text: string)
  {
    Contains(ToLower(text), "build")
  }

  /** The run's name or its display title (a missing one read as "") mentions "build". */
  predicate IsBuildLike(r: Run)
  {
    MentionsBuild(r.name.GetOr("")) || MentionsBuild(r.displayTitle.GetOr(""))
  }

  predicate IsSuccessful(r: Run)
  {
    r.conclusion == Some("success")
  }

  /**
    `pickBuildRun`: no run for an empty list; otherwise, among the
    candidates (the build-like runs when there are any, else all runs),
    the first successful one, else the first one.
   */
  function PickBuildRun(runs: seq<Run>): (r: Option<Run>)
    ensures r.None? <==> runs == []
    ensures r.Some? ==> r.value in runs
    ensures r.Some? && Any(runs, IsBuildLike) ==> IsBuildLike(r.value)
  {
    if runs == [] then None
    else
      var buildLike := Filter(runs, IsBuildLike);
      var candidates := if buildLike != [] then buildLike else runs;
      match Find(candidates, IsSuccessful)
      case Some(run) => Some(run)
      case None => Some(candidates[0])
  }

  /**
    The choice in terms of the whole list: the first run that is a
    successful candidate when there is one, else the first candidate.
   */
  lemma PickBuildRunIsFirstMatch(runs: seq<Run>)
    requires runs != []
    ensures var successful := Find(runs, Both(Preferred(runs, IsBuildLike), IsSuccessful));
      PickBuildRun(runs) == if successful.Some? then successful else Find(runs, Preferred(runs, IsBuildLike))
  {
    PreferFilter(runs, IsBuildLike, IsSuccessful);
  }

  /**
    The choice spelled out by positions: the chosen run sits at some index
    `k`, is a candidate, no earlier candidate succeeded, and either it
    succeeded itself or no candidate succeeded and none comes before it.
   */
  lemma PickBuildRunChoice(runs: seq<Run>)
    requires runs != []
    ensures exists k :: FirstPreferredAt(runs, IsBuildLike, IsSuccessful, PickBuildRun(runs).value, k)
  {
    PickBuildRunIsFirstMatch(runs);
    FirstPreferred(runs, IsBuildLike, IsSuccessful);
  }

  /**
    The single-commit variant: the first build-like run, else the first
    run; it is only reached with at least one run.
   */
  function FirstBuildRun(runs: seq<Run>): (r: Run)
    requires runs != []
    ensures r in runs
    ensures Any(runs, IsBuildLike) ==> exists k :: (0 <= k < |runs| && runs[k] == r && IsBuildLike(r)
                                                   && forall j :: 0 <= j < k ==> !IsBuildLike(runs[j]))
    ensures !Any(runs, IsBuildLike) ==> r == runs[0]
  {
    match Find(runs, IsBuildLike)
    case Some(run) => run
    case None => runs[0]
  }

  /**
    The two choices agree when no candidate of `pickBuildRun` succeeded,
    and also when its first candidate did: the success preference only
    matters when a later candidate succeeded and the first did not.
   */
  lemma ChoicesAgree(runs: seq<Run>)
    requires runs != []
    requires (forall k :: 0 <= k < |runs| && Preferred(runs, IsBuildLike)(runs[k]) ==> !IsSuccessful(runs[k]))
             || IsSuccessful(FirstBuildRun(runs))
    ensures PickBuildRun(runs) == Some(FirstBuildRun(runs))
  {
    PickBuildRunIsFirstMatch(runs);
    var cand := Preferred(runs, IsBuildLike);
    if Any(runs, IsBuildLike) {
      SameFind(runs, IsBuildLike, cand);
    } else {
      assert cand(runs[0]);
    }
    if IsSuccessful(FirstBuildRun(runs)) {
      FindFirstPasses(runs, cand, IsSuccessful);
    } else {
      assert Find(runs, Both(cand, IsSuccessful)).None?;
    }
  }
}
