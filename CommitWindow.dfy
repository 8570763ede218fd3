/**
  `fetchCommitsAfterBaseWithinWindow`: the commits of a repository's
  history (newest first) that come after its baseline commit and whose
  author date falls within the configured number of days.
 */
module CommitWindow {
  import opened Common

  /**
    A commit as the history lists it.  `time` is `Date.parse` of the
    author date in milliseconds, None when that date is missing or does not
    parse.
   */
  datatype Commit = Commit(
    sha: string,
    message: Option<string>,
    authorName: Option<string>,
    authorDate: Option<string>,
    time: Option<int>,
    htmlUrl: string)

  /** `Base commit not found for <repository>: <sha>`. */
  datatype WindowError = BaseCommitNotFound(repository: string, sha: string)

  const MillisecondsPerDay: int := 24 * 60 * 60 * 1000

  /** `Date.now() - days * 24 * 60 * 60 * 1000`. */
  function Cutoff(now: int, days: int): int
  {
    now - days * MillisecondsPerDay
  }

  /** A baseline is configured when it is present and not the empty string. */
  predicate HasBaseline(base: Option<string>)
  {
    base.Some? && base.value != ""
  }

  /** `commits.findIndex((commit) => commit.sha === sha)`, None for -1. */
  function IndexOfSha(commits: seq<Commit>, sha: string): (r: Option<nat>)
    ensures r.None? <==> forall k :: 0 <= k < |commits| ==> commits[k].sha != sha
    ensures r.Some? ==> r.value < |commits| && commits[r.value].sha == sha
                        && forall k :: 0 <= k < r.value ==> commits[k].sha != sha
  {
    if commits == [] then None
    else if commits[0].sha == sha then Some(0)
    else
      var r := IndexOfSha(commits[1..], sha);
      assert forall k :: 1 <= k < |commits| ==> commits[1..][k - 1] == commits[k];
      if r.Some? then Some(r.value + 1) else None
  }

  /**
    The commits newer than the baseline: the part of the history before
    the baseline's first occurrence, all of it when no baseline is
    configured, and an error when the baseline is not in the history.
   */
  function CommitsAfterBase(repository: string, commits: seq<Commit>, base: Option<string>): (r: Result<seq<Commit>, WindowError>)
    ensures !HasBaseline(base) ==> r == Ok(commits)
    ensures HasBaseline(base) ==>
      (r.Err? <==> forall k :: 0 <= k < |commits| ==> commits[k].sha != base.value)
    ensures r.Err? ==> r.error == BaseCommitNotFound(repository, base.value)
    ensures HasBaseline(base) && r.Ok? ==>
      && |r.value| < |commits| && r.value == commits[..|r.value|]
      && commits[|r.value|].sha == base.value
      && forall k :: 0 <= k < |r.value| ==> r.value[k].sha != base.value
  {
    if !HasBaseline(base) then Ok(commits)
    else
      match IndexOfSha(commits, base.value)
      case None => Err(BaseCommitNotFound(repository, base.value))
      case Some(i) => Ok(commits[..i])
  }

  /** The age filter: the author date parses and is not before the cutoff. */
  predicate IsWithin(cutoff: int, c: Commit)
  {
    c.time.Some? && c.time.value >= cutoff
  }

  function WithinWindow(cutoff: int): Commit -> bool
  {
    c => IsWithin(cutoff, c)
  }

  /**
    `fetchCommitsAfterBaseWithinWindow` on a given history: the commits
    after the baseline whose author date is within `days` days of `now`,
    in history order.
   */
  function CommitsInWindow(repository: string, commits: seq<Commit>, base: Option<string>, now: int, days: int)
    : (r: Result<seq<Commit>, WindowError>)
  {
    match CommitsAfterBase(repository, commits, base)
    case Err(e) => Err(e)
    case Ok(candidates) => Ok(Filter(candidates, WithinWindow(Cutoff(now, days))))
  }

  /**
    The window as the history sees it: an error exactly when a configured
    baseline is missing; otherwise an order-preserving selection from the
    commits before the baseline, holding every one of them whose date is
    within the window and no other, and never the baseline itself.
   */
  lemma CommitsInWindowSpec(repository: string, commits: seq<Commit>, base: Option<string>, now: int, days: int)
    ensures var r := CommitsInWindow(repository, commits, base, now, days);
      && (r.Err? <==> HasBaseline(base) && forall k :: 0 <= k < |commits| ==> commits[k].sha != base.value)
      && (r.Ok? ==>
            var prefix := CommitsAfterBase(repository, commits, base).value;
            && IsSubseq(r.value, prefix)
            && (forall c :: c in r.value ==> c in prefix && IsWithin(Cutoff(now, days), c))
            && (forall c :: c in prefix && IsWithin(Cutoff(now, days), c) ==> c in r.value)
            && (HasBaseline(base) ==> forall c :: c in r.value ==> c.sha != base.value))
  {
    var r := CommitsInWindow(repository, commits, base, now, days);
    if r.Ok? {
      var prefix := CommitsAfterBase(repository, commits, base).value;
      FilterIsSubseq(prefix, WithinWindow(Cutoff(now, days)));
      if HasBaseline(base) {
        forall c | c in r.value ensures c.sha != base.value {
          var k :| 0 <= k < |prefix| && prefix[k] == c;
        }
      }
    }
  }

  /** Widening the window keeps every commit the narrower window kept. */
  lemma WiderWindowKeepsMore(repository: string, commits: seq<Commit>, base: Option<string>, now: int, days: int, moreDays: int)
    requires days <= moreDays
    ensures var narrow := CommitsInWindow(repository, commits, base, now, days);
      var wide := CommitsInWindow(repository, commits, base, now, moreDays);
      narrow.Ok? == wide.Ok? && (narrow.Ok? ==> forall c :: c in narrow.value ==> c in wide.value)
  {
    assert Cutoff(now, moreDays) <= Cutoff(now, days);
  }
}
