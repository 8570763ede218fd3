# gtest performance data loaders — a Dafny model

The two data loaders of the `william` dashboard collect GoogleTest JSON
reports from the GitHub Actions artifacts of a C++ library and reduce them
to rows and per-platform summaries.

- `src/data/gtest-repositories.json.js` scans a list of repositories.
  - For each repository it takes the commits newer than a configured
    baseline and younger than a given number of days.
  - For each such commit it picks the workflow run that looks like the
    build. It reads that run's artifact archives and files each gtest
    report under Linux, Windows or macOS.
  - It selects the first commit that has reports for all three platforms.
  - Across repositories it keeps the selection with the newest author
    date, and from it emits the performance test rows and a summary per
    platform.
- `src/data/gtest-run-22392812167.json.js` does the same for one fixed
  commit.
  - It has a simpler build-run choice and no performance filter.
  - When the fetch fails it falls back to three local snapshot reports.

The model keeps the order of every list, the error conditions and the
messages' parameters. It replaces GitHub, zip archives and the clock by
inputs:
- a `Hosting` value answers "commits of repository", "runs of commit" and
  "artifacts of run";
- an artifact's archive is a list of entries with a pre-decided JSON parse
  outcome;
- `now` and the age limit in days are parameters;
- an author date is the `Option<int>` that `Date.parse` would give.

Modules, in dependency order:

| module | models |
|---|---|
| `Common` | Option/Result, filter, find, map, subsequences |
| `Strings` | `toLowerCase`, `includes`, `startsWith`, `endsWith`, `trim`, `split`/`join` on one character |
| `Durations` | `Number.parseFloat` on decimal text, `parseTimeToMilliseconds` |
| `Platforms` | `detectPlatform`, `hasAllPlatforms`, the missing-platform list |
| `Reports` | report documents, `isPerformanceTest`, both `extractRows`, `summarizePerformanceByCommit` |
| `Artifacts` | `readArtifactZipJson` and the loop that files reports under platforms |
| `BuildRuns` | `pickBuildRun` and the single-commit choice of a build run |
| `RepoList` | `parseRepoList` |
| `CommitWindow` | `fetchCommitsAfterBaseWithinWindow` |
| `RepositoryScan` | `fetchActionsForCommit`, the per-commit and per-repository loops |
| `RepositoriesDataset` | the final error checks, the sort by date, the output rows and summary |
| `SingleCommitRun` | `fetchCommitAndActionsData`, the fallback, the single-commit output |

The loops the code runs are imperative methods:
- the archive loop;
- the artifact fold over a map;
- the commit loop;
- the repository loop;
- the two top levels.

Each loop is proved equal to a specification function. The properties of
those functions are proved as lemmas.

The final `tests` rows of the repository loader are the performance-filtered
rows (src/data/gtest-repositories.json.js:333);
`SingleCommitRun.PerformanceRowsOfAllRows` relates them to the unfiltered rows.

## Model

| member | source | states |
|---|---|---|
| Strings.Trim | src/data/gtest-repositories.json.js:12 | the trimmed text is a slice of the input; what was cut off at either end is white space; the result neither starts nor ends with white space |
| Strings.JoinSplit | src/data/gtest-repositories.json.js:11 | joining the pieces of `split(sep)` with `sep` gives back the original text |
| Strings.SplitJoin | src/data/gtest-repositories.json.js:15 | splitting the join of pieces that hold no separator gives back exactly those pieces |
| RepoList.ParseItem | src/data/gtest-repositories.json.js:14-19 | an item parses exactly when it has a first "/" with text on both sides; the owner and repo are non-empty and free of "/"; the key is `owner/repo`, a prefix of the item followed by its end or a "/"; otherwise the error names the item |
| RepoList.ParseItems | src/data/gtest-repositories.json.js:14-20 | succeeds exactly when every item parses, giving one target per item in order; otherwise gives the error of the first item that fails |
| RepoList.ParseRepoList | src/data/gtest-repositories.json.js:9-21 | one target per non-empty trimmed comma-separated item, in order, or the error naming the first item without both parts |
| RepoList.ParseJoinedKeys | src/data/gtest-repositories.json.js:9-21 | joining well-formed targets' keys with commas and parsing the result gives back the same targets (round trip) |
| Durations.ParseTimeToMilliseconds | src/data/gtest-repositories.json.js:42-49 | a missing value, blank text and text with no leading number all give 0 |
| Durations.SecondsToMilliseconds | src/data/gtest-repositories.json.js:42-49 | a decimal numeral, with or without a trailing "s", gives its value times 1000 |
| Durations.LetterFirstIsZero | src/data/gtest-repositories.json.js:46-47 | text whose first non-blank character is a letter gives 0 |
| Durations.ParseFloatOfNumeral | src/data/gtest-repositories.json.js:46 | `parseFloat` of a rendered decimal numeral gives back its value |
| Durations.StripSecondsUnit | src/data/gtest-repositories.json.js:46 | exactly one trailing "s" is removed, and only when present |
| Platforms.DetectPlatform | src/data/gtest-repositories.json.js:51-57 | Linux exactly when the lower-cased name mentions "ubuntu" or "linux"; Windows exactly when it does not but mentions "windows"; macOS exactly when neither holds and it mentions "mac"; none otherwise |
| Platforms.DetectPlatformIgnoresCase | src/data/gtest-repositories.json.js:52 | upper-casing or lower-casing the name does not change the platform |
| Platforms.HasAllPlatforms | src/data/gtest-repositories.json.js:164-166 | true exactly when every platform has a report |
| Platforms.MissingPlatforms | src/data/gtest-run-22392812167.json.js:201-205 | exactly the platforms without a report, in the order Linux, Windows, macOS; empty exactly when all are present |
| Reports.AllRowsLayout | src/data/gtest-run-22392812167.json.js:33-44 | the unfiltered rows number one per test case; test `j` of suite `i` sits after all earlier suites' rows with its platform, names, "suite.test" full name, parsed time, and result or "UNKNOWN" |
| Reports.PerformanceRowsAreFilteredRows | src/data/gtest-repositories.json.js:59-83 | the filtered rows are exactly the unfiltered rows whose suite or test name starts with "performance" or "testperformance", in order |
| Reports.RowsCarryPlatform | src/data/gtest-repositories.json.js:70-83 | every row extracted for a platform carries that platform |
| Reports.SummarizeRows | src/data/gtest-repositories.json.js:88-98 | one platform's summary counts its rows, counts the rows whose status is not "COMPLETED" (never more than the rows), has 0 errors, sums the rows' times and carries the given timestamp |
| Reports.PresentPlatforms | src/data/gtest-repositories.json.js:86-87 | the platforms with a report, exactly those, in the order Linux, Windows, macOS |
| Reports.PlatformSummaries | src/data/gtest-repositories.json.js:86-99 | one summary per present platform, in the order Linux, Windows, macOS, each being that platform's summary: its performance rows counted, the rows not "COMPLETED" counted as failures, 0 errors, the rows' times summed, and the report's timestamp or null |
| Reports.MaxTotal | src/data/gtest-repositories.json.js:105 | the maximum is at least every platform's total and is one of them; 0 for no platforms |
| Reports.MeanTotalTimesCount | src/data/gtest-repositories.json.js:104 | the mean, added once per platform, gives the sum of the totals |
| Reports.SummarizeTotals | src/data/gtest-repositories.json.js:101-106 | the performance summary keeps the platform list; its maximum bounds every total and is one of them; its mean times the count is the sum; the mean is at most the maximum; both are 0 for no platforms |
| Reports.FlatRowsOfPlatform | src/data/gtest-repositories.json.js:333-336 | picking the rows of one platform out of the flattened rows gives that platform's own rows |
| Reports.FlatRowsOfAll | src/data/gtest-repositories.json.js:333 | the flattened rows are Linux's, then Windows', then macOS' |
| Artifacts.ReadArtifactReports | src/data/gtest-repositories.json.js:120-136 | the loop returns the reports of the ".json" file entries that parse into a report shape, in archive order |
| Artifacts.ReportsOfArchive | src/data/gtest-repositories.json.js:120-134 | every report returned comes from a ".json" entry of the archive with that name and a report shape, and every such entry is returned |
| Artifacts.EffectivePlatform | src/data/gtest-repositories.json.js:228-231 | a report is filed under the artifact name's platform when there is one, else under the file name's |
| Artifacts.FoldArtifacts | src/data/gtest-repositories.json.js:214-235 | the loop over artifacts returns the platform map of all their reports and one summary per artifact, in order |
| Artifacts.FileReports | src/data/gtest-repositories.json.js:230-234 | the inner loop sets each report with a platform into the map, in order, and skips the others |
| Artifacts.PlatformMapLastWriteWins | src/data/gtest-repositories.json.js:217-235 | a platform is in the map exactly when some report is filed under it, and its value is the last such report |
| BuildRuns.PickBuildRun | src/data/gtest-repositories.json.js:139-145 | no run exactly for an empty list; the chosen run is one of the runs; it is build-like whenever some run is |
| BuildRuns.PickBuildRunIsFirstMatch | src/data/gtest-repositories.json.js:141-144 | the choice is the first successful candidate, else the first candidate, where the candidates are the build-like runs if any, else all runs |
| BuildRuns.PickBuildRunChoice | src/data/gtest-repositories.json.js:139-145 | the choice stated by positions: a candidate that no earlier successful candidate precedes, and either successful itself or the first candidate when none succeeded |
| BuildRuns.FirstBuildRun | src/data/gtest-run-22392812167.json.js:117-118 | the first build-like run if any, else the first run |
| BuildRuns.ChoicesAgree | src/data/gtest-run-22392812167.json.js:117-118 | the two loaders choose the same run when no candidate succeeded or the first build-like run succeeded |
| CommitWindow.IndexOfSha | src/data/gtest-repositories.json.js:177 | the position of the first commit with that sha, or none exactly when no commit has it |
| CommitWindow.CommitsAfterBase | src/data/gtest-repositories.json.js:175-182 | all commits without a baseline; an error naming repository and sha exactly when the baseline is absent; otherwise the prefix before the baseline's first occurrence, which excludes it |
| CommitWindow.CommitsInWindowSpec | src/data/gtest-repositories.json.js:168-191 | an error exactly when a configured baseline is missing; otherwise an order-preserving subsequence of the commits before the baseline, holding exactly those with a parsed date no earlier than the cutoff, never the baseline |
| CommitWindow.WiderWindowKeepsMore | src/data/gtest-repositories.json.js:184-190 | allowing more days keeps every commit a smaller window kept |
| RepositoryScan.FetchActionsForCommit | src/data/gtest-repositories.json.js:193-243 | the action data is the specification's: empty for a commit without runs, else the picked run, its artifact summaries and its platform map |
| RepositoryScan.ActionsForSpec | src/data/gtest-repositories.json.js:201-235 | no run and no report without runs; otherwise the picked run is one of the commit's runs and each platform holds the last report filed under it |
| RepositoryScan.Trail | src/data/gtest-repositories.json.js:260-275 | one trail entry per commit, in order, each that commit's scan |
| RepositoryScan.FirstSelectionSpec | src/data/gtest-repositories.json.js:277-279 | no selection exactly when no commit has all three platforms; otherwise the first commit that has them, with its action data |
| RepositoryScan.FirstSelectionSnoc | src/data/gtest-repositories.json.js:277-279 | scanning one more commit never replaces an existing selection |
| RepositoryScan.ScanCommits | src/data/gtest-repositories.json.js:257-280 | the loop over commits builds exactly the trail and the first selection |
| RepositoryScan.RepositoryResultSpec | src/data/gtest-repositories.json.js:253-291 | one repository's outcome is an error exactly when its window fails; otherwise a record of every windowed commit, and a selection exactly when one is covered, which is the first covered commit of the window, naming this repository with all three platforms |
| RepositoryScan.ScanRepository | src/data/gtest-repositories.json.js:253-291 | the loop body for one repository computes exactly its outcome |
| RepositoryScan.CollectOk | src/data/gtest-repositories.json.js:253-255 | the loop over repositories completes exactly when every window succeeds; otherwise it stops with the first failure's error |
| RepositoryScan.CollectScans | src/data/gtest-repositories.json.js:282-287 | a completed loop has one scan record per repository, in order |
| RepositoryScan.CollectSelections | src/data/gtest-repositories.json.js:289-291 | a completed loop holds exactly the selections of the repositories that have one, in repository order; so at most one per repository, each being some repository's selection |
| RepositoryScan.SelectionsComplete | src/data/gtest-repositories.json.js:289-291 | every successful repository's selection is among the selections |
| RepositoryScan.SelectionsEmpty | src/data/gtest-repositories.json.js:289-291 | there are no selections exactly when no repository has one |
| RepositoryScan.SelectionsPosition | src/data/gtest-repositories.json.js:282-291 | each selection comes from some repository, and the selections before it are exactly those of the earlier repositories |
| RepositoryScan.ScanAllSpec | src/data/gtest-repositories.json.js:250-292 | the whole loop: completes exactly when no window fails, else the first failure; one record per repository in order; the selections are those of the repositories, in repository order, every repository with a selection contributing it; every selection names a target and has all three platforms |
| RepositoryScan.ScanRepositories | src/data/gtest-repositories.json.js:250-292 | the imperative loop over repositories computes exactly that accumulation |
| RepositoriesDataset.SortByDate | src/data/gtest-repositories.json.js:298-302 | the sort is a permutation of the selections |
| RepositoriesDataset.SortByDateNewestFirst | src/data/gtest-repositories.json.js:298-302 | when every date parses, no selection is placed behind a newer one |
| RepositoriesDataset.SortByDateHead | src/data/gtest-repositories.json.js:298-304 | when every date parses, the first selection after sorting has the newest date, the earliest listed among equals |
| RepositoriesDataset.BuildDataset | src/data/gtest-repositories.json.js:250-345 | the top level computes exactly the specified dataset or error |
| RepositoriesDataset.DatasetErrors | src/data/gtest-repositories.json.js:294-296 | a window error exactly when the loop fails; the "no usable artifacts" error, naming every repository and the day limit, exactly when the loop completes with no selection; never a missing-reports error |
| RepositoriesDataset.DatasetPick | src/data/gtest-repositories.json.js:298-332 | the picked selection is one of the selections and names a target; its raw reports are its platform map and have all three platforms; it is the newest selection, the earliest listed among equals, and, over the repositories, the selection of one whose date no repository's selection exceeds and every earlier repository's selection is strictly older |
| RepositoriesDataset.SelectionDated | src/data/gtest-repositories.json.js:186-189 | a repository's selection is a windowed commit, so its author date parsed |
| RepositoriesDataset.SelectionsAreDated | src/data/gtest-repositories.json.js:186-189 | every selection of a completed scan has a parsed author date, so the sort never compares an unparseable date |
| RepositoriesDataset.NewestAmongOutcomes | src/data/gtest-repositories.json.js:298-304 | the newest entry of the selection list, earliest among equals, is the newest repository selection, earliest repository among equals |
| RepositoriesDataset.NoUsableArtifactsSpec | src/data/gtest-repositories.json.js:289-296 | the "no usable artifacts" error comes exactly when every repository's window succeeds and none of their windowed commits has reports for all three platforms |
| RepositoriesDataset.FinalSummarySpec | src/data/gtest-repositories.json.js:332-345 | the rows are the three platforms' performance rows in order; the summary has three entries, Linux, Windows, macOS, each agreeing with the per-commit summary of that platform and copying its timestamp |
| RepositoriesDataset.DatasetSummary | src/data/gtest-repositories.json.js:323-345 | a successful dataset lists every repository's scan record in order, has all three platforms, its rows and its three-entry summary as above |
| SingleCommitRun.FetchCommitAndActionsData | src/data/gtest-run-22392812167.json.js:93-169 | the fetch computes exactly the specified data or error |
| SingleCommitRun.FetchDataSpec | src/data/gtest-run-22392812167.json.js:100-168 | commit not found exactly when the sha is absent; no runs exactly when found with an empty run list; no artifacts, naming the chosen run, exactly when its artifact list is empty; otherwise the first commit with the sha, all runs, the chosen run, its artifact summaries and its platform map |
| SingleCommitRun.FallbackReports | src/data/gtest-run-22392812167.json.js:177-183 | the fallback map has all three platforms, each holding its snapshot |
| SingleCommitRun.BuildRunDataset | src/data/gtest-run-22392812167.json.js:185-220 | the top level computes exactly the specified dataset or error |
| SingleCommitRun.RunDatasetErrors | src/data/gtest-run-22392812167.json.js:190-205 | an error exactly when the fetch succeeded without all three platforms, listing exactly the missing ones in order; the fallback mode and its snapshots exactly when the fetch failed |
| SingleCommitRun.RunDatasetSummary | src/data/gtest-run-22392812167.json.js:207-220 | three summary entries, Linux, Windows, macOS, copying tests, failures, errors and timestamp and parsing the time; the rows are every test case of the three platforms in order, and each platform's rows are its own |
| SingleCommitRun.PerformanceRowsOfAllRows | src/data/gtest-run-22392812167.json.js:33-44 | filtering the unfiltered rows by the performance rule gives the rows the repository loader emits |

## Left out

- GitHub requests, `paginate` and their failures are not modelled. The `Hosting` and `RunHosting` inputs answer every request. A failed request in the single-commit loader is an absent service (`None`).
- Zip decompression, `jsonFile.async` and `JSON.parse` of arbitrary text are not modelled. Each archive entry carries the outcome of parsing it: unparseable, or a document whose `tests` and `testsuites` fields are told apart by type.
- `parseBaseCommitMap` is not modelled. The baseline map is a parameter from repository key to sha, so non-string values in a parsed object are not represented.
- `process.env` defaults are not modelled, including a `MAX_COMMIT_AGE_DAYS` that parses to `NaN`. The repository list text, the baseline map and the day limit are parameters.
- `Date.now` is the parameter `now`, one instant for the whole scan. The source reads `Date.now` once per repository (src/data/gtest-repositories.json.js:184, inside the loop at :253), so later repositories get later cutoffs. The model gives every repository the cutoff of that one instant, and ScanAllSpec, DatasetPick and NoUsableArtifactsSpec are stated under it. `Date.parse` is represented by its result, `Option<int>`, and date-string parsing is not modelled.
- `fs.readFile` of the three snapshot files is not modelled. The snapshot documents are a parameter.
- The JSON output (`process.stdout.write`, `JSON.stringify`, `fetchedAt`) and `console.error` are not modelled. The output is the `Dataset` and `RunDataset` values.
- `summarizeRun`, a field-by-field copy, is not modelled. Runs are kept as the fields the choice reads.
- `src/data/gtest-utility.json.js` is not part of this model. It only sets environment defaults and imports the repository loader.
- Durations.ParseTimeToMilliseconds: durations are exact reals, not IEEE doubles, so rounding, overflow to `Infinity` and the text "Infinity" (which the model reads as 0) are not modelled.
- Strings.ToLower and Strings.ToUpper map only ASCII letters, not full Unicode case mapping.
- RepositoriesDataset.SortByDate is a stable insertion sort on a value, not an in-place array sort. Its order lemmas assume every date parses, because the source's comparator returns 0 for an unparseable date and is then not a consistent ordering. In this loader that case cannot arise: the window keeps only commits with a parsed date (src/data/gtest-repositories.json.js:186-189), and `RepositoriesDataset.SelectionsAreDated` proves every selection dated.
- Report documents are assumed to be well formed: `testsuites`, when present, is an array of objects, each with `testsuite` absent or an array of objects. A suite's `name` and a test's `name`, `result` and `time` are strings or absent. The model has no `null` name, which the source prints as "null" in the full name and emits as `null` (src/data/gtest-run-22392812167.json.js:37-39, src/data/gtest-repositories.json.js:76-78). It also has no numeric `time`, which the source converts with `String(value)` (src/data/gtest-repositories.json.js:44, src/data/gtest-run-22392812167.json.js:18). The source throws a `TypeError` otherwise (src/data/gtest-run-22392812167.json.js:34-35, src/data/gtest-repositories.json.js:71-72). Reports read from artifacts have an array `testsuites`, but a fallback snapshot is not checked (src/data/gtest-run-22392812167.json.js:172-183). The model reads a missing `testsuites` as no rows, as the source does, and also a non-array one, where the source throws; the throw is not modelled.
- The `!buildRun` branch at src/data/gtest-repositories.json.js:205 cannot be taken. `pickBuildRun` returns a run for every non-empty list, so the model has no such branch.
- Reports.MeanTotal is defined for at most three platforms, the most a platform map can hold. The model divides by 1, 2 or 3 explicitly.
