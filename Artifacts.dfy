/**
  The artifact resolver: `readArtifactZipJson`, which keeps the report
  documents of one downloaded archive, and the loop of
  `fetchActionsForCommit` that files those reports by platform.

  Downloading and unzipping are not modelled: an artifact carries its
  archive as a list of entries, each with the outcome of `JSON.parse`.
 */
module Artifacts {
  import opened Common
  import opened Strings
  import opened Platforms
  import opened Reports

  /** What `JSON.parse` made of an archive entry's text. */
  datatype ParseOutcome = Unparseable | Parsed(doc: Document)

  /** One entry of an artifact's zip archive, in the archive's order. */
  datatype Entry = Entry(name: string, isDir: bool, content: ParseOutcome)

  /** `{ fileName, parsed }` as `readArtifactZipJson` returns it. */
  datatype ReportFile = ReportFile(fileName: string, parsed: Document)

  /** The artifact metadata the listing returns and the summaries copy. */
  datatype ArtifactInfo = ArtifactInfo(
    id: int,
    name: string,
    sizeInBytes: int,
    expired: bool,
    createdAt: string,
    updatedAt: string,
    archiveDownloadUrl: string)

  datatype Artifact = Artifact(info: ArtifactInfo, archive: seq<Entry>)

  /** The summaries of `artifacts`, in listing order. */
  function Infos(artifacts: seq<Artifact>): (r: seq<ArtifactInfo>)
    ensures |r| == |artifacts| && forall k :: 0 <= k < |artifacts| ==> r[k] == artifacts[k].info
  {
    seq(|artifacts|, k requires 0 <= k < |artifacts| => artifacts[k].info)
  }

  /** A file entry whose name ends in ".json", in any case. */
  predicate IsJsonEntry(e: Entry)
  {
    !e.isDir && EndsWith(ToLower(e.name), ".json")
  }

  /** A JSON entry that parsed into something shaped like a report. */
  predicate IsReportEntry(e: Entry)
  {
    IsJsonEntry(e) && e.content.Parsed? && IsReportShape(e.content.doc)
  }

  /** What one JSON entry contributes to the list of reports. */
  function ReportOf(e: Entry): seq<ReportFile>
  {
    if e.content.Parsed? && IsReportShape(e.content.doc) then [ReportFile(e.name, e.content.doc)] else []
  }

  /** The reports the loop over `jsonFiles` pushes, in order. */
  function CollectReports(files: seq<Entry>): seq<ReportFile>
  {
    if files == [] then [] else CollectReports(files[..|files| - 1]) + ReportOf(files[|files| - 1])
  }

  /**
    `readArtifactZipJson` after the download: the JSON entries of the
    archive, each kept when it parsed into a report; other entries are
    skipped without an error.
   */
  method ReadArtifactReports(archive: seq<Entry>) returns (reports: seq<ReportFile>)
    ensures reports == CollectReports(Filter(archive, IsJsonEntry))
  {
    var jsonFiles := Filter(archive, IsJsonEntry);
    reports := [];
    var i := 0;
    while i < |jsonFiles|
      invariant 0 <= i <= |jsonFiles|
      invariant reports == CollectReports(jsonFiles[..i])
    {
      var jsonFile := jsonFiles[i];
      match jsonFile.content {
        case Unparseable =>
        case Parsed(parsed) =>
          if IsReportShape(parsed) {
            reports := reports + [ReportFile(jsonFile.name, parsed)];
          }
      }
      CollectReportsStep(jsonFiles, i);
      i := i + 1;
    }
    assert jsonFiles[..i] == jsonFiles;
  }

  /** One more entry adds what that entry contributes. */
  lemma CollectReportsStep(files: seq<Entry>, i: nat)
    requires i < |files|
    ensures CollectReports(files[..i + 1]) == CollectReports(files[..i]) + ReportOf(files[i])
  {
    assert files[..i + 1][..i] == files[..i];
  }

  lemma {:induction false} CollectReportsFrom(files: seq<Entry>)
    ensures forall e :: e in files && e.content.Parsed? && IsReportShape(e.content.doc) ==>
      ReportFile(e.name, e.content.doc) in CollectReports(files)
  {
    if files != [] {
      var init := files[..|files| - 1];
      CollectReportsFrom(init);
      assert files == init + [files[|files| - 1]];
    }
  }

  /**
    The reports of an archive are exactly its JSON entries that parsed into
    report-shaped documents, each with that entry's name: every report
    comes from such an entry and every such entry gives a report.
   */
  lemma ReportsOfArchive(archive: seq<Entry>)
    ensures var reports := CollectReports(Filter(archive, IsJsonEntry));
      && (forall r :: r in reports ==>
            (IsReportShape(r.parsed)
             && exists e :: e in archive && IsJsonEntry(e) && e.name == r.fileName && e.content == Parsed(r.parsed)))
      && (forall e :: e in archive && IsReportEntry(e) ==> ReportFile(e.name, e.content.doc) in reports)
  {
    var files := Filter(archive, IsJsonEntry);
    CollectShape(files);
    CollectReportsFrom(files);
  }

  lemma {:induction false} CollectShape(files: seq<Entry>)
    ensures forall r :: r in CollectReports(files) ==>
      IsReportShape(r.parsed) && exists e :: e in files && e.name == r.fileName && e.content == Parsed(r.parsed)
  {
    if files != [] {
      var init := files[..|files| - 1];
      CollectShape(init);
      assert forall e :: e in init ==> e in files;
    }
  }

  /** Where a report is filed: the artifact's platform if its name has one, else the file's. */
  function EffectivePlatform(artifactName: string, fileName: string): (r: Option<Platform>)
    ensures DetectPlatform(artifactName).Some? ==> r == DetectPlatform(artifactName)
    ensures DetectPlatform(artifactName).None? ==> r == DetectPlatform(fileName)
  {
    match DetectPlatform(artifactName)
    case Some(p) => Some(p)
    case None => DetectPlatform(fileName)
  }

  /** A report together with the platform it is filed under, if any. */
  datatype Candidate = Candidate(platform: Option<Platform>, report: Document)

  /** The candidates of reports read from an artifact named `artifactName`, in order. */
  function ReportCandidates(artifactName: string, reports: seq<ReportFile>): (c: seq<Candidate>)
  {
    seq(|reports|, k requires 0 <= k < |reports| =>
      Candidate(EffectivePlatform(artifactName, reports[k].fileName), reports[k].parsed))
  }

  /** The candidates of one artifact, in the order of its reports. */
  function ArtifactCandidates(a: Artifact): (c: seq<Candidate>)
  {
    ReportCandidates(a.info.name, CollectReports(Filter(a.archive, IsJsonEntry)))
  }

  /** The candidates of all artifacts, artifact by artifact. */
  function Candidates(artifacts: seq<Artifact>): seq<Candidate>
  {
    if artifacts == [] then []
    else Candidates(artifacts[..|artifacts| - 1]) + ArtifactCandidates(artifacts[|artifacts| - 1])
  }

  /** `reportsByPlatform.set(platform, parsed)` for each candidate with a platform, in order. */
  function FoldReports(m: map<Platform, Document>, c: seq<Candidate>): map<Platform, Document>
  {
    if c == [] then m
    else
      var prev := FoldReports(m, c[..|c| - 1]);
      var last := c[|c| - 1];
      if last.platform.Some? then prev[last.platform.value := last.report] else prev
  }

  /** The platform map one commit's build run yields. */
  function PlatformMap(artifacts: seq<Artifact>): map<Platform, Document>
  {
    FoldReports(map[], Candidates(artifacts))
  }

  lemma {:induction false} FoldAppend(m: map<Platform, Document>, c1: seq<Candidate>, c2: seq<Candidate>)
    ensures FoldReports(m, c1 + c2) == FoldReports(FoldReports(m, c1), c2)
  {
    if c2 == [] {
      assert c1 + c2 == c1;
    } else {
      assert (c1 + c2)[..|c1 + c2| - 1] == c1 + c2[..|c2| - 1];
      FoldAppend(m, c1, c2[..|c2| - 1]);
    }
  }

  lemma CandidatesStep(artifacts: seq<Artifact>, i: nat)
    requires i < |artifacts|
    ensures Candidates(artifacts[..i + 1]) == Candidates(artifacts[..i]) + ArtifactCandidates(artifacts[i])
  {
    assert artifacts[..i + 1][..i] == artifacts[..i];
  }

  lemma FoldStep(m: map<Platform, Document>, c: seq<Candidate>, j: nat)
    requires j < |c|
    ensures FoldReports(m, c[..j + 1])
         == if c[j].platform.Some? then FoldReports(m, c[..j])[c[j].platform.value := c[j].report]
            else FoldReports(m, c[..j])
  {
    assert c[..j + 1][..j] == c[..j];
  }

  /** A platform is in the folded map exactly when it was there before or some candidate is filed under it. */
  lemma {:induction false} FoldMembership(m: map<Platform, Document>, c: seq<Candidate>, p: Platform)
    ensures p in FoldReports(m, c) <==> p in m || exists k :: 0 <= k < |c| && c[k].platform == Some(p)
  {
    if c != [] {
      var init := c[..|c| - 1];
      FoldMembership(m, init, p);
      assert forall k :: 0 <= k < |init| ==> init[k] == c[k];
    }
  }

  /** Last write wins: the folded map holds the report of the LAST candidate filed under a platform. */
  lemma {:induction false} FoldLastWriteWins(m: map<Platform, Document>, c: seq<Candidate>, p: Platform, k: nat)
    requires k < |c| && c[k].platform == Some(p)
    requires forall j :: k < j < |c| ==> c[j].platform != Some(p)
    ensures p in FoldReports(m, c) && FoldReports(m, c)[p] == c[k].report
  {
    var init := c[..|c| - 1];
    if k < |c| - 1 {
      FoldLastWriteWins(m, init, p, k);
    }
  }

  /**
    The artifact fold of `fetchActionsForCommit`: a platform has a report
    exactly when some report is filed under it (the platform of its
    artifact's name, else of its file name), and that report is the last
    one filed under it.
   */
  lemma PlatformMapLastWriteWins(artifacts: seq<Artifact>, p: Platform)
    ensures var c := Candidates(artifacts);
      && (p in PlatformMap(artifacts) <==> exists k :: 0 <= k < |c| && c[k].platform == Some(p))
      && forall k :: (0 <= k < |c| && c[k].platform == Some(p)
                      && (forall j :: k < j < |c| ==> c[j].platform != Some(p)))
                     ==> PlatformMap(artifacts)[p] == c[k].report
  {
    var c := Candidates(artifacts);
    FoldMembership(map[], c, p);
    forall k | 0 <= k < |c| && c[k].platform == Some(p) && (forall j :: k < j < |c| ==> c[j].platform != Some(p))
      ensures PlatformMap(artifacts)[p] == c[k].report
    {
      FoldLastWriteWins(map[], c, p, k);
    }
  }

  /**
    The inner loop of `fetchActionsForCommit`: each report of one artifact
    is filed under the artifact's platform, else under its file's platform,
    and skipped when neither names one.
   */
  method FileReports(m: map<Platform, Document>, artifactName: string, reportFiles: seq<ReportFile>)
    returns (reportsByPlatform: map<Platform, Document>)
    ensures reportsByPlatform == FoldReports(m, ReportCandidates(artifactName, reportFiles))
  {
    var artifactPlatform := DetectPlatform(artifactName);
    ghost var cands := ReportCandidates(artifactName, reportFiles);
    reportsByPlatform := m;
    var j := 0;
    while j < |reportFiles|
      invariant 0 <= j <= |reportFiles| == |cands|
      invariant reportsByPlatform == FoldReports(m, cands[..j])
    {
      var platform := if artifactPlatform.Some? then artifactPlatform else DetectPlatform(reportFiles[j].fileName);
      assert cands[j] == Candidate(platform, reportFiles[j].parsed);
      FoldStep(m, cands, j);
      if platform.Some? {
        reportsByPlatform := reportsByPlatform[platform.value := reportFiles[j].parsed];
      }
      j := j + 1;
    }
    assert cands[..j] == cands;
  }

  /**
    The loop over artifacts in `fetchActionsForCommit`: summaries of every
    artifact in listing order, and each report filed by platform.
   */
  method FoldArtifacts(artifacts: seq<Artifact>) returns (reportsByPlatform: map<Platform, Document>, summaries: seq<ArtifactInfo>)
    ensures reportsByPlatform == PlatformMap(artifacts)
    ensures summaries == Infos(artifacts)
  {
    reportsByPlatform := map[];
    summaries := [];
    var i := 0;
    while i < |artifacts|
      invariant 0 <= i <= |artifacts|
      invariant reportsByPlatform == FoldReports(map[], Candidates(artifacts[..i]))
      invariant |summaries| == i
      invariant forall k :: 0 <= k < i ==> summaries[k] == artifacts[k].info
    {
      var artifact := artifacts[i];
      summaries := summaries + [artifact.info];
      assert forall k :: 0 <= k < i + 1 ==> summaries[k] == artifacts[k].info;
      var reportFiles := ReadArtifactReports(artifact.archive);
      reportsByPlatform := FileReports(reportsByPlatform, artifact.info.name, reportFiles);
      CandidatesStep(artifacts, i);
      FoldAppend(map[], Candidates(artifacts[..i]), ArtifactCandidates(artifact));
      i := i + 1;
    }
    assert artifacts[..i] == artifacts;
    assert summaries == Infos(artifacts);
  }
}
