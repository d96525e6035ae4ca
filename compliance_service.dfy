/**
 * The data-lake service object: its clients, the three per-process caches
 * (file listings, recent listing failures, dashboard summaries), the file
 * listing across search paths and the dashboard summary built from the
 * listed files.
 *
 * The storage account is a parameter (`Storage`): what each path listing,
 * blob listing and download returns at call time. Clock readings are the
 * `now` parameters, in whole seconds.
 */
module ComplianceService {
  import opened Wrappers
  import opened Text
  import opened Decimal
  import opened ComplianceRows
  import opened ComplianceListing

  /** `(user_id, organization_id)` */
  type CacheKey = (Option<int>, Option<int>)

  /** How the data-lake path listing of one directory ends. */
  datatype PathEnd =
    | Completed
    | UnsupportedFeatures   // raises: the account does not support path operations
    | OtherError            // raises any other error (a timeout on a later page, say)

  /** What the data-lake path listing of one directory does: the entries it yields before it ends. */
  datatype PathOutcome = PathOutcome(items: seq<PathItem>, end: PathEnd)

  /** The storage account as seen during one call. */
  datatype Storage = Storage(
    paths: string -> PathOutcome,               // by search path
    blobs: string -> Option<seq<BlobItem>>,     // by blob prefix; None when the listing raises
    contents: string -> Download)               // by object path

  /** The inputs of one listing pass. */
  datatype ListingSetup = ListingSetup(hasAdls: bool, hasBlob: bool, maxBlobs: int, storage: Storage)

  /** The Blob listing of one search path. */
  function BlobFiles(s: ListingSetup, path: string): seq<FileInfo> {
    BlobListing(s.hasBlob, s.storage.blobs(BlobPrefix(path)), s.maxBlobs)
  }

  /**
   * The entries one search path contributes, in merge order: the path
   * entries yielded before the listing ended, followed by the Blob listing
   * when it raised the "unsupported account features" error; the Blob
   * listing alone without a data-lake client.
   */
  function PathFiles(s: ListingSetup, path: string): seq<FileInfo> {
    if s.hasAdls then
      var o := s.storage.paths(path);
      PathEntries(o.items) + (if o.end == UnsupportedFeatures then BlobFiles(s, path) else [])
    else BlobFiles(s, path)
  }

  /** The listing raised another error: the `continue` also skips the early-stop test. */
  predicate BypassesStop(s: ListingSetup, path: string) {
    s.hasAdls && s.storage.paths(path).end == OtherError
  }

  /**
   * What one search path contributes: every entry the data-lake listing
   * yielded, even when it then raised; the Blob listing exactly when the
   * listing raised the "unsupported account features" error; and the Blob
   * listing alone without a data-lake client.
   */
  lemma PathFilesSpec(s: ListingSetup, path: string)
    ensures s.hasAdls ==> var o := s.storage.paths(path);
      && Paths(PathFiles(s, path)) == Paths(PathEntries(o.items)) + (if o.end == UnsupportedFeatures then Paths(BlobFiles(s, path)) else {})
      && (o.end != UnsupportedFeatures ==> PathFiles(s, path) == PathEntries(o.items))
    ensures !s.hasAdls ==> PathFiles(s, path) == BlobFiles(s, path)
  {
    if s.hasAdls {
      var o := s.storage.paths(path);
      var tail := if o.end == UnsupportedFeatures then BlobFiles(s, path) else [];
      PathsAppend(PathEntries(o.items), tail);
      assert PathEntries(o.items) + [] == PathEntries(o.items);
    }
  }

  /** The paths of two listings side by side. */
  lemma PathsAppend(a: seq<FileInfo>, b: seq<FileInfo>)
    ensures Paths(a + b) == Paths(a) + Paths(b)
  {
    forall p | p in Paths(a + b) ensures p in Paths(a) + Paths(b) {
      var k :| 0 <= k < |a + b| && (a + b)[k].filePath == p;
      if k >= |a| {
        assert (a + b)[k] == b[k - |a|];
      }
    }
    forall p | p in Paths(a) + Paths(b) ensures p in Paths(a + b) {
      if p in Paths(a) {
        var k :| 0 <= k < |a| && a[k].filePath == p;
        assert (a + b)[k] == a[k];
      } else {
        var k :| 0 <= k < |b| && b[k].filePath == p;
        assert (a + b)[|a| + k] == b[k];
      }
    }
  }

  /** The loop over search paths (lines 189-230): merge by path, stop at the first hit when asked to. */
  function Collect(s: ListingSetup, acc: seq<FileInfo>, paths: seq<string>, stopEarly: bool): seq<FileInfo>
    decreases |paths|
  {
    if paths == [] then acc
    else
      var merged := UpsertAll(acc, PathFiles(s, paths[0]));
      if !BypassesStop(s, paths[0]) && merged != [] && stopEarly then merged else Collect(s, merged, paths[1..], stopEarly)
  }

  predicate AllWellFormed(fs: seq<FileInfo>) {
    forall k :: 0 <= k < |fs| ==> WellFormed(fs[k])
  }

  lemma PathFilesWellFormed(s: ListingSetup, path: string)
    ensures AllWellFormed(PathFiles(s, path))
  {
    var blobs := BlobFiles(s, path);
    if s.hasAdls {
      var o := s.storage.paths(path);
      var entries := PathEntries(o.items);
      var tail := if o.end == UnsupportedFeatures then blobs else [];
      PathEntriesWellFormed(o.items);
      assert PathFiles(s, path) == entries + tail;
      forall k | 0 <= k < |entries + tail| ensures WellFormed((entries + tail)[k]) {
        if k >= |entries| {
          assert (entries + tail)[k] == tail[k - |entries|];
        }
      }
    }
  }

  /** Every listing is a set of distinct result files. */
  lemma {:induction false} CollectWellFormed(s: ListingSetup, acc: seq<FileInfo>, paths: seq<string>, stopEarly: bool)
    requires DistinctPaths(acc) && AllWellFormed(acc)
    ensures DistinctPaths(Collect(s, acc, paths, stopEarly))
    ensures AllWellFormed(Collect(s, acc, paths, stopEarly))
    decreases |paths|
  {
    if paths != [] {
      var news := PathFiles(s, paths[0]);
      PathFilesWellFormed(s, paths[0]);
      UpsertAllWellFormed(acc, news);
      UpsertAllSpec(acc, news);
      CollectWellFormed(s, UpsertAll(acc, news), paths[1..], stopEarly);
    }
  }

  /**
   * When the most specific path yields files without raising an ordinary
   * error and the search stops early, only that path is used.
   */
  lemma FirstHitWins(s: ListingSetup, paths: seq<string>)
    requires paths != [] && !BypassesStop(s, paths[0]) && PathFiles(s, paths[0]) != []
    ensures Collect(s, [], paths, true) == UpsertAll([], PathFiles(s, paths[0]))
  {
    var news := PathFiles(s, paths[0]);
    UpsertAllSpec([], news);
    assert news[0].filePath in Paths(UpsertAll([], news));
  }

  /** Every listed path comes from some search path's listing. */
  lemma {:induction false} CollectFromListings(s: ListingSetup, acc: seq<FileInfo>, paths: seq<string>, stopEarly: bool, p: string)
    requires p in Paths(Collect(s, acc, paths, stopEarly))
    ensures p in Paths(acc) || exists k :: 0 <= k < |paths| && p in Paths(PathFiles(s, paths[k]))
    decreases |paths|
  {
    if paths != [] {
      var news := PathFiles(s, paths[0]);
      var merged := UpsertAll(acc, news);
      UpsertAllSpec(acc, news);
      if BypassesStop(s, paths[0]) || !(merged != [] && stopEarly) {
        assert Collect(s, acc, paths, stopEarly) == Collect(s, merged, paths[1..], stopEarly);
        CollectFromListings(s, merged, paths[1..], stopEarly, p);
        if !(p in Paths(merged)) {
          var k :| 0 <= k < |paths[1..]| && p in Paths(PathFiles(s, paths[1..][k]));
          assert paths[k + 1] == paths[1..][k];
        }
      }
    }
  }

  /** The search never loses a file it has already merged. */
  lemma {:induction false} CollectKeepsAcc(s: ListingSetup, acc: seq<FileInfo>, paths: seq<string>, stopEarly: bool, p: string)
    requires p in Paths(acc)
    ensures p in Paths(Collect(s, acc, paths, stopEarly))
    decreases |paths|
  {
    if paths != [] {
      var news := PathFiles(s, paths[0]);
      UpsertAllSpec(acc, news);
      CollectKeepsAcc(s, UpsertAll(acc, news), paths[1..], stopEarly, p);
    }
  }

  /** A search path that contributed no entry. */
  predicate NoFiles(s: ListingSetup, path: string) {
    PathFiles(s, path) == []
  }

  /**
   * Every file a search path contributes is merged, provided the search
   * reaches that path: always when it does not stop early, and otherwise
   * when every earlier path contributed nothing.
   */
  lemma {:induction false} CollectKeepsListed(s: ListingSetup, acc: seq<FileInfo>, paths: seq<string>, stopEarly: bool,
                                              k: nat, p: string)
    requires k < |paths| && p in Paths(PathFiles(s, paths[k]))
    requires stopEarly ==> acc == [] && forall j :: 0 <= j < k ==> NoFiles(s, paths[j])
    ensures p in Paths(Collect(s, acc, paths, stopEarly))
    decreases |paths|
  {
    var tail := paths[1..];
    if k == 0 {
      var next := UpsertAll(acc, PathFiles(s, paths[0]));
      UpsertAllSpec(acc, PathFiles(s, paths[0]));
      CollectUnfold(s, acc, paths, stopEarly);
      if BypassesStop(s, paths[0]) || !(next != [] && stopEarly) {
        CollectKeepsAcc(s, next, tail, stopEarly, p);
      }
    } else {
      assert tail[k - 1] == paths[k];
      if stopEarly {
        CollectPastEmpty(s, paths, stopEarly);
        forall j | 0 <= j < k - 1 ensures NoFiles(s, tail[j]) {
          assert tail[j] == paths[j + 1];
        }
        CollectKeepsListed(s, [], tail, stopEarly, k - 1, p);
      } else {
        CollectNoStop(s, acc, paths);
        CollectKeepsListed(s, UpsertAll(acc, PathFiles(s, paths[0])), tail, stopEarly, k - 1, p);
      }
    }
  }

  /** A path contributing nothing to an empty merge leaves the search to the next path. */
  lemma CollectPastEmpty(s: ListingSetup, paths: seq<string>, stopEarly: bool)
    requires paths != [] && NoFiles(s, paths[0])
    ensures Collect(s, [], paths, stopEarly) == Collect(s, [], paths[1..], stopEarly)
  {
    assert UpsertAll([], PathFiles(s, paths[0])) == [];
  }

  /** Without the early stop every search path is merged in turn. */
  lemma CollectNoStop(s: ListingSetup, acc: seq<FileInfo>, paths: seq<string>)
    requires paths != []
    ensures Collect(s, acc, paths, false) == Collect(s, UpsertAll(acc, PathFiles(s, paths[0])), paths[1..], false)
  {
  }

  // ---------------------------------------------------------------------
  // Dashboard values

  /** One entry of `file_summaries`. */
  datatype FileSummary = FileSummary(
    fileName: string,
    framework: string,
    compliancyRate: real,
    overallStatus: Band,
    totalRequirements: nat,
    completeCount: nat,
    needsReviewCount: nat,
    missingCount: nat,
    lastUpdated: Option<int>,
    frameworks: seq<FrameworkEntry>)

  datatype Connection = ConnectedFilesFound | ConnectedNoFiles | NotConnected | ConnectionError

  datatype Dashboard = Dashboard(
    totalFiles: nat,
    avgCompliancyRate: real,
    totalRequirements: nat,
    totalComplete: nat,
    totalNeedsReview: nat,
    totalMissing: nat,
    lastUpdated: Option<int>,
    fileSummaries: seq<FileSummary>,
    connectionStatus: Connection,
    adlsPath: string)

  const AccountName := "cenarisblobstorage"

  function AdlsPath(container: string, resultsPath: string): string {
    "abfss://" + container + "@" + AccountName + ".dfs.core.windows.net/" + resultsPath + "/"
  }

  /** The dashboard with no files: every figure zero, stamped `now`. */
  function EmptyDashboard(status: Connection, now: int, adlsPath: string): Dashboard {
    Dashboard(0, 0.0, 0, 0, 0, 0, Some(now), [], status, adlsPath)
  }

  /** `get_file_analysis_summary` over the account's contents, as a function of the file path. */
  function Analyzer(contents: string -> Download, parse: FloatParser): string -> FileAnalysis {
    p => FileAnalysisSummary(p, contents(p), parse)
  }

  predicate CountsFit(s: Summary) {
    s.completeCount + s.needsReviewCount + s.missingCount <= s.totalRequirements
  }

  /** Every analysis has its status counts within its requirement count. */
  ghost predicate SoundAnalyzer(analyze: string -> FileAnalysis) {
    forall p :: CountsFit(analyze(p).summary)
  }

  lemma AnalyzerSound(contents: string -> Download, parse: FloatParser)
    ensures SoundAnalyzer(Analyzer(contents, parse))
  {
    forall p ensures CountsFit(Analyzer(contents, parse)(p).summary) {
      var a := FileAnalysisSummary(p, contents(p), parse);
      if a.requirements != [] { SummaryOfRows(a.requirements); }
    }
  }

  /** The dashboard entry for one listed file, from its analysis. */
  function SummaryFor(f: FileInfo, analyze: string -> FileAnalysis): (e: FileSummary)
    ensures e.lastUpdated == f.lastModified && e.framework == f.framework
    ensures e.fileName == analyze(f.filePath).fileName
    ensures CountsFit(analyze(f.filePath).summary) ==> e.completeCount + e.needsReviewCount + e.missingCount <= e.totalRequirements
  {
    var a := analyze(f.filePath);
    var s := a.summary;
    FileSummary(a.fileName, f.framework, s.compliancyRate, s.overallStatus, s.totalRequirements,
                s.completeCount, s.needsReviewCount, s.missingCount, f.lastModified, s.frameworks)
  }

  /** The per-file counts that the dashboard adds up. */
  datatype Count = Requirements | Complete | NeedsReview | Missing

  function CountOf(e: FileSummary, c: Count): nat {
    match c
    case Requirements => e.totalRequirements
    case Complete => e.completeCount
    case NeedsReview => e.needsReviewCount
    case Missing => e.missingCount
  }

  /** The entries for the selected files, in order. */
  function Summaries(selected: seq<FileInfo>, analyze: string -> FileAnalysis): (es: seq<FileSummary>)
    ensures |es| == |selected|
    decreases |selected|
  {
    if selected == [] then []
    else Summaries(selected[..|selected| - 1], analyze) + [SummaryFor(selected[|selected| - 1], analyze)]
  }

  /** Entry `k` summarises selected file `k`. */
  lemma {:induction false} SummariesSpec(selected: seq<FileInfo>, analyze: string -> FileAnalysis)
    ensures forall k :: 0 <= k < |selected| ==> Summaries(selected, analyze)[k] == SummaryFor(selected[k], analyze)
    decreases |selected|
  {
    if selected != [] {
      var init := selected[..|selected| - 1];
      SummariesSpec(init, analyze);
      assert forall k :: 0 <= k < |init| ==> init[k] == selected[k];
    }
  }

  function SumOf(es: seq<FileSummary>, c: Count): nat
    decreases |es|
  {
    if es == [] then 0 else SumOf(es[..|es| - 1], c) + CountOf(es[|es| - 1], c)
  }

  function SumRates(es: seq<FileSummary>): real
    decreases |es|
  {
    if es == [] then 0.0 else SumRates(es[..|es| - 1]) + es[|es| - 1].compliancyRate
  }

  /** Across files the three status totals never exceed the requirement total. */
  lemma {:induction false} TotalsBounded(es: seq<FileSummary>)
    requires forall k :: 0 <= k < |es| ==> es[k].completeCount + es[k].needsReviewCount + es[k].missingCount <= es[k].totalRequirements
    ensures SumOf(es, Complete) + SumOf(es, NeedsReview) + SumOf(es, Missing)
            <= SumOf(es, Requirements)
    decreases |es|
  {
    if es != [] {
      TotalsBounded(es[..|es| - 1]);
    }
  }

  /**
   * `max(last_updated of every entry)`: one entry is returned as it is; with
   * two or more, a missing time cannot be compared and the call raises.
   */
  function MaxLastUpdated(stamps: seq<Option<int>>): Result<Option<int>, string>
    requires stamps != []
    decreases |stamps|
  {
    if |stamps| == 1 then Ok(stamps[0])
    else
      match MaxLastUpdated(stamps[..|stamps| - 1])
      case Err(e) => Err(e)
      case Ok(m) =>
        var last := stamps[|stamps| - 1];
        if m.None? || last.None? then Err("TypeError: '>' not supported")
        else Ok(Some(if last.value > m.value then last.value else m.value))
  }

  /** The maximum raises exactly when there are several times and one is missing; otherwise it is the latest time. */
  lemma {:induction false} MaxLastUpdatedSpec(stamps: seq<Option<int>>)
    requires stamps != []
    ensures MaxLastUpdated(stamps).Err? <==> |stamps| >= 2 && exists k :: 0 <= k < |stamps| && stamps[k].None?
    ensures MaxLastUpdated(stamps).Ok? && |stamps| >= 2 ==>
              && MaxLastUpdated(stamps).value.Some?
              && (forall k :: 0 <= k < |stamps| ==> stamps[k].value <= MaxLastUpdated(stamps).value.value)
              && (exists k :: 0 <= k < |stamps| && stamps[k] == MaxLastUpdated(stamps).value)
    decreases |stamps|
  {
    if |stamps| >= 2 {
      var init := stamps[..|stamps| - 1];
      MaxLastUpdatedSpec(init);
      assert forall k :: 0 <= k < |init| ==> init[k] == stamps[k];
      if |init| == 1 {
        assert init[0] == stamps[0];
      }
      if MaxLastUpdated(stamps).Ok? {
        var m := MaxLastUpdated(init).value;
        if |init| >= 2 {
          var k :| 0 <= k < |init| && init[k] == m;
          assert stamps[k] == m;
        }
      }
    }
  }

  /** The dashboard for a non-empty listing, or the error text when taking the latest time raises. */
  function FilledDashboard(selected: seq<FileSummary>, totalFiles: nat, adlsPath: string): Result<Dashboard, string>
    requires selected != []
  {
    var stamps := seq(|selected|, k requires 0 <= k < |selected| => selected[k].lastUpdated);
    match MaxLastUpdated(stamps)
    case Err(e) => Err(e)
    case Ok(latest) =>
      Ok(Dashboard(totalFiles, SumRates(selected) / (|selected| as real),
                   SumOf(selected, Requirements), SumOf(selected, Complete),
                   SumOf(selected, NeedsReview), SumOf(selected, Missing),
                   latest, selected, ConnectedFilesFound, adlsPath))
  }

  /** The dashboard computed from a fresh listing (lines 462-543, with the handler at 550-563). */
  function DashboardFor(files: seq<FileInfo>, maxFiles: int, analyze: string -> FileAnalysis,
                        now: int, adlsPath: string, hasAdls: bool): Dashboard
  {
    if files == [] then EmptyDashboard(if hasAdls then ConnectedNoFiles else NotConnected, now, adlsPath)
    else
      var selected := SelectFiles(SortDesc(files), maxFiles);
      SelectFilesSpec(files, maxFiles);
      var entries := Summaries(selected, analyze);
      match FilledDashboard(entries, |files|, adlsPath)
      case Err(_) => EmptyDashboard(ConnectionError, now, adlsPath)
      case Ok(d) => d
  }

  /** What every dashboard satisfies: the status totals fit in the requirement total, and no more summaries than files. */
  predicate Sane(d: Dashboard) {
    d.totalComplete + d.totalNeedsReview + d.totalMissing <= d.totalRequirements
    && |d.fileSummaries| <= d.totalFiles
  }

  /**
   * The dashboard of a listing: no files gives the all-zero dashboard whose
   * status says whether the data-lake client exists; otherwise at least one
   * and at most max(1, maxFiles) files are summarised, totals add up over
   * them, the average is their mean rate, and the latest time is taken
   * unless that comparison raises, which gives the all-zero error dashboard.
   */
  lemma DashboardForSpec(files: seq<FileInfo>, maxFiles: int, analyze: string -> FileAnalysis,
                         now: int, adlsPath: string, hasAdls: bool)
    requires SoundAnalyzer(analyze)
    ensures var d := DashboardFor(files, maxFiles, analyze, now, adlsPath, hasAdls);
      && Sane(d)
      && (files == [] ==> d.totalFiles == 0 && d.fileSummaries == []
                          && d.connectionStatus == (if hasAdls then ConnectedNoFiles else NotConnected))
      && (d.connectionStatus == ConnectedFilesFound ==>
            && d.totalFiles == |files| > 0
            && d.fileSummaries == Summaries(SelectFiles(SortDesc(files), maxFiles), analyze)
            && 1 <= |d.fileSummaries| <= (if maxFiles > 1 then maxFiles else 1)
            && d.totalRequirements == SumOf(d.fileSummaries, Requirements)
            && d.totalComplete == SumOf(d.fileSummaries, Complete)
            && d.totalNeedsReview == SumOf(d.fileSummaries, NeedsReview)
            && d.totalMissing == SumOf(d.fileSummaries, Missing)
            && d.avgCompliancyRate == SumRates(d.fileSummaries) / (|d.fileSummaries| as real))
      && (d.connectionStatus == ConnectionError ==> d == EmptyDashboard(ConnectionError, now, adlsPath))
  {
    if files != [] {
      var selected := SelectFiles(SortDesc(files), maxFiles);
      SelectFilesSpec(files, maxFiles);
      var entries := Summaries(selected, analyze);
      SummariesSpec(selected, analyze);
      forall k | 0 <= k < |entries|
        ensures entries[k].completeCount + entries[k].needsReviewCount + entries[k].missingCount <= entries[k].totalRequirements
      {
        assert CountsFit(analyze(selected[k].filePath).summary);
      }
      FilledDashboardSpec(entries, |files|, adlsPath);
    }
  }

  /** Every dashboard computed from a listing is sane. */
  lemma DashboardForSane(files: seq<FileInfo>, maxFiles: int, analyze: string -> FileAnalysis,
                         now: int, adlsPath: string, hasAdls: bool)
    requires SoundAnalyzer(analyze)
    ensures Sane(DashboardFor(files, maxFiles, analyze, now, adlsPath, hasAdls))
  {
    DashboardForSpec(files, maxFiles, analyze, now, adlsPath, hasAdls);
  }

  /**
   * A filled dashboard adds up the four counts of its entries, averages
   * their rates, and carries the latest of their times; taking that latest
   * time fails exactly when there are several entries and one has no time.
   */
  lemma FilledDashboardSpec(entries: seq<FileSummary>, totalFiles: nat, adlsPath: string)
    requires entries != [] && |entries| <= totalFiles
    requires forall k :: 0 <= k < |entries| ==>
               entries[k].completeCount + entries[k].needsReviewCount + entries[k].missingCount <= entries[k].totalRequirements
    ensures FilledDashboard(entries, totalFiles, adlsPath).Ok? ==>
      var d := FilledDashboard(entries, totalFiles, adlsPath).value;
      && Sane(d) && d.totalFiles == totalFiles && d.fileSummaries == entries
      && d.connectionStatus == ConnectedFilesFound
      && d.totalRequirements == SumOf(entries, Requirements)
      && d.totalComplete == SumOf(entries, Complete)
      && d.totalNeedsReview == SumOf(entries, NeedsReview)
      && d.totalMissing == SumOf(entries, Missing)
      && d.avgCompliancyRate == SumRates(entries) / (|entries| as real)
      && (|entries| == 1 ==> d.lastUpdated == entries[0].lastUpdated)
      && (|entries| >= 2 ==>
            && d.lastUpdated.Some?
            && (forall k :: 0 <= k < |entries| ==> entries[k].lastUpdated.Some? && entries[k].lastUpdated.value <= d.lastUpdated.value)
            && (exists k :: 0 <= k < |entries| && entries[k].lastUpdated == d.lastUpdated))
    ensures FilledDashboard(entries, totalFiles, adlsPath).Err? <==>
      |entries| >= 2 && exists k :: 0 <= k < |entries| && entries[k].lastUpdated.None?
  {
    var stamps := seq(|entries|, k requires 0 <= k < |entries| => entries[k].lastUpdated);
    MaxLastUpdatedSpec(stamps);
    if FilledDashboard(entries, totalFiles, adlsPath).Ok? {
      TotalsBounded(entries);
    }
  }

  /**
   * One step of `Collect`: the path's entries are merged, and the search
   * stops only when the listing did not raise an ordinary error.
   */
  lemma CollectUnfold(s: ListingSetup, acc: seq<FileInfo>, paths: seq<string>, stopEarly: bool)
    requires paths != []
    ensures var merged := UpsertAll(acc, PathFiles(s, paths[0]));
      Collect(s, acc, paths, stopEarly)
        == if !BypassesStop(s, paths[0]) && merged != [] && stopEarly then merged else Collect(s, merged, paths[1..], stopEarly)
  {
  }

  /**
   * The loop over the search paths, merging each entry as the listing
   * yields it and the Blob fallback listing after an "unsupported account
   * features" error.
   */
  method ListSearchPaths(setup: ListingSetup, searchPaths: seq<string>, stopEarly: bool) returns (files: seq<FileInfo>)
    ensures files == Collect(setup, [], searchPaths, stopEarly)
  {
    files := [];
    var i := 0;
    while i < |searchPaths|
      invariant 0 <= i <= |searchPaths|
      invariant Collect(setup, files, searchPaths[i..], stopEarly) == Collect(setup, [], searchPaths, stopEarly)
    {
      var path := searchPaths[i];
      CollectUnfold(setup, files, searchPaths[i..], stopEarly);
      assert searchPaths[i..][0] == path && searchPaths[i..][1..] == searchPaths[i + 1..];
      if setup.hasAdls {
        var outcome := setup.storage.paths(path);
        var entries := PathEntries(outcome.items);
        ghost var before := files;
        files := UpsertAll(files, entries);
        if outcome.end == UnsupportedFeatures {
          var blobFiles := ListFilesViaBlob(setup.hasBlob, setup.storage.blobs(BlobPrefix(path)), setup.maxBlobs);
          UpsertAllConcat(before, entries, blobFiles);
          files := UpsertAll(files, blobFiles);
        } else {
          assert entries + [] == entries;
          if outcome.end == OtherError {
            i := i + 1;
            continue;
          }
        }
      } else {
        var blobFiles := ListFilesViaBlob(setup.hasBlob, setup.storage.blobs(BlobPrefix(path)), setup.maxBlobs);
        files := UpsertAll(files, blobFiles);
      }
      if files != [] && stopEarly {
        return;
      }
      i := i + 1;
    }
  }

  /** The selected files' entries and their totals (the loop at lines 509-528). */
  method SummarizeFiles(selected: seq<FileInfo>, analyze: string -> FileAnalysis)
    returns (entries: seq<FileSummary>, totalRequirements: nat, totalComplete: nat,
             totalNeedsReview: nat, totalMissing: nat, rateSum: real)
    ensures entries == Summaries(selected, analyze)
    ensures totalRequirements == SumOf(entries, Requirements)
    ensures totalComplete == SumOf(entries, Complete)
    ensures totalNeedsReview == SumOf(entries, NeedsReview)
    ensures totalMissing == SumOf(entries, Missing)
    ensures rateSum == SumRates(entries)
  {
    entries := [];
    totalRequirements, totalComplete, totalNeedsReview, totalMissing, rateSum := 0, 0, 0, 0, 0.0;
    var i := 0;
    while i < |selected|
      invariant 0 <= i <= |selected|
      invariant entries == Summaries(selected[..i], analyze)
      invariant totalRequirements == SumOf(entries, Requirements)
      invariant totalComplete == SumOf(entries, Complete)
      invariant totalNeedsReview == SumOf(entries, NeedsReview)
      invariant totalMissing == SumOf(entries, Missing)
      invariant rateSum == SumRates(entries)
    {
      var e := SummaryFor(selected[i], analyze);
      SummariesStep(selected, i, analyze);
      SumsStep(entries, e);
      totalRequirements := totalRequirements + CountOf(e, Requirements);
      totalComplete := totalComplete + CountOf(e, Complete);
      totalNeedsReview := totalNeedsReview + CountOf(e, NeedsReview);
      totalMissing := totalMissing + CountOf(e, Missing);
      rateSum := rateSum + e.compliancyRate;
      entries := entries + [e];
      i := i + 1;
    }
    assert selected[..i] == selected;
  }

  lemma SummariesStep(selected: seq<FileInfo>, i: nat, analyze: string -> FileAnalysis)
    requires i < |selected|
    ensures Summaries(selected[..i + 1], analyze) == Summaries(selected[..i], analyze) + [SummaryFor(selected[i], analyze)]
  {
    assert selected[..i + 1][..i] == selected[..i];
  }

  /** Adding one entry adds its counts and rate to the totals. */
  lemma SumsStep(es: seq<FileSummary>, e: FileSummary)
    ensures SumOf(es + [e], Requirements) == SumOf(es, Requirements) + CountOf(e, Requirements)
    ensures SumOf(es + [e], Complete) == SumOf(es, Complete) + CountOf(e, Complete)
    ensures SumOf(es + [e], NeedsReview) == SumOf(es, NeedsReview) + CountOf(e, NeedsReview)
    ensures SumOf(es + [e], Missing) == SumOf(es, Missing) + CountOf(e, Missing)
    ensures SumRates(es + [e]) == SumRates(es) + e.compliancyRate
  {
    assert (es + [e])[..|es|] == es;
  }

  /** The dashboard of a fresh listing, computed as the source does. */
  method BuildDashboard(files: seq<FileInfo>, maxFiles: int, analyze: string -> FileAnalysis,
                        now: int, adlsPath: string, hasAdls: bool) returns (result: Dashboard)
    ensures result == DashboardFor(files, maxFiles, analyze, now, adlsPath, hasAdls)
  {
    if |files| == 0 {
      return EmptyDashboard(if hasAdls then ConnectedNoFiles else NotConnected, now, adlsPath);
    }
    var sorted := SortDesc(files);
    var selected := SelectFiles(sorted, maxFiles);
    SelectFilesSpec(files, maxFiles);
    var entries, totalReq, totalComplete, totalNeedsReview, totalMissing, rateSum :=
      SummarizeFiles(selected, analyze);
    var stamps := seq(|entries|, k requires 0 <= k < |entries| => entries[k].lastUpdated);
    match MaxLastUpdated(stamps)
    case Err(_) =>
      result := EmptyDashboard(ConnectionError, now, adlsPath);
    case Ok(latest) =>
      result := Dashboard(|files|, rateSum / (|entries| as real), totalReq, totalComplete, totalNeedsReview,
                          totalMissing, latest, entries, ConnectedFilesFound, adlsPath);
  }

  // ---------------------------------------------------------------------
  // The service object

  class AzureDataLakeService {
    const containerName: string
    const resultsPath: string
    const hasAdlsClient: bool
    const hasBlobClient: bool
    /** The process environment; the model never changes it, so each `_safe_int_env` reading is fixed. */
    const env: map<string, string>
    const maxBlobs: int
    const failureSeconds: int
    const listSeconds: int
    const dashboardSeconds: int
    const staleMaxSeconds: int
    const maxFiles: int
    var filesCache: map<CacheKey, (int, seq<FileInfo>)>
    var failureCache: map<CacheKey, int>
    var dashboardCache: map<CacheKey, (int, Dashboard)>

    /**
     * Clients exist only together as `_initialize_client` creates them;
     * cached listings are result files with distinct paths; cached
     * dashboards are consistent.
     */
    predicate Valid()
      reads this
    {
      && (hasAdlsClient ==> hasBlobClient)
      && (forall k :: k in filesCache ==> DistinctPaths(filesCache[k].1) && AllWellFormed(filesCache[k].1))
      && (forall k :: k in dashboardCache ==> Sane(dashboardCache[k].1))
    }

    /**
     * `__init__` with `_initialize_client`: `adlsSdk`/`blobSdk` say whether
     * each SDK imported, `clientFails` whether building a client raised.
     */
    constructor (environment: map<string, string>, adlsSdk: bool, blobSdk: bool, clientFails: bool)
      ensures Valid()
      ensures env == environment
      ensures containerName == (if "AZURE_ML_CONTAINER" in environment then environment["AZURE_ML_CONTAINER"] else "results")
      ensures resultsPath == (if "AZURE_ML_RESULTS_PATH" in environment then environment["AZURE_ML_RESULTS_PATH"] else "compliance-results")
      ensures var conn := "AZURE_STORAGE_CONNECTION_STRING" in environment && environment["AZURE_STORAGE_CONNECTION_STRING"] != "";
              && hasBlobClient == (conn && blobSdk && !clientFails)
              && hasAdlsClient == (conn && adlsSdk && blobSdk && !clientFails)
      ensures maxBlobs == SafeIntEnv(environment, "AZURE_ADLS_LIST_MAX_BLOBS", 250)
      ensures failureSeconds == SafeIntEnv(environment, "AZURE_ADLS_FAILURE_CACHE_SECONDS", 120)
      ensures listSeconds == SafeIntEnv(environment, "AZURE_ADLS_LIST_CACHE_SECONDS", 300)
      ensures dashboardSeconds == SafeIntEnv(environment, "AZURE_DASHBOARD_CACHE_SECONDS", 300)
      ensures staleMaxSeconds == SafeIntEnv(environment, "AZURE_DASHBOARD_STALE_MAX_SECONDS", 3600)
      ensures maxFiles == SafeIntEnv(environment, "AZURE_DASHBOARD_MAX_FILES", 4)
      ensures filesCache == map[] && failureCache == map[] && dashboardCache == map[]
    {
      env := environment;
      containerName := if "AZURE_ML_CONTAINER" in environment then environment["AZURE_ML_CONTAINER"] else "results";
      resultsPath := if "AZURE_ML_RESULTS_PATH" in environment then environment["AZURE_ML_RESULTS_PATH"] else "compliance-results";
      var conn := "AZURE_STORAGE_CONNECTION_STRING" in environment && environment["AZURE_STORAGE_CONNECTION_STRING"] != "";
      var adls := false;
      var blob := false;
      if !clientFails {
        if conn && adlsSdk {
          adls := true;
        }
        if conn && blobSdk {
          blob := true;
        } else {
          adls := false;
        }
      }
      hasAdlsClient := adls;
      hasBlobClient := blob;
      maxBlobs := SafeIntEnv(environment, "AZURE_ADLS_LIST_MAX_BLOBS", 250);
      failureSeconds := SafeIntEnv(environment, "AZURE_ADLS_FAILURE_CACHE_SECONDS", 120);
      listSeconds := SafeIntEnv(environment, "AZURE_ADLS_LIST_CACHE_SECONDS", 300);
      dashboardSeconds := SafeIntEnv(environment, "AZURE_DASHBOARD_CACHE_SECONDS", 300);
      staleMaxSeconds := SafeIntEnv(environment, "AZURE_DASHBOARD_STALE_MAX_SECONDS", 3600);
      maxFiles := SafeIntEnv(environment, "AZURE_DASHBOARD_MAX_FILES", 4);
      filesCache := map[];
      failureCache := map[];
      dashboardCache := map[];
    }

    function Setup(storage: Storage): ListingSetup {
      ListingSetup(hasAdlsClient, hasBlobClient, maxBlobs, storage)
    }

    /** A recorded failure younger than the failure TTL short-circuits the listing. */
    predicate FailureFresh(key: CacheKey, now: int)
      reads this
    {
      failureSeconds > 0 && key in failureCache && now - failureCache[key] < failureSeconds
    }

    /** A cached listing younger than the list TTL is served as it is. */
    predicate ListingFresh(key: CacheKey, now: int)
      reads this
    {
      listSeconds > 0 && key in filesCache && now - filesCache[key].0 < listSeconds
    }

    /** The files `get_compliance_files` returns in the current state. */
    function ComplianceFilesFor(userId: Option<int>, orgId: Option<int>, now: int, year: int, month: int,
                                storage: Storage, clientFails: bool): seq<FileInfo>
      reads this
    {
      var key := (userId, orgId);
      if !hasAdlsClient && !hasBlobClient then []
      else if FailureFresh(key, now) then []
      else if ListingFresh(key, now) then filesCache[key].1
      else if clientFails then []
      else Collect(Setup(storage), [], SearchPaths(resultsPath, year, month, userId, orgId), Truthy(userId) && Truthy(orgId))
    }

    /**
     * The listing and failure caches after `get_compliance_files`: untouched
     * without a client or when a fresh failure or a fresh listing answers;
     * a failure to prepare the client records `now`; otherwise the new
     * listing is cached when the list cache time is positive.
     */
    function ListingCachesAfter(userId: Option<int>, orgId: Option<int>, now: int, year: int, month: int,
                                storage: Storage, clientFails: bool)
      : (map<CacheKey, (int, seq<FileInfo>)>, map<CacheKey, int>)
      reads this
    {
      var key := (userId, orgId);
      if !hasAdlsClient && !hasBlobClient then (filesCache, failureCache)
      else if FailureFresh(key, now) || ListingFresh(key, now) then (filesCache, failureCache)
      else if clientFails then (filesCache, failureCache[key := now])
      else if listSeconds > 0 then
        (filesCache[key := (now, ComplianceFilesFor(userId, orgId, now, year, month, storage, clientFails))], failureCache)
      else (filesCache, failureCache)
    }

    /**
     * `get_compliance_files` (lines 136-246). `clientFails` says whether
     * preparing the file-system client raised, which records a failure.
     */
    method GetComplianceFiles(userId: Option<int>, orgId: Option<int>, now: int, year: int, month: int,
                              storage: Storage, clientFails: bool)
      returns (files: seq<FileInfo>)
      requires Valid()
      modifies this
      ensures Valid()
      ensures files == old(ComplianceFilesFor(userId, orgId, now, year, month, storage, clientFails))
      ensures DistinctPaths(files) && AllWellFormed(files)
      ensures dashboardCache == old(dashboardCache)
      ensures (filesCache, failureCache) == old(ListingCachesAfter(userId, orgId, now, year, month, storage, clientFails))
    {
      if !hasAdlsClient && !hasBlobClient {
        return [];
      }
      var key := (userId, orgId);
      if FailureFresh(key, now) {
        return [];
      }
      if ListingFresh(key, now) {
        return filesCache[key].1;
      }
      if clientFails {
        failureCache := failureCache[key := now];
        return [];
      }
      var setup := Setup(storage);
      var searchPaths := SearchPaths(resultsPath, year, month, userId, orgId);
      var stopEarly := Truthy(userId) && Truthy(orgId);
      files := ListSearchPaths(setup, searchPaths, stopEarly);
      CollectWellFormed(setup, [], searchPaths, stopEarly);
      if listSeconds > 0 {
        filesCache := filesCache[key := (now, files)];
      }
    }

    /** A cached dashboard is served while younger than the cache time, or than the stale bound when that is positive. */
    predicate DashboardServable(key: CacheKey, now: int)
      reads this
    {
      && dashboardSeconds > 0 && key in dashboardCache
      && var age := now - dashboardCache[key].0;
         age < dashboardSeconds || (staleMaxSeconds > 0 && age < staleMaxSeconds)
    }

    /** `get_dashboard_summary` (lines 440-563). */
    method GetDashboardSummary(userId: Option<int>, orgId: Option<int>, now: int, year: int, month: int,
                               storage: Storage, clientFails: bool, parse: FloatParser)
      returns (result: Dashboard)
      requires Valid()
      modifies this
      ensures Valid()
      ensures Sane(result)
      ensures var key := (userId, orgId);
        if old(DashboardServable(key, now)) then
          && result == old(dashboardCache[key].1) && dashboardCache == old(dashboardCache)
          && filesCache == old(filesCache) && failureCache == old(failureCache)
        else
          && (filesCache, failureCache) == old(ListingCachesAfter(userId, orgId, now, year, month, storage, clientFails))
          && result == DashboardFor(old(ComplianceFilesFor(userId, orgId, now, year, month, storage, clientFails)),
                                    maxFiles, Analyzer(storage.contents, parse),
                                    now, AdlsPath(containerName, resultsPath), hasAdlsClient)
          && dashboardCache == if dashboardSeconds > 0 && result.connectionStatus != ConnectionError
                               then old(dashboardCache)[key := (now, result)]
                               else old(dashboardCache)
    {
      var key := (userId, orgId);
      if DashboardServable(key, now) {
        return dashboardCache[key].1;
      }
      ghost var caches := ListingCachesAfter(userId, orgId, now, year, month, storage, clientFails);
      var files := GetComplianceFiles(userId, orgId, now, year, month, storage, clientFails);
      ghost var listed := (filesCache, failureCache);
      assert listed == caches;
      var adlsPath := AdlsPath(containerName, resultsPath);
      var analyze := Analyzer(storage.contents, parse);
      result := BuildDashboard(files, maxFiles, analyze, now, adlsPath, hasAdlsClient);
      AnalyzerSound(storage.contents, parse);
      DashboardForSane(files, maxFiles, analyze, now, adlsPath, hasAdlsClient);
      if dashboardSeconds > 0 && result.connectionStatus != ConnectionError {
        dashboardCache := dashboardCache[key := (now, result)];
      }
      assert (filesCache, failureCache) == listed;
    }
  }
}
