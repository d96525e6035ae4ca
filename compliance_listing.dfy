/**
 * Listing of compliance-result files in the data lake: integer settings
 * read from the environment, the search paths tried for a user and an
 * organisation, the Blob-API fallback listing, the per-path merge of
 * listings, and the ordering and selection of files for the dashboard.
 */
module ComplianceListing {
  import opened Wrappers
  import opened Text
  import opened Decimal

  // ---------------------------------------------------------------------
  // _safe_int_env

  /**
   * `_safe_int_env(name, default)`: `int(os.getenv(name, str(default)) or default)`,
   * with `default` again when `int()` raises.
   */
  function SafeIntEnv(env: map<string, string>, name: string, default: int): (n: int)
    ensures name in env && env[name] == "" ==> n == default
  {
    var text := if name in env then env[name] else Show(default);
    if text == "" then default
    else
      match ParseInt(text)
      case Some(v) => v
      case None => default
  }

  /** An unset variable yields the default, because `int(str(default)) == default`. */
  lemma SafeIntEnvUnset(env: map<string, string>, name: string, default: int)
    requires name !in env
    ensures SafeIntEnv(env, name, default) == default
  {
    ParseShow(default);
  }

  /** A variable holding the decimal text of `n` yields `n`. */
  lemma SafeIntEnvSet(env: map<string, string>, name: string, default: int, n: int)
    requires name in env && env[name] == Show(n)
    ensures SafeIntEnv(env, name, default) == n
  {
    ParseShow(n);
  }

  /** A variable with no digit at all (and not unset) yields the default. */
  lemma SafeIntEnvGarbage(env: map<string, string>, name: string, default: int)
    requires name in env
    requires forall i :: 0 <= i < |env[name]| ==> !IsDigit(env[name][i])
    ensures SafeIntEnv(env, name, default) == default
  {
    ParseNeedsDigit(env[name]);
  }

  // ---------------------------------------------------------------------
  // File entries

  /** One listed file (the dictionary built for each listed path or blob). */
  datatype FileInfo = FileInfo(
    fileName: string,
    filePath: string,
    lastModified: Option<int>,
    fileSize: nat,
    framework: string)

  const SummaryLabel := "Compliance Summary"
  const MultipleLabel := "Multiple Frameworks"

  /** The `framework` label derived from the file name alone. */
  function FrameworkLabel(fileName: string): string {
    if Contains(Lower(fileName), "summary") then SummaryLabel else MultipleLabel
  }

  /** Only `.csv` and `.json` objects are compliance results. */
  predicate IsResultName(name: string) {
    EndsWith(name, ".csv") || EndsWith(name, ".json")
  }

  /** The entry for an object at `path`; an unknown size counts as 0. */
  function MakeInfo(path: string, lastModified: Option<int>, size: Option<nat>): (f: FileInfo)
    ensures f.filePath == path && f.fileName == Basename(path)
    ensures f.framework == SummaryLabel <==> Contains(Lower(Basename(path)), "summary")
  {
    FileInfo(Basename(path), path, lastModified, size.GetOr(0), FrameworkLabel(Basename(path)))
  }

  /** A well-formed entry: a result file whose name and label derive from its path. */
  predicate WellFormed(f: FileInfo) {
    IsResultName(f.filePath) && f.fileName == Basename(f.filePath) && f.framework == FrameworkLabel(f.fileName)
  }

  // ---------------------------------------------------------------------
  // _list_files_via_blob

  /** One blob returned by the Blob API listing. */
  datatype BlobItem = BlobItem(name: string, lastModified: Option<int>, size: Option<nat>)

  /** The `name_starts_with` prefix: the search path without outer slashes, plus one '/'. */
  function BlobPrefix(searchPath: string): (p: string)
    ensures p == [] || (p[|p| - 1] == '/' && p[0] != '/')
  {
    var core := StripSlashes(searchPath);
    assert core != [] ==> core[0] != '/' by { TrimEnds(searchPath, IsSlash); }
    if core == [] then [] else core + "/"
  }

  /** Normalising an already normalised prefix changes nothing. */
  lemma BlobPrefixIdempotent(searchPath: string)
    ensures BlobPrefix(BlobPrefix(searchPath)) == BlobPrefix(searchPath)
  {
    var core := StripSlashes(searchPath);
    TrimEnds(searchPath, IsSlash);
    if core != [] {
      var p := core + "/";
      TrimEnds(p, IsSlash);
      assert TrimLeft(p, IsSlash) == p;
      assert TrimRight(p, IsSlash) == core;
    }
  }

  predicate KeptBlob(b: BlobItem) { b.name != "" && IsResultName(b.name) }

  /** The entries for the kept blobs, in listing order. */
  function BlobEntries(blobs: seq<BlobItem>): (fs: seq<FileInfo>)
    ensures |fs| <= |blobs|
    decreases |blobs|
  {
    if blobs == [] then []
    else
      var b := blobs[|blobs| - 1];
      BlobEntries(blobs[..|blobs| - 1])
        + (if KeptBlob(b) then [MakeInfo(b.name, b.lastModified, b.size)] else [])
  }

  /** Every entry of a blob listing is a well-formed result file. */
  lemma {:induction false} BlobEntriesWellFormed(blobs: seq<BlobItem>)
    ensures forall k :: 0 <= k < |BlobEntries(blobs)| ==> WellFormed(BlobEntries(blobs)[k])
    decreases |blobs|
  {
    if blobs != [] {
      var init, b := blobs[..|blobs| - 1], blobs[|blobs| - 1];
      BlobEntriesWellFormed(init);
      var head := BlobEntries(init);
      var tail := if KeptBlob(b) then [MakeInfo(b.name, b.lastModified, b.size)] else [];
      assert BlobEntries(blobs) == head + tail;
      forall k | 0 <= k < |head + tail| ensures WellFormed((head + tail)[k]) {
        if k < |head| {
          assert (head + tail)[k] == head[k];
        } else {
          assert (head + tail)[k] == tail[k - |head|];
        }
      }
    }
  }

  /** The entries of a shorter listing are a prefix of those of the longer one. */
  lemma {:induction false} BlobEntriesPrefix(blobs: seq<BlobItem>, i: nat)
    requires i <= |blobs|
    ensures |BlobEntries(blobs[..i])| <= |BlobEntries(blobs)|
    ensures BlobEntries(blobs)[..|BlobEntries(blobs[..i])|] == BlobEntries(blobs[..i])
    decreases |blobs| - i
  {
    if i < |blobs| {
      BlobEntriesPrefix(blobs, i + 1);
      var longer := blobs[..i + 1];
      assert longer[..|longer| - 1] == blobs[..i];
      var e := BlobEntries(blobs[..i]);
      var e1 := BlobEntries(longer);
      assert e1[..|e|] == e;
      var all := BlobEntries(blobs);
      assert all[..|e1|] == e1;
      assert all[..|e|] == e1[..|e|];
    } else {
      assert blobs[..i] == blobs;
    }
  }

  /** What `_list_files_via_blob` returns: the kept entries, cut at `maxBlobs` when that is positive. */
  function BlobListing(hasBlobClient: bool, blobs: Option<seq<BlobItem>>, maxBlobs: int): (fs: seq<FileInfo>)
    ensures forall k :: 0 <= k < |fs| ==> WellFormed(fs[k])
    ensures maxBlobs > 0 ==> |fs| <= maxBlobs
  {
    if !hasBlobClient then []
    else
      match blobs
      case None => []
      case Some(bs) =>
        BlobEntriesWellFormed(bs);
        var all := BlobEntries(bs);
        if maxBlobs > 0 && |all| > maxBlobs then all[..maxBlobs] else all
  }

  /** One more blob adds its entry when it is kept. */
  lemma BlobEntriesStep(bs: seq<BlobItem>, i: nat)
    requires i < |bs|
    ensures BlobEntries(bs[..i + 1]) ==
      BlobEntries(bs[..i]) + (if KeptBlob(bs[i]) then [MakeInfo(bs[i].name, bs[i].lastModified, bs[i].size)] else [])
  {
    assert bs[..i + 1][..i] == bs[..i];
  }

  /** The listing stops at the blob whose entry reaches the cap. */
  lemma BlobListingCut(bs: seq<BlobItem>, i: nat, maxBlobs: int)
    requires i < |bs| && maxBlobs > 0
    requires |BlobEntries(bs[..i])| < maxBlobs <= |BlobEntries(bs[..i + 1])|
    ensures BlobListing(true, Some(bs), maxBlobs) == BlobEntries(bs[..i + 1])
  {
    var e, e1, all := BlobEntries(bs[..i]), BlobEntries(bs[..i + 1]), BlobEntries(bs);
    assert |e1| <= |e| + 1 by {
      assert bs[..i + 1][..i] == bs[..i];
    }
    BlobEntriesPrefix(bs, i + 1);
    if |all| > maxBlobs {
      assert all[..maxBlobs] == e1;
    } else {
      assert all == all[..|e1|];
    }
  }

  /**
   * `_list_files_via_blob` (lines 89-134). `blobs` is the listing under
   * `BlobPrefix(searchPath)`, `None` when the listing raises.
   */
  method ListFilesViaBlob(hasBlobClient: bool, blobs: Option<seq<BlobItem>>, maxBlobs: int)
    returns (files: seq<FileInfo>)
    ensures files == BlobListing(hasBlobClient, blobs, maxBlobs)
  {
    if !hasBlobClient || blobs.None? {
      return [];
    }
    var bs := blobs.value;
    files := [];
    var i := 0;
    while i < |bs|
      invariant 0 <= i <= |bs|
      invariant files == BlobEntries(bs[..i])
      invariant maxBlobs > 0 ==> |files| < maxBlobs
    {
      BlobEntriesStep(bs, i);
      var b := bs[i];
      if b.name != "" && IsResultName(b.name) {
        files := files + [MakeInfo(b.name, b.lastModified, b.size)];
        if maxBlobs > 0 && |files| >= maxBlobs {
          BlobListingCut(bs, i, maxBlobs);
          return;
        }
      }
      i := i + 1;
    }
    assert bs[..i] == bs;
  }

  // ---------------------------------------------------------------------
  // Data-lake path listing

  /** One path returned by the data-lake path listing. */
  datatype PathItem = PathItem(name: string, isDirectory: bool, lastModified: Option<int>, contentLength: Option<nat>)

  /** The entries for the files of a path listing (lines 199-213), in listing order. */
  function PathEntries(items: seq<PathItem>): (fs: seq<FileInfo>)
    ensures |fs| <= |items|
  {
    if items == [] then []
    else
      var p := items[0];
      PathEntry(p) + PathEntries(items[1..])
  }

  /** The entry of one listed path: none for a directory or a non-result file. */
  function PathEntry(p: PathItem): seq<FileInfo> {
    if !p.isDirectory && IsResultName(p.name) then [MakeInfo(p.name, p.lastModified, p.contentLength)] else []
  }

  /** Every entry of a path listing is a well-formed result file. */
  lemma {:induction false} PathEntriesWellFormed(items: seq<PathItem>)
    ensures forall k :: 0 <= k < |PathEntries(items)| ==> WellFormed(PathEntries(items)[k])
  {
    if items != [] {
      PathEntriesWellFormed(items[1..]);
      var head := PathEntry(items[0]);
      var tail := PathEntries(items[1..]);
      assert PathEntries(items) == head + tail;
      forall k | 0 <= k < |head + tail| ensures WellFormed((head + tail)[k]) {
        if k < |head| {
          assert (head + tail)[k] == head[k];
        } else {
          assert (head + tail)[k] == tail[k - |head|];
        }
      }
    }
  }

  // ---------------------------------------------------------------------
  // files_by_path

  function Paths(fs: seq<FileInfo>): set<string> {
    set k | 0 <= k < |fs| :: fs[k].filePath
  }

  predicate DistinctPaths(fs: seq<FileInfo>) {
    forall i, j :: 0 <= i < j < |fs| ==> fs[i].filePath != fs[j].filePath
  }

  /** The position of the first entry for `path`, or -1. */
  function IndexOfPath(fs: seq<FileInfo>, path: string): (k: int)
    ensures -1 <= k < |fs|
    ensures k >= 0 ==> fs[k].filePath == path
  {
    if fs == [] then -1
    else if fs[0].filePath == path then 0
    else
      var k := IndexOfPath(fs[1..], path);
      if k < 0 then -1 else k + 1
  }

  /** No entry before the one found has the path; none at all when nothing is found. */
  lemma {:induction false} IndexOfPathFirst(fs: seq<FileInfo>, path: string)
    ensures var k := IndexOfPath(fs, path);
      forall j :: 0 <= j < |fs| && (k < 0 || j < k) ==> fs[j].filePath != path
  {
    if fs != [] && fs[0].filePath != path {
      IndexOfPathFirst(fs[1..], path);
      assert forall j :: 0 < j < |fs| ==> fs[j] == fs[1..][j - 1];
    }
  }

  /** `files_by_path[f.file_path] = f`: replace in place when the path is known, else append. */
  function Upsert(fs: seq<FileInfo>, f: FileInfo): (r: seq<FileInfo>)
    ensures |r| == |fs| || |r| == |fs| + 1
  {
    var k := IndexOfPath(fs, f.filePath);
    if k >= 0 then fs[k := f] else fs + [f]
  }

  /**
   * The entry is stored under its path: the paths grow by exactly that
   * path, other entries keep their places, and distinct paths stay distinct.
   */
  lemma UpsertSpec(fs: seq<FileInfo>, f: FileInfo)
    ensures var r := Upsert(fs, f);
      && Paths(r) == Paths(fs) + {f.filePath}
      && f in r
      && (DistinctPaths(fs) ==> DistinctPaths(r))
      && (forall k :: 0 <= k < |fs| && fs[k].filePath != f.filePath ==> r[k] == fs[k])
      && (forall k :: 0 <= k < |r| ==> r[k] == f || (k < |fs| && r[k] == fs[k]))
  {
    var k := IndexOfPath(fs, f.filePath);
    IndexOfPathFirst(fs, f.filePath);
    var r := Upsert(fs, f);
    if k >= 0 {
      assert r == fs[k := f];
      assert forall j :: 0 <= j < |r| ==> r[j].filePath == fs[j].filePath;
      assert Paths(r) == Paths(fs) by {
        forall p | p in Paths(r) ensures p in Paths(fs) {
          var j :| 0 <= j < |r| && r[j].filePath == p;
        }
        forall p | p in Paths(fs) ensures p in Paths(r) {
          var j :| 0 <= j < |fs| && fs[j].filePath == p;
          assert r[j].filePath == p;
        }
      }
    } else {
      assert r == fs + [f];
      assert forall j :: 0 <= j < |fs| ==> r[j] == fs[j];
      assert Paths(r) == Paths(fs) + {f.filePath} by {
        forall p | p in Paths(r) ensures p in Paths(fs) + {f.filePath} {
          var j :| 0 <= j < |r| && r[j].filePath == p;
        }
        forall p | p in Paths(fs) ensures p in Paths(r) {
          var j :| 0 <= j < |fs| && fs[j].filePath == p;
          assert r[j].filePath == p;
        }
        assert r[|fs|].filePath == f.filePath;
      }
    }
  }

  lemma PathsCons(news: seq<FileInfo>)
    requires news != []
    ensures Paths(news) == {news[0].filePath} + Paths(news[1..])
  {
    forall p | p in Paths(news) ensures p in {news[0].filePath} + Paths(news[1..]) {
      var k :| 0 <= k < |news| && news[k].filePath == p;
      if k > 0 { assert news[1..][k - 1] == news[k]; }
    }
    forall p | p in Paths(news[1..]) ensures p in Paths(news) {
      var k :| 0 <= k < |news[1..]| && news[1..][k].filePath == p;
      assert news[k + 1] == news[1..][k];
    }
  }

  /** The entries of one listing upserted in order. */
  function UpsertAll(fs: seq<FileInfo>, news: seq<FileInfo>): (r: seq<FileInfo>)
    ensures |r| <= |fs| + |news|
    decreases |news|
  {
    if news == [] then fs else UpsertAll(Upsert(fs, news[0]), news[1..])
  }

  /** Merging two listings one after the other is merging their concatenation. */
  lemma {:induction false} UpsertAllConcat(fs: seq<FileInfo>, a: seq<FileInfo>, b: seq<FileInfo>)
    ensures UpsertAll(fs, a + b) == UpsertAll(UpsertAll(fs, a), b)
    decreases |a|
  {
    if a == [] {
      assert a + b == b;
    } else {
      assert (a + b)[0] == a[0] && (a + b)[1..] == a[1..] + b;
      UpsertAllConcat(Upsert(fs, a[0]), a[1..], b);
    }
  }

  /**
   * Merging a listing: the paths are the union of both, distinct paths stay
   * distinct, and every entry comes from one side or the other.
   */
  lemma {:induction false} UpsertAllSpec(fs: seq<FileInfo>, news: seq<FileInfo>)
    ensures var r := UpsertAll(fs, news);
      && Paths(r) == Paths(fs) + Paths(news)
      && (DistinctPaths(fs) ==> DistinctPaths(r))
      && (forall k :: 0 <= k < |r| ==> r[k] in fs || r[k] in news)
    decreases |news|
  {
    if news != [] {
      var u := Upsert(fs, news[0]);
      UpsertSpec(fs, news[0]);
      UpsertAllSpec(u, news[1..]);
      PathsCons(news);
      var r := UpsertAll(fs, news);
      assert r == UpsertAll(u, news[1..]);
      forall k | 0 <= k < |r| ensures r[k] in fs || r[k] in news {
        if r[k] in news[1..] {
          var j :| 0 <= j < |news[1..]| && news[1..][j] == r[k];
          assert news[j + 1] == r[k];
        } else {
          var j :| 0 <= j < |u| && u[j] == r[k];
        }
      }
    }
  }

  /** Upserting well-formed entries keeps every entry well formed. */
  lemma UpsertAllWellFormed(fs: seq<FileInfo>, news: seq<FileInfo>)
    requires forall k :: 0 <= k < |fs| ==> WellFormed(fs[k])
    requires forall k :: 0 <= k < |news| ==> WellFormed(news[k])
    ensures forall k :: 0 <= k < |UpsertAll(fs, news)| ==> WellFormed(UpsertAll(fs, news)[k])
  {
    var r := UpsertAll(fs, news);
    UpsertAllSpec(fs, news);
    forall k | 0 <= k < |r| ensures WellFormed(r[k]) {
      if r[k] in fs {
        var j :| 0 <= j < |fs| && fs[j] == r[k];
      } else {
        var j :| 0 <= j < |news| && news[j] == r[k];
      }
    }
  }

  // ---------------------------------------------------------------------
  // Search paths

  /** Python truthiness of an optional id: present and non-zero. */
  predicate Truthy(id: Option<int>) { id.Some? && id.value != 0 }

  /** The month directory `/{year}/{month:02d}`. */
  function MonthDir(year: int, month: int): string {
    "/" + Show(year) + "/" + Pad2(month)
  }

  /** The directories searched, most specific first (lines 177-187). */
  function SearchPaths(resultsPath: string, year: int, month: int, userId: Option<int>, orgId: Option<int>)
    : (ps: seq<string>)
    ensures |ps| == if Truthy(userId) && Truthy(orgId) then 3 else 1
    ensures forall k :: 0 <= k < |ps| ==> StartsWith(ps[k], resultsPath)
    ensures !Truthy(userId) ==> ps == [resultsPath]
  {
    var monthDir := MonthDir(year, month);
    var suffixes :=
      (if Truthy(userId) && Truthy(orgId) then
        [monthDir + "/org_" + Show(orgId.value) + "/user_" + Show(userId.value),
         monthDir + "/organizations/" + Show(orgId.value) + "/user_" + Show(userId.value)]
      else [])
      + [if Truthy(userId) then monthDir + "/user_" + Show(userId.value) else ""];
    var ps := seq(|suffixes|, k requires 0 <= k < |suffixes| => resultsPath + suffixes[k]);
    forall k | 0 <= k < |ps| ensures StartsWith(ps[k], resultsPath) {
      assert ps[k][..|resultsPath|] == resultsPath;
    }
    assert resultsPath + "" == resultsPath;
    ps
  }

  /**
   * The paths in priority order: with both ids the org-scoped
   * `org_{o}/user_{u}`, then `organizations/{o}/user_{u}`, then the legacy
   * `user_{u}`, all under the month directory; with a user only, the legacy
   * path alone.
   */
  lemma SearchPathsSpec(resultsPath: string, year: int, month: int, userId: Option<int>, orgId: Option<int>)
    ensures var ps := SearchPaths(resultsPath, year, month, userId, orgId);
      && (Truthy(userId) && !Truthy(orgId) ==>
            ps == [resultsPath + MonthDir(year, month) + "/user_" + Show(userId.value)])
      && (Truthy(userId) && Truthy(orgId) ==>
            ps == [resultsPath + MonthDir(year, month) + "/org_" + Show(orgId.value) + "/user_" + Show(userId.value),
                   resultsPath + MonthDir(year, month) + "/organizations/" + Show(orgId.value) + "/user_" + Show(userId.value),
                   resultsPath + MonthDir(year, month) + "/user_" + Show(userId.value)])
  {
    if Truthy(userId) {
      var monthDir := MonthDir(year, month);
      var u := Show(userId.value);
      ConcatAssoc(resultsPath, monthDir + "/user_", u);
      ConcatAssoc(resultsPath, monthDir, "/user_");
      if Truthy(orgId) {
        var o := Show(orgId.value);
        ConcatAssoc4(resultsPath, monthDir, "/org_", o, "/user_", u);
        ConcatAssoc4(resultsPath, monthDir, "/organizations/", o, "/user_", u);
      }
    }
  }

  lemma ConcatAssoc(a: string, b: string, c: string)
    ensures a + (b + c) == a + b + c
  {
  }

  lemma ConcatAssoc4(a: string, b: string, c: string, d: string, e: string, f: string)
    ensures a + (b + c + d + e + f) == a + b + c + d + e + f
  {
    ConcatAssoc(a, b + c + d + e, f);
    ConcatAssoc(a, b + c + d, e);
    ConcatAssoc(a, b + c, d);
    ConcatAssoc(a, b, c);
  }

  // ---------------------------------------------------------------------
  // Ordering: key (lower-cased file name, last_modified or the earliest time), descending

  /** Python's `<` on strings: lexicographic by code point. */
  predicate StrLt(a: string, b: string)
    decreases |a|
  {
    if a == [] then b != []
    else if b == [] then false
    else if a[0] != b[0] then a[0] < b[0]
    else StrLt(a[1..], b[1..])
  }

  lemma {:induction false} StrLtIrreflexive(a: string)
    ensures !StrLt(a, a)
    decreases |a|
  {
    if a != [] { StrLtIrreflexive(a[1..]); }
  }

  lemma {:induction false} StrLtTrans(a: string, b: string, c: string)
    requires StrLt(a, b) && StrLt(b, c)
    ensures StrLt(a, c)
    decreases |a|
  {
    if a != [] && b != [] && c != [] && a[0] == b[0] == c[0] {
      StrLtTrans(a[1..], b[1..], c[1..]);
    }
  }

  lemma {:induction false} StrLtTotal(a: string, b: string)
    ensures a == b || StrLt(a, b) || StrLt(b, a)
    decreases |a|
  {
    if a != [] && b != [] && a[0] == b[0] {
      StrLtTotal(a[1..], b[1..]);
      if a[1..] == b[1..] {
        assert a == [a[0]] + a[1..] && b == [b[0]] + b[1..];
      }
    }
  }

  lemma {:induction false} StrLtAsym(a: string, b: string)
    requires StrLt(a, b)
    ensures !StrLt(b, a)
    decreases |a|
  {
    if a != [] && b != [] && a[0] == b[0] {
      StrLtAsym(a[1..], b[1..]);
    }
  }

  /** `last_modified or datetime.min`: a missing time sorts before every known one. */
  predicate StampLt(a: Option<int>, b: Option<int>) {
    match (a, b)
    case (None, Some(_)) => true
    case (Some(x), Some(y)) => x < y
    case _ => false
  }

  datatype SortKey = SortKey(name: string, stamp: Option<int>)

  function KeyOf(f: FileInfo): SortKey { SortKey(Lower(f.fileName), f.lastModified) }

  predicate KeyLt(a: SortKey, b: SortKey) {
    StrLt(a.name, b.name) || (a.name == b.name && StampLt(a.stamp, b.stamp))
  }

  /** `KeyLt` is a strict total order on keys. */
  lemma KeyOrder(a: SortKey, b: SortKey, c: SortKey)
    ensures !KeyLt(a, a)
    ensures KeyLt(a, b) ==> !KeyLt(b, a)
    ensures KeyLt(a, b) && KeyLt(b, c) ==> KeyLt(a, c)
    ensures a == b || KeyLt(a, b) || KeyLt(b, a)
  {
    StrLtIrreflexive(a.name);
    StrLtTotal(a.name, b.name);
    if StrLt(a.name, b.name) { StrLtAsym(a.name, b.name); }
    if KeyLt(a, b) && KeyLt(b, c) {
      if StrLt(a.name, b.name) && StrLt(b.name, c.name) { StrLtTrans(a.name, b.name, c.name); }
    }
  }

  /** Sorted from the largest key to the smallest. */
  predicate SortedDesc(fs: seq<FileInfo>) {
    forall i, j :: 0 <= i < j < |fs| ==> !KeyLt(KeyOf(fs[i]), KeyOf(fs[j]))
  }

  /** Inserts `f` in front of the first entry whose key is not larger. */
  function InsertDesc(f: FileInfo, fs: seq<FileInfo>): (r: seq<FileInfo>)
    ensures |r| == |fs| + 1
  {
    if fs == [] then [f]
    else if !KeyLt(KeyOf(f), KeyOf(fs[0])) then [f] + fs
    else [fs[0]] + InsertDesc(f, fs[1..])
  }

  /** Inserting into a sorted list keeps it sorted and adds exactly `f`. */
  lemma {:induction false} InsertDescSpec(f: FileInfo, fs: seq<FileInfo>)
    requires SortedDesc(fs)
    ensures SortedDesc(InsertDesc(f, fs))
    ensures multiset(InsertDesc(f, fs)) == multiset(fs) + multiset{f}
  {
    if fs == [] {
    } else if !KeyLt(KeyOf(f), KeyOf(fs[0])) {
      var r := [f] + fs;
      forall j | 0 < j < |r| ensures !KeyLt(KeyOf(f), KeyOf(r[j])) {
        KeyOrder(KeyOf(f), KeyOf(fs[0]), KeyOf(r[j]));
        KeyOrder(KeyOf(fs[0]), KeyOf(r[j]), KeyOf(f));
        KeyOrder(KeyOf(f), KeyOf(r[j]), KeyOf(fs[0]));
      }
    } else {
      InsertDescSpec(f, fs[1..]);
      var rest := InsertDesc(f, fs[1..]);
      var r := [fs[0]] + rest;
      assert fs == [fs[0]] + fs[1..];
      forall j | 0 < j < |r| ensures !KeyLt(KeyOf(fs[0]), KeyOf(r[j])) {
        assert r[j] in multiset(rest);
        KeyOrder(KeyOf(f), KeyOf(fs[0]), KeyOf(f));
      }
    }
  }

  /** `sorted(files, key=..., reverse=True)`. */
  function SortDesc(fs: seq<FileInfo>): (r: seq<FileInfo>)
    ensures |r| == |fs|
  {
    if fs == [] then [] else InsertDesc(fs[0], SortDesc(fs[1..]))
  }

  /** Sorting orders the list from the largest key down and keeps every entry as often. */
  lemma {:induction false} SortDescSpec(fs: seq<FileInfo>)
    ensures SortedDesc(SortDesc(fs))
    ensures multiset(SortDesc(fs)) == multiset(fs)
  {
    if fs != [] {
      SortDescSpec(fs[1..]);
      InsertDescSpec(fs[0], SortDesc(fs[1..]));
      assert fs == [fs[0]] + fs[1..];
    }
  }

  /** The entries whose sort key is `key`, in their order. */
  function WithKey(fs: seq<FileInfo>, key: SortKey): seq<FileInfo>
    decreases |fs|
  {
    if fs == [] then []
    else (if KeyOf(fs[0]) == key then [fs[0]] else []) + WithKey(fs[1..], key)
  }

  /** Inserting `f` puts it before every entry with the same key. */
  lemma {:induction false} InsertDescWithKey(f: FileInfo, fs: seq<FileInfo>, key: SortKey)
    ensures WithKey(InsertDesc(f, fs), key) == (if KeyOf(f) == key then [f] else []) + WithKey(fs, key)
    decreases |fs|
  {
    if fs != [] && KeyLt(KeyOf(f), KeyOf(fs[0])) {
      KeyOrder(KeyOf(f), KeyOf(fs[0]), KeyOf(f));
      InsertDescWithKey(f, fs[1..], key);
      var r := InsertDesc(f, fs);
      assert r == [fs[0]] + InsertDesc(f, fs[1..]);
      assert r[1..] == InsertDesc(f, fs[1..]);
    } else if fs != [] {
      var r := [f] + fs;
      assert r[1..] == fs;
    }
  }

  /**
   * Python's sort is stable: entries with equal keys (the same lower-cased
   * name and the same or no time, as two paths ending in the same file name
   * can have) keep their input order.
   */
  lemma {:induction false} SortDescStable(fs: seq<FileInfo>, key: SortKey)
    ensures WithKey(SortDesc(fs), key) == WithKey(fs, key)
  {
    if fs != [] {
      SortDescStable(fs[1..], key);
      InsertDescWithKey(fs[0], SortDesc(fs[1..]), key);
    }
  }

  // ---------------------------------------------------------------------
  // Dashboard file selection (lines 488-499)

  predicate NameHas(f: FileInfo, word: string) { Contains(Lower(f.fileName), word) }

  function Filter(fs: seq<FileInfo>, word: string): (r: seq<FileInfo>)
    ensures |r| <= |fs|
  {
    if fs == [] then []
    else (if NameHas(fs[0], word) then [fs[0]] else []) + Filter(fs[1..], word)
  }

  /** The filter keeps only listed entries that mention `word`, and is empty only when none does. */
  lemma {:induction false} FilterSpec(fs: seq<FileInfo>, word: string)
    ensures var r := Filter(fs, word);
      && (forall k :: 0 <= k < |r| ==> NameHas(r[k], word) && r[k] in fs)
      && (r == [] <==> forall k :: 0 <= k < |fs| ==> !NameHas(fs[k], word))
  {
    if fs != [] {
      FilterSpec(fs[1..], word);
      assert forall k :: 0 <= k < |fs[1..]| ==> fs[1..][k] == fs[k + 1];
      var head := if NameHas(fs[0], word) then [fs[0]] else [];
      var r := Filter(fs, word);
      assert r == head + Filter(fs[1..], word);
      forall k | 0 <= k < |r| ensures NameHas(r[k], word) && r[k] in fs {
        if k >= |head| {
          assert r[k] == Filter(fs[1..], word)[k - |head|];
        }
      }
    }
  }

  /** The files processed for the dashboard, from the sorted list. */
  function SelectFiles(sorted: seq<FileInfo>, maxFiles: int): seq<FileInfo> {
    var strict := Filter(sorted, "compliance_summary");
    var candidates := if strict != [] then strict else Filter(sorted, "summary");
    if candidates != [] then candidates[..1]
    else
      var n := if maxFiles > 1 then maxFiles else 1;
      if |sorted| <= n then sorted else sorted[..n]
  }

  /** Sorting keeps the same entries, as many times each. */
  lemma SortDescSameEntries(files: seq<FileInfo>)
    ensures |SortDesc(files)| == |files|
    ensures forall f :: f in SortDesc(files) <==> f in files
  {
    var sorted := SortDesc(files);
    SortDescSpec(files);
    assert |multiset(sorted)| == |sorted| && |multiset(files)| == |files|;
    forall f ensures f in sorted <==> f in files {
      assert f in sorted <==> f in multiset(sorted);
      assert f in files <==> f in multiset(files);
    }
  }

  /** The selection from any list, before the ordering is taken into account. */
  lemma SelectFilesFrom(sorted: seq<FileInfo>, maxFiles: int)
    ensures var sel := SelectFiles(sorted, maxFiles);
      && (sorted != [] <==> sel != [])
      && (forall k :: 0 <= k < |sel| ==> sel[k] in sorted)
      && |sel| <= (if maxFiles > 1 then maxFiles else 1)
      && ((exists k :: 0 <= k < |sorted| && NameHas(sorted[k], "summary"))
          ==> |sel| == 1 && NameHas(sel[0], "summary"))
      && ((exists k :: 0 <= k < |sorted| && NameHas(sorted[k], "compliance_summary"))
          ==> NameHas(sel[0], "compliance_summary"))
  {
    var strict := Filter(sorted, "compliance_summary");
    var loose := Filter(sorted, "summary");
    var sel := SelectFiles(sorted, maxFiles);
    FilterSpec(sorted, "compliance_summary");
    FilterSpec(sorted, "summary");
    if strict != [] {
      assert sel == strict[..1];
      StrictIsLoose(strict[0]);
    } else if loose != [] {
      assert sel == loose[..1];
    } else {
      var n := if maxFiles > 1 then maxFiles else 1;
      assert sel == if |sorted| <= n then sorted else sorted[..n];
    }
  }

  /** A name mentioning "compliance_summary" mentions "summary". */
  lemma StrictIsLoose(f: FileInfo)
    requires NameHas(f, "compliance_summary")
    ensures NameHas(f, "summary")
  {
    assert "compliance_summary" == "compliance_" + "summary";
    ContainsWidens(Lower(f.fileName), "compliance_", "summary");
  }

  /** A string containing `a + b` contains `b`. */
  lemma {:induction false} ContainsWidens(s: string, a: string, b: string)
    requires Contains(s, a + b)
    ensures Contains(s, b)
    decreases |s|
  {
    if StartsWith(s, a + b) {
      ContainsAt(s, b, |a|);
    } else {
      ContainsWidens(s[1..], a, b);
    }
  }

  /** A string that holds `b` at offset `k` contains `b`. */
  lemma {:induction false} ContainsAt(s: string, b: string, k: nat)
    requires k + |b| <= |s| && s[k..k + |b|] == b
    ensures Contains(s, b)
    decreases k
  {
    if k > 0 {
      assert s[1..][k - 1..k - 1 + |b|] == b;
      ContainsAt(s[1..], b, k - 1);
    }
  }

  lemma SameNames(a: seq<FileInfo>, b: seq<FileInfo>, word: string)
    requires forall f :: f in a ==> f in b
    ensures (exists k :: 0 <= k < |a| && NameHas(a[k], word)) ==> exists k :: 0 <= k < |b| && NameHas(b[k], word)
  {
    if exists k :: 0 <= k < |a| && NameHas(a[k], word) {
      var k :| 0 <= k < |a| && NameHas(a[k], word);
      assert a[k] in b;
      var j :| 0 <= j < |b| && b[j] == a[k];
    }
  }

  /**
   * The selection: a single summary file when any name mentions "summary"
   * (preferring "compliance_summary"), otherwise the first `max(1, maxFiles)`
   * files; never empty for a non-empty listing; only listed files.
   */
  lemma SelectFilesSpec(files: seq<FileInfo>, maxFiles: int)
    ensures var sel := SelectFiles(SortDesc(files), maxFiles);
      && (files != [] <==> sel != [])
      && (forall k :: 0 <= k < |sel| ==> sel[k] in files)
      && |sel| <= (if maxFiles > 1 then maxFiles else 1)
      && ((exists k :: 0 <= k < |files| && NameHas(files[k], "summary"))
          ==> |sel| == 1 && NameHas(sel[0], "summary"))
      && ((exists k :: 0 <= k < |files| && NameHas(files[k], "compliance_summary"))
          ==> NameHas(sel[0], "compliance_summary"))
  {
    var sorted := SortDesc(files);
    SortDescSameEntries(files);
    SelectFilesFrom(sorted, maxFiles);
    SameNames(files, sorted, "summary");
    SameNames(files, sorted, "compliance_summary");
  }
}
