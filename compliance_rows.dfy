/**
 * Compliance-results ingestion: the per-row column mapping of
 * `read_adls_file`, the summary built by `process_adls_data`, and the
 * per-file summary of `get_file_analysis_summary`.
 *
 * The CSV tokeniser (`csv.DictReader`), JSON decoding and `float()` are
 * library code: rows arrive already split into fields, and the score parser
 * is a parameter.
 */
module ComplianceRows {
  import opened Wrappers
  import opened Text

  /** Python's `float(text)`: `None` where it raises ValueError. */
  type FloatParser = string -> Option<real>

  /**
   * One item of a `csv.DictReader` row: a header with its value (`None` when
   * the line is shorter than the header), or the surplus values of a line
   * longer than the header, which DictReader stores under the key `None`.
   */
  datatype Field = Cell(header: string, value: Option<string>) | Surplus

  type RawRow = seq<Field>

  /** The dictionary built for one row: each recognised column present or absent. */
  datatype Record = Record(framework: Option<string>, score: Option<real>, status: Option<string>)

  const EmptyRecord := Record(None, None, None)

  /** Why the mapping raised: `None.strip()` on a surplus key, or `float()` on bad text. */
  datatype ReadError = SurplusKey | BadScore(text: string)

  /** The text of a cell after `value ... if value else ...`. */
  function CellText(v: Option<string>): string { v.GetOr("") }

  /** One iteration of the loop over `row.items()`. */
  function ApplyField(rec: Record, f: Field, parse: FloatParser): Result<Record, ReadError> {
    match f
    case Surplus => Err(SurplusKey)
    case Cell(header, v) =>
      var key := Strip(header);
      var text := CellText(v);
      if key == "Framework" then Ok(rec.(framework := Some(Strip(text))))
      else if key == "Compliance_Score" then
        if text == "" then Ok(rec.(score := Some(0.0)))
        else
          match parse(text)
          case None => Err(BadScore(text))
          case Some(x) => Ok(rec.(score := Some(x)))
      else if key == "Status" then Ok(rec.(status := Some(Strip(text))))
      else Ok(rec)
  }

  /** The mapping of a whole row, field by field, as the loop performs it. */
  function MapFields(fields: RawRow, parse: FloatParser): Result<Record, ReadError>
    decreases |fields|
  {
    if fields == [] then Ok(EmptyRecord)
    else
      match MapFields(fields[..|fields| - 1], parse)
      case Err(e) => Err(e)
      case Ok(rec) => ApplyField(rec, fields[|fields| - 1], parse)
  }

  /** A field whose mapping raises. */
  predicate BadField(f: Field, parse: FloatParser) {
    f.Surplus?
    || (Strip(f.header) == "Compliance_Score" && CellText(f.value) != "" && parse(CellText(f.value)).None?)
  }

  /** The mapping of one row (the body of the loop at lines 346-363). */
  method MapRow(fields: RawRow, parse: FloatParser) returns (r: Result<Record, ReadError>)
    ensures r == MapFields(fields, parse)
  {
    var rec := EmptyRecord;
    var i := 0;
    while i < |fields|
      invariant 0 <= i <= |fields|
      invariant MapFields(fields[..i], parse) == Ok(rec)
    {
      MapFieldsStep(fields, i, parse);
      var step := ApplyField(rec, fields[i], parse);
      if step.Err? {
        ErrorSticks(fields, i + 1, parse);
        return step;
      }
      rec := step.value;
      i := i + 1;
    }
    assert fields[..i] == fields;
    r := Ok(rec);
  }

  /** Mapping one more field applies it to the record so far. */
  lemma MapFieldsStep(fields: RawRow, i: nat, parse: FloatParser)
    requires i < |fields|
    ensures MapFields(fields[..i + 1], parse) ==
      match MapFields(fields[..i], parse)
      case Err(e) => Err(e)
      case Ok(rec) => ApplyField(rec, fields[i], parse)
  {
    assert fields[..i + 1][..i] == fields[..i];
  }

  /** Once a prefix of the row raises, the whole row raises with the same error. */
  lemma {:induction false} ErrorSticks(fields: RawRow, i: nat, parse: FloatParser)
    requires i <= |fields|
    requires MapFields(fields[..i], parse).Err?
    ensures MapFields(fields, parse) == MapFields(fields[..i], parse)
    decreases |fields| - i
  {
    if i < |fields| {
      assert fields[..i + 1][..i] == fields[..i];
      ErrorSticks(fields, i + 1, parse);
    } else {
      assert fields[..i] == fields;
    }
  }

  /** One field raises exactly when it is bad, whatever the record so far. */
  lemma ApplyFieldFails(rec: Record, f: Field, parse: FloatParser)
    ensures ApplyField(rec, f, parse).Err? <==> BadField(f, parse)
  {
  }

  /** The mapping of a row raises exactly when one of its fields is bad. */
  lemma {:induction false} MapFieldsFailsIffBadField(fields: RawRow, parse: FloatParser)
    ensures MapFields(fields, parse).Err? <==> exists i :: 0 <= i < |fields| && BadField(fields[i], parse)
    decreases |fields|
  {
    if fields != [] {
      var init := fields[..|fields| - 1];
      var last := fields[|fields| - 1];
      MapFieldsFailsIffBadField(init, parse);
      assert forall i :: 0 <= i < |init| ==> init[i] == fields[i];
      match MapFields(init, parse)
      case Err(_) =>
      case Ok(rec) => ApplyFieldFails(rec, last, parse);
    }
  }

  /**
   * The value the last cell whose stripped header is `key` carries:
   * `None` when there is no such cell.
   */
  function LastCell(fields: RawRow, key: string): Option<Option<string>>
    decreases |fields|
  {
    if fields == [] then None
    else
      var f := fields[|fields| - 1];
      if f.Cell? && Strip(f.header) == key then Some(f.value)
      else LastCell(fields[..|fields| - 1], key)
  }

  /** The column a stripped header fills, in the mapped record. */
  function Column(rec: Record, key: string): Option<string> {
    if key == "Framework" then rec.framework else rec.status
  }

  /**
   * A row that maps without error holds a Framework (or Status) entry iff
   * some stripped header names that column, and it is then the last such
   * cell's stripped text (empty for a missing value).
   */
  lemma {:induction false} MappedTextColumn(fields: RawRow, parse: FloatParser, rec: Record, key: string)
    requires key == "Framework" || key == "Status"
    requires MapFields(fields, parse) == Ok(rec)
    ensures Column(rec, key) == match LastCell(fields, key)
                                case None => None
                                case Some(v) => Some(Strip(CellText(v)))
    decreases |fields|
  {
    if fields != [] {
      var init := fields[..|fields| - 1];
      match MapFields(init, parse)
      case Ok(prev) =>
        MappedTextColumn(init, parse, prev, key);
        ApplyTextColumn(prev, fields[|fields| - 1], parse, rec, key);
      case Err(_) =>
    }
  }

  /** One field either fills the column or leaves it as it was. */
  lemma ApplyTextColumn(prev: Record, f: Field, parse: FloatParser, rec: Record, key: string)
    requires key == "Framework" || key == "Status"
    requires ApplyField(prev, f, parse) == Ok(rec)
    ensures Column(rec, key) == if f.Cell? && Strip(f.header) == key then Some(Strip(CellText(f.value)))
                                else Column(prev, key)
  {
    match f
    case Surplus =>
    case Cell(h, v) =>
      var k := Strip(h);
      assert "Framework" != "Status" && "Framework" != "Compliance_Score" && "Status" != "Compliance_Score" by {
        assert "Framework"[0] != "Status"[0] && "Framework"[0] != "Compliance_Score"[0];
        assert "Status"[0] != "Compliance_Score"[0];
      }
  }

  /**
   * A row that maps without error holds a score iff some stripped header is
   * Compliance_Score, and it is then the last such cell's parsed value, 0.0
   * for an empty or missing value.
   */
  lemma {:induction false} MappedScore(fields: RawRow, parse: FloatParser, rec: Record)
    requires MapFields(fields, parse) == Ok(rec)
    ensures rec.score == match LastCell(fields, "Compliance_Score")
                         case None => None
                         case Some(v) => Some(if CellText(v) == "" then 0.0 else parse(CellText(v)).GetOr(0.0))
    decreases |fields|
  {
    if fields != [] {
      var init := fields[..|fields| - 1];
      match MapFields(init, parse)
      case Ok(prev) =>
        MappedScore(init, parse, prev);
        ApplyScore(prev, fields[|fields| - 1], parse, rec);
      case Err(_) =>
    }
  }

  /** One field either sets the score or leaves it as it was. */
  lemma ApplyScore(prev: Record, f: Field, parse: FloatParser, rec: Record)
    requires ApplyField(prev, f, parse) == Ok(rec)
    ensures rec.score == if f.Cell? && Strip(f.header) == "Compliance_Score"
                         then Some(if CellText(f.value) == "" then 0.0 else parse(CellText(f.value)).GetOr(0.0))
                         else prev.score
  {
    match f
    case Surplus =>
    case Cell(h, v) =>
      assert "Framework" != "Compliance_Score" && "Status" != "Compliance_Score" by {
        assert "Framework"[0] != "Compliance_Score"[0] && "Status"[0] != "Compliance_Score"[0];
      }
  }

  /** The mapping of every row, as the outer loop performs it: surviving records, or the first error. */
  function MapRows(rows: seq<RawRow>, parse: FloatParser): Result<seq<Record>, ReadError>
    decreases |rows|
  {
    if rows == [] then Ok([])
    else
      match MapRows(rows[..|rows| - 1], parse)
      case Err(e) => Err(e)
      case Ok(data) =>
        match MapFields(rows[|rows| - 1], parse)
        case Err(e) => Err(e)
        case Ok(rec) => Ok(if rec != EmptyRecord then data + [rec] else data)
  }

  /** The rows `read_adls_file` returns for CSV content: any exception gives `[]`. */
  function CsvRecords(rows: seq<RawRow>, parse: FloatParser): seq<Record> {
    match MapRows(rows, parse)
    case Ok(data) => data
    case Err(_) => []
  }

  /** The CSV branch of `read_adls_file` (lines 343-367, with the handler at 376-378). */
  method ReadCsvRows(rows: seq<RawRow>, parse: FloatParser) returns (data: seq<Record>)
    ensures data == CsvRecords(rows, parse)
  {
    data := [];
    var i := 0;
    while i < |rows|
      invariant 0 <= i <= |rows|
      invariant MapRows(rows[..i], parse) == Ok(data)
    {
      assert rows[..i + 1][..i] == rows[..i];
      var r := MapRow(rows[i], parse);
      if r.Err? {
        RowErrorSticks(rows, i + 1, parse);
        return [];
      }
      if r.value != EmptyRecord {
        data := data + [r.value];
      }
      i := i + 1;
    }
    assert rows[..i] == rows;
  }

  lemma {:induction false} RowErrorSticks(rows: seq<RawRow>, i: nat, parse: FloatParser)
    requires i <= |rows|
    requires MapRows(rows[..i], parse).Err?
    ensures MapRows(rows, parse).Err?
    decreases |rows| - i
  {
    if i < |rows| {
      assert rows[..i + 1][..i] == rows[..i];
      RowErrorSticks(rows, i + 1, parse);
    } else {
      assert rows[..i] == rows;
    }
  }

  /** The whole file fails exactly when some field of some row is bad. */
  lemma {:induction false} MapRowsFailsIffBadField(rows: seq<RawRow>, parse: FloatParser)
    ensures MapRows(rows, parse).Err?
            <==> exists i, j :: 0 <= i < |rows| && 0 <= j < |rows[i]| && BadField(rows[i][j], parse)
    decreases |rows|
  {
    if rows != [] {
      var init := rows[..|rows| - 1];
      var last := rows[|rows| - 1];
      MapRowsFailsIffBadField(init, parse);
      MapFieldsFailsIffBadField(last, parse);
      if exists i, j :: 0 <= i < |rows| && 0 <= j < |rows[i]| && BadField(rows[i][j], parse) {
        var i, j :| 0 <= i < |rows| && 0 <= j < |rows[i]| && BadField(rows[i][j], parse);
        if i < |init| {
          assert init[i][j] == rows[i][j];
        } else {
          assert last[j] == rows[i][j];
        }
      }
      if exists i, j :: 0 <= i < |init| && 0 <= j < |init[i]| && BadField(init[i][j], parse) {
        var i, j :| 0 <= i < |init| && 0 <= j < |init[i]| && BadField(init[i][j], parse);
        assert rows[i][j] == init[i][j];
      }
      if exists j :: 0 <= j < |last| && BadField(last[j], parse) {
        var j :| 0 <= j < |last| && BadField(last[j], parse);
        assert rows[|rows| - 1][j] == last[j];
      }
    }
  }

  /**
   * All or nothing: one bad field anywhere in the file empties the result;
   * otherwise every returned record has a recognised column, and there is
   * at most one record per row.
   */
  lemma {:induction false} CsvRecordsAllOrNothing(rows: seq<RawRow>, parse: FloatParser)
    ensures (exists i, j :: 0 <= i < |rows| && 0 <= j < |rows[i]| && BadField(rows[i][j], parse))
            ==> CsvRecords(rows, parse) == []
    ensures |CsvRecords(rows, parse)| <= |rows|
    ensures forall k :: 0 <= k < |CsvRecords(rows, parse)| ==> CsvRecords(rows, parse)[k] != EmptyRecord
    decreases |rows|
  {
    MapRowsFailsIffBadField(rows, parse);
    if rows != [] {
      CsvRecordsAllOrNothing(rows[..|rows| - 1], parse);
    }
  }

  /** The content of a file as the storage accessor delivers it. */
  datatype Download =
    | Unavailable                                   // no client, download or decode failure
    | Fetched(csv: seq<RawRow>, json: seq<Record>)  // the text as the CSV reader and the JSON decoder see it

  /** `read_adls_file`: CSV rows for a `.csv` path, the decoded list for `.json`, otherwise nothing. */
  function ReadAdlsFile(filePath: string, content: Download, parse: FloatParser): (data: seq<Record>)
    ensures content.Unavailable? ==> data == []
    ensures !EndsWith(filePath, ".csv") && !EndsWith(filePath, ".json") ==> data == []
  {
    match content
    case Unavailable => []
    case Fetched(csv, json) =>
      if EndsWith(filePath, ".csv") then CsvRecords(csv, parse)
      else if EndsWith(filePath, ".json") then json
      else []
  }

  // ---------------------------------------------------------------------
  // process_adls_data

  /** The `overall_status` band. */
  datatype Band = NoData | Excellent | Good | NeedsAttention | Critical

  datatype FrameworkEntry = FrameworkEntry(name: string, score: real, status: string)

  datatype Summary = Summary(
    totalRequirements: nat,
    completeCount: nat,
    needsReviewCount: nat,
    missingCount: nat,
    overallStatus: Band,
    compliancyRate: real,
    weightedScore: real,
    frameworks: seq<FrameworkEntry>)

  /** `r.get('Framework', '').lower() == 'overall'` */
  predicate IsOverall(r: Record) { Lower(r.framework.GetOr("")) == "overall" }

  /** `r.get('Status', '').lower() == status` */
  predicate HasStatus(r: Record, status: string) { Lower(r.status.GetOr("")) == status }

  /** `framework_data`: the rows that are not an Overall row, in order. */
  function NonOverall(rows: seq<Record>): seq<Record> {
    if rows == [] then []
    else (if IsOverall(rows[0]) then [] else [rows[0]]) + NonOverall(rows[1..])
  }

  function CountStatus(rows: seq<Record>, status: string): nat {
    if rows == [] then 0
    else (if HasStatus(rows[0], status) then 1 else 0) + CountStatus(rows[1..], status)
  }

  /** `next((r for r in raw_data if <overall>), None)` */
  function FirstOverall(rows: seq<Record>): Option<Record> {
    if rows == [] then None
    else if IsOverall(rows[0]) then Some(rows[0])
    else FirstOverall(rows[1..])
  }

  /** The Overall row's score, or 0 without an Overall row. */
  function OverallRate(rows: seq<Record>): real {
    match FirstOverall(rows)
    case None => 0.0
    case Some(r) => r.score.GetOr(0.0)
  }

  /** The band of a compliance rate. */
  function BandOf(rate: real): Band {
    if rate >= 9.0 then Excellent
    else if rate >= 7.0 then Good
    else if rate >= 5.0 then NeedsAttention
    else Critical
  }

  function BandRank(b: Band): nat {
    match b
    case NoData => 0
    case Critical => 1
    case NeedsAttention => 2
    case Good => 3
    case Excellent => 4
  }

  /** One entry of `frameworks`, with the defaults of `row.get(...)`. */
  function EntryOf(r: Record): FrameworkEntry {
    FrameworkEntry(r.framework.GetOr("Unknown"), r.score.GetOr(0.0), r.status.GetOr("Unknown"))
  }

  function Entries(rows: seq<Record>): (es: seq<FrameworkEntry>)
    ensures |es| == |rows|
    ensures forall i :: 0 <= i < |rows| ==> es[i] == EntryOf(rows[i])
  {
    seq(|rows|, i requires 0 <= i < |rows| => EntryOf(rows[i]))
  }

  const NoDataSummary := Summary(0, 0, 0, 0, NoData, 0.0, 0.0, [])

  /** `process_adls_data` (rounding of the rate to two places is not modelled). */
  function ProcessAdlsData(rows: seq<Record>): Summary {
    if rows == [] then NoDataSummary
    else
      var fw := NonOverall(rows);
      var rate := OverallRate(rows);
      Summary(|fw|, CountStatus(fw, "complete"), CountStatus(fw, "needs review"),
              CountStatus(fw, "missing"), BandOf(rate), rate, rate, Entries(fw))
  }

  /** Filtering distributes over concatenation, so it keeps the input order. */
  lemma {:induction false} NonOverallAppend(a: seq<Record>, b: seq<Record>)
    ensures NonOverall(a + b) == NonOverall(a) + NonOverall(b)
  {
    if a != [] {
      assert (a + b)[1..] == a[1..] + b;
      NonOverallAppend(a[1..], b);
    } else {
      assert a + b == b;
    }
  }

  /** Every non-Overall row is kept as often as it occurs: duplicates are not merged. */
  lemma {:induction false} NonOverallCounts(rows: seq<Record>, x: Record)
    ensures multiset(NonOverall(rows))[x] == if IsOverall(x) then 0 else multiset(rows)[x]
  {
    if rows != [] {
      NonOverallCounts(rows[1..], x);
      assert rows == [rows[0]] + rows[1..];
    }
  }

  /** No Overall row is kept. */
  lemma {:induction false} NonOverallHasNoOverall(rows: seq<Record>)
    ensures forall i :: 0 <= i < |NonOverall(rows)| ==> !IsOverall(NonOverall(rows)[i])
  {
    if rows != [] {
      NonOverallHasNoOverall(rows[1..]);
    }
  }

  /** Three counts that cannot overlap add up to at most the number of rows. */
  lemma {:induction false} StatusCountsBounded(rows: seq<Record>)
    ensures CountStatus(rows, "complete") + CountStatus(rows, "needs review")
            + CountStatus(rows, "missing") <= |rows|
  {
    if rows != [] {
      StatusCountsBounded(rows[1..]);
    }
  }

  /**
   * The summary of non-empty input: one framework entry per non-Overall row
   * in source order, status counts bounded by that number, and the rate and
   * band taken from the first Overall row (never an average).
   */
  lemma SummaryOfRows(rows: seq<Record>)
    requires rows != []
    ensures var s := ProcessAdlsData(rows);
      && |s.frameworks| == s.totalRequirements == |NonOverall(rows)|
      && (forall i :: 0 <= i < |s.frameworks| ==> s.frameworks[i] == EntryOf(NonOverall(rows)[i]))
      && s.completeCount + s.needsReviewCount + s.missingCount <= s.totalRequirements
      && s.compliancyRate == s.weightedScore == OverallRate(rows)
      && s.overallStatus == BandOf(OverallRate(rows))
  {
    StatusCountsBounded(NonOverall(rows));
  }

  /** The rate is the score of the first Overall row, whatever the other rows hold. */
  lemma {:induction false} RateIsFirstOverall(rows: seq<Record>, i: nat)
    requires i < |rows| && IsOverall(rows[i])
    requires forall j :: 0 <= j < i ==> !IsOverall(rows[j])
    ensures OverallRate(rows) == rows[i].score.GetOr(0.0)
  {
    if i > 0 {
      RateIsFirstOverall(rows[1..], i - 1);
    }
  }

  /** Without an Overall row the rate is 0, not a mean of the frameworks. */
  lemma {:induction false} RateWithoutOverall(rows: seq<Record>)
    requires forall j :: 0 <= j < |rows| ==> !IsOverall(rows[j])
    ensures OverallRate(rows) == 0.0
  {
    if rows != [] {
      RateWithoutOverall(rows[1..]);
    }
  }

  /**
   * The Overall row is recognised whatever its letter case: spelling an
   * Overall row's framework any other way that lowercases to "overall"
   * changes nothing in the summary.
   */
  lemma OverallIgnoresCase(rows: seq<Record>, i: nat, name: string)
    requires i < |rows| && IsOverall(rows[i]) && Lower(name) == "overall"
    ensures IsOverall(rows[i].(framework := Some(name)))
    ensures ProcessAdlsData(rows[i := rows[i].(framework := Some(name))]) == ProcessAdlsData(rows)
  {
    RenameOverall(rows, i, name);
  }

  /** Renaming an Overall row keeps the filtered rows and the rate. */
  lemma {:induction false} RenameOverall(rows: seq<Record>, i: nat, name: string)
    requires i < |rows| && IsOverall(rows[i]) && Lower(name) == "overall"
    ensures var renamed := rows[i := rows[i].(framework := Some(name))];
      NonOverall(renamed) == NonOverall(rows) && OverallRate(renamed) == OverallRate(rows)
    decreases |rows|
  {
    var renamed := rows[i := rows[i].(framework := Some(name))];
    if i == 0 {
      assert renamed[1..] == rows[1..];
    } else {
      assert renamed[0] == rows[0];
      assert renamed[1..] == rows[1..][i - 1 := rows[i].(framework := Some(name))];
      RenameOverall(rows[1..], i - 1, name);
    }
  }

  /** A higher rate never gets a worse band. */
  lemma BandMonotone(a: real, b: real)
    requires a <= b
    ensures BandRank(BandOf(a)) <= BandRank(BandOf(b))
    ensures BandOf(a) != NoData
  {
  }

  /** Empty input: 'No Data' with every count and rate zero and no frameworks. */
  lemma EmptyInputIsNoData()
    ensures var s := ProcessAdlsData([]);
      s.overallStatus == NoData && s.totalRequirements == 0 && s.completeCount == 0
      && s.needsReviewCount == 0 && s.missingCount == 0 && s.compliancyRate == 0.0
      && s.weightedScore == 0.0 && s.frameworks == []
  {
  }

  // ---------------------------------------------------------------------
  // get_file_analysis_summary

  datatype FileAnalysis = FileAnalysis(
    fileName: string,
    summary: Summary,
    requirements: seq<Record>)

  /** `get_file_analysis_summary` for a file whose content is `content` (the timestamp is not modelled). */
  function FileAnalysisSummary(filePath: string, content: Download, parse: FloatParser): (a: FileAnalysis)
    ensures a.fileName == Basename(filePath)
    ensures a.requirements == ReadAdlsFile(filePath, content, parse)
    ensures a.summary == ProcessAdlsData(a.requirements)
    ensures a.requirements == [] ==> a.summary.overallStatus == NoData && a.summary.frameworks == []
  {
    var raw := ReadAdlsFile(filePath, content, parse);
    FileAnalysis(Basename(filePath), if raw == [] then NoDataSummary else ProcessAdlsData(raw), raw)
  }
}
