/**
 * The row derivations of `ReportGenerator` (app/services/report_generator.py):
 * which gap items become rows of the gap-analysis recommendations, the
 * accreditation-plan readiness and action tables, and the audit-pack
 * framework and evidence tables, with the priority each row gets. The
 * ReportLab document, styles and paragraphs around them are not modelled;
 * a table is its list of rows.
 */
module Reports {
  import opened Wrappers
  import opened Text
  import opened Decimal
  import FileValidation

  // ---------------------------------------------------------------------
  // Inputs

  const Complete: string := "Complete"
  const NeedsReview: string := "Needs Review"
  const Missing: string := "Missing"

  /** One `gap_data` item: `requirement_name`, `status`, `completion_percentage`. */
  datatype GapItem = GapItem(requirementName: string, status: string, completionPercentage: int)

  /** The two `summary_stats` keys the readiness table reads (`.get(key, 0)`). */
  datatype SummaryStats = SummaryStats(compliancePercentage: Option<int>, notMet: Option<int>)

  /** One uploaded document of the audit pack. */
  datatype Document = Document(filename: string, fileSize: Option<int>, isActive: bool)

  datatype Priority = High | Medium | Low

  /** `item['status'] in ['Missing', 'Needs Review']`: the item still needs work. */
  predicate NeedsAction(item: GapItem) {
    item.status == Missing || item.status == NeedsReview
  }

  // ---------------------------------------------------------------------
  // format_file_size

  /** The units `format_file_size` walks through; TB is the fallback after the loop. */
  const ReportUnits: seq<string> := ["B", "KB", "MB", "GB", "TB"]

  /** The printed number (before one-decimal rounding) and the index of its unit in `ReportUnits`. */
  datatype SizeLabel = Unknown | Sized(value: real, unit: nat)

  /** Divide by 1024 from unit `i` on until the value is below 1024 or the unit is TB. */
  function Scale(value: real, i: nat): (real, nat)
    requires i <= 4
    decreases 4 - i
  {
    if value < 1024.0 || i == 4 then (value, i) else Scale(value / 1024.0, i + 1)
  }

  /**
   * The scaled value times 1024 to the power of the units climbed is the
   * input; every unit below TB holds less than 1024, and climbing a unit
   * leaves at least 1.
   */
  lemma {:induction false} ScaleSpec(value: real, i: nat)
    requires i <= 4
    ensures var (v, u) := Scale(value, i);
      && i <= u <= 4
      && v * FileValidation.Pow1024(u - i) == value
      && (u < 4 ==> v < 1024.0)
      && (u > i ==> v >= 1.0)
    decreases 4 - i
  {
    if !(value < 1024.0 || i == 4) {
      ScaleSpec(value / 1024.0, i + 1);
      var (v, u) := Scale(value / 1024.0, i + 1);
      PowStep(u - i - 1);
      assert v * FileValidation.Pow1024(u - i) == v * FileValidation.Pow1024(u - i - 1) * 1024.0;
    }
  }

  lemma PowStep(k: nat)
    ensures FileValidation.Pow1024(k + 1) == 1024.0 * FileValidation.Pow1024(k)
  {
  }

  /** `format_file_size`: "Unknown" for `None` and 0, otherwise the scaled size. */
  function SizeLabelOf(sizeBytes: Option<int>): SizeLabel {
    if sizeBytes.None? || sizeBytes.value == 0 then Unknown
    else
      var (v, u) := Scale(sizeBytes.value as real, 0);
      Sized(v, u)
  }

  /**
   * Only a missing or zero size is "Unknown"; otherwise the unit is the one
   * whose power of 1024 the size divides into a value below 1024 (at least 1
   * above bytes), with TB taking everything larger.
   */
  lemma SizeLabelSpec(sizeBytes: Option<int>)
    ensures SizeLabelOf(sizeBytes) == Unknown <==> sizeBytes.None? || sizeBytes == Some(0)
    ensures var r := SizeLabelOf(sizeBytes);
      r.Sized? ==>
        && r.unit < |ReportUnits|
        && r.value * FileValidation.Pow1024(r.unit) == sizeBytes.value as real
        && (r.unit < |ReportUnits| - 1 ==> r.value < 1024.0)
        && (r.unit > 0 ==> r.value >= 1.0)
  {
    if sizeBytes.Some? && sizeBytes.value != 0 {
      ScaleSpec(sizeBytes.value as real, 0);
    }
  }

  /** `format_file_size`, with the `for unit in [...]` loop and its early return. */
  method FormatFileSize(sizeBytes: Option<int>) returns (r: SizeLabel)
    ensures r == SizeLabelOf(sizeBytes)
  {
    if sizeBytes.None? || sizeBytes.value == 0 {
      return Unknown;
    }
    var size := sizeBytes.value as real;
    for i := 0 to 4
      invariant Scale(size, i) == Scale(sizeBytes.value as real, 0)
    {
      if size < 1024.0 {
        return Sized(size, i);
      }
      size := size / 1024.0;
    }
    return Sized(size, 4);
  }

  // ---------------------------------------------------------------------
  // Gap analysis report

  /** "Frameworks Reviewed": the requirement names joined by ", ", or "N/A" without items. */
  function FrameworksReviewed(gap: seq<GapItem>): string {
    if |gap| == 0 then "N/A" else Join(Names(gap), ", ")
  }

  function Names(gap: seq<GapItem>): (names: seq<string>)
    ensures |names| == |gap|
    ensures forall i :: 0 <= i < |gap| ==> names[i] == gap[i].requirementName
  {
    if |gap| == 0 then [] else Names(gap[..|gap| - 1]) + [gap[|gap| - 1].requirementName]
  }

  function NameLengths(gap: seq<GapItem>): nat {
    if |gap| == 0 then 0 else |gap[0].requirementName| + NameLengths(gap[1..])
  }

  /**
   * With items, the list starts with the first name and is exactly all
   * names plus two characters per separator long.
   */
  lemma {:induction false} FrameworksReviewedSpec(gap: seq<GapItem>)
    ensures |gap| == 0 ==> FrameworksReviewed(gap) == "N/A"
    ensures |gap| > 0 ==> StartsWith(FrameworksReviewed(gap), gap[0].requirementName)
    ensures |gap| > 0 ==> |FrameworksReviewed(gap)| == NameLengths(gap) + 2 * (|gap| - 1)
  {
    if |gap| > 0 {
      JoinNames(gap);
    }
  }

  lemma {:induction false} JoinNames(gap: seq<GapItem>)
    requires |gap| > 0
    ensures StartsWith(Join(Names(gap), ", "), gap[0].requirementName)
    ensures |Join(Names(gap), ", ")| == NameLengths(gap) + 2 * (|gap| - 1)
  {
    var names := Names(gap);
    if |gap| > 1 {
      JoinNames(gap[1..]);
      assert Names(gap[1..]) == names[1..];
      var s := Join(names, ", ");
      assert s == names[0] + ", " + Join(names[1..], ", ");
      assert s[..|names[0]|] == names[0];
    } else {
      assert Join(names, ", ") == names[0];
    }
  }

  /** A row of the "Recommendations" table: area, priority and recommended action. */
  datatype Recommendation = Recommendation(area: string, priority: Priority, action: string)

  /** The recommendations section: the table, or the "All requirements are met" paragraph. */
  datatype RecommendationSection = RecommendationTable(rows: seq<Recommendation>) | AllRequirementsMet

  /** The row for one outstanding item: High when missing, Medium when under review. */
  function RecommendationOf(item: GapItem): Recommendation {
    Recommendation(
      item.requirementName,
      if item.status == Missing then High else Medium,
      "Address " + Lower(item.status) + " status for " + item.requirementName)
  }

  /** The recommendation rows of the items seen so far, in item order. */
  function Recommendations(gap: seq<GapItem>): seq<Recommendation> {
    if |gap| == 0 then []
    else
      var last := gap[|gap| - 1];
      Recommendations(gap[..|gap| - 1]) + (if NeedsAction(last) then [RecommendationOf(last)] else [])
  }

  /** Rows of a longer list extend the rows of its prefix: the table keeps input order. */
  lemma {:induction false} RecommendationsAppend(a: seq<GapItem>, b: seq<GapItem>)
    ensures Recommendations(a + b) == Recommendations(a) + Recommendations(b)
    decreases |b|
  {
    if |b| > 0 {
      var b' := b[..|b| - 1];
      assert (a + b)[..|a + b| - 1] == a + b';
      RecommendationsAppend(a, b');
    } else {
      assert a + b == a;
    }
  }

  /**
   * The rows are exactly the outstanding items' rows: every outstanding
   * item has one, every row comes from one, and the priority is High
   * exactly for a missing item and never Low.
   */
  lemma {:induction false} RecommendationsSpec(gap: seq<GapItem>)
    ensures |Recommendations(gap)| <= |gap|
    ensures forall i :: 0 <= i < |gap| && NeedsAction(gap[i]) ==> RecommendationOf(gap[i]) in Recommendations(gap)
    ensures forall r :: r in Recommendations(gap) ==>
      exists i :: 0 <= i < |gap| && NeedsAction(gap[i]) && r == RecommendationOf(gap[i])
    ensures forall r :: r in Recommendations(gap) ==> r.priority != Low
    ensures forall i :: 0 <= i < |gap| && NeedsAction(gap[i]) ==>
      (RecommendationOf(gap[i]).priority == High <==> gap[i].status == Missing)
  {
    if |gap| > 0 {
      var init := gap[..|gap| - 1];
      RecommendationsSpec(init);
      forall i | 0 <= i < |gap| - 1
        ensures gap[i] == init[i]
      {
      }
    }
  }

  /** The table is replaced by the paragraph exactly when no item is missing or under review. */
  lemma AllMetIff(gap: seq<GapItem>)
    ensures |Recommendations(gap)| == 0 <==> forall i :: 0 <= i < |gap| ==> !NeedsAction(gap[i])
  {
    RecommendationsSpec(gap);
    var recs := Recommendations(gap);
    if |recs| > 0 {
      assert recs[0] in recs;
    }
  }

  /** The recommendations loop of `generate_gap_analysis_report`, and the table-or-paragraph choice. */
  method GapRecommendations(gap: seq<GapItem>) returns (section: RecommendationSection)
    ensures section == if |Recommendations(gap)| == 0 then AllRequirementsMet else RecommendationTable(Recommendations(gap))
  {
    var recommendations: seq<Recommendation> := [];
    for k := 0 to |gap|
      invariant recommendations == Recommendations(gap[..k])
    {
      assert gap[..k + 1][..k] == gap[..k];
      var item := gap[k];
      if item.status == Missing || item.status == NeedsReview {
        recommendations := recommendations + [RecommendationOf(item)];
      }
    }
    assert gap[..|gap|] == gap;
    if |recommendations| > 0 {
      section := RecommendationTable(recommendations);
    } else {
      section := AllRequirementsMet;
    }
  }

  // ---------------------------------------------------------------------
  // Accreditation plan

  /**
   * A row of the "Readiness Overview" table: category, completion, key gaps
   * (the gap count on the overall row, the status on an item row), priority.
   */
  datatype ReadinessRow = ReadinessRow(category: string, completion: int, keyGaps: string, priority: Priority)

  /** Missing is High, Needs Review is Medium, anything else Low. */
  function StatusPriority(status: string): Priority {
    if status == Missing then High else if status == NeedsReview then Medium else Low
  }

  /** The overall row: High exactly when some requirement is not met. */
  function OverallRow(stats: SummaryStats): ReadinessRow {
    var notMet := stats.notMet.GetOr(0);
    ReadinessRow("Overall Compliance", stats.compliancePercentage.GetOr(0), Show(notMet), if notMet > 0 then High else Low)
  }

  function ReadinessOf(item: GapItem): ReadinessRow {
    ReadinessRow(item.requirementName, item.completionPercentage, item.status, StatusPriority(item.status))
  }

  function Min(a: int, b: int): int {
    if a <= b then a else b
  }

  /**
   * The status priority agrees with the recommendation priority on
   * outstanding items and is Low exactly for the others.
   */
  lemma StatusPriorityAgrees(item: GapItem)
    ensures NeedsAction(item) ==> StatusPriority(item.status) == RecommendationOf(item).priority
    ensures StatusPriority(item.status) == Low <==> !NeedsAction(item)
  {
    assert Missing != NeedsReview by {
      assert Missing[0] == 'M' && NeedsReview[0] == 'N';
    }
  }

  /** `readiness_data`: the overall row, then one row for each of the first five items. */
  method ReadinessRows(stats: SummaryStats, gap: seq<GapItem>) returns (rows: seq<ReadinessRow>)
    ensures |rows| == 1 + Min(5, |gap|)
    ensures rows[0] == OverallRow(stats)
    ensures rows[0].priority == High <==> stats.notMet.GetOr(0) > 0
    ensures forall i :: 1 <= i < |rows| ==> rows[i] == ReadinessOf(gap[i - 1])
  {
    rows := [OverallRow(stats)];
    var top := gap[..Min(5, |gap|)];
    for k := 0 to |top|
      invariant |rows| == 1 + k
      invariant rows[0] == OverallRow(stats)
      invariant forall i :: 1 <= i < |rows| ==> rows[i] == ReadinessOf(gap[i - 1])
    {
      var item := top[k];
      var priority := if item.status == Missing then High else if item.status == NeedsReview then Medium else Low;
      rows := rows + [ReadinessRow(item.requirementName, item.completionPercentage, item.status, priority)];
    }
  }

  /** A row of the "Action Plan" table; owner, due date and status are the same on every row. */
  datatype ActionRow = ActionRow(task: string, framework: string)

  datatype ActionSection = ActionTable(rows: seq<ActionRow>) | NoActionsRequired

  function ActionOf(item: GapItem): ActionRow {
    ActionRow("Address " + item.requirementName, item.requirementName)
  }

  function Actions(gap: seq<GapItem>): seq<ActionRow> {
    if |gap| == 0 then []
    else
      var last := gap[|gap| - 1];
      Actions(gap[..|gap| - 1]) + (if NeedsAction(last) then [ActionOf(last)] else [])
  }

  /**
   * The action plan and the recommendations select the same items in the
   * same order: one action per recommendation, for the same requirement.
   */
  lemma {:induction false} ActionsMatchRecommendations(gap: seq<GapItem>)
    ensures |Actions(gap)| == |Recommendations(gap)|
    ensures forall i :: 0 <= i < |Actions(gap)| ==> Actions(gap)[i].framework == Recommendations(gap)[i].area
  {
    if |gap| > 0 {
      ActionsMatchRecommendations(gap[..|gap| - 1]);
    }
  }

  /** The action loop of `generate_accreditation_plan`; the table only when a row was added. */
  method AccreditationActions(gap: seq<GapItem>) returns (section: ActionSection)
    ensures section == if |Actions(gap)| == 0 then NoActionsRequired else ActionTable(Actions(gap))
  {
    var actionData: seq<ActionRow> := [];
    for k := 0 to |gap|
      invariant actionData == Actions(gap[..k])
    {
      assert gap[..k + 1][..k] == gap[..k];
      var item := gap[k];
      if item.status == Missing || item.status == NeedsReview {
        actionData := actionData + [ActionRow("Address " + item.requirementName, item.requirementName)];
      }
    }
    assert gap[..|gap|] == gap;
    if |actionData| > 0 {
      section := ActionTable(actionData);
    } else {
      section := NoActionsRequired;
    }
  }

  // ---------------------------------------------------------------------
  // Audit pack

  /** A row of the framework summary: the Compliant and Gaps columns are 1/0 or 0/1. */
  datatype FrameworkRow = FrameworkRow(framework: string, completion: int, compliant: nat, gaps: nat)

  function FrameworkRowOf(item: GapItem): FrameworkRow {
    var done := item.status == Complete;
    FrameworkRow(item.requirementName, item.completionPercentage, if done then 1 else 0, if done then 0 else 1)
  }

  function CompliantTotal(rows: seq<FrameworkRow>): nat {
    if |rows| == 0 then 0 else CompliantTotal(rows[..|rows| - 1]) + rows[|rows| - 1].compliant
  }

  function CompleteCount(gap: seq<GapItem>): nat {
    if |gap| == 0 then 0 else CompleteCount(gap[..|gap| - 1]) + (if gap[|gap| - 1].status == Complete then 1 else 0)
  }

  /** `framework_summary`: one row per item, in order. */
  method FrameworkSummary(gap: seq<GapItem>) returns (rows: seq<FrameworkRow>)
    ensures |rows| == |gap|
    ensures forall i :: 0 <= i < |gap| ==> rows[i] == FrameworkRowOf(gap[i])
  {
    rows := [];
    for k := 0 to |gap|
      invariant |rows| == k
      invariant forall i :: 0 <= i < k ==> rows[i] == FrameworkRowOf(gap[i])
    {
      var item := gap[k];
      var compliant := if item.status == Complete then 1 else 0;
      var gaps := if item.status == Complete then 0 else 1;
      rows := rows + [FrameworkRow(item.requirementName, item.completionPercentage, compliant, gaps)];
    }
  }

  /**
   * Each row counts once, as compliant exactly when its item is Complete and
   * as a gap otherwise, so the Compliant column adds up to the complete items.
   */
  lemma {:induction false} FrameworkSummaryTotals(gap: seq<GapItem>, rows: seq<FrameworkRow>)
    requires |rows| == |gap|
    requires forall i :: 0 <= i < |gap| ==> rows[i] == FrameworkRowOf(gap[i])
    ensures forall i :: 0 <= i < |rows| ==> rows[i].compliant + rows[i].gaps == 1
    ensures forall i :: 0 <= i < |rows| ==> (rows[i].compliant == 1 <==> gap[i].status == Complete)
    ensures CompliantTotal(rows) == CompleteCount(gap)
  {
    if |gap| > 0 {
      FrameworkSummaryTotals(gap[..|gap| - 1], rows[..|rows| - 1]);
    }
  }

  /** The "Evidence Repository" document limit. */
  const MaxListedDocuments: nat := 20

  datatype DocumentRow = DocumentRow(filename: string, size: SizeLabel, active: bool)

  datatype EvidenceSection = DocumentTable(rows: seq<DocumentRow>) | NoDocuments

  function DocumentRowOf(d: Document): DocumentRow {
    DocumentRow(d.filename, SizeLabelOf(d.fileSize), d.isActive)
  }

  /** The evidence table: the first twenty documents in order, or the empty-repository paragraph. */
  method EvidenceRepository(documents: seq<Document>) returns (section: EvidenceSection)
    ensures section.NoDocuments? <==> |documents| == 0
    ensures section.DocumentTable? ==>
      && |section.rows| == Min(MaxListedDocuments, |documents|)
      && forall i :: 0 <= i < |section.rows| ==> section.rows[i] == DocumentRowOf(documents[i])
  {
    if |documents| == 0 {
      return NoDocuments;
    }
    var listed := documents[..Min(MaxListedDocuments, |documents|)];
    var rows: seq<DocumentRow> := [];
    for k := 0 to |listed|
      invariant |rows| == k
      invariant forall i :: 0 <= i < k ==> rows[i] == DocumentRowOf(documents[i])
    {
      var document := listed[k];
      var size := FormatFileSize(document.fileSize);
      rows := rows + [DocumentRow(document.filename, size, document.isActive)];
    }
    section := DocumentTable(rows);
  }
}
