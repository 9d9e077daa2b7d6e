/** The progress table (components/Sections/ProgressPortal.tsx): three
    columns of three figures each, read off the academic metrics, with one
    derived status. How a JavaScript number is printed is not modelled: a
    cell keeps the number together with the text around it. */
module ProgressPortal {
  import opened Types
  import opened DataGenerator

  /** What a cell shows. */
  datatype CellValue =
    | Number(x: real)                                   // a number as it is
    | Affixed(prefix: string, x: real, suffix: string)  // a number inside a template literal
    | TwoDecimals(rounded: real)                        // `x.toFixed(2)`, by its value
    | Text(s: string)

  datatype Item = Item(title: string, value: CellValue)

  datatype Column = Column(title: string, items: seq<Item>)

  /** ASCII upper case, all the trend names need. */
  function ToUpper(s: string): (r: string)
    ensures |r| == |s|
    ensures forall k :: 0 <= k < |s| ==> r[k] == if 'a' <= s[k] <= 'z' then (s[k] as int - 32) as char else s[k]
  {
    seq(|s|, k requires 0 <= k < |s| => if 'a' <= s[k] <= 'z' then (s[k] as int - 32) as char else s[k])
  }

  /** The "System Status" rule: an alert from a streak of two misses on. */
  function SystemStatus(streak: int): (status: string)
    ensures status == "ALERT" <==> streak > 1
    ensures status != "ALERT" ==> status == "NOMINAL"
  {
    if streak > 1 then "ALERT" else "NOMINAL"
  }

  /** `dataColumns`. */
  function DataColumns(m: AcademicMetrics): (columns: seq<Column>)
    ensures |columns| == 3
    ensures columns[0].title == "ACADEMICS" && columns[1].title == "ATTENDANCE" && columns[2].title == "RISK PROFILE"
    ensures forall c :: 0 <= c < 3 ==> |columns[c].items| == 3
  {
    [ Column("ACADEMICS", [
        Item("Submission Count", Number(m.assignmentSubmissionCount as real)),
        Item("Grade Variance", Affixed("±", m.gradeVariance, "")),
        Item("Late Ratio", TwoDecimals(ToFixed2(m.lateSubmissionRatio)))]),
      Column("ATTENDANCE", [
        Item("Drop Percentage", Affixed("", m.attendanceDropPercentage, "%")),
        Item("Trend", Text(ToUpper(TrendName(m.attendanceTrend)))),
        Item("Term Drop", Number(m.marksDropBetweenTerms))]),
      Column("RISK PROFILE", [
        Item("Missing Streak", Number(m.missingAssignmentStreak as real)),
        Item("System Status", Text(SystemStatus(m.missingAssignmentStreak))),
        Item("Data Integrity", Text("VERIFIED"))]) ]
  }

  /** The status cell reads "ALERT" exactly when the streak exceeds one,
      "NOMINAL" otherwise, and "Data Integrity" reads "VERIFIED" whatever
      the metrics. */
  lemma RiskProfileCells(m: AcademicMetrics)
    ensures DataColumns(m)[2].items[1].value == Text("ALERT") <==> m.missingAssignmentStreak > 1
    ensures DataColumns(m)[2].items[1].value == Text("NOMINAL") <==> m.missingAssignmentStreak <= 1
    ensures DataColumns(m)[2].items[2].value == Text("VERIFIED")
    ensures DataColumns(m)[2].items[0].value == Number(m.missingAssignmentStreak as real)
  {
  }

  /** The trend cell is the stored trend name in capitals. */
  lemma TrendCell(m: AcademicMetrics)
    ensures DataColumns(m)[1].items[1].value
            == Text(match m.attendanceTrend
                    case Rising => "RISING"
                    case Falling => "FALLING"
                    case Stable => "STABLE")
  {
    var name := TrendName(m.attendanceTrend);
    var upper := ToUpper(name);
    match m.attendanceTrend
    case Rising =>
      assert upper == [upper[0], upper[1], upper[2], upper[3], upper[4], upper[5]];
    case Falling =>
      assert upper == [upper[0], upper[1], upper[2], upper[3], upper[4], upper[5], upper[6]];
    case Stable =>
      assert upper == [upper[0], upper[1], upper[2], upper[3], upper[4], upper[5]];
  }

  /** The late-ratio cell is within half a hundredth of the stored ratio. */
  lemma LateRatioCellNearest(m: AcademicMetrics)
    ensures var shown := DataColumns(m)[0].items[2].value.rounded;
            -0.005 <= shown - m.lateSubmissionRatio <= 0.005
  {
    ToFixedNearest(m.lateSubmissionRatio);
  }

  /** A generated ratio, already rounded to hundredths, is shown exactly. */
  lemma GeneratedLateRatioShownExactly(draws: seq<real>)
    requires |draws| == 7 && AllDraws(draws)
    ensures DataColumns(GenerateAcademicMetrics(draws))[0].items[2].value
            == TwoDecimals(GenerateAcademicMetrics(draws).lateSubmissionRatio)
  {
    ToFixed2Idempotent(draws[3]);
  }
}
