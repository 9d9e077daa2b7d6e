/** The records of the dashboard (types.ts): academic metrics, engagement
    points, the AI-produced insight and the student record, plus the
    partial record (`Partial<Student>`) that updates merge in. */
module Types {

  /** A value that may be absent (`undefined` / `null` in the source). */
  datatype Option<+T> = None | Some(value: T)

  datatype Trend = Rising | Falling | Stable

  /** The string the source stores for a trend. */
  function TrendName(t: Trend): (s: string)
    ensures |s| > 0
  {
    match t
    case Rising => "rising"
    case Falling => "falling"
    case Stable => "stable"
  }

  /** The seven academic metrics. The two counts are integers (they come from
      `Math.floor` or `parseInt`); the others are JavaScript numbers, modelled
      as exact reals. */
  datatype AcademicMetrics = AcademicMetrics(
    assignmentSubmissionCount: int,
    attendanceDropPercentage: real,
    marksDropBetweenTerms: real,
    lateSubmissionRatio: real,
    attendanceTrend: Trend,
    gradeVariance: real,
    missingAssignmentStreak: int)

  /** One day of the engagement series. */
  datatype EngagementPoint = EngagementPoint(time: string, consistency: real, depth: real, focus: real)

  /** The AI perspective; `systemActions` is the optional extension the
      educator views read. */
  datatype Insight = Insight(
    observation: string,
    rationale: string,
    suggestions: seq<string>,
    isStudying: bool,
    engagementScore: real,
    systemActions: Option<seq<string>>)

  /** A student record; `age`, `grade` and `focusArea` are optional. */
  datatype Student = Student(
    id: string,
    name: string,
    age: Option<string>,
    grade: Option<string>,
    focusArea: Option<string>,
    remarks: string,
    engagementData: seq<EngagementPoint>,
    academicMetrics: AcademicMetrics,
    insight: Option<Insight>)

  /** `Partial<Student>`: every field may be left out (`None`). For the
      optional fields and `insight`, a present field may itself carry
      `undefined`/`null`, hence the nested Option. */
  datatype StudentPatch = StudentPatch(
    id: Option<string>,
    name: Option<string>,
    age: Option<Option<string>>,
    grade: Option<Option<string>>,
    focusArea: Option<Option<string>>,
    remarks: Option<string>,
    engagementData: Option<seq<EngagementPoint>>,
    academicMetrics: Option<AcademicMetrics>,
    insight: Option<Option<Insight>>)

  /** The patch with no fields. */
  const EmptyPatch := StudentPatch(None, None, None, None, None, None, None, None, None)

  /** `{ insight: result }`: the patch an AI result is merged with. */
  function InsightPatch(result: Insight): (p: StudentPatch)
    ensures p.insight == Some(Some(result)) && p.(insight := None) == EmptyPatch
  {
    EmptyPatch.(insight := Some(Some(result)))
  }

  /** `{ ...s, ...patch }`: a field the patch carries replaces the record's,
      a field it omits is kept. The merge is shallow: a patch's
      `academicMetrics` replaces the whole metrics record. */
  function ApplyPatch(s: Student, p: StudentPatch): (r: Student)
  {
    Student(
      if p.id.Some? then p.id.value else s.id,
      if p.name.Some? then p.name.value else s.name,
      if p.age.Some? then p.age.value else s.age,
      if p.grade.Some? then p.grade.value else s.grade,
      if p.focusArea.Some? then p.focusArea.value else s.focusArea,
      if p.remarks.Some? then p.remarks.value else s.remarks,
      if p.engagementData.Some? then p.engagementData.value else s.engagementData,
      if p.academicMetrics.Some? then p.academicMetrics.value else s.academicMetrics,
      if p.insight.Some? then p.insight.value else s.insight)
  }

  /** Merging the empty patch changes nothing. */
  lemma EmptyPatchIsIdentity(s: Student)
    ensures ApplyPatch(s, EmptyPatch) == s
  {
  }

  /** Merging the same patch twice is the same as merging it once. */
  lemma ApplyPatchIdempotent(s: Student, p: StudentPatch)
    ensures ApplyPatch(ApplyPatch(s, p), p) == ApplyPatch(s, p)
  {
  }

  /** The merged record keeps its id exactly when the patch carries no other id. */
  lemma ApplyPatchKeepsId(s: Student, p: StudentPatch)
    ensures ApplyPatch(s, p).id == s.id <==> (p.id.None? || p.id.value == s.id)
  {
  }

  /** Merging an AI result touches only the insight field. */
  lemma InsightPatchOnlySetsInsight(s: Student, result: Insight)
    ensures ApplyPatch(s, InsightPatch(result)) == s.(insight := Some(result))
  {
  }
}
