/** The teacher's editing panel (components/Sections/TeacherPortal.tsx): the
    registration box, whose name is trimmed before a student is added, and
    the edit form, which is filled from the active record, edited field by
    field and saved back as a partial record. */
module TeacherPortal {
  import opened Types

  /** The characters `String.prototype.trim` removes: the ECMAScript white
      space and line terminators. */
  predicate IsJsWhitespace(c: char)
  {
    || c == '\t' || c == '\n' || c == '\U{000B}' || c == '\U{000C}' || c == '\r' || c == ' '
    || c == '\U{00A0}' || c == '\U{1680}' || ('\U{2000}' <= c <= '\U{200A}')
    || c == '\U{2028}' || c == '\U{2029}' || c == '\U{202F}' || c == '\U{205F}'
    || c == '\U{3000}' || c == '\U{FEFF}'
  }

  predicate AllWhitespace(s: string)
  {
    forall i :: 0 <= i < |s| ==> IsJsWhitespace(s[i])
  }

  /** `s` with its leading white space removed. */
  function TrimStart(s: string): (r: string)
    ensures |r| <= |s| && r == s[|s| - |r|..]
    ensures AllWhitespace(s[..|s| - |r|])
    ensures r == [] || !IsJsWhitespace(r[0])
  {
    if s != [] && IsJsWhitespace(s[0]) then
      var tail := s[1..];
      var r := TrimStart(tail);
      assert r == s[|s| - |r|..];
      assert s[..|s| - |r|] == [s[0]] + tail[..|tail| - |r|];
      r
    else s
  }

  /** `s` with its trailing white space removed. */
  function TrimEnd(s: string): (r: string)
    ensures |r| <= |s| && r == s[..|r|]
    ensures AllWhitespace(s[|r|..])
    ensures r == [] || !IsJsWhitespace(r[|r| - 1])
  {
    if s != [] && IsJsWhitespace(s[|s| - 1]) then
      var init := s[..|s| - 1];
      var r := TrimEnd(init);
      assert r == s[..|r|];
      assert s[|r|..] == init[|r|..] + [s[|s| - 1]];
      r
    else s
  }

  /** `s.trim()`. */
  function Trim(s: string): string
  {
    TrimEnd(TrimStart(s))
  }

  /** Where the trimmed name sits in the input. */
  lemma TrimBounds(s: string) returns (i: nat, j: nat)
    ensures i <= j <= |s| && Trim(s) == s[i..j]
    ensures AllWhitespace(s[..i]) && AllWhitespace(s[j..])
  {
    var t := TrimStart(s);
    var r := TrimEnd(t);
    i, j := |s| - |t|, |s| - |t| + |r|;
    assert r == s[i..j] by {
      assert t == s[i..];
    }
    assert s[j..] == t[|r|..] by {
      assert t == s[i..];
    }
  }

  /** The trimmed name is the middle of the input: only white space is cut
      from either end, and what is left neither starts nor ends with it. */
  lemma TrimIsInfix(s: string)
    ensures exists i, j :: 0 <= i <= j <= |s| && Trim(s) == s[i..j]
                           && AllWhitespace(s[..i]) && AllWhitespace(s[j..])
    ensures Trim(s) == [] || (!IsJsWhitespace(Trim(s)[0]) && !IsJsWhitespace(Trim(s)[|Trim(s)| - 1]))
  {
    var i, j := TrimBounds(s);
    var t := TrimStart(s);
    assert Trim(s) != [] ==> Trim(s)[0] == t[0];
  }

  /** The trimmed name is empty exactly when the input is all white space. */
  lemma TrimEmptyIffWhitespace(s: string)
    ensures Trim(s) == [] <==> AllWhitespace(s)
  {
    var t := TrimStart(s);
    if AllWhitespace(s) {
      assert AllWhitespace(t);
    }
  }

  /** Trimming twice is trimming once. */
  lemma TrimIdempotent(s: string)
    ensures Trim(Trim(s)) == Trim(s)
  {
    var r := Trim(s);
    TrimIsInfix(s);
    assert TrimStart(r) == r;
    assert TrimEnd(r) == r;
  }

  /** The form's fields: the optional record fields are plain strings here. */
  datatype FormData = FormData(
    name: string,
    age: string,
    grade: string,
    focusArea: string,
    remarks: string,
    academicMetrics: AcademicMetrics)

  /** `field || ''` on an optional field. */
  function OrEmpty(o: Option<string>): (s: string)
    ensures o.Some? ==> s == o.value
    ensures o.None? ==> s == ""
  {
    if o.Some? then o.value else ""
  }

  /** The form as the initialisation and the resync effect build it. */
  function FormFor(s: Student): (f: FormData)
  {
    FormData(s.name, OrEmpty(s.age), OrEmpty(s.grade), OrEmpty(s.focusArea), s.remarks, s.academicMetrics)
  }

  /** The keys of `AcademicMetrics` that `updateMetric` takes. */
  datatype MetricKey =
    | SubmissionCountKey | AttendanceDropKey | MarksDropKey | LateRatioKey
    | TrendKey | GradeVarianceKey | MissingStreakKey

  /** A metric's value, whatever its type. */
  datatype MetricValue = IntValue(i: int) | RealValue(r: real) | TrendValue(t: Trend)

  /** `academicMetrics[key]`. */
  function MetricAt(m: AcademicMetrics, key: MetricKey): MetricValue
  {
    match key
    case SubmissionCountKey => IntValue(m.assignmentSubmissionCount)
    case AttendanceDropKey => RealValue(m.attendanceDropPercentage)
    case MarksDropKey => RealValue(m.marksDropBetweenTerms)
    case LateRatioKey => RealValue(m.lateSubmissionRatio)
    case TrendKey => TrendValue(m.attendanceTrend)
    case GradeVarianceKey => RealValue(m.gradeVariance)
    case MissingStreakKey => IntValue(m.missingAssignmentStreak)
  }

  /** One edit of the metrics grid: the key and the parsed value its input
      produces (an integer for the two counts, a number for the four
      measures, a trend from the select). */
  datatype MetricEdit =
    | SetSubmissionCount(count: int)
    | SetAttendanceDrop(attendance: real)
    | SetMarksDrop(marks: real)
    | SetLateRatio(late: real)
    | SetTrend(trend: Trend)
    | SetGradeVariance(variance: real)
    | SetMissingStreak(streak: int)

  function EditKey(e: MetricEdit): MetricKey
  {
    match e
    case SetSubmissionCount(_) => SubmissionCountKey
    case SetAttendanceDrop(_) => AttendanceDropKey
    case SetMarksDrop(_) => MarksDropKey
    case SetLateRatio(_) => LateRatioKey
    case SetTrend(_) => TrendKey
    case SetGradeVariance(_) => GradeVarianceKey
    case SetMissingStreak(_) => MissingStreakKey
  }

  function EditValue(e: MetricEdit): MetricValue
  {
    match e
    case SetSubmissionCount(v) => IntValue(v)
    case SetAttendanceDrop(v) => RealValue(v)
    case SetMarksDrop(v) => RealValue(v)
    case SetLateRatio(v) => RealValue(v)
    case SetTrend(v) => TrendValue(v)
    case SetGradeVariance(v) => RealValue(v)
    case SetMissingStreak(v) => IntValue(v)
  }

  /** `{ ...academicMetrics, [key]: value }`. */
  function ApplyMetricEdit(m: AcademicMetrics, e: MetricEdit): (r: AcademicMetrics)
    ensures forall key :: MetricAt(r, key) == if key == EditKey(e) then EditValue(e) else MetricAt(m, key)
  {
    match e
    case SetSubmissionCount(v) => m.(assignmentSubmissionCount := v)
    case SetAttendanceDrop(v) => m.(attendanceDropPercentage := v)
    case SetMarksDrop(v) => m.(marksDropBetweenTerms := v)
    case SetLateRatio(v) => m.(lateSubmissionRatio := v)
    case SetTrend(v) => m.(attendanceTrend := v)
    case SetGradeVariance(v) => m.(gradeVariance := v)
    case SetMissingStreak(v) => m.(missingAssignmentStreak := v)
  }

  /** Metrics are determined by their seven values. */
  lemma MetricsByValues(a: AcademicMetrics, b: AcademicMetrics)
    requires forall key :: MetricAt(a, key) == MetricAt(b, key)
    ensures a == b
  {
    assert MetricAt(a, SubmissionCountKey) == MetricAt(b, SubmissionCountKey);
    assert MetricAt(a, AttendanceDropKey) == MetricAt(b, AttendanceDropKey);
    assert MetricAt(a, MarksDropKey) == MetricAt(b, MarksDropKey);
    assert MetricAt(a, LateRatioKey) == MetricAt(b, LateRatioKey);
    assert MetricAt(a, TrendKey) == MetricAt(b, TrendKey);
    assert MetricAt(a, GradeVarianceKey) == MetricAt(b, GradeVarianceKey);
    assert MetricAt(a, MissingStreakKey) == MetricAt(b, MissingStreakKey);
  }

  /** A later edit of the same key overrides an earlier one. */
  lemma MetricEditLastWins(m: AcademicMetrics, e1: MetricEdit, e2: MetricEdit)
    requires EditKey(e1) == EditKey(e2)
    ensures ApplyMetricEdit(ApplyMetricEdit(m, e1), e2) == ApplyMetricEdit(m, e2)
  {
    MetricsByValues(ApplyMetricEdit(ApplyMetricEdit(m, e1), e2), ApplyMetricEdit(m, e2));
  }

  /** Edits of different keys commute. */
  lemma MetricEditsCommute(m: AcademicMetrics, e1: MetricEdit, e2: MetricEdit)
    requires EditKey(e1) != EditKey(e2)
    ensures ApplyMetricEdit(ApplyMetricEdit(m, e1), e2) == ApplyMetricEdit(ApplyMetricEdit(m, e2), e1)
  {
    MetricsByValues(ApplyMetricEdit(ApplyMetricEdit(m, e1), e2), ApplyMetricEdit(ApplyMetricEdit(m, e2), e1));
  }

  /** `handleSave`'s `onUpdateStudent(formData)`: the five text fields and the
      whole metrics record; never the id, the engagement data or the insight. */
  function SavePatch(f: FormData): (p: StudentPatch)
    ensures p.id.None? && p.engagementData.None? && p.insight.None?
  {
    StudentPatch(None, Some(f.name), Some(Some(f.age)), Some(Some(f.grade)), Some(Some(f.focusArea)),
                 Some(f.remarks), None, Some(f.academicMetrics), None)
  }

  /** Saving a form and filling the form again from the saved record gives
      back the form that was saved. */
  lemma SaveThenReopen(s: Student, f: FormData)
    ensures FormFor(ApplyPatch(s, SavePatch(f))) == f
  {
  }

  /** A save keeps the record's id, engagement data and insight. */
  lemma SaveKeepsIdentity(s: Student, f: FormData)
    ensures var r := ApplyPatch(s, SavePatch(f));
            r.id == s.id && r.engagementData == s.engagementData && r.insight == s.insight
  {
  }

  /** Saving an unedited form leaves the record as it was exactly when its
      age, grade and focus area are present: a missing one comes back as the
      empty string. */
  lemma UneditedSaveIsIdentity(s: Student)
    ensures ApplyPatch(s, SavePatch(FormFor(s))) == s
            <==> s.age.Some? && s.grade.Some? && s.focusArea.Some?
  {
    if ApplyPatch(s, SavePatch(FormFor(s))) == s {
      assert ApplyPatch(s, SavePatch(FormFor(s))).age == Some(OrEmpty(s.age));
      assert ApplyPatch(s, SavePatch(FormFor(s))).grade == Some(OrEmpty(s.grade));
      assert ApplyPatch(s, SavePatch(FormFor(s))).focusArea == Some(OrEmpty(s.focusArea));
    }
  }

  /** The panel's local state: the edit form and the registration box. */
  class TeacherForm {
    var formData: FormData
    var newStudentName: string

    /** The form filled from the record, an empty registration box. */
    constructor (student: Student)
      ensures formData == FormFor(student) && newStudentName == ""
    {
      formData := FormFor(student);
      newStudentName := "";
    }

    /** The effect on `[student]`: the form is refilled from the record,
        discarding unsaved edits; the registration box is left alone. */
    method Resync(student: Student)
      modifies this
      ensures formData == FormFor(student) && newStudentName == old(newStudentName)
    {
      formData := FormFor(student);
    }

    /** Typing in the registration box. */
    method SetNewStudentName(text: string)
      modifies this
      ensures newStudentName == text && formData == old(formData)
    {
      newStudentName := text;
    }

    /** `handleAdd`: a name with something besides white space is passed on
        trimmed (the returned value is what `onAddStudent` receives) and the
        box is cleared; otherwise nothing happens. */
    method HandleAdd() returns (added: Option<string>)
      modifies this
      ensures added.Some? <==> !AllWhitespace(old(newStudentName))
      ensures added.Some? ==> added.value == Trim(old(newStudentName)) && added.value != []
                              && newStudentName == ""
      ensures added.None? ==> newStudentName == old(newStudentName)
      ensures formData == old(formData)
    {
      var trimmed := Trim(newStudentName);
      TrimEmptyIffWhitespace(newStudentName);
      if trimmed != [] {
        added := Some(trimmed);
        newStudentName := "";
      } else {
        added := None;
      }
    }

    /** `updateMetric(key, value)`: only that metric of the form changes. */
    method UpdateMetric(e: MetricEdit)
      modifies this
      ensures formData == old(formData).(academicMetrics := ApplyMetricEdit(old(formData).academicMetrics, e))
      ensures forall key :: MetricAt(formData.academicMetrics, key)
                            == if key == EditKey(e) then EditValue(e) else MetricAt(old(formData).academicMetrics, key)
      ensures newStudentName == old(newStudentName)
    {
      formData := formData.(academicMetrics := ApplyMetricEdit(formData.academicMetrics, e));
    }

    /** The name input. */
    method SetName(text: string)
      modifies this
      ensures formData == old(formData).(name := text) && newStudentName == old(newStudentName)
    {
      formData := formData.(name := text);
    }

    /** The grade input. */
    method SetGrade(text: string)
      modifies this
      ensures formData == old(formData).(grade := text) && newStudentName == old(newStudentName)
    {
      formData := formData.(grade := text);
    }

    /** The remarks area. */
    method SetRemarks(text: string)
      modifies this
      ensures formData == old(formData).(remarks := text) && newStudentName == old(newStudentName)
    {
      formData := formData.(remarks := text);
    }

    /** `handleSave`: the patch handed to `onUpdateStudent`, which cannot
        change the record's id. */
    method HandleSave() returns (patch: StudentPatch)
      ensures patch == SavePatch(formData)
      ensures forall s :: ApplyPatch(s, patch).id == s.id
    {
      patch := SavePatch(formData);
    }
  }
}
