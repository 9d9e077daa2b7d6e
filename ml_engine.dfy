/** The risk scorer (utils/mlEngine.ts): a fixed weighted sum of five
    academic metrics, a label against a fixed threshold and a probability
    normalised by 60 and capped at 1 (but not clamped below 0). */
module MlEngine {
  import opened Types

  /** The score at and above which a student is labelled at risk. */
  const THRESHOLD: real := 25.0

  /** The score the probability gauge treats as certain risk. */
  const NORMALISER: real := 60.0

  datatype HelpRequired = Yes | No

  datatype PredictionResult = PredictionResult(
    riskProbability: real,
    riskLabel: int,
    academicHelpRequired: HelpRequired,
    riskScore: real)

  /** The weighted sum, with the weights as the source writes them. */
  function RiskScore(m: AcademicMetrics): (score: real)
    ensures (&& m.attendanceDropPercentage >= 0.0 && m.marksDropBetweenTerms >= 0.0
             && m.lateSubmissionRatio >= 0.0 && m.gradeVariance >= 0.0
             && m.missingAssignmentStreak >= 0) ==> score >= 0.0
  {
    0.3 * m.attendanceDropPercentage
    + 0.2 * m.marksDropBetweenTerms
    + 0.2 * (m.lateSubmissionRatio * 100.0)
    + 0.1 * m.gradeVariance
    + 0.2 * (m.missingAssignmentStreak as real * 5.0)
  }

  function Min(a: real, b: real): (r: real)
    ensures r <= a && r <= b && (r == a || r == b)
  {
    if a <= b then a else b
  }

  /** `predictStudentRisk`. */
  function PredictStudentRisk(m: AcademicMetrics): (r: PredictionResult)
    ensures r.riskScore == RiskScore(m)
    ensures r.riskLabel == (if r.riskScore >= THRESHOLD then 1 else 0)
    ensures r.academicHelpRequired == Yes <==> r.riskLabel == 1
    ensures r.riskProbability <= 1.0
    ensures r.riskProbability == 1.0 <==> r.riskScore >= NORMALISER
    ensures r.riskScore < NORMALISER ==> r.riskProbability * NORMALISER == r.riskScore
  {
    var score := RiskScore(m);
    var probability := Min(score / NORMALISER, 1.0);
    var riskLabel := if score >= THRESHOLD then 1 else 0;
    var help := if riskLabel == 1 then Yes else No;
    PredictionResult(probability, riskLabel, help, score)
  }

  /** The score in simplified form: the late ratio weighs 20 per unit and
      every missing assignment in the streak adds exactly one point. */
  lemma RiskScoreClosedForm(m: AcademicMetrics)
    ensures RiskScore(m) == 0.3 * m.attendanceDropPercentage + 0.2 * m.marksDropBetweenTerms
                            + 20.0 * m.lateSubmissionRatio + 0.1 * m.gradeVariance
                            + m.missingAssignmentStreak as real
  {
  }

  /** There is no lower clamp: a negative score gives a negative probability. */
  lemma NegativeScoreNegativeProbability(m: AcademicMetrics)
    requires RiskScore(m) < 0.0
    ensures PredictStudentRisk(m).riskProbability < 0.0
    ensures PredictStudentRisk(m).riskLabel == 0 && PredictStudentRisk(m).academicHelpRequired == No
  {
  }

  /** `a` is no riskier than `b` in each of the five scored metrics. */
  predicate NoRiskierThan(a: AcademicMetrics, b: AcademicMetrics)
  {
    && a.attendanceDropPercentage <= b.attendanceDropPercentage
    && a.marksDropBetweenTerms <= b.marksDropBetweenTerms
    && a.lateSubmissionRatio <= b.lateSubmissionRatio
    && a.gradeVariance <= b.gradeVariance
    && a.missingAssignmentStreak <= b.missingAssignmentStreak
  }

  /** Raising any scored metric, the others fixed or raised too, never lowers
      the score, the probability or the label. */
  lemma PredictionMonotone(a: AcademicMetrics, b: AcademicMetrics)
    requires NoRiskierThan(a, b)
    ensures PredictStudentRisk(a).riskScore <= PredictStudentRisk(b).riskScore
    ensures PredictStudentRisk(a).riskProbability <= PredictStudentRisk(b).riskProbability
    ensures PredictStudentRisk(a).riskLabel <= PredictStudentRisk(b).riskLabel
  {
  }

  /** An improvement between terms (a negative marks drop) lowers the score
      below what a zero drop gives. */
  lemma MarksImprovementLowersScore(m: AcademicMetrics)
    requires m.marksDropBetweenTerms < 0.0
    ensures RiskScore(m) < RiskScore(m.(marksDropBetweenTerms := 0.0))
  {
  }

  /** The submission count and the attendance trend are not read. */
  lemma UnscoredMetricsIgnored(m: AcademicMetrics, count: int, trend: Trend)
    ensures PredictStudentRisk(m.(assignmentSubmissionCount := count, attendanceTrend := trend))
            == PredictStudentRisk(m)
  {
  }

  /** All scored metrics zero: no risk at all. */
  lemma ZeroMetricsNoRisk(m: AcademicMetrics)
    requires m.attendanceDropPercentage == 0.0 && m.marksDropBetweenTerms == 0.0
    requires m.lateSubmissionRatio == 0.0 && m.gradeVariance == 0.0 && m.missingAssignmentStreak == 0
    ensures PredictStudentRisk(m) == PredictionResult(0.0, 0, No, 0.0)
  {
  }

  /** The worked example: (50, 10, 0.5, 5, 2) scores 29.5, over the threshold. */
  lemma WorkedExample(m: AcademicMetrics)
    requires m.attendanceDropPercentage == 50.0 && m.marksDropBetweenTerms == 10.0
    requires m.lateSubmissionRatio == 0.5 && m.gradeVariance == 5.0 && m.missingAssignmentStreak == 2
    ensures PredictStudentRisk(m) == PredictionResult(29.5 / 60.0, 1, Yes, 29.5)
  {
  }
}
