/** The seed generator (utils/dataGenerator.ts). Every `Math.random()` draw
    is a parameter in [0,1), taken in the order the source draws them. */
module DataGenerator {
  import opened Types

  const Days: seq<string> := ["Mon", "Tue", "Wed", "Thu", "Fri", "Sat", "Sun"]

  const Trends: seq<Trend> := [Rising, Falling, Stable]

  /** What `Math.random()` can return. */
  predicate IsDraw(r: real)
  {
    0.0 <= r < 1.0
  }

  predicate AllDraws(draws: seq<real>)
  {
    forall i :: 0 <= i < |draws| ==> IsDraw(draws[i])
  }

  /** `generateSyntheticData`: day k uses draws 3k, 3k+1 and 3k+2 for its
      consistency, depth and focus. */
  function GenerateSyntheticData(draws: seq<real>): (points: seq<EngagementPoint>)
    requires |draws| == 3 * |Days| && AllDraws(draws)
    ensures |points| == 7
    ensures forall k :: 0 <= k < 7 ==> points[k].time == Days[k]
    ensures forall k :: 0 <= k < 7 ==> 60.0 <= points[k].consistency < 100.0
    ensures forall k :: 0 <= k < 7 ==> 40.0 <= points[k].depth < 90.0
    ensures forall k :: 0 <= k < 7 ==> 50.0 <= points[k].focus < 100.0
  {
    seq(|Days|, k requires 0 <= k < |Days| =>
      assert IsDraw(draws[3 * k]) && IsDraw(draws[3 * k + 1]) && IsDraw(draws[3 * k + 2]);
      EngagementPoint(Days[k],
                      60.0 + draws[3 * k] * 40.0,
                      40.0 + draws[3 * k + 1] * 50.0,
                      50.0 + draws[3 * k + 2] * 50.0))
  }

  /** `t` rounded to the nearest integer, a tie going away from zero (the
      sign is set aside, the magnitude rounded half up). */
  function RoundHalfAway(t: real): (n: int)
    ensures t >= 0.0 ==> n >= 0
    ensures t <= 0.0 ==> n <= 0
  {
    if t >= 0.0 then (t + 0.5).Floor else -(-t + 0.5).Floor
  }

  /** `parseFloat(x.toFixed(1))` on an exact value: the nearest multiple of
      0.1, a tie going away from zero. */
  function ToFixed1(x: real): (r: real)
    ensures (r * 10.0).Floor as real == r * 10.0
  {
    RoundHalfAway(x * 10.0) as real / 10.0
  }

  /** `parseFloat(x.toFixed(2))`: the nearest multiple of 0.01. */
  function ToFixed2(x: real): (r: real)
    ensures (r * 100.0).Floor as real == r * 100.0
  {
    RoundHalfAway(x * 100.0) as real / 100.0
  }

  lemma FloorMonotone(a: real, b: real)
    requires a <= b
    ensures a.Floor <= b.Floor
  {
    assert a.Floor as real <= a && b < b.Floor as real + 1.0;
  }

  /** Rounding never reverses the order of two values. */
  lemma RoundHalfAwayMonotone(a: real, b: real)
    requires a <= b
    ensures RoundHalfAway(a) <= RoundHalfAway(b)
  {
    if 0.0 <= a {
      FloorMonotone(a + 0.5, b + 0.5);
    } else if b < 0.0 {
      FloorMonotone(-b + 0.5, -a + 0.5);
    } else {
      FloorMonotone(0.5, b + 0.5);
      FloorMonotone(0.5, -a + 0.5);
    }
  }

  /** An integer is its own rounding. */
  lemma RoundHalfAwayOfInteger(k: int)
    ensures RoundHalfAway(k as real) == k
  {
    if k >= 0 {
      assert (k as real + 0.5).Floor == k;
    } else {
      assert ((-k) as real + 0.5).Floor == -k;
    }
  }

  /** Rounding moves a value by at most one half. */
  lemma RoundHalfAwayNearest(t: real)
    ensures -0.5 <= RoundHalfAway(t) as real - t <= 0.5
  {
    if t >= 0.0 {
      assert (t + 0.5).Floor as real <= t + 0.5 < (t + 0.5).Floor as real + 1.0;
    } else {
      assert (-t + 0.5).Floor as real <= -t + 0.5 < (-t + 0.5).Floor as real + 1.0;
    }
  }

  /** `toFixed(1)` lands within 0.05 of its input, `toFixed(2)` within 0.005. */
  lemma ToFixedNearest(x: real)
    ensures -0.05 <= ToFixed1(x) - x <= 0.05
    ensures -0.005 <= ToFixed2(x) - x <= 0.005
  {
    RoundHalfAwayNearest(x * 10.0);
    RoundHalfAwayNearest(x * 100.0);
  }

  /** A value between two multiples of 0.1 rounds to a value between them. */
  lemma ToFixed1Between(x: real, lo: int, hi: int)
    requires lo as real / 10.0 <= x <= hi as real / 10.0
    ensures lo as real / 10.0 <= ToFixed1(x) <= hi as real / 10.0
  {
    RoundHalfAwayMonotone(lo as real, x * 10.0);
    RoundHalfAwayMonotone(x * 10.0, hi as real);
    RoundHalfAwayOfInteger(lo);
    RoundHalfAwayOfInteger(hi);
  }

  /** A value between two multiples of 0.01 rounds to a value between them. */
  lemma ToFixed2Between(x: real, lo: int, hi: int)
    requires lo as real / 100.0 <= x <= hi as real / 100.0
    ensures lo as real / 100.0 <= ToFixed2(x) <= hi as real / 100.0
  {
    RoundHalfAwayMonotone(lo as real, x * 100.0);
    RoundHalfAwayMonotone(x * 100.0, hi as real);
    RoundHalfAwayOfInteger(lo);
    RoundHalfAwayOfInteger(hi);
  }

  /** A value already rounded to two decimals rounds to itself. */
  lemma ToFixed2Idempotent(x: real)
    ensures ToFixed2(ToFixed2(x)) == ToFixed2(x)
  {
    var k := RoundHalfAway(x * 100.0);
    assert ToFixed2(x) * 100.0 == k as real;
    RoundHalfAwayOfInteger(k);
  }

  /** `trends[Math.floor(Math.random() * trends.length)]` reads index 0, 1 or 2. */
  function TrendIndex(r: real): (i: int)
    requires IsDraw(r)
    ensures 0 <= i < |Trends|
  {
    (r * 3.0).Floor
  }

  /** `generateAcademicMetrics`: draws 0..6 feed, in order, the submission
      count, attendance drop, marks drop, late ratio, trend, grade variance
      and missing streak. */
  function GenerateAcademicMetrics(draws: seq<real>): (m: AcademicMetrics)
    requires |draws| == 7 && AllDraws(draws)
    ensures 15 <= m.assignmentSubmissionCount <= 34
    ensures 0.0 <= m.attendanceDropPercentage <= 15.0
    ensures -2.0 <= m.marksDropBetweenTerms <= 8.0
    ensures 0.0 <= m.lateSubmissionRatio <= 1.0
    ensures 0.0 <= m.gradeVariance <= 5.0
    ensures 0 <= m.missingAssignmentStreak <= 3
  {
    assert IsDraw(draws[0]) && IsDraw(draws[1]) && IsDraw(draws[2]) && IsDraw(draws[3]);
    assert IsDraw(draws[4]) && IsDraw(draws[5]) && IsDraw(draws[6]);
    ToFixed1Between(draws[1] * 15.0, 0, 150);
    ToFixed1Between(draws[2] * 10.0 - 2.0, -20, 80);
    ToFixed2Between(draws[3], 0, 100);
    ToFixed1Between(draws[5] * 5.0, 0, 50);
    AcademicMetrics(
      (15.0 + draws[0] * 20.0).Floor,
      ToFixed1(draws[1] * 15.0),
      ToFixed1(draws[2] * 10.0 - 2.0),
      ToFixed2(draws[3]),
      Trends[TrendIndex(draws[4])],
      ToFixed1(draws[5] * 5.0),
      (draws[6] * 4.0).Floor)
  }
}
