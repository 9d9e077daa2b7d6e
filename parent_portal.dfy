/** The guardian report (components/Sections/ParentPortal.tsx): the three
    weekly averages and the chart built from them, the sync status and the
    advice chosen by the same score bands, and the fallbacks shown for
    missing fields. */
module ParentPortal {
  import opened Types
  import opened DataGenerator

  /** The three measures of an engagement point. */
  datatype Measure = Consistency | Depth | Focus

  function MeasureOf(p: EngagementPoint, m: Measure): real
  {
    match m
    case Consistency => p.consistency
    case Depth => p.depth
    case Focus => p.focus
  }

  /** `data.reduce((acc, curr) => acc + curr[m], 0)`, folded from the left. */
  function SumOf(data: seq<EngagementPoint>, m: Measure): real
  {
    if data == [] then 0.0 else SumOf(data[..|data| - 1], m) + MeasureOf(data[|data| - 1], m)
  }

  /** The average of a measure, 0 for an empty series. */
  function Average(data: seq<EngagementPoint>, m: Measure): (avg: real)
    ensures data == [] ==> avg == 0.0
    ensures data != [] ==> avg * |data| as real == SumOf(data, m)
  {
    if |data| > 0 then SumOf(data, m) / |data| as real else 0.0
  }

  /** Every point's measure lies in [lo, hi). */
  predicate AllWithin(data: seq<EngagementPoint>, m: Measure, lo: real, hi: real)
  {
    forall k :: 0 <= k < |data| ==> lo <= MeasureOf(data[k], m) < hi
  }

  /** A sum of n values in [lo, hi) lies in [n·lo, n·hi), strictly below
      when n > 0. */
  lemma {:induction false} SumWithin(data: seq<EngagementPoint>, m: Measure, lo: real, hi: real)
    requires AllWithin(data, m, lo, hi)
    ensures |data| as real * lo <= SumOf(data, m) <= |data| as real * hi
    ensures data != [] ==> SumOf(data, m) < |data| as real * hi
  {
    if data != [] {
      var init := data[..|data| - 1];
      assert AllWithin(init, m, lo, hi) by {
        assert forall k :: 0 <= k < |init| ==> init[k] == data[k];
      }
      SumWithin(init, m, lo, hi);
      AddWithin(|init| as real, SumOf(init, m), MeasureOf(data[|data| - 1], m), lo, hi);
    }
  }

  /** One more value in [lo, hi) moves a sum of n such values to n + 1. */
  lemma AddWithin(n: real, sum: real, x: real, lo: real, hi: real)
    requires n * lo <= sum <= n * hi && lo <= x < hi
    ensures (n + 1.0) * lo <= sum + x < (n + 1.0) * hi
  {
    assert (n + 1.0) * lo == n * lo + lo;
    assert (n + 1.0) * hi == n * hi + hi;
  }

  /** A quotient by a positive number keeps the bounds its dividend has
      when scaled by that number. */
  lemma QuotientBounds(s: real, n: real, lo: real, hi: real)
    requires n > 0.0 && lo * n <= s < hi * n
    ensures lo <= s / n < hi
  {
    assert s / n - lo == (s - lo * n) / n;
    assert hi - s / n == (hi * n - s) / n;
  }

  /** The average of values in [lo, hi) lies in [lo, hi). */
  lemma AverageWithin(data: seq<EngagementPoint>, m: Measure, lo: real, hi: real)
    requires data != [] && AllWithin(data, m, lo, hi)
    ensures lo <= Average(data, m) < hi
  {
    SumWithin(data, m, lo, hi);
    QuotientBounds(SumOf(data, m), |data| as real, lo, hi);
  }

  /** The averages of a generated week lie in the generator's ranges:
      consistency in [60,100), depth in [40,90), focus in [50,100). */
  lemma GeneratedAveragesWithin(draws: seq<real>)
    requires |draws| == 3 * |Days| && AllDraws(draws)
    ensures var data := GenerateSyntheticData(draws);
            && 60.0 <= Average(data, Consistency) < 100.0
            && 40.0 <= Average(data, Depth) < 90.0
            && 50.0 <= Average(data, Focus) < 100.0
  {
    var data := GenerateSyntheticData(draws);
    AverageWithin(data, Consistency, 60.0, 100.0);
    AverageWithin(data, Depth, 40.0, 90.0);
    AverageWithin(data, Focus, 50.0, 100.0);
  }

  datatype ChartEntry = ChartEntry(name: string, value: real, color: string)

  /** `chartData`: the three averages, named and coloured. */
  function ChartData(data: seq<EngagementPoint>): (chart: seq<ChartEntry>)
    ensures |chart| == 3
    ensures chart[0].value == Average(data, Consistency)
    ensures chart[1].value == Average(data, Depth)
    ensures chart[2].value == Average(data, Focus)
    ensures forall i, j :: 0 <= i < j < 3 ==> chart[i].name != chart[j].name && chart[i].color != chart[j].color
  {
    [ ChartEntry("Consistency Rhythm", Average(data, Consistency), "#00bbf9"),
      ChartEntry("Cognitive Depth", Average(data, Depth), "#ff3366"),
      ChartEntry("Active Presence", Average(data, Focus), "#00f5d4") ]
  }

  /** The band of a score: how many of the cut points 50, 70 and 85 it is
      strictly above. */
  function Band(score: real): (b: int)
    ensures 0 <= b <= 3
  {
    (if score > 50.0 then 1 else 0) + (if score > 70.0 then 1 else 0) + (if score > 85.0 then 1 else 0)
  }

  /** A higher score is never in a lower band. */
  lemma BandMonotone(a: real, b: real)
    requires a <= b
    ensures Band(a) <= Band(b)
  {
  }

  datatype SyncStatus = SyncStatus(caption: string, color: string, bg: string, border: string)

  /** The four statuses, from the lowest band to the highest. */
  const Statuses: seq<SyncStatus> := [
    SyncStatus("ALIGNMENT_REQ", "text-rose-400", "bg-rose-500/10", "border-rose-500/30"),
    SyncStatus("OBSERVING", "text-amber-400", "bg-amber-500/10", "border-amber-500/30"),
    SyncStatus("FLOW_ACTIVE", "text-emerald-400", "bg-emerald-500/10", "border-emerald-500/30"),
    SyncStatus("SYNCHRONIZED", "text-cyan-400", "bg-cyan-500/10", "border-cyan-500/30")
  ]

  /** `getSyncStatus`: the first of the strict tests the score passes. */
  function GetSyncStatus(score: real): (status: SyncStatus)
    ensures status == Statuses[Band(score)]
  {
    if score > 85.0 then SyncStatus("SYNCHRONIZED", "text-cyan-400", "bg-cyan-500/10", "border-cyan-500/30")
    else if score > 70.0 then SyncStatus("FLOW_ACTIVE", "text-emerald-400", "bg-emerald-500/10", "border-emerald-500/30")
    else if score > 50.0 then SyncStatus("OBSERVING", "text-amber-400", "bg-amber-500/10", "border-amber-500/30")
    else SyncStatus("ALIGNMENT_REQ", "text-rose-400", "bg-rose-500/10", "border-rose-500/30")
  }

  /** The four advice texts, from the lowest band to the highest. */
  const Advice: seq<string> := [
    "Alignment is currently low. This is a gentle opportunity for a restorative pause or a shift in learning focus.",
    "Slight rhythmic drift observed. This suggests a transition phase where supportive environmental cues might be helpful.",
    "Active flow detected. Patterns show a healthy balance of exploration and focused inquiry.",
    "Deep synchronization achieved. Your child is navigating complex learning layers with high rhythmic precision."
  ]

  /** `getParentAdvice`: the same strict tests as the status. */
  function GetParentAdvice(score: real): (advice: string)
    ensures advice == Advice[Band(score)]
  {
    if score > 85.0 then "Deep synchronization achieved. Your child is navigating complex learning layers with high rhythmic precision."
    else if score > 70.0 then "Active flow detected. Patterns show a healthy balance of exploration and focused inquiry."
    else if score > 50.0 then "Slight rhythmic drift observed. This suggests a transition phase where supportive environmental cues might be helpful."
    else "Alignment is currently low. This is a gentle opportunity for a restorative pause or a shift in learning focus."
  }

  /** The status and the advice always come from the same band: two scores
      get the same status exactly when they get the same advice. */
  lemma StatusAndAdviceAgree(a: real, b: real)
    ensures GetSyncStatus(a) == GetSyncStatus(b) <==> GetParentAdvice(a) == GetParentAdvice(b)
    ensures GetSyncStatus(a) == GetSyncStatus(b) <==> Band(a) == Band(b)
  {
    assert Statuses[0] != Statuses[1] && Statuses[0] != Statuses[2] && Statuses[0] != Statuses[3];
    assert Statuses[1] != Statuses[2] && Statuses[1] != Statuses[3] && Statuses[2] != Statuses[3];
    assert Advice[0] != Advice[1] && Advice[0] != Advice[2] && Advice[0] != Advice[3];
    assert Advice[1] != Advice[2] && Advice[1] != Advice[3] && Advice[2] != Advice[3];
  }

  /** The cut points belong to the band below: 85 is flow, 70 observing,
      50 alignment required. */
  lemma CutPointsAreStrict()
    ensures GetSyncStatus(85.0).caption == "FLOW_ACTIVE"
    ensures GetSyncStatus(70.0).caption == "OBSERVING"
    ensures GetSyncStatus(50.0).caption == "ALIGNMENT_REQ"
  {
  }

  /** `insight?.engagementScore || 0`: the insight's score, 0 without one. */
  function DisplayedScore(insight: Option<Insight>): (score: real)
    ensures insight.None? ==> score == 0.0
    ensures insight.Some? ==> score == insight.value.engagementScore
  {
    if insight.Some? && insight.value.engagementScore != 0.0 then insight.value.engagementScore else 0.0
  }

  /** A report without an insight shows the lowest status and advice. */
  lemma NoInsightLowestBand()
    ensures GetSyncStatus(DisplayedScore(None)).caption == "ALIGNMENT_REQ"
    ensures GetParentAdvice(DisplayedScore(None)) == Advice[0]
  {
  }

  const ObservationPlaceholder: string := "Synthesizing the last 168 hours of behavioral patterns..."

  /** `insight?.observation || placeholder`: an empty observation also
      falls back. */
  function ObservationText(insight: Option<Insight>): (text: string)
    ensures text != []
    ensures insight.Some? && insight.value.observation != [] ==> text == insight.value.observation
    ensures insight.None? || insight.value.observation == [] ==> text == ObservationPlaceholder
  {
    if insight.Some? && insight.value.observation != "" then insight.value.observation else ObservationPlaceholder
  }

  const SuggestionPlaceholder: string := "Synchronizing teacher logs and academic metrics..."

  /** `insight?.suggestions || [placeholder]`: a list is never falsy, so an
      empty list of suggestions is shown as it is. */
  function Suggestions(insight: Option<Insight>): (shown: seq<string>)
    ensures insight.None? ==> shown == [SuggestionPlaceholder]
    ensures insight.Some? ==> shown == insight.value.suggestions
  {
    match insight
    case None => [SuggestionPlaceholder]
    case Some(i) => i.suggestions
  }

  /** `field || fallback` on an optional text: absent and empty both fall back. */
  function OrFallback(o: Option<string>, fallback: string): (text: string)
    ensures o.Some? && o.value != [] ==> text == o.value
    ensures o.None? || o.value == [] ==> text == fallback
  {
    if o.Some? && o.value != "" then o.value else fallback
  }

  datatype ProfileCard = ProfileCard(title: string, value: string)

  /** The four profile cards. */
  function ProfileCards(s: Student): (cards: seq<ProfileCard>)
    ensures |cards| == 4 && cards[0] == ProfileCard("Student", s.name)
    ensures cards[1].title == "Academic Level" && cards[2].title == "Chronological Age"
            && cards[3].title == "Primary Focus"
    ensures s.grade.Some? && s.grade.value != [] ==> cards[1].value == s.grade.value
    ensures s.grade.None? || s.grade.value == [] ==> cards[1].value == "Unassigned"
    ensures s.age.Some? && s.age.value != [] ==> cards[2].value == s.age.value + " yrs"
    ensures s.age.None? || s.age.value == [] ==> cards[2].value == "N/A"
    ensures s.focusArea.Some? && s.focusArea.value != [] ==> cards[3].value == s.focusArea.value
    ensures s.focusArea.None? || s.focusArea.value == [] ==> cards[3].value == "Holistic"
    ensures forall k :: 1 <= k < 4 ==> cards[k].value != []
  {
    [ ProfileCard("Student", s.name),
      ProfileCard("Academic Level", OrFallback(s.grade, "Unassigned")),
      ProfileCard("Chronological Age", if s.age.Some? && s.age.value != "" then s.age.value + " yrs" else "N/A"),
      ProfileCard("Primary Focus", OrFallback(s.focusArea, "Holistic")) ]
  }

  const RemarksPlaceholder: string := "The educator has not provided qualitative session reflections for this cycle."

  /** The remarks, quoted, or the placeholder when there are none. */
  function RemarksText(remarks: string): (text: string)
    ensures text != []
    ensures remarks != [] ==> |text| == |remarks| + 2 && text[0] == '"' && text[|text| - 1] == '"'
                              && text[1..|text| - 1] == remarks
    ensures remarks == [] ==> text == RemarksPlaceholder
  {
    if remarks != "" then "\"" + remarks + "\"" else RemarksPlaceholder
  }
}
