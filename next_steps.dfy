/** The response matrix (components/Sections/NextSteps.tsx): the AI's system
    actions, numbered and styled by position, or a fixed list of four
    default actions when the insight carries none. */
module NextSteps {
  import opened Types

  datatype Action = Action(title: string, desc: string, style: string)

  /** `defaultActions`, in order. */
  const DefaultActions: seq<Action> := [
    Action("SOFT_CHECK_IN", "Deploy a non-intrusive wellness query. Priority: LOW.", "hover:border-stone-500"),
    Action("PAUSE_SEQUENCE", "Recommend a voluntary 5-minute cognitive reset.", "hover:border-amber-500/50"),
    Action("RESOURCE_SYNC", "Surface optional clarifying material on last-interacted topic.", "hover:border-stone-400"),
    Action("PASSIVE_LOG", "No intervention. Maintain current sensing protocols.", "hover:border-stone-600 opacity-60")
  ]

  /** The decimal digit for 0..9. */
  function DigitChar(d: nat): (c: char)
    requires d < 10
    ensures '0' <= c <= '9' && (c as int) - ('0' as int) == d
  {
    ('0' as int + d) as char
  }

  /** A natural number in decimal, as a template literal renders it. */
  function DecimalString(n: nat): (s: string)
    ensures |s| > 0
    ensures forall k :: 0 <= k < |s| ==> '0' <= s[k] <= '9'
    decreases n
  {
    if n < 10 then [DigitChar(n)] else DecimalString(n / 10) + [DigitChar(n % 10)]
  }

  /** The value of a string of decimal digits. */
  function DecimalValue(s: string): nat
    requires forall k :: 0 <= k < |s| ==> '0' <= s[k] <= '9'
  {
    if s == [] then 0
    else DecimalValue(s[..|s| - 1]) * 10 + ((s[|s| - 1] as int) - ('0' as int))
  }

  /** Reading back a rendered number gives the number. */
  lemma {:induction false} DecimalRoundTrip(n: nat)
    ensures DecimalValue(DecimalString(n)) == n
    decreases n
  {
    var s := DecimalString(n);
    if n >= 10 {
      DecimalRoundTrip(n / 10);
      assert s[..|s| - 1] == DecimalString(n / 10);
    }
  }

  /** Different numbers render differently. */
  lemma DecimalStringInjective(a: nat, b: nat)
    requires DecimalString(a) == DecimalString(b)
    ensures a == b
  {
    DecimalRoundTrip(a);
    DecimalRoundTrip(b);
  }

  /** `STRATEGY_0${i + 1}`: the literal zero stays in front even from the
      tenth action on ("STRATEGY_010"). */
  function StrategyTitle(i: nat): (title: string)
    ensures |title| > 10 && title[..10] == "STRATEGY_0"
    ensures forall k :: 10 <= k < |title| ==> '0' <= title[k] <= '9'
    ensures DecimalValue(title[10..]) == i + 1
  {
    DecimalRoundTrip(i + 1);
    assert ("STRATEGY_0" + DecimalString(i + 1))[10..] == DecimalString(i + 1);
    "STRATEGY_0" + DecimalString(i + 1)
  }

  /** The style of the i-th action: cyan, then magenta, then stone. */
  function StyleFor(i: nat): (style: string)
    ensures i == 0 ==> style == "hover:border-cyan-500/50"
    ensures i == 1 ==> style == "hover:border-magenta-500/50"
    ensures i >= 2 ==> style == "hover:border-stone-500"
  {
    if i == 0 then "hover:border-cyan-500/50"
    else if i == 1 then "hover:border-magenta-500/50"
    else "hover:border-stone-500"
  }

  /** `actions`: a present list of system actions, even an empty one,
      replaces the defaults. */
  function Actions(insight: Option<Insight>): (actions: seq<Action>)
    ensures insight.None? || insight.value.systemActions.None? ==> actions == DefaultActions
    ensures insight.Some? && insight.value.systemActions.Some? ==>
              var sa := insight.value.systemActions.value;
              && |actions| == |sa|
              && forall i :: 0 <= i < |sa| ==> actions[i] == Action(StrategyTitle(i), sa[i], StyleFor(i))
  {
    if insight.Some? && insight.value.systemActions.Some? then
      var sa := insight.value.systemActions.value;
      seq(|sa|, i requires 0 <= i < |sa| => Action(StrategyTitle(i), sa[i], StyleFor(i)))
    else DefaultActions
  }

  /** `!insight?.systemActions`: the "synthesizing" banner is shown. */
  predicate ShowsPlaceholder(insight: Option<Insight>)
  {
    insight.None? || insight.value.systemActions.None?
  }

  /** No two actions on screen share a title. */
  lemma ActionTitlesDistinct(insight: Option<Insight>)
    ensures var actions := Actions(insight);
            forall i, j :: 0 <= i < j < |actions| ==> actions[i].title != actions[j].title
  {
    var actions := Actions(insight);
    if !ShowsPlaceholder(insight) {
      forall i, j | 0 <= i < j < |actions|
        ensures actions[i].title != actions[j].title
      {
        if DecimalString(i + 1) == DecimalString(j + 1) {
          DecimalStringInjective(i + 1, j + 1);
        }
        assert StrategyTitle(i)[10..] == DecimalString(i + 1);
        assert StrategyTitle(j)[10..] == DecimalString(j + 1);
      }
    }
  }

  /** The banner is shown exactly when the defaults are: a present list,
      empty or not, never looks like the default list. */
  lemma PlaceholderIffDefaults(insight: Option<Insight>)
    ensures ShowsPlaceholder(insight) <==> Actions(insight) == DefaultActions
  {
    if !ShowsPlaceholder(insight) {
      var actions := Actions(insight);
      if |actions| == |DefaultActions| {
        assert actions[0].title[..9] == "STRATEGY_";
        assert DefaultActions[0].title[..9] == "SOFT_CHEC";
      }
    }
  }
}
