/** The rate-based weekly comparison summarizer: each week's rate is the
    gradient of its linear model (plus a small epsilon), and one sentence per
    adjacent pair of weeks either reports a reversal of direction, or by how
    many percent the later week's rate was faster or slower than the earlier
    week's, or that both weeks had the same rate. */
module RateComparison {
  import opened Numbers
  import opened Summaries

  const Title: string := "Trend Weekly Comparison - Rate"

  /** Added to every gradient before rates are compared. */
  const Epsilon: real := 0.00001

  /** The rate of one week. */
  function WeekRate(model: LinearModel): real {
    model.gradient + Epsilon
  }

  /** Whether a week's users were increasing (a rate of zero counts as increasing). */
  datatype Direction = Increasing | Decreasing

  function DirectionOf(rate: real): Direction {
    if rate >= 0.0 then Increasing else Decreasing
  }

  /** The qualifier `of weekdays ` is shown unless weekdays and weekends
      are equal to a degree above 0.7. */
  predicate WeekdaysOnly(weekdayWeekendEqualValidity: real) {
    !(weekdayWeekendEqualValidity > 0.7)
  }

  /** How the later week's rate magnitude relates to the earlier one's. */
  datatype RateChange =
    | SameRate                                        // "in the same rate as"
    | Changed(percent: Num, rateDelta: real, faster: bool)
      // "<percent>% (<rateDelta> more|less user ... per day) faster|slower than"

  /** The sentence for a pair of weeks. */
  datatype RateSentence =
    | Reversal(weekdaysOnly: bool, next: nat, current: nat,
               nextDirection: Direction, currentDirection: Direction)
    | Comparison(weekdaysOnly: bool, next: nat, current: nat,
                 direction: Direction, change: RateChange)

  /** The choice of sentence for week `k` (rate `currentRate`) against week
      `k + 1` (rate `nextRate`). */
  function CompareRates(currentRate: real, nextRate: real, weekdaysOnly: bool, k: nat): (s: RateSentence)
    ensures s.weekdaysOnly == weekdaysOnly && s.next == k + 1 && s.current == k
    ensures s.Comparison? ==> (s.direction == Increasing <==> currentRate >= 0.0)
  {
    var rateDiffAbsolute := Abs(nextRate - currentRate);
    if rateDiffAbsolute > 2.0 && currentRate * nextRate < 0.0 then
      Reversal(weekdaysOnly, k + 1, k, DirectionOf(nextRate), DirectionOf(currentRate))
    else
      var absoluteRateDiff := Abs(nextRate) - Abs(currentRate);
      var percentageChange := Percentage(absoluteRateDiff, Abs(currentRate));
      var change :=
        if Above(AbsNum(percentageChange), 5.0) && rateDiffAbsolute > 2.0
        then Changed(AbsNum(percentageChange), Abs(absoluteRateDiff), AtLeast(percentageChange, 0.0))
        else SameRate;
      Comparison(weekdaysOnly, k + 1, k, DirectionOf(currentRate), change)
  }

  /** A product of two reals is negative exactly when both are non-zero and
      they lie on different sides of zero. */
  lemma NegativeProduct(a: real, b: real)
    ensures a * b < 0.0 <==> a != 0.0 && b != 0.0 && DirectionOf(a) != DirectionOf(b)
  {
    if a > 0.0 && b > 0.0 {
      assert a * b > 0.0;
    } else if a < 0.0 && b < 0.0 {
      assert a * b > 0.0;
    } else if a > 0.0 && b < 0.0 {
      assert a * b < 0.0;
    } else if a < 0.0 && b > 0.0 {
      assert a * b < 0.0;
    }
  }

  /** A reversal is reported exactly when the rates differ by more than 2
      and point in opposite directions, neither being zero. */
  lemma ReversalIff(currentRate: real, nextRate: real, weekdaysOnly: bool, k: nat)
    ensures CompareRates(currentRate, nextRate, weekdaysOnly, k).Reversal?
        <==> Abs(nextRate - currentRate) > 2.0 && currentRate != 0.0 && nextRate != 0.0
             && DirectionOf(currentRate) != DirectionOf(nextRate)
  {
    NegativeProduct(currentRate, nextRate);
  }

  /** A reversal names the two weeks with opposite directions, each the sign
      of its own rate. */
  lemma ReversalDirections(currentRate: real, nextRate: real, weekdaysOnly: bool, k: nat)
    requires CompareRates(currentRate, nextRate, weekdaysOnly, k).Reversal?
    ensures var s := CompareRates(currentRate, nextRate, weekdaysOnly, k);
      && s.nextDirection != s.currentDirection
      && (s.nextDirection == Increasing <==> nextRate > 0.0)
      && (s.currentDirection == Increasing <==> currentRate > 0.0)
  {
    NegativeProduct(currentRate, nextRate);
  }

  /** Outside a reversal the percentage is reported exactly when the rates
      differ by more than 2 and their magnitudes differ by more than a
      twentieth of the earlier week's magnitude. */
  lemma ChangeShownIff(currentRate: real, nextRate: real, weekdaysOnly: bool, k: nat)
    requires CompareRates(currentRate, nextRate, weekdaysOnly, k).Comparison?
    ensures CompareRates(currentRate, nextRate, weekdaysOnly, k).change.Changed?
        <==> Abs(nextRate - currentRate) > 2.0
             && 20.0 * Abs(Abs(nextRate) - Abs(currentRate)) > Abs(currentRate)
  {
    PercentageAboveFive(Abs(nextRate) - Abs(currentRate), Abs(currentRate));
  }

  /** A reported change reads `more ... faster` exactly when the later
      week's rate is at least as steep as the earlier week's; the rate
      delta it reports is the difference of the two magnitudes. */
  lemma FasterIff(currentRate: real, nextRate: real, weekdaysOnly: bool, k: nat)
    requires CompareRates(currentRate, nextRate, weekdaysOnly, k).Comparison?
    requires CompareRates(currentRate, nextRate, weekdaysOnly, k).change.Changed?
    ensures var c := CompareRates(currentRate, nextRate, weekdaysOnly, k).change;
      && (c.faster <==> Abs(nextRate) >= Abs(currentRate))
      && c.rateDelta == Abs(Abs(nextRate) - Abs(currentRate))
  {
    var delta, base := Abs(nextRate) - Abs(currentRate), Abs(currentRate);
    PercentageSign(delta, base);
    if base != 0.0 {
      if delta >= 0.0 {
        assert delta * base >= 0.0;
      } else {
        assert delta * base < 0.0;
      }
    }
  }

  /** A reported change is the relative change of the magnitudes in
      percent; against an earlier rate of zero it is `Infinity`. */
  lemma ChangePercentValue(currentRate: real, nextRate: real, weekdaysOnly: bool, k: nat)
    requires CompareRates(currentRate, nextRate, weekdaysOnly, k).Comparison?
    requires CompareRates(currentRate, nextRate, weekdaysOnly, k).change.Changed?
    ensures CompareRates(currentRate, nextRate, weekdaysOnly, k).change.percent
         == if currentRate != 0.0
            then Finite(Abs(Abs(nextRate) - Abs(currentRate)) / Abs(currentRate) * 100.0)
            else Infinity(true)
  {
    if currentRate != 0.0 {
      PercentageMagnitude(Abs(nextRate) - Abs(currentRate), Abs(currentRate));
    }
  }

  /** Gradients 3 and -4 reverse: "decreasing" in the second week but
      "increasing" in the first. */
  lemma ReversalScenario(weekdaysOnly: bool)
    ensures CompareRates(WeekRate(LinearModel(3.0, 0.0)), WeekRate(LinearModel(-4.0, 0.0)), weekdaysOnly, 0)
         == Reversal(weekdaysOnly, 1, 0, Decreasing, Increasing)
  {
    assert WeekRate(LinearModel(3.0, 0.0)) * WeekRate(LinearModel(-4.0, 0.0)) < 0.0;
  }

  /** Gradients 3 and 3.2 change by about 6.7% but only by 0.2 per day:
      "in the same rate as". */
  lemma SameRateScenario(weekdaysOnly: bool)
    ensures CompareRates(WeekRate(LinearModel(3.0, 0.0)), WeekRate(LinearModel(3.2, 0.0)), weekdaysOnly, 0)
         == Comparison(weekdaysOnly, 1, 0, Increasing, SameRate)
  {
    assert Abs(WeekRate(LinearModel(3.2, 0.0)) - WeekRate(LinearModel(3.0, 0.0))) <= 2.0;
  }

  function Progressive(d: Direction): string {
    match d
    case Increasing => "increasing"
    case Decreasing => "decreasing"
  }

  function Past(d: Direction): string {
    match d
    case Increasing => "increased"
    case Decreasing => "decreased"
  }

  /** The opening of every sentence, qualified or not. */
  function Opening(weekdaysOnly: bool): string {
    "The active users <b>" + (if weekdaysOnly then "of weekdays " else "") + "</b>"
  }

  const QualifiedOpening: string := Opening(true)

  /** The sentence as displayed after its opening, with `formatY`
      formatting the numbers. */
  function RateBody(s: RateSentence, formatY: Num -> string): string {
    match s
    case Reversal(_, next, current, nextDirection, currentDirection) =>
      "was" + ReversalRest(next, current, nextDirection, currentDirection)
    case Comparison(_, next, current, direction, change) =>
      ComparisonOpening(next, direction) + RateChangeText(change, direction, formatY)
        + ("</b> the <b>" + OrdinalText(current) + " week</b>.")
  }

  /** The words of a reversal after its opening "was". */
  function ReversalRest(next: nat, current: nat, nextDirection: Direction, currentDirection: Direction): string {
    " <b>" + Progressive(nextDirection) + "</b> in the <b>" + OrdinalText(next)
      + " week</b> but <b>" + Progressive(currentDirection) + "</b> in the <b>" + OrdinalText(current)
      + " week</b>."
  }

  /** The words of a comparison before its change phrase. */
  function ComparisonOpening(next: nat, direction: Direction): string {
    "in the <b>" + OrdinalText(next) + " week</b> " + Past(direction) + " <b>"
  }

  /** The change phrase of a comparison. */
  function RateChangeText(change: RateChange, direction: Direction, formatY: Num -> string): string {
    match change
    case SameRate => "in the same rate as"
    case Changed(p, delta, faster) =>
      formatY(p) + "% (" + formatY(Finite(delta)) + " " + (if faster then "more" else "less")
        + " user " + Past(direction) + " per day) " + (if faster then "faster" else "slower") + " than"
  }

  /** A displayed body opens with "was" exactly for a reversal. */
  lemma RateBodySaysReversal(s: RateSentence, formatY: Num -> string)
    ensures ReadsAt(RateBody(s, formatY), 0, "was") <==> s.Reversal?
  {
    match s
    case Reversal(_, next, current, nextDirection, currentDirection) =>
      ReadsFirst("was", ReversalRest(next, current, nextDirection, currentDirection));
    case Comparison(_, next, current, direction, change) =>
      var opening := ComparisonOpening(next, direction);
      assert opening[0] == 'i';
      FirstDiffers(opening, RateChangeText(change, direction, formatY)
        + ("</b> the <b>" + OrdinalText(current) + " week</b>."), "was");
  }

  /** A comparison says "in the same rate as" right after its opening
      exactly when it reports no change, for any `formatY` whose output does
      not itself start with an `i` (a formatted number never does). */
  lemma RateBodySaysSameRate(s: RateSentence, formatY: Num -> string)
    requires s.Comparison?
    requires forall p :: formatY(p) == [] || formatY(p)[0] != 'i'
    ensures ReadsAt(RateBody(s, formatY), |ComparisonOpening(s.next, s.direction)|, "in the same rate as")
        <==> s.change.SameRate?
  {
    var opening, change := ComparisonOpening(s.next, s.direction), RateChangeText(s.change, s.direction, formatY);
    var rest := "</b> the <b>" + OrdinalText(s.current) + " week</b>.";
    if s.change.SameRate? {
      ReadsMiddle(opening, change, rest);
    } else {
      var p := s.change.percent;
      assert change[0] == if formatY(p) == [] then '%' else formatY(p)[0];
      MiddleDiffers(opening, change, rest, "in the same rate as");
    }
  }

  /** The sentence as displayed: it opens with `of weekdays ` exactly when
      the sentence carries the qualifier. */
  function RateText(s: RateSentence, formatY: Num -> string): (text: string)
    ensures StartsQualified(text) <==> s.weekdaysOnly
  {
    OpeningShowsQualifier(s.weekdaysOnly, RateBody(s, formatY));
    Opening(s.weekdaysOnly) + RateBody(s, formatY)
  }

  /** Whether a displayed sentence opens with the weekday qualifier. */
  predicate StartsQualified(text: string) {
    |QualifiedOpening| <= |text| && text[..|QualifiedOpening|] == QualifiedOpening
  }

  /** Whatever text follows an opening, the qualifier is visible exactly
      when the opening carries it. */
  lemma OpeningShowsQualifier(weekdaysOnly: bool, body: string)
    ensures StartsQualified(Opening(weekdaysOnly) + body) <==> weekdaysOnly
  {
    var text := Opening(weekdaysOnly) + body;
    if weekdaysOnly {
      assert text[..|QualifiedOpening|] == QualifiedOpening;
    } else if |text| >= |QualifiedOpening| {
      assert |Opening(false)| == 24;
      assert text[20] == Opening(false)[20] == '<';
      assert QualifiedOpening[20] == 'o';
      assert text[..|QualifiedOpening|][20] != QualifiedOpening[20];
    }
  }

  /** The summary comparing week `k + 1` against week `k` with full
      validity; `render` is the sentence template (`RateText` in
      `createSummaries$`). */
  function PairSummary(weekLinearModels: seq<LinearModel>, k: nat, weekdaysOnly: bool, render: RateSentence -> string): Summary
    requires k + 1 < |weekLinearModels|
  {
    Summary(render(PairSentence(weekLinearModels, k, weekdaysOnly)), FullValidity)
  }

  /** The sentence comparing week `k + 1` against week `k`. */
  function PairSentence(weekLinearModels: seq<LinearModel>, k: nat, weekdaysOnly: bool): RateSentence
    requires k + 1 < |weekLinearModels|
  {
    CompareRates(WeekRate(weekLinearModels[k]), WeekRate(weekLinearModels[k + 1]), weekdaysOnly, k)
  }

  /** The summaries of the first `count` pairs of weeks, in pair order. */
  function PairSummaries(weekLinearModels: seq<LinearModel>, count: nat, weekdaysOnly: bool, render: RateSentence -> string)
    : (r: seq<Summary>)
    requires count == 0 || count < |weekLinearModels|
    ensures |r| == count
    ensures forall k :: 0 <= k < count ==> r[k] == PairSummary(weekLinearModels, k, weekdaysOnly, render)
  {
    if count == 0 then []
    else PairSummaries(weekLinearModels, count - 1, weekdaysOnly, render)
         + [PairSummary(weekLinearModels, count - 1, weekdaysOnly, render)]
  }

  /** The loop of `createSummaries$`: one summary per adjacent pair of
      weeks, in pair order; reading the gradient of a week without a linear
      model throws. */
  method SummarizePairs(numOfWeeks: nat, weekLinearModels: seq<LinearModel>, weekdaysOnly: bool, render: RateSentence -> string)
    returns (r: Result<seq<Summary>>)
    ensures r.Failure? <==> numOfWeeks >= 2 && |weekLinearModels| < numOfWeeks
    ensures r.Failure? ==> r.error == MissingLinearModel(|weekLinearModels|)
    ensures r.Success? ==>
      && (PairCount(numOfWeeks) == 0 || PairCount(numOfWeeks) < |weekLinearModels|)
      && r.value == PairSummaries(weekLinearModels, PairCount(numOfWeeks), weekdaysOnly, render)
  {
    var summaries: seq<Summary> := [];
    var i := 0;
    while i < numOfWeeks - 1
      invariant 0 <= i <= PairCount(numOfWeeks)
      invariant i == 0 || i < |weekLinearModels|
      invariant summaries == PairSummaries(weekLinearModels, i, weekdaysOnly, render)
    {
      if i + 1 >= |weekLinearModels| {
        // weekLinearModels[i] or weekLinearModels[i + 1] is undefined
        return Failure(MissingLinearModel(|weekLinearModels|));
      }
      summaries := summaries + [PairSummary(weekLinearModels, i, weekdaysOnly, render)];
      i := i + 1;
    }
    return Success(summaries);
  }

  /** `createSummaries$`: exactly one group with the rate title and one
      full-validity sentence per adjacent pair of weeks, pair `k` comparing
      week `k + 1` against week `k`, each qualified exactly when the
      weekday/weekend equality is at most 0.7; reading the gradient of a week
      without a linear model throws. */
  method CreateSummaries(
    weekPointArrays: seq<seq<TimeSeriesPoint>>,
    weekLinearModels: seq<LinearModel>,
    weekdayWeekendEqualValidity: real,
    formatY: Num -> string)
    returns (r: Result<seq<SummaryGroup>>)
    ensures r.Failure? <==> |weekPointArrays| >= 2 && |weekLinearModels| < |weekPointArrays|
    ensures r.Failure? ==> r.error == MissingLinearModel(|weekLinearModels|)
    ensures r.Success? ==> |r.value| == 1 && r.value[0].title == Title
    ensures r.Success? ==> |r.value[0].summaries| == PairCount(|weekPointArrays|)
    ensures r.Success? ==> forall k :: 0 <= k < |r.value[0].summaries| ==>
      k + 1 < |weekLinearModels|
      && r.value[0].summaries[k].validity == FullValidity
      && r.value[0].summaries[k].text
         == RateText(PairSentence(weekLinearModels, k, WeekdaysOnly(weekdayWeekendEqualValidity)), formatY)
      && (StartsQualified(r.value[0].summaries[k].text) <==> weekdayWeekendEqualValidity <= 0.7)
  {
    var weekdaysOnly := WeekdaysOnly(weekdayWeekendEqualValidity);
    var pairs := SummarizePairs(|weekPointArrays|, weekLinearModels, weekdaysOnly, s => RateText(s, formatY));
    if pairs.Failure? {
      return Failure(pairs.error);
    }
    return Success([SummaryGroup(Title, pairs.value)]);
  }
}
