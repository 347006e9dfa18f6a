/** The average-based weekly comparison summarizer: the mean of each week's
    `y` values, and one sentence per adjacent pair of weeks saying by how
    many percent the later week's mean is more or less than the earlier
    week's, or that the two are similar. */
module AverageComparison {
  import opened Numbers
  import opened Summaries

  const Title: string := "Trend Weekly Comparison - Average"

  /** Sum of a sequence of values, added left to right. */
  function Sum(ys: seq<real>): real {
    if |ys| == 0 then 0.0 else Sum(ys[..|ys| - 1]) + ys[|ys| - 1]
  }

  /** `math.mean`: defined on non-empty input only. */
  function Mean(ys: seq<real>): real
    requires |ys| > 0
  {
    Sum(ys) / |ys| as real
  }

  /** The `y` values of a week, in order. */
  function Ys(points: seq<TimeSeriesPoint>): (ys: seq<real>)
    ensures |ys| == |points|
  {
    seq(|points|, i requires 0 <= i < |points| => points[i].y)
  }

  /** The average of one week's `y` values. */
  function WeekAverage(points: seq<TimeSeriesPoint>): real
    requires |points| > 0
  {
    Mean(Ys(points))
  }

  /** Values bounded pointwise bound their sum. */
  lemma {:induction false} SumBounds(ys: seq<real>, lo: real, hi: real)
    requires forall i :: 0 <= i < |ys| ==> lo <= ys[i] <= hi
    ensures |ys| as real * lo <= Sum(ys) <= |ys| as real * hi
  {
    if |ys| > 0 {
      var init := ys[..|ys| - 1];
      assert forall i :: 0 <= i < |init| ==> init[i] == ys[i];
      SumBounds(init, lo, hi);
    }
  }

  /** The mean lies between any lower and upper bound of the values; in
      particular the mean of a constant week is that constant. */
  lemma MeanBounds(ys: seq<real>, lo: real, hi: real)
    requires |ys| > 0
    requires forall i :: 0 <= i < |ys| ==> lo <= ys[i] <= hi
    ensures lo <= Mean(ys) <= hi
  {
    SumBounds(ys, lo, hi);
    var n := |ys| as real;
    assert n * lo <= Sum(ys) <= n * hi;
    assert Mean(ys) * n == Sum(ys);
  }

  /** `w` is the first week without points: `math.mean` throws on it, and the
      weeks before it have all been averaged. */
  ghost predicate FirstEmptyWeek(weekPointArrays: seq<seq<TimeSeriesPoint>>, w: nat) {
    w < |weekPointArrays| && |weekPointArrays[w]| == 0
    && forall v :: 0 <= v < w ==> |weekPointArrays[v]| > 0
  }

  /** The per-week averages (`weekPointArrays.map(... math.mean ...)`): the
      mean of every week, in week order, or the first empty week. */
  method WeekAverages(weekPointArrays: seq<seq<TimeSeriesPoint>>) returns (r: Result<seq<real>>)
    ensures r.Success? <==> forall w :: 0 <= w < |weekPointArrays| ==> |weekPointArrays[w]| > 0
    ensures r.Failure? ==> r.error.EmptyWeek? && FirstEmptyWeek(weekPointArrays, r.error.week)
    ensures r.Success? ==> |r.value| == |weekPointArrays|
    ensures r.Success? ==> forall w :: 0 <= w < |r.value| ==> r.value[w] == WeekAverage(weekPointArrays[w])
  {
    var averages: seq<real> := [];
    var w := 0;
    while w < |weekPointArrays|
      invariant 0 <= w <= |weekPointArrays|
      invariant |averages| == w
      invariant forall v :: 0 <= v < w ==> |weekPointArrays[v]| > 0 && averages[v] == WeekAverage(weekPointArrays[v])
    {
      if |weekPointArrays[w]| == 0 {
        return Failure(EmptyWeek(w));
      }
      averages := averages + [WeekAverage(weekPointArrays[w])];
      w := w + 1;
    }
    return Success(averages);
  }

  /** How the later week's average relates to the earlier one's. */
  datatype AverageChange =
    | Similar                            // "similar to"
    | Differs(percent: Num, more: bool)  // "<percent>% more than" / "<percent>% less than"

  /** The sentence for the pair (`current`, `next`) of week indices. */
  datatype AverageSentence = AverageSentence(next: nat, current: nat, change: AverageChange)

  /** The choice of sentence for week `k` (average `current`) against week
      `k + 1` (average `next`): the percentage change relative to the earlier
      week, reported when its magnitude exceeds 5. */
  function CompareAverages(current: real, next: real, k: nat): (s: AverageSentence)
    ensures s.next == k + 1 && s.current == k
  {
    var percentageIncrease := Percentage(next - current, current);
    var change :=
      if Above(AbsNum(percentageIncrease), 5.0)
      then Differs(AbsNum(percentageIncrease), AtLeast(percentageIncrease, 0.0))
      else Similar;
    AverageSentence(k + 1, k, change)
  }

  /** The percentage is reported exactly when the averages differ by more
      than a twentieth of the earlier week's average. */
  lemma AverageDiffersIff(current: real, next: real, k: nat)
    ensures CompareAverages(current, next, k).change.Differs?
        <==> 20.0 * Abs(next - current) > Abs(current)
  {
    PercentageAboveFive(next - current, current);
  }

  /** A reported change reads `more` exactly when the difference has the sign
      of the earlier average (a zero earlier average gives an infinite
      percentage, `more` when the later average is positive). */
  lemma AverageMoreIff(current: real, next: real, k: nat)
    requires CompareAverages(current, next, k).change.Differs?
    ensures CompareAverages(current, next, k).change.more
        <==> (if current != 0.0 then (next - current) * current >= 0.0 else next > 0.0)
  {
    PercentageSign(next - current, current);
  }

  /** A reported change is the relative change in percent; against an
      earlier average of zero it is `Infinity`. */
  lemma AveragePercentValue(current: real, next: real, k: nat)
    requires CompareAverages(current, next, k).change.Differs?
    ensures CompareAverages(current, next, k).change.percent
         == if current != 0.0 then Finite(Abs(next - current) / Abs(current) * 100.0) else Infinity(true)
  {
    if current != 0.0 {
      PercentageMagnitude(next - current, current);
    }
  }

  /** Averages 0 and 5 give "Infinity% more than". */
  lemma AverageFromZeroInfinite()
    ensures CompareAverages(0.0, 5.0, 0) == AverageSentence(1, 0, Differs(Infinity(true), true))
  {
  }

  /** Scaling by a positive factor keeps the sign. */
  lemma PositiveFactorSign(x: real, c: real)
    requires c > 0.0
    ensures x * c >= 0.0 <==> x >= 0.0
  {
    if x >= 0.0 {
      assert x * c >= 0.0;
    } else {
      assert x * c < 0.0;
    }
  }

  /** For a positive earlier average (active users): `more` above 105% of it,
      `less` below 95% of it, `similar` in between, bounds included. */
  lemma AveragePositiveBaseline(current: real, next: real, k: nat)
    requires current > 0.0
    ensures var c := CompareAverages(current, next, k).change;
      && (c.Differs? && c.more <==> 20.0 * next > 21.0 * current)
      && (c.Differs? && !c.more <==> 20.0 * next < 19.0 * current)
      && (c.Similar? <==> 19.0 * current <= 20.0 * next <= 21.0 * current)
  {
    AverageDiffersIff(current, next, k);
    if CompareAverages(current, next, k).change.Differs? {
      AverageMoreIff(current, next, k);
      PositiveFactorSign(next - current, current);
    }
  }

  /** Averages 100 and 106 give "6% more than". */
  lemma AverageSixPercentMore()
    ensures CompareAverages(100.0, 106.0, 0) == AverageSentence(1, 0, Differs(Finite(6.0), true))
  {
    assert Percentage(6.0, 100.0) == Finite(6.0);
  }

  /** Averages 100 and 102 give "similar to". */
  lemma AverageTwoPercentSimilar()
    ensures CompareAverages(100.0, 102.0, 0) == AverageSentence(1, 0, Similar)
  {
    assert Percentage(2.0, 100.0) == Finite(2.0);
  }

  /** The sentence as displayed, with `formatY` formatting the percentage. */
  function AverageText(s: AverageSentence, formatY: Num -> string): string {
    AverageOpening(s.next) + ChangeText(s.change, formatY)
      + "</b> the <b>" + OrdinalText(s.current) + " week</b>."
  }

  /** The words before the change phrase. */
  function AverageOpening(next: nat): string {
    "The average active users of the <b>" + OrdinalText(next) + " week</b> was <b>"
  }

  /** The change phrase. */
  function ChangeText(change: AverageChange, formatY: Num -> string): string {
    match change
    case Similar => "similar to"
    case Differs(p, more) => formatY(p) + "% " + (if more then "more" else "less") + " than"
  }

  /** The displayed sentence says "similar to" right after its opening
      exactly when the averages are similar, for any `formatY` whose output
      does not itself start with an `s` (a formatted number never does). */
  lemma AverageTextSaysSimilar(s: AverageSentence, formatY: Num -> string)
    requires forall p :: formatY(p) == [] || formatY(p)[0] != 's'
    ensures ReadsAt(AverageText(s, formatY), |AverageOpening(s.next)|, "similar to") <==> s.change.Similar?
  {
    var opening, change := AverageOpening(s.next), ChangeText(s.change, formatY);
    var rest := "</b> the <b>" + OrdinalText(s.current) + " week</b>.";
    assert AverageText(s, formatY) == opening + change + rest;
    if s.change.Similar? {
      ReadsMiddle(opening, change, rest);
    } else {
      var p := s.change.percent;
      assert change[0] == if formatY(p) == [] then '%' else formatY(p)[0];
      MiddleDiffers(opening, change, rest, "similar to");
    }
  }

  /** The summary comparing week `k + 1` (average `next`) against week `k`
      (average `current`) with full validity; `render` is the sentence
      template (`AverageText` in `createSummaries$`). */
  function PairSummary(current: real, next: real, k: nat, render: AverageSentence -> string): Summary {
    Summary(render(CompareAverages(current, next, k)), FullValidity)
  }

  /** The summaries of the first `count` pairs of weeks, in pair order. */
  function PairSummaries(averages: seq<real>, count: nat, render: AverageSentence -> string): (r: seq<Summary>)
    requires count == 0 || count < |averages|
    ensures |r| == count
    ensures forall k {:trigger r[k]} :: 0 <= k < count ==> r[k] == PairSummary(averages[k], averages[k + 1], k, render)
  {
    if count == 0 then []
    else PairSummaries(averages, count - 1, render)
         + [PairSummary(averages[count - 1], averages[count], count - 1, render)]
  }

  /** The loop of `createSummaries$`: one summary per adjacent pair of
      weeks, in pair order. */
  method SummarizePairs(weekYAverages: seq<real>, render: AverageSentence -> string) returns (summaries: seq<Summary>)
    ensures summaries == PairSummaries(weekYAverages, PairCount(|weekYAverages|), render)
  {
    var numOfWeeks := |weekYAverages|;
    summaries := [];
    var i := 0;
    while i < numOfWeeks - 1
      invariant 0 <= i <= PairCount(numOfWeeks)
      invariant summaries == PairSummaries(weekYAverages, i, render)
    {
      summaries := summaries + [PairSummary(weekYAverages[i], weekYAverages[i + 1], i, render)];
      i := i + 1;
    }
  }

  /** `createSummaries$`: exactly one group with the average title and one
      full-validity sentence per adjacent pair of weeks, pair `k` comparing
      the average of week `k + 1` against that of week `k`; an empty week
      makes `math.mean` throw. */
  method CreateSummaries(weekPointArrays: seq<seq<TimeSeriesPoint>>, formatY: Num -> string)
    returns (r: Result<seq<SummaryGroup>>)
    ensures r.Failure? <==> exists w :: 0 <= w < |weekPointArrays| && |weekPointArrays[w]| == 0
    ensures r.Failure? ==> r.error.EmptyWeek? && FirstEmptyWeek(weekPointArrays, r.error.week)
    ensures r.Success? ==> |r.value| == 1 && r.value[0].title == Title
    ensures r.Success? ==> |r.value[0].summaries| == PairCount(|weekPointArrays|)
    ensures r.Success? ==> forall k :: 0 <= k < |r.value[0].summaries| ==>
      r.value[0].summaries[k].validity == FullValidity
      && r.value[0].summaries[k].text == AverageText(
           CompareAverages(WeekAverage(weekPointArrays[k]), WeekAverage(weekPointArrays[k + 1]), k), formatY)
  {
    var averagesResult := WeekAverages(weekPointArrays);
    if averagesResult.Failure? {
      return Failure(averagesResult.error);
    }
    var summaries := SummarizePairs(averagesResult.value, s => AverageText(s, formatY));
    return Success([SummaryGroup(Title, summaries)]);
  }
}
