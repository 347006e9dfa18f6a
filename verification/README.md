# Weekly comparison summarizers of guide-doge, modelled in Dafny

guide-doge turns time series of active users into short natural-language
summaries. Two of its summarizers compare consecutive weeks. Both receive
per-week data that the weekly elaboration service has already computed, and
both return one titled group with one sentence per adjacent pair of weeks:

- the **average comparison** takes the mean `y` of every week and says that
  week `k + 1` was "X% more/less than" week `k`, or "similar to" it when the
  change is at most 5%;
- the **rate comparison** takes every week's linear-model gradient plus
  `1e-5`. It reports a direction reversal ("was increasing in the second week
  but decreasing in the first") when the rates differ by more than 2 and have
  opposite signs. Otherwise it says "X% (Y more/less user increased/decreased
  per day) faster/slower than", or "in the same rate as" unless both the 5%
  and the 2-per-day thresholds are exceeded. The sentence is qualified with
  "of weekdays" when the weekday/weekend equality degree is at most 0.7.

The project has four modules:

- `Numbers` (`numbers.dfy`): the JavaScript number behaviour the summarizers
  meet. Values are exact reals. A division by zero yields a signed infinity
  or NaN instead of failing, and `>=` and `>` are false on NaN. It also
  proves the division-free forms of the 5% gate and of the sign test.
- `Summaries` (`summaries.dfy`): points, linear models, summaries, groups,
  the two exceptions the services can raise, and the ordinal vocabulary.
- `AverageComparison` (`average_comparison.dfy`): per-week means, the
  sentence decision, its text, and `createSummaries$` as a loop.
- `RateComparison` (`rate_comparison.dfy`): rates, the sentence decision, its
  text, the weekday qualifier, and `createSummaries$` as a loop.

Each sentence is first chosen as a small datatype (`AverageSentence`,
`RateSentence`) holding the week indices, the directions and the percentage.
It is then rendered to the exact HTML text of the source's template literals.
`formatY` is a parameter of type `Num -> string`. The loops take the
template as a parameter `render`, and `CreateSummaries` passes the exact
template to them.

Three behaviours of the code are worth stating plainly, because the model
keeps them instead of smoothing them over:

- the average comparison divides by the earlier week's mean with no guard
  (trend-weekly-comparison-average.summarization.service.ts line 87). The
  rate comparison divides by `|gradient + 1e-5|` (trend-weekly-comparison-rate.summarization.service.ts lines 89 and
  109), which is zero for a gradient of `-1e-5`. Both divisions are modelled
  as IEEE division (`Numbers.Divide`): a non-zero change over a zero base
  hands `Infinity` to `formatY` as the figure (`AverageComparison.AveragePercentValue`,
  `RateComparison.ChangePercentValue`), and `0 / 0` is NaN, which reads
  "similar to" or "in the same rate as";
- the ordinal vocabulary has five words (line 82 of both services), so it names weeks 0 to 4. A sixth week is named
  `undefined`, which is how the template prints a missing array entry
  (`Summaries.OrdinalText`). This is not an error;
- the average summarizer throws when any week is empty (`math.mean` of no
  values), even with a single week: `Failure(EmptyWeek(w))`, where `w` is
  the first empty week. The rate summarizer reads only the number of weeks,
  so an empty week does not stop it. It throws when there are at least two
  weeks and fewer linear models than weeks: `Failure(MissingLinearModel(w))`,
  where `w` is the first missing index, which is the number of models. In
  every other case with fewer than two weeks the loop never runs, and the
  summarizer returns its titled group with no summaries.

## Model

| member | source | states |
|---|---|---|
| `AverageComparison.CreateSummaries` | src/services/summarization/trend-weekly-comparison-average.summarization.service.ts:73-107 | fails exactly when some week is empty, naming the first one. Otherwise: exactly one group titled 'Trend Weekly Comparison - Average', max(0, n-1) summaries, summary k compares week k+1 with week k, and every validity is 1.0 |
| `AverageComparison.WeekAverages` | src/services/summarization/trend-weekly-comparison-average.summarization.service.ts:78-80 | one average per week, in week order, each the mean of that week's `y` values; the first empty week makes it fail |
| `AverageComparison.MeanBounds` | src/services/summarization/trend-weekly-comparison-average.summarization.service.ts:79 | a week's mean lies between any lower and upper bound of its values |
| `AverageComparison.SumBounds` | src/services/summarization/trend-weekly-comparison-average.summarization.service.ts:79 | n values within [lo, hi] sum to between n·lo and n·hi (the induction behind the mean bound) |
| `AverageComparison.CompareAverages` | src/services/summarization/trend-weekly-comparison-average.summarization.service.ts:94 | the sentence for pair k names week k+1 first and week k second |
| `AverageComparison.AverageDiffersIff` | src/services/summarization/trend-weekly-comparison-average.summarization.service.ts:87-92 | a percentage is reported iff 20·abs(next − current) > abs(current), i.e. abs(percentage) > 5, with the zero-divisor cases included |
| `AverageComparison.AverageMoreIff` | src/services/summarization/trend-weekly-comparison-average.summarization.service.ts:87-88 | a reported change reads 'more' iff the change has the sign of the earlier average (percentage ≥ 0); with an earlier average of 0 it reads 'more' iff the later average is positive |
| `AverageComparison.AveragePercentValue` | src/services/summarization/trend-weekly-comparison-average.summarization.service.ts:87-91 | a reported figure is abs(next − current)/abs(current)·100 for a non-zero earlier average, and `Infinity` for an earlier average of zero |
| `AverageComparison.AverageFromZeroInfinite` | src/services/summarization/trend-weekly-comparison-average.summarization.service.ts:87-92 | averages 0 and 5 give a "more than" change whose figure handed to `formatY` is `Infinity` |
| `AverageComparison.AveragePositiveBaseline` | src/services/summarization/trend-weekly-comparison-average.summarization.service.ts:87-92 | with a positive earlier average: 'more' iff next > 105% of it, 'less' iff next < 95% of it, 'similar to' otherwise |
| `AverageComparison.AverageSixPercentMore` | src/services/summarization/trend-weekly-comparison-average.summarization.service.ts:87-92 | averages 100 and 106 give "6% more than" |
| `AverageComparison.AverageTwoPercentSimilar` | src/services/summarization/trend-weekly-comparison-average.summarization.service.ts:87-92 | averages 100 and 102 give "similar to" |
| `AverageComparison.SummarizePairs` | src/services/summarization/trend-weekly-comparison-average.summarization.service.ts:86-100 | one summary per adjacent pair of week averages, in pair order, for any number of weeks including none |
| `AverageComparison.PairSummaries` | src/services/summarization/trend-weekly-comparison-average.summarization.service.ts:86-99 | the first `count` pairs give `count` summaries, summary k comparing the average of week k+1 with that of week k at full validity |
| `AverageComparison.Mean` | src/services/summarization/trend-weekly-comparison-average.summarization.service.ts:79 | `math.mean`: the sum of the values divided by their count, on a non-empty week only (its bounds are `MeanBounds`) |
| `AverageComparison.AverageText` | src/services/summarization/trend-weekly-comparison-average.summarization.service.ts:90-94 | the template: "The average active users of the <b>(week k+1)</b> week was <b>(change)</b> the <b>(week k)</b> week.", the change being "similar to" or "formatY(percent)% more/less than" |
| `AverageComparison.AverageTextSaysSimilar` | src/services/summarization/trend-weekly-comparison-average.summarization.service.ts:90-94 | the displayed sentence reads "similar to" right after its opening exactly when the averages are similar, for any `formatY` whose output does not start with `s` |
| `RateComparison.CreateSummaries` | src/services/summarization/trend-weekly-comparison-rate.summarization.service.ts:73-133 | fails (reading a missing linear model) exactly when there are at least 2 weeks and fewer models than weeks. Otherwise: exactly one group titled 'Trend Weekly Comparison - Rate', max(0, n-1) summaries of validity 1.0, summary k compares week k+1 with week k using gradient + 1e-5, and every text opens with 'of weekdays ' iff the equality degree ≤ 0.7 |
| `RateComparison.CompareRates` | src/services/summarization/trend-weekly-comparison-rate.summarization.service.ts:103-120 | the sentence for pair k names week k+1 first and week k second and keeps the qualifier; outside a reversal the verb is 'increased' iff the earlier week's rate ≥ 0 |
| `RateComparison.ReversalIff` | src/services/summarization/trend-weekly-comparison-rate.summarization.service.ts:92-99 | a reversal is reported iff the rates differ by more than 2 and are non-zero with opposite directions (their product is negative) |
| `RateComparison.ReversalDirections` | src/services/summarization/trend-weekly-comparison-rate.summarization.service.ts:100-103 | a reversal names two different directions, each week 'increasing' iff its own rate is positive |
| `RateComparison.ChangeShownIff` | src/services/summarization/trend-weekly-comparison-rate.summarization.service.ts:109-117 | outside a reversal, the percentage is reported iff the rates differ by more than 2 and 20·abs(abs(next) − abs(current)) > abs(current), i.e. abs(percentage) > 5 |
| `RateComparison.FasterIff` | src/services/summarization/trend-weekly-comparison-rate.summarization.service.ts:94-116 | a reported change reads 'more … faster' iff abs(next) ≥ abs(current), and its per-day figure is abs(abs(next) − abs(current)) |
| `RateComparison.ChangePercentValue` | src/services/summarization/trend-weekly-comparison-rate.summarization.service.ts:109-116 | a reported figure is abs(abs(next) − abs(current))/abs(current)·100 for a non-zero earlier rate, and `Infinity` for an earlier rate of zero |
| `RateComparison.ReversalScenario` | src/services/summarization/trend-weekly-comparison-rate.summarization.service.ts:86-103 | gradients 3 and −4 give a reversal: 'decreasing' in the second week but 'increasing' in the first |
| `RateComparison.SameRateScenario` | src/services/summarization/trend-weekly-comparison-rate.summarization.service.ts:86-117 | gradients 3 and 3.2 give "in the same rate as", because the rate difference 0.2 ≤ 2 even though the change is about 6.7% |
| `RateComparison.RateText` | src/services/summarization/trend-weekly-comparison-rate.summarization.service.ts:97-120 | a displayed sentence opens with 'The active users <b>of weekdays </b>' iff its sentence carries the qualifier, whatever follows it |
| `RateComparison.SummarizePairs` | src/services/summarization/trend-weekly-comparison-rate.summarization.service.ts:85-127 | the loop fails (a missing linear model is read) iff there are at least 2 weeks and fewer models than weeks; otherwise it emits one summary per adjacent pair, in pair order |
| `RateComparison.PairSummaries` | src/services/summarization/trend-weekly-comparison-rate.summarization.service.ts:85-126 | the first `count` pairs give `count` summaries, summary k comparing week k+1 with week k at full validity |
| `RateComparison.RateBody` | src/services/summarization/trend-weekly-comparison-rate.summarization.service.ts:100-120 | the templates after the opening: "was <b>increasing/decreasing</b> in the … week but …" for a reversal, "in the … week increased/decreased <b>(change)</b> the … week." otherwise |
| `RateComparison.RateBodySaysReversal` | src/services/summarization/trend-weekly-comparison-rate.summarization.service.ts:99-120 | a displayed body opens with "was" exactly when the sentence is a reversal |
| `RateComparison.RateBodySaysSameRate` | src/services/summarization/trend-weekly-comparison-rate.summarization.service.ts:115-120 | a comparison reads "in the same rate as" right after its opening exactly when no change is reported, for any `formatY` whose output does not start with `i` |
| `Summaries.OrdinalNaming` | src/services/summarization/trend-weekly-comparison-rate.summarization.service.ts:82 | two weeks get the same ordinal word iff they are the same week or both lie past the five-word vocabulary |
| `Summaries.NamedWeeksHaveOrdinals` | src/services/summarization/trend-weekly-comparison-rate.summarization.service.ts:82-120 | every week a comparison names has a word of the vocabulary iff there are at most five weeks |
| `Summaries.OrdinalText` | src/services/summarization/trend-weekly-comparison-rate.summarization.service.ts:82 | the word for week i: the i-th of "first" … "fifth", and "undefined" past the vocabulary |
| `Numbers.DivideInverse` | src/services/summarization/trend-weekly-comparison-average.summarization.service.ts:87 | with a non-zero divisor the quotient is finite, and multiplying it back by the divisor gives the dividend |
| `Numbers.PercentageSign` | src/services/summarization/trend-weekly-comparison-average.summarization.service.ts:87-88 | `percentage >= 0` holds iff change·base ≥ 0 for a non-zero base, and iff change > 0 for a zero base |
| `Numbers.PercentageAboveFive` | src/services/summarization/trend-weekly-comparison-average.summarization.service.ts:89-90 | `abs(percentage) > 5` holds iff 20·abs(change) > abs(base), zero base included |
| `Numbers.PercentageMagnitude` | src/services/summarization/trend-weekly-comparison-rate.summarization.service.ts:109-114 | with a non-zero base, abs(percentage) is the finite value abs(change)/abs(base)·100 |
| `Numbers.Divide` | src/services/summarization/trend-weekly-comparison-average.summarization.service.ts:87 | JS `/` on finite reals: the quotient for a non-zero divisor, otherwise an infinity with the dividend's sign, or NaN for 0/0 |
| `Numbers.Percentage` | src/services/summarization/trend-weekly-comparison-rate.summarization.service.ts:109 | `delta / base * 100` with that division |

## Left out

- The rxjs composition (`zip`, `pipe(map(...))`, `of`), Angular dependency injection, `prepareConfig` and `createProperties$`, which returns `{}`: this is plumbing. The upstream properties `weekPointArrays`, `weekLinearModels` and `weekdayWeekendEqualValidity` are plain parameters. An exception thrown inside `map` becomes an error of the observable; it is modelled as a `Failure` result.
- The upstream weekly elaboration and weekday/weekend services, the protoform, trend and time-series helpers: their outputs are given sequences and reals. The model does not compute linear models or the equality degree.
- `formatY`: number formatting lives in a library outside this model, so it is a parameter of type `Num -> string`.
- IEEE double rounding: values are exact reals and `1e-5` is the exact real 0.00001. Signed zero is not modelled. The rate comparison's divisor is `Math.abs` of a rate, which is never `-0`. The average comparison's divisor is a signed mean, and a `-0` divisor there would turn "more" into "less". A mean can round to `-0` when the sum is a tiny negative number, but counts of active users are never negative, so their sum is never negative and the mean is never `-0`. NaN or infinite inputs (gradients, `y` values, the equality degree) are not modelled either: the inputs are finite reals.
- `weekPointArrays` in the rate comparison contributes only its length, as in the source.
- The rendering, chart, VR, haptic and geographic-map components, the Angular module, the dataset meta constructors, the i18n enums and the test fixtures are not part of this model. None of them holds summarization logic.
