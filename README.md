# ecotrack analytics in Dafny

A verified model of the analytics core of the ecotrack AI service
(`src/services/aiService.js`). It covers:

- **Trend fitter** (`calculateTrends`): an ordinary-least-squares line through
  the points (i, emissions_i), where i is the 0-based index of the sample. It
  returns slope 0 and intercept 0 for fewer than two samples.
- **Forecaster** (`extrapolate`, `predictFutureEmissions`): the line evaluated
  at the horizons 1, 3 and 12, with each value clamped at 0.
- **Anomaly detector** (`detectAnomalies` with `calculateMean` and
  `calculateStandardDeviation`): a `forEach` loop that pushes an
  `emission_spike` entry for every sample whose absolute z-score is above 2.
  The severity is `high` above 3 and `medium` otherwise.
- **Recommendation fallback** (`generateRecommendations`,
  `parseRecommendations`, `getFallbackRecommendations`): a fixed three-item
  list when the chat-completion call succeeds, a fixed two-item list when
  anything in it throws.

Files:

- `carbon.dfy`: the shared value types. A sample, the low/medium/high scale,
  and a number that may be NaN.
- `stats.dfy` (module `Stats`): the mean and the variance as folds, and
  Samuelson's inequality.
- `trends.dfy` (module `Trends`): the fit, the normal equations, the forecasts,
  and the forecast-horizon finding.
- `anomalies.dfy` (module `Anomalies`): the z-score semantics, the
  `DetectAnomalies` loop method, and the function that specifies it.
- `recommendations.dfy` (module `Recommendations`): the try/catch branch.

Arithmetic is over `real`; JavaScript doubles are abstracted. Where JavaScript
produces NaN or Infinity, the model keeps it explicitly:

- `Carbon.Num` gives the mean of an empty history as NaN (0 / 0).
- `Anomalies.AbsZScore` gives 0 / 0 as NaN, and a non-zero deviation divided by 0
  as Infinity.
- Every comparison with NaN is false, and Infinity exceeds every threshold.

`Math.sqrt` is not modelled. `Stats.Variance` is the square of
`calculateStandardDeviation`, and the z-score thresholds are compared as
squares. `Anomalies.ExceedsIffBeyondDeviations` proves this is the same test
as `|y - mean| > k·stdDev` for any standard deviation whose square is the
variance.

Three facts about the code that the model makes explicit:

- For the history 100, 102, 98, 101, 500 the code flags nothing. By
  Samuelson's inequality no sample of a history of at most five can be more
  than 2 population standard deviations from the mean, so none can score above
  2 (`Anomalies.ShortHistoryHasNoAnomalies`,
  `Anomalies.FiveMonthJumpNotReported`). A sixth sample is needed before
  anything is flagged (`Anomalies.SixthMonthJumpReported`), and an eleventh
  before anything is `high` (`Anomalies.EleventhMonthJumpReportedHigh`).
- There is no guard for a zero standard deviation. Each z-score is then
  0 / 0 = NaN, and NaN > 2 is false (`Anomalies.ConstantHistoryHasNoAnomalies`,
  `Anomalies.NoInfiniteScore`).
- `predictFutureEmissions` evaluates the fitted line at x = 1, 3 and 12, where x
  is the 0-based sample index. So "next month" is the fitted value of the
  second sample, not a forecast past the last one
  (`Trends.NextMonthIsSecondSample`; see "## Findings").

## Model

| member | source | states |
|---|---|---|
| Stats.Sum | src/services/aiService.js:204 | the fold `reduce((sum, item) => sum + item.emissions, 0)`, left to right; also `sumY` at :183 (its properties are stated by Stats.Mean, Stats.SumOfConstant and Stats.MeanWithinBounds) |
| Stats.Mean | src/services/aiService.js:203-205 | NaN exactly for the empty history; otherwise the length times the mean is the sum of the emissions |
| Stats.Variance | src/services/aiService.js:210-212 | NaN exactly for an empty history or a NaN mean; otherwise non-negative, and the length times it is the sum of squared deviations (the square of the standard deviation) |
| Stats.SquaredDeviationSum | src/services/aiService.js:211 | the fold of `Math.pow(e - mean, 2)` is never negative |
| Stats.SumOfConstant | src/services/aiService.js:204 | the sum of a constant history is its length times the constant |
| Stats.SquaredDeviationSumOfConstant | src/services/aiService.js:211 | in a constant history c the squared deviations from m sum to the length times (c - m)² |
| Stats.MeanOfConstant | src/services/aiService.js:204 | the mean of a non-empty constant history is that constant |
| Stats.MeanWithinBounds | src/services/aiService.js:204 | the mean lies between any lower and upper bound of the samples |
| Stats.ZeroSquaredDeviations | src/services/aiService.js:211 | the squared deviations from m sum to 0 if and only if every sample equals m |
| Stats.VarianceZeroIffConstant | src/services/aiService.js:203-212 | the variance around the history's own mean is 0 if and only if the history is constant |
| Stats.DeviationBound | src/services/aiService.js:203-212 | Samuelson's inequality: every sample satisfies (y - mean)² <= (n - 1)·variance |
| Trends.IndexSum | src/services/aiService.js:182 | `sumX`, the sum of the indices 0 .. n-1 (its closed form is Trends.IndexSumClosedForm) |
| Trends.IndexSquareSum | src/services/aiService.js:185 | `sumXX`, the sum of the squared indices (its closed form is Trends.IndexSquareSumClosedForm) |
| Trends.CrossSum | src/services/aiService.js:184 | `sumXY`, the sum of index times emissions, left to right (its meaning is given by Trends.SecondNormalEquation) |
| Trends.IndexSumClosedForm | src/services/aiService.js:182 | `sumX` over n samples is n(n-1)/2 |
| Trends.IndexSquareSumClosedForm | src/services/aiService.js:185 | `sumXX` over n samples is n(n-1)(2n-1)/6 |
| Trends.DenominatorPositive | src/services/aiService.js:187 | for two or more samples the slope's denominator `n*sumXX - sumX*sumX` is strictly positive |
| Trends.Fit | src/services/aiService.js:187-188 | the slope and intercept computed from the four sums solve both normal equations: sumY = a·sumX + n·b and sumXY = a·sumXX + b·sumX |
| Trends.FitIffNormalEquations | src/services/aiService.js:187-188 | a line solves both normal equations of the sums if and only if it is the computed one (the solution is unique) |
| Trends.Trend | src/services/aiService.js:178-191 | fewer than two samples give slope 0 and intercept 0 |
| Trends.FirstNormalEquation | src/services/aiService.js:182-183 | the residuals of a line sum to 0 if and only if the line solves sumY = a·sumX + n·b |
| Trends.SecondNormalEquation | src/services/aiService.js:182-185 | the index-weighted residuals of a line sum to 0 if and only if the line solves sumXY = a·sumXX + b·sumX |
| Trends.TrendIffNormalEquations | src/services/aiService.js:178-191 | for two or more samples, a line is the result of `calculateTrends` if and only if its residuals, plain and weighted by the index, both sum to 0 (the least-squares conditions) |
| Trends.LineHasNoResiduals | src/services/aiService.js:182-185 | a line through every sample has zero residual sums |
| Trends.TrendOfExactLine | src/services/aiService.js:181-190 | for y_i = a·i + b with two or more samples the result is slope a and intercept b |
| Trends.TrendOfConstant | src/services/aiService.js:181-190 | for a constant history c with two or more samples the result is slope 0 and intercept c |
| Trends.ClampAtZero | src/services/aiService.js:197 | `Math.max(0, v)`: at least 0 and at least v, equal to one of them, and equal to v exactly when v >= 0 |
| Trends.Extrapolate | src/services/aiService.js:196-198 | never negative; equals slope·months + intercept exactly when that is >= 0, and 0 otherwise |
| Trends.ExtrapolateMonotone | src/services/aiService.js:197 | along a non-decreasing line the forecast does not decrease with the horizon |
| Trends.ExtrapolateAntitone | src/services/aiService.js:197 | along a non-increasing line the forecast does not increase with the horizon |
| Trends.PredictFutureEmissions | src/services/aiService.js:47-62 | the three forecasts are non-negative; with fewer than two samples all three are 0 |
| Trends.ForecastsFollowSlope | src/services/aiService.js:50-55 | nextMonth <= nextQuarter <= nextYear when the trend's slope is >= 0, and the reverse when it is <= 0 |
| Trends.NextMonthIsSecondSample | src/services/aiService.js:50-52 | on an exactly linear history, nextMonth is the second sample of the history (x = 1), not the month after the last sample |
| Trends.HorizonCounterexample | src/services/aiService.js:50-52 | for the history 100, 110, 120, 130, nextMonth is 110, while continuing the line past the last sample gives 140 |
| Trends.PredictAfterLatest | src/services/aiService.js:50-55 | corrected forecast: non-negative, and 0 for fewer than two samples |
| Trends.PredictAfterLatestContinuesLine | src/services/aiService.js:50-55 | on an exactly linear history the corrected forecast h months ahead is the last sample plus h slopes, whenever that is not negative |
| Anomalies.AbsZScore | src/services/aiService.js:73 | `Math.abs((emissions - mean) / stdDev)` with the standard deviation kept as its square: finite exactly when the mean is a number and the variance positive, and then its square times the variance is the squared deviation; Infinity exactly when a non-zero deviation meets a zero variance; NaN otherwise |
| Anomalies.Exceeds | src/services/aiService.js:75 | the comparison `zScore > k` used at :75 (k = 2) and :79 (k = 3): NaN never exceeds, Infinity always does |
| Anomalies.ExceedsMonotone | src/services/aiService.js:75-79 | a score above a higher threshold is above every lower one, so every `high` entry is a flagged sample |
| Anomalies.Report | src/services/aiService.js:76-82 | the pushed entry carries the sample's date and emissions; its severity is `high` exactly when the z-score exceeds 3, and never `low` |
| Anomalies.Spikes | src/services/aiService.js:72-84 | at most one entry per sample; every severity is `medium` or `high` |
| Anomalies.AnomaliesOf | src/services/aiService.js:67-87 | what `detectAnomalies` returns: as many entries as flagged samples, none of severity `low` |
| Anomalies.DetectAnomalies | src/services/aiService.js:67-87 | the loop returns exactly `AnomaliesOf(data)`: with the mean and variance computed once, one report per flagged sample, left to right |
| Anomalies.FlaggedIndices | src/services/aiService.js:72-75 | every listed index is an index of the history |
| Anomalies.FlaggedIndicesExact | src/services/aiService.js:72-75 | the flagged indices are strictly increasing, and an index is listed if and only if its sample's absolute z-score is above 2 |
| Anomalies.SpikesFollowFlaggedIndices | src/services/aiService.js:72-84 | the output has one entry per flagged index, in input order: entry j reports the j-th flagged sample with its own date |
| Anomalies.NoneFlaggedNoSpikes | src/services/aiService.js:72-84 | no flagged sample means no entry |
| Anomalies.NoneHighAllMedium | src/services/aiService.js:79 | no z-score above 3 means every entry is `medium` |
| Anomalies.ExceedsIffBeyondDeviations | src/services/aiService.js:73-75 | under JavaScript's rules for 0 / 0 and x / 0, the z-score exceeds k >= 0 if and only if abs(y - mean) > k·stdDev |
| Anomalies.BoundedDeviationNotExceeding | src/services/aiService.js:73-75 | a squared deviation of at most k² variances never scores above k |
| Anomalies.NoSampleExceeds | src/services/aiService.js:69-75 | in a history of n samples no z-score exceeds k when n - 1 <= k² |
| Anomalies.ShortHistoryHasNoAnomalies | src/services/aiService.js:67-87 | a history of at most five samples (empty and single ones included) yields no anomaly |
| Anomalies.ModerateHistoryHasNoHighAnomalies | src/services/aiService.js:79 | a history of at most ten samples yields only `medium` anomalies |
| Anomalies.SampleAtMeanNotExceeding | src/services/aiService.js:73-75 | a sample equal to the mean never exceeds a threshold |
| Anomalies.ConstantHistoryHasNoAnomalies | src/services/aiService.js:67-87 | a constant history yields no anomaly: every z-score is 0 / 0 = NaN |
| Anomalies.NoInfiniteScore | src/services/aiService.js:69-73 | no z-score is Infinity: a zero standard deviation means every deviation is 0 |
| Anomalies.FiveMonthJumpNotReported | src/services/aiService.js:67-87 | the history 100, 102, 98, 101, 500 yields no anomaly |
| Anomalies.OnlyLastFlagged | src/services/aiService.js:72-84 | when only the last sample is flagged, the output is exactly its report |
| Anomalies.SixthMonthJumpReported | src/services/aiService.js:67-87 | for 0, 0, 0, 0, 0, 10 the output is one `medium` entry for the last sample (squared score 5) |
| Anomalies.EleventhMonthJumpReportedHigh | src/services/aiService.js:67-87 | for ten months at 0 and then 10 the output is one `high` entry for the last sample (squared score 10) |
| Recommendations.ParseRecommendations | src/services/aiService.js:114-147 | whatever the answer, three recommendations with distinct ids, positive reductions and positive returns |
| Recommendations.FallbackRecommendations | src/services/aiService.js:152-173 | two recommendations with distinct ids, positive reductions and positive returns |
| Recommendations.GenerateRecommendations | src/services/aiService.js:12-42 | never empty; three items if and only if the first choice's content could be read, two items if and only if anything threw |
| Recommendations.ParsedAndFallbackIdsDisjoint | src/services/aiService.js:116-172 | no id of the parsed list is an id of the fallback list |
| Recommendations.FirstIdRevealsFailure | src/services/aiService.js:37-40 | the first recommendation is a fallback one exactly when the call failed |

## Left out

- Trends.TrendIffNormalEquations: states that the fitted line is the unique solution of the least-squares normal equations, not that its squared error is minimal among all lines.
- `Math.sqrt`: the standard deviation is kept as its square (`Stats.Variance`), and thresholds are compared as squares.
- IEEE-754 doubles: rounding, overflow, underflow and negative zero are not modelled; every value is a real. NaN is modelled where the code produces it (an empty mean, a 0 / 0 z-score). Underflow matters: for emissions 0 and 1e-170 each squared deviation rounds to 0 in doubles, the standard deviation is 0, both z-scores are Infinity and both samples come back `high`. Anomalies.NoInfiniteScore and Anomalies.ShortHistoryHasNoAnomalies hold over the reals, not for such doubles.
- The `toFixed(2)` strings: the `description` and `zScore` fields of an anomaly are not modelled. The entry keeps the emissions the description reports.
- The request to the chat-completion API is abstracted as `Recommendations.ApiOutcome`. It covers the axios POST, its headers and API key, the model parameters, and `buildRecommendationPrompt`. Any error before the answer, including one raised while building the prompt from the company data, is the outcome `Threw`. So is an answer that cannot be read at :37: a reply with no `data.choices`, or a first choice with no `message`, throws there and takes the fallback.
- The company data (`carbonData`) is read only by the prompt builder and is not modelled.
- `console.error` logging, and the `async`/Promise wrapping of `generateRecommendations` and `predictFutureEmissions`.
- The `catch` of `predictFutureEmissions` that returns `null` is not modelled: over the reals nothing in its `try` throws.
- The constructor's configuration fields, and the singleton export at src/services/aiService.js:216.
- src/models/CarbonFootprint.js (schema and aggregation pipeline) and src/index.js (HTTP routes) are not part of this model.

## Findings

| source | as written | input that shows it | evidently intended | confidence | as-written member | corrected member |
|---|---|---|---|---|---|---|
| src/services/aiService.js:50-55 | `predictFutureEmissions` passes the horizons 1, 3 and 12 as x values of a fit whose x is the 0-based sample index, so "next month" is the line at the second sample | the history 100, 110, 120, 130 (slope 10, intercept 100): nextMonth is 110 | the line continued past the last sample, at x = (n - 1) + h: nextMonth 140 | high, not executed | Trends.HorizonCounterexample | Trends.PredictAfterLatest |
