# 2024 Taiwan Election Tracker: forecast engine and chart data, in Dafny

This project models the core of the 2024 Taiwan presidential election tracker and proves properties of that model. It covers three parts:

- **The forecast engine** (`TaiwanPollingAlgorithm`). Each poll gets a weight: a recency weight with a 14-day half-life, a sample-size weight relative to 1068 respondents, and a survey-method weight. The first key of the method table that the method text contains decides the method weight. The engine then:
  - takes a weighted average of the accepted polls;
  - redistributes the undecided share with a structural correction towards the 2022 baselines, and normalises the result to 100;
  - back-propagates the correction onto every poll;
  - reports the polls sorted by descending weight.
  
  `evaluatePrediction` scores a forecast against the actual result.
- **The prediction helpers** (`usePollingPrediction`). They sanitise raw poll records, normalise institution names, filter polls by the selected institutions, run the engine, summarise the forecast, and build the "enhanced" chart. That chart has one weighted daily-average point per poll day for each party, ending in the forecast on the election day, plus dashed lines of the plain daily averages.
- **The simple chart** (`getFilter`, `getData`). It lists the names of the selected sources, and draws one line per party over the distinct poll dates of the selected institutions.

Files (modules):

| file | module | models |
|---|---|---|
| `wrappers.dfy` | `Wrappers` | `Option` and `Result` |
| `seqs.dfy` | `Seqs` | `Array.prototype.filter` and subsequences |
| `sorting.dfy` | `Sorting` | the stable in-place sort by a numeric key |
| `numbers.dfy` | `Numbers` | `Math.round`, `Number(x.toFixed(2))`, bounds on averages |
| `text.dfy` | `Text` | `trim`, `includes`, `startsWith`, the `/\s+/g` and `/（[^）]*）/g` replacements |
| `host.dfy` | `Host` | the maths functions and date parsing of the JavaScript host, as parameters |
| `engine.dfy` | `Engine` | `src/lib/utils/taiwanPollingAlgorithm.ts` |
| `composables.dfy` | `Composables` | the prediction helpers of `src/lib/composables.ts` |
| `chart.dfy` | `EnhancedChart` | `getEnhancedChartData` of `src/lib/composables.ts` |
| `chartutils.dfy` | `ChartUtils` | `src/lib/utils.ts` |

Modelling choices:

- **Numbers and dates.**
  - Numbers are exact reals.
  - A date is a day number, counted from 1970-01-01. The election day 2024-01-13 is day 19735.
  - `new Date(text)` is a parameter, `Host.parseDate`. It returns `None` for an Invalid Date.
  - `Math.exp`, `Math.log(2)` and `Math.log10` are parameters of the `Host` value too.
  - The only precondition the engine needs of them is `Engine.WellDefined`: `log10(1068) ≠ 0`, so that the sample weight is defined. The lemmas about weights assume `Host.Lawful`:
    - `exp` is positive and increasing, with `exp(0) = 1` and `exp(-ln 2) = 1/2`;
    - `log10` is increasing, with `log10(1) = 0`.
- **Rounding.** `Math.round` and `toFixed(2)` are modelled exactly on the real value: `Numbers.JsRound` and `Numbers.ToFixed2`.
- **Imperative parts.** Where the source updates state step by step, the model is a method proved against a specification function:
  - the accumulation loop of `predictElection` (`Engine.AccumulatePolls`);
  - the method-table loop with `break` (`Engine.LookupMethodWeight`);
  - the in-place `forEach` correction over the array of poll details (`Engine.CorrectInPlace`);
  - the in-place sort (`Sorting.SortInPlace`);
  - the grouping, averaging and padding loops of `getEnhancedChartData`.
- **Pure parts.** The sanitising, filtering and `getData` code is made of `filter`/`map`/`sort` chains. They are modelled as functions.
- **Errors.**
  - An engine exception is `Result.Failure`: `EmptyInput` for line 83 and `NoValidPolls` for line 144.
  - The `try`/`catch` in `generatePredictions` turns any failure into `None`.
- **NaN.** `NaN` arises where the source divides by a zero sum. The model follows the value through:
  - a poll whose re-normalisation divides by zero gets `corrected = None`;
  - a zero raw average makes that party's factor infinite or `NaN` in the source, and multiplying it into the polls' shares gives `NaN` there; the model marks the factors undefined, so every `corrected` is `None`;
  - a chart point from such polls is `EnhancedChart.NotANumber`.
  
  The one case the model reports as an error, `DegenerateAverage`, is a zero sum of the adjusted shares. There the source divides by zero, so each final share is ±Infinity or `NaN`. `Engine.ForecastSucceeds` shows that this case cannot arise when the shares are percentages and every sample exceeds one respondent.

The weight of '市話+手機' is 1.25, because its own table entry is the first key the method contains (`Engine.MethodWeightLandlineMobile`).

## Model

| member | source | states |
|---|---|---|
| Engine.RecencyPositive | src/lib/utils/taiwanPollingAlgorithm.ts:105 | the recency weight is positive for every number of days |
| Engine.RecencyAtElection | src/lib/utils/taiwanPollingAlgorithm.ts:105 | a poll taken on the election day has recency weight 1 |
| Engine.RecencyHalfLife | src/lib/utils/taiwanPollingAlgorithm.ts:105 | the recency weight halves after the 14-day half-life |
| Engine.RecencyDecreasing | src/lib/utils/taiwanPollingAlgorithm.ts:105 | an older poll has a strictly smaller recency weight |
| Engine.LawfulWellDefined | src/lib/utils/taiwanPollingAlgorithm.ts:107 | under the host laws the sample-weight divisor `log10(1068)` is nonzero |
| Engine.SampleWeightAtBaseline | src/lib/utils/taiwanPollingAlgorithm.ts:107 | a sample of 1068 has sample weight 1 |
| Engine.SampleWeightDefault | src/lib/utils/taiwanPollingAlgorithm.ts:106 | a missing or non-positive sample weighs exactly as a sample of 1000 |
| Engine.SampleWeightPositive | src/lib/utils/taiwanPollingAlgorithm.ts:106-107 | a sample above one respondent has a positive sample weight |
| Engine.SampleWeightIncreasing | src/lib/utils/taiwanPollingAlgorithm.ts:107 | for samples above 1, a larger sample has a strictly larger, positive sample weight |
| Engine.MethodWeightFirstMatch | src/lib/utils/taiwanPollingAlgorithm.ts:109-116 | the weight is that of the first key in declared order that the method text contains |
| Engine.MethodWeightNoMatch | src/lib/utils/taiwanPollingAlgorithm.ts:109-116 | when the text contains no key, the weight is the `unknown` weight 0.8 |
| Engine.LookupMethodWeight | src/lib/utils/taiwanPollingAlgorithm.ts:109-116 | the loop that starts from `unknown` and breaks at the first contained key returns the first-match weight |
| Engine.MethodWeightLandlineMobile | src/lib/utils/taiwanPollingAlgorithm.ts:58-66 | the method text '市話+手機' gets weight 1.25, because neither '手機簡訊' nor '網路' occurs in it |
| Engine.MethodWeightLandlineInternetShadowed | src/lib/utils/taiwanPollingAlgorithm.ts:58-66 | no method text ever gets the '市話+網路' weight 1.2, because any text containing that key also contains the earlier key '網路' |
| Engine.MethodWeightPositive | src/lib/utils/taiwanPollingAlgorithm.ts:58-66 | every method weight is at least 0.75 |
| Engine.WeighComposite | src/lib/utils/taiwanPollingAlgorithm.ts:105-118 | a poll's weight is recency × sample × method weight, each computed from the poll's days before the election, sample and method |
| Engine.WeighFactorsPositive | src/lib/utils/taiwanPollingAlgorithm.ts:105-116 | for a sample above one respondent, the recency, sample and method weights are all positive |
| Engine.WeighPositive | src/lib/utils/taiwanPollingAlgorithm.ts:105-118 | a poll whose effective sample exceeds 1 has a positive weight |
| Engine.WeighedSnoc | src/lib/utils/taiwanPollingAlgorithm.ts:98-102 | one more poll adds its weighed entry exactly when it is not after the election day |
| Engine.SumsSnoc | src/lib/utils/taiwanPollingAlgorithm.ts:138-141 | appending an entry adds its weight to the total and its weight × original share to each weighted sum |
| Engine.WeightedSumBounds | src/lib/utils/taiwanPollingAlgorithm.ts:138-141 | with positive weights and shares within [lo, hi], the empty list sums to 0, and otherwise the total weight is positive and the weighted sum over the total lies within [lo, hi] |
| Engine.RawAverageWithinRange | src/lib/utils/taiwanPollingAlgorithm.ts:147-150 | with positive weights, each raw average lies between the least and greatest share of that party |
| Engine.Normalize | src/lib/utils/taiwanPollingAlgorithm.ts:172-176 | the normalised shares sum to 100 and stay proportional to the shares before normalisation |
| Engine.FinalShares | src/lib/utils/taiwanPollingAlgorithm.ts:168-176 | the final shares, before rounding, sum to exactly 100 |
| Engine.Adjust | src/lib/utils/taiwanPollingAlgorithm.ts:153-170 | for raw averages that are percentages, the adjusted shares have a positive sum; with no undecided share and the KMT and TPP shares at their 2022 baselines, nothing changes |
| Engine.ForecastSucceeds | src/lib/utils/taiwanPollingAlgorithm.ts:144-176 | with percentage shares, samples above one respondent and some poll on or before the election day, the forecast succeeds: the total weight and the adjusted sum are non-zero |
| Engine.Factors | src/lib/utils/taiwanPollingAlgorithm.ts:180-182 | the factors exist exactly when every raw average is nonzero, and factor × raw average = final share |
| Engine.Correct | src/lib/utils/taiwanPollingAlgorithm.ts:185-193 | the corrected triple is `NaN` exactly when there are no factors or the scaled sum is 0; otherwise it sums to 100 and is proportional to original × factor |
| Engine.CorrectAll | src/lib/utils/taiwanPollingAlgorithm.ts:184-194 | every poll gets its corrected triple and nothing else about it changes |
| Engine.CorrectPoll | src/lib/utils/taiwanPollingAlgorithm.ts:185-193 | the per-poll update of the `forEach` sets `corrected` as `Correct` does and nothing else |
| Engine.CorrectInPlace | src/lib/utils/taiwanPollingAlgorithm.ts:184-194 | after the in-place pass, the array is `CorrectAll` of its old contents |
| Engine.Publish | src/lib/utils/taiwanPollingAlgorithm.ts:184-213 | correcting the polls in place, sorting them in place and rounding the figures gives exactly the functional report `Report` of the weighed polls |
| Engine.WeighPoll | src/lib/utils/taiwanPollingAlgorithm.ts:99-136 | the entry pushed for a poll is `Weigh` of that poll |
| Engine.AddEntry | src/lib/utils/taiwanPollingAlgorithm.ts:121-141 | pushing an entry keeps the total weight and the three weighted sums equal to the sums over the pushed list |
| Engine.AccumulatePolls | src/lib/utils/taiwanPollingAlgorithm.ts:98-142 | after the loop, the details are the accepted polls weighed in input order, and the accumulators are their sums |
| Engine.CorrectAverages | src/lib/utils/taiwanPollingAlgorithm.ts:155-182 | the correction fails exactly when the adjusted shares sum to 0; otherwise it yields the normalised adjusted shares and their factors |
| Engine.PredictElection | src/lib/utils/taiwanPollingAlgorithm.ts:78-214 | the method returns exactly the functional forecast `Forecast` |
| Engine.ForecastErrors | src/lib/utils/taiwanPollingAlgorithm.ts:82-144 | an empty input is exactly the `EmptyInput` error, and input polls all dated after the election give `NoValidPolls` |
| Engine.PostElectionPollIgnored | src/lib/utils/taiwanPollingAlgorithm.ts:99-102 | inserting a poll dated after the election anywhere in a non-empty input leaves the forecast unchanged |
| Engine.ForecastDetailsPermutation | src/lib/utils/taiwanPollingAlgorithm.ts:184-206 | the reported polls are a permutation of the corrected accepted polls, and `total_polls` is their number |
| Engine.ForecastDetailsSorted | src/lib/utils/taiwanPollingAlgorithm.ts:197 | the reported polls are in non-increasing order of weight |
| Engine.ForecastDetailsStable | src/lib/utils/taiwanPollingAlgorithm.ts:197 | reported polls of equal weight keep the order of the accepted polls they come from |
| Engine.ForecastDetailsWellFormed | src/lib/utils/taiwanPollingAlgorithm.ts:121-136 | every reported poll has days_ago = election day − poll day ≥ 0, weight = product of its three weights, and a corrected triple summing to 100 unless it is `NaN` |
| Engine.ForecastSumsToHundred | src/lib/utils/taiwanPollingAlgorithm.ts:199-204 | the three rounded predictions sum to 100 within ±0.015 |
| Engine.EvaluatePrediction | src/lib/utils/taiwanPollingAlgorithm.ts:219-236 | all errors are non-negative whole numbers of hundredths; each party error is its absolute deviation rounded to cents, a tie rounding up; the total error is the unrounded sum of the deviations, rounded to cents |
| Engine.EvaluateExact | src/lib/utils/taiwanPollingAlgorithm.ts:219-236 | evaluating a forecast against itself gives zero errors |
| Engine.TotalErrorRoundsTheSum | src/lib/utils/taiwanPollingAlgorithm.ts:228-234 | the total error need not be the sum of the rounded party errors: errors of 0.004 each give party errors 0 and total 0.01 |
| Numbers.JsRound | src/lib/utils/taiwanPollingAlgorithm.ts:225 | `Math.round` gives the integer within half of the value, halves going up |
| Numbers.RoundCents | src/lib/utils/taiwanPollingAlgorithm.ts:225 | `Math.round(x * 100) / 100` is the whole number of hundredths in (x − 0.005, x + 0.005], so a tie rounds up |
| Numbers.ToFixed2 | src/lib/utils/taiwanPollingAlgorithm.ts:201-203 | `Number(x.toFixed(2))` is a whole number of hundredths within 0.005 of x, a tie going away from zero, and keeps the sign of x |
| Numbers.WholeCentsUnique | src/lib/utils/taiwanPollingAlgorithm.ts:201-203 | two whole numbers of hundredths less than 0.01 apart are equal, so the rounding windows determine the result |
| Numbers.ToFixed2Unique | src/lib/utils/taiwanPollingAlgorithm.ts:201-203 | any whole number of hundredths in the window of x is `Number(x.toFixed(2))` |
| Numbers.ToFixed2Idempotent | src/lib/utils/taiwanPollingAlgorithm.ts:201-203 | rounding a rounded value to cents changes nothing |
| Sorting.SortInPlace | src/lib/utils/taiwanPollingAlgorithm.ts:197 | the in-place insertion sort leaves the array equal to the stable sort `SortBy` of its old contents |
| Sorting.SortByPermutes | src/lib/utils/taiwanPollingAlgorithm.ts:197 | the sort is a permutation |
| Sorting.SortBySorted | src/lib/utils/taiwanPollingAlgorithm.ts:197 | the sort orders by its key |
| Sorting.SortByStable | src/lib/utils/taiwanPollingAlgorithm.ts:197 | the sort is stable: the elements with any one key come out in their input order |
| Text.ContainsAt | src/lib/utils/taiwanPollingAlgorithm.ts:112 | `includes` holds exactly when the key occurs at some offset |
| Text.ContainsNeedsChar | src/lib/utils/taiwanPollingAlgorithm.ts:112 | a text lacking one of the key's characters does not include the key |
| Text.TrimEmptyIffBlank | src/lib/composables.ts:126 | `trim()` is empty exactly when every character is white space |
| Text.RemoveGroups | src/lib/composables.ts:171-172 | the bracket-group replacement leaves no closed group, uses only characters of the input, and changes nothing without an opening bracket |
| Text.RemoveGroupsUnchanged | src/lib/composables.ts:171-172 | the replacement changes nothing when no group is closed |
| Text.RemoveGroupsKeepsPrefix | src/lib/composables.ts:171-172 | text before the first opening bracket is kept unchanged, in front of the replacement of the rest |
| Text.RemoveGroupsDropsGroup | src/lib/composables.ts:171-172 | a group from an opening bracket to the first closing bracket after it is deleted whole, and the replacement continues after it |
| Text.RemoveGroupsKeepsUnclosed | src/lib/composables.ts:171-172 | an opening bracket with no closing bracket after it is kept with the rest of the text |
| Composables.Clamp | src/lib/composables.ts:120 | the clamped value lies in [0, 100], equals the value inside that range, and is 0 or 100 below or above it |
| Composables.SanitizeOneKeeps | src/lib/composables.ts:122-140 | an entry survives sanitising exactly when it is present, has a non-blank date, a string institution and three finite shares, and its date parses |
| Composables.Sanitize | src/lib/composables.ts:119-141 | no more polls come out than went in, and every one has shares in [0, 100], a method, a positive sample and a parsed date |
| Composables.SanitizeOneValue | src/lib/composables.ts:132-139 | a surviving entry keeps its institution and date, gets '市話' for an empty method and 1000 for a missing or non-positive sample, and has each share clamped to [0, 100] |
| Composables.SanitizeFrom | src/lib/composables.ts:119-141 | every sanitised poll is the sanitised value of some input entry |
| Composables.SanitizeAppend | src/lib/composables.ts:119-141 | sanitising keeps order, acting on each part of a concatenation separately |
| Composables.SanitizeLength | src/lib/composables.ts:119-141 | the output has as many polls as the input has entries that survive |
| Composables.SanitizeIdempotent | src/lib/composables.ts:119-141 | sanitising already sanitised polls returns them unchanged |
| Composables.NormalizeInst | src/lib/composables.ts:169-174 | a normalised name holds no white space and is no longer than the name |
| Composables.NormalizeInstNoGroups | src/lib/composables.ts:169-174 | a normalised name holds no closed （…） or (…) group |
| Composables.NormalizeInstPlain | src/lib/composables.ts:169-174 | a name without brackets or white space is its own normal form |
| Composables.NormalizeInstIdempotent | src/lib/composables.ts:169-174 | normalising twice is normalising once |
| Composables.NormalizeInstDropsFullWidthGroup | src/lib/composables.ts:169-174 | a （…） group is deleted whole: the name normalises as the text on both sides of it would |
| Composables.NormalizeInstDropsGroup | src/lib/composables.ts:169-174 | the same for a (…) group in a name without full-width brackets |
| Composables.NormalizeInstStripsNote | src/lib/composables.ts:169-174 | a plain name followed by a （…） note normalises to the plain name |
| Composables.MatchesIff | src/lib/composables.ts:181-187 | the exact-or-`startsWith` test holds exactly when some selected name is a prefix of the institution |
| Composables.FilterByInstitutions | src/lib/composables.ts:176-189 | with no selection the result is the sanitised list, and every poll in the result is sanitised |
| Composables.FilterByInstitutionsSubsequence | src/lib/composables.ts:176-189 | the filtered polls are a subsequence of the sanitised polls |
| Composables.FilterByInstitutionsExact | src/lib/composables.ts:176-189 | with a selection, a poll is kept with all its copies when some normalised selected name is a prefix of its normalised institution, and dropped otherwise |
| Composables.GeneratePredictions | src/lib/composables.ts:143-152 | the result is the engine's forecast of the sanitised polls, or `null` when none survive or the engine fails |
| Composables.PredictionsNeedPrePolls | src/lib/composables.ts:143-152 | with no sanitised poll on or before the election day there is no forecast |
| Composables.PredictionsSumToHundred | src/lib/composables.ts:143-152 | a forecast's rounded predictions sum to 100 within ±0.015 |
| Composables.PredictionsSorted | src/lib/composables.ts:143-152 | a forecast's polls are in non-increasing order of weight |
| Composables.PredictionsWellFormed | src/lib/composables.ts:143-152 | every poll of a forecast is dated on or before the election day and has a consistent weight and corrected triple |
| Composables.PredictionsOfFiltered | src/lib/composables.ts:195 | re-sanitising the filtered polls changes nothing, so the chart's forecast is the engine's forecast of the filtered polls |
| Composables.GetPredictionSummary | src/lib/composables.ts:154-167 | no summary exactly when there is no forecast; otherwise it carries the forecast, its accuracy against 40.05/33.49/26.46, and its first three polls, which weigh at least as much as every other poll |
| EnhancedChart.OnDayElements | src/lib/composables.ts:199-205 | a day's group holds only polls of the forecast dated that day |
| EnhancedChart.OnDayNonEmpty | src/lib/composables.ts:199-205 | a day has a group exactly when some poll is dated that day |
| EnhancedChart.GroupByDay | src/lib/composables.ts:199-205 | the grouping loop maps each poll day, listed once, to its polls in order, and no other day |
| EnhancedChart.SortDays | src/lib/composables.ts:207 | the group days come out strictly ascending, the same days |
| EnhancedChart.DayAverage | src/lib/composables.ts:220-226 | the accumulation loop yields the day's weighted corrected average rounded to cents, `null` for zero weight, `NaN` for a `NaN` poll |
| EnhancedChart.DayPointWithinRange | src/lib/composables.ts:220-226 | with positive weights, a weighted daily average lies within the range of that day's corrected shares, up to rounding |
| EnhancedChart.CorrectedTotalBounds | src/lib/composables.ts:222-225 | with positive weights and shares in [lo, hi], the running total lies between lo × weight and hi × weight |
| EnhancedChart.RawPointWithinRange | src/lib/composables.ts:264-265 | a plain daily average lies within the range of that day's original shares, up to rounding |
| EnhancedChart.EnhancedLines | src/lib/composables.ts:216-228 | one enhanced point per date and party, each the average of that date's group |
| EnhancedChart.DailyLines | src/lib/composables.ts:198-228 | grouping, sorting and averaging give ascending days, each with its group, and the enhanced points over them |
| EnhancedChart.SyncElectionDay | src/lib/composables.ts:230-239 | the axis gains the election day unless it already ends there, and each line gains, or has its last point replaced by, the forecast |
| EnhancedChart.DrawnAxis | src/lib/composables.ts:230-239 | after the sync the axis is strictly ascending, ends on the election day, and holds exactly the poll days and the election day |
| EnhancedChart.SyncedEnhanced | src/lib/composables.ts:230-247 | before the election day, each enhanced point is that day's weighted average; on it, the forecast |
| EnhancedChart.RawLines | src/lib/composables.ts:257-267 | one plain average per date and party, `null` for a date without a group |
| EnhancedChart.PollDatesKeyed | src/lib/composables.ts:255 | the dates of the raw lines are the axis without its last day, each with a group |
| EnhancedChart.PaddedRaw | src/lib/composables.ts:255-269 | a raw line padded with `null` has, before the election day, each day's plain average |
| EnhancedChart.RawSeries | src/lib/composables.ts:249-269 | the raw lines over the axis: plain averages before the election day, `null` on it |
| EnhancedChart.Assembled | src/lib/composables.ts:241-279 | three solid enhanced lines then three dashed average lines, named by party, make the chart |
| EnhancedChart.Draw | src/lib/composables.ts:198-279 | the chart of a forecast: the axis and six lines as above |
| EnhancedChart.GetEnhancedChartData | src/lib/composables.ts:191-280 | the empty chart exactly when no poll is selected or no forecast can be made; otherwise the chart of the forecast of the selected polls |
| ChartUtils.GetFilter | src/lib/utils.ts:31-33 | there are no more names than sources |
| ChartUtils.GetFilterSelects | src/lib/utils.ts:31-33 | a name is listed exactly when some switched-on source has it |
| ChartUtils.GetFilterAppend | src/lib/utils.ts:31-33 | the names keep the order of the sources |
| ChartUtils.LessIrreflexive | src/lib/utils.ts:45 | no date string sorts before itself |
| ChartUtils.LessTransitive | src/lib/utils.ts:45 | string order is transitive |
| ChartUtils.LessTotal | src/lib/utils.ts:45 | of two different strings, one sorts before the other |
| ChartUtils.Insert | src/lib/utils.ts:45 | inserting adds exactly the one row |
| ChartUtils.InsertSorted | src/lib/utils.ts:45 | inserting into rows sorted by date keeps them sorted |
| ChartUtils.SortByDate | src/lib/utils.ts:45 | the date sort is a permutation of the rows |
| ChartUtils.SortByDateSorted | src/lib/utils.ts:45 | the date sort leaves no row before a row of an earlier date |
| ChartUtils.Dedup | src/lib/utils.ts:46 | the distinct dates are the same strings as the input, with no repetition |
| ChartUtils.DedupAscending | src/lib/utils.ts:45-46 | deduplicating non-decreasing dates gives strictly ascending dates |
| ChartUtils.Find | src/lib/utils.ts:54 | `find` returns the first row of the list with that date, and none only when no row has it |
| ChartUtils.SelectedRows | src/lib/utils.ts:43-45 | the selected rows are exactly the rows whose institution is in the filter |
| ChartUtils.GetData | src/lib/utils.ts:35-61 | an empty table gives no axis and no series; otherwise there are three smooth line series named DPP, KMT, TPP, each with one value per axis date |
| ChartUtils.GetDataAscending | src/lib/utils.ts:45-46 | the axis is strictly ascending, so it lists each date once |
| ChartUtils.GetDataDates | src/lib/utils.ts:44-46 | the axis holds exactly the dates of rows whose institution is in the filter |
| ChartUtils.GetDataValues | src/lib/utils.ts:53-58 | on each axis date, the three values are the shares of one selected row of that date, `null` where that row lacks the share |

## Left out

- Floating point is not modelled. Reals are exact, and the only NaN is the one modelled as `None`/`NotANumber`.
  - Infinity is not modelled.
- A poll detail in the source carries its shares twice: as top-level `dpp`/`kmt`/`tpp` fields and as `original`. The model folds the copies into `original` (`Engine.WeightedPoll`), so the top-level fields seen through the summary's top polls are `original`.
  - Overflow is not modelled.
  - `toFixed`'s binary-representation ties are not modelled.
  - `Number.isFinite` on non-numbers is the `None` of a share field.
- `Math.exp`, `Math.log` and `Math.log10` are parameters constrained only by `Host.Lawful`. Their values are not computed.
- `new Date(text)` is the parameter `Host.parseDate`, so the format of date strings and time zones are not modelled. Dates are whole days, so the fractional days-before-election of a poll timestamped within a day are not modelled.
- In the engine, a zero sum of the adjusted shares is reported as the error `DegenerateAverage`. The source divides by that zero sum without an error, giving shares of ±Infinity or `NaN`. For polls whose shares are percentages and whose samples exceed one respondent the case cannot occur (`Engine.ForecastSucceeds`).
- Engine.Factors: a zero raw average makes the whole factor triple undefined, and so every poll's `corrected` is `None`. In the source only that party's factor is infinite or `NaN`. A poll whose share of that party is zero gets an all-`NaN` triple, as in the model. A poll with a non-zero share of that party gets `NaN` for that party and 0 for each party whose factor is finite; the model marks its whole triple `None`.
- `console.error` in `generatePredictions` is output only, and is left out. Any engine failure becomes `None`.
- Rendering is out of scope: `useChart`, `initChart` and `drawChart`, the ECharts calls, and the style fields of the chart series.
  - In the enhanced chart, a series keeps its name, data, width and dashed flag. Its `type: 'line'` and `smooth: true` are not modelled.
  - The optional record field `undecided` is not used by the modelled code, so it is not modelled.
- The input's `sample` field as a string is not modelled. A sample is a number or absent.
- An absent `data` or `raw` array is modelled as the empty sequence.
- The chart groups polls by the calendar day of their date (the date part of its ISO string); this is modelled as the poll's day number. Group keys are sorted as days rather than re-parsed strings.
- In `getEnhancedChartData`, the per-party averaging is an inner loop in the source. The model runs it as three calls per date, in the same date order.
- The raw averages' branch for a date with no group never fires, because every raw date has a group (`EnhancedChart.PollDatesKeyed`). It is kept, as the `Missing` case of `EnhancedChart.RawLines`.
- ChartUtils.GetDataValues: the value on a date is stated to come from some selected row of that date, not from the first one in sorted order. The source's comparator never returns 0, so the order among rows with equal dates is up to the JavaScript engine. The model's sort keeps input order, and no contract depends on that choice.
- ChartUtils.Less: compares characters by code point. JavaScript compares UTF-16 code units. The two orders differ only when a character outside the Basic Multilingual Plane meets one in U+E000–U+FFFF: by code point the former is greater, by code unit (a surrogate, U+D800–U+DFFF) it is smaller.
- `defaultSources` is kept as the constant `ChartUtils.DefaultSources`. Nothing is proved about its contents.
