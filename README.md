# Risk register: cost simulation, scoring and reply post-processing

This project models the computational core of a Django risk register. Each project in
the register holds risks. A risk has a likelihood and an impact, each on a 1–3 scale. It
also has a status, a probability of occurring, and three cost estimates (optimistic,
most likely, pessimistic). The model covers:

- **Monte Carlo cost engine** (`risks/monte_carlo.py`), modelled in `sampler.dfy`,
  `monte_carlo.dfy`, `statistics.dfy` and `histogram.dfy`:
  - one triangular-distribution sample by inverse CDF;
  - the trial loop over the Open risks;
  - the statistics block: mean, median, sample standard deviation, min, max and the
    10/25/75/90/95 percentiles;
  - the 20-bin histogram.
- **Scoring rules** (`risks/models.py`), modelled in `risk_model.dfy`:
  - `risk_score` = likelihood × impact;
  - `risk_level` with the thresholds 6 and 3;
  - the choice lists and the field defaults.
- **LLM reply post-processing** (`risks/ai_features.py`), modelled in
  `ai_features.dfy` with `py_strings.dfy`:
  - `extract_json_from_response`, which pulls a JSON block out of a reply in a Markdown
    code fence;
  - the category correction in `auto_categorize_risk`;
  - the High/Medium/Low counts of `generate_executive_summary`.

Some Python pieces are modelled exactly:

- `sorted`, `min` and `max` in `py_builtins.dfy`, together with `Sum`, the total that
  `statistics.mean` divides by the count;
- `str.strip`, `str.find` and `in` in `py_strings.dfy`.

Arithmetic is exact (`real`, `int`).

`random.random()` becomes a stream of draws `rand: nat -> real` plus a cursor. Every
operation that draws takes the cursor and returns the next one. This makes explicit how
many draws each step consumes. `UnitDraws` states that every draw lies in [0, 1).

`math.sqrt` becomes a function parameter. `IsSqrt` describes it: on a non-negative
argument it returns a non-negative number whose square is that argument. Monotonicity is
proved from this description, not assumed.

Imperative code stays imperative:

- The engine's loops are methods, proved against the pure functions `ActiveRisks`,
  `Trial` and `Trials`.
- The histogram counts into an `array` that is incremented in place.
- The suggestion dictionary that `auto_categorize_risk` corrects in place is the class
  `CategorySuggestion`.

Edge cases of the code that the model keeps:

- With no Open risks, the results are `num_simulations` zeros (`NoActiveRisks`).
- A negative `num_simulations` runs no trial and gives the empty result (`RunTrials`).
- The zero-width case of `triangular_distribution` still consumes a draw (`TriangularDistribution`).

## Model

| member | source | states |
|---|---|---|
| Sampler.TriangularDistribution | risks/monte_carlo.py:11-42 | Fails (the ValueError) exactly when optimistic <= most_likely <= pessimistic does not hold. The check comes before the draw, so a failure consumes none. Otherwise exactly one draw is consumed, even in the zero-width case, and the cost is the inverse CDF of that draw. |
| Sampler.InverseCdf | risks/monte_carlo.py:32-42 | The definition: most_likely when optimistic == pessimistic. Otherwise the draw is compared with mode_cdf = (m-o)/(p-o), and the ascending or the descending square-root expression follows. Its range and branch facts are stated by `InverseCdfInRange`. |
| Sampler.InverseCdfInRange | risks/monte_carlo.py:32-42 | For a draw in [0,1) and ordered points, the cost lies in [optimistic, pessimistic]. It is most_likely when optimistic == pessimistic. Otherwise it is below most_likely exactly when the draw is below mode_cdf. |
| Sampler.TriangularInRange | risks/monte_carlo.py:24-42 | With ordered points and a draw in [0,1), the sample is accepted, lies in [optimistic, pessimistic], equals most_likely for zero width, and is below most_likely exactly on the ascending branch. |
| Sampler.AscendingBranch | risks/monte_carlo.py:37-39 | Below mode_cdf, `optimistic + sqrt(u*(p-o)*(m-o))` lies in [optimistic, most_likely): the square-root argument stays under (m-o)². |
| Sampler.DescendingBranch | risks/monte_carlo.py:40-42 | From mode_cdf on, `pessimistic - sqrt((1-u)*(p-o)*(p-m))` lies in [most_likely, pessimistic]. |
| Sampler.SqrtMonotone | risks/monte_carlo.py:39-42 | The square root used by both branches is non-negative and strictly monotone on non-negative arguments. This follows from `IsSqrt`. |
| MonteCarlo.ActiveRisks | risks/monte_carlo.py:59-67 | The Open filter keeps at most the given risks. Which risks it keeps, and in what order, is stated by the three lemmas below. |
| MonteCarlo.ActiveRisksAppend | risks/monte_carlo.py:59-67 | Filtering a concatenation concatenates the filtered parts, so the Open risks keep their input order. That order decides which draws each risk uses. |
| MonteCarlo.ActiveRisksAreTheOpenOnes | risks/monte_carlo.py:60 | A risk takes part in the simulation iff it is one of the given risks and its status is Open. |
| MonteCarlo.NonOpenRiskIgnored | risks/monte_carlo.py:60 | Removing a Mitigated or Closed risk from the input, wherever it sits, changes nothing in the simulated risks. |
| MonteCarlo.Contribution | risks/monte_carlo.py:73-86 | The definition of one risk's part of a trial. The occurrence draw is compared with likelihood/100. An occurring risk adds the sample from the next draw, or most_likely when the sampler rejects its points. A risk that does not occur adds nothing. |
| MonteCarlo.Trial | risks/monte_carlo.py:71-88 | The definition of one trial: the contributions of the Open risks, in order, each starting where the previous one stopped drawing. |
| MonteCarlo.Trials | risks/monte_carlo.py:70-88 | The definition of the run: `count` trials in a row, each from a zero total, one recorded total per trial. |
| MonteCarlo.CollectActiveRisks | risks/monte_carlo.py:59-67 | The append loop yields exactly `ActiveRisks`: the Open risks, in input order. |
| MonteCarlo.SimulateTrial | risks/monte_carlo.py:71-88 | The inner loop's total and cursor are those of the specification `Trial`, starting from a zero total. |
| MonteCarlo.RunTrials | risks/monte_carlo.py:70-88 | The outer loop records `max(num_simulations, 0)` totals, which together with the cursor equal the specification `Trials`. |
| MonteCarlo.BuildResult | risks/monte_carlo.py:90-135 | No totals give zero statistics and the empty histogram. Otherwise the result holds the statistics block of the totals and their 20-bin histogram. The counts are passed through. |
| MonteCarlo.RunMonteCarloSimulation | risks/monte_carlo.py:45-135 | `num_active_risks` is the number of Open risks. `results` has `num_simulations` entries, none when that is zero or negative, and they are the totals of `Trials` over the Open risks. The statistics and histogram are those of the results, or zeros and empty lists when there are none. |
| MonteCarlo.TrialsLength | risks/monte_carlo.py:70-88 | One total per trial. |
| MonteCarlo.ContributionDraws | risks/monte_carlo.py:73-86 | Each Open risk consumes exactly one occurrence draw per trial. It consumes one more exactly when it occurs and its points are ordered. |
| MonteCarlo.TrialDraws | risks/monte_carlo.py:73-86 | A trial over n Open risks consumes between n and 2n draws. |
| MonteCarlo.NoActiveRisks | risks/monte_carlo.py:69-88 | With no Open risks, every trial totals 0, so the results are `count` zeros, not an empty list. No draw is consumed. |
| MonteCarlo.NeverOccurs | risks/monte_carlo.py:75 | A 0% (or lower) likelihood never occurs: the risk adds nothing and consumes one draw. |
| MonteCarlo.AlwaysOccurs | risks/monte_carlo.py:75-83 | A 100% (or higher) likelihood with ordered points always occurs and adds the triangular sample taken from the following draw. |
| MonteCarlo.InvalidPointsFallBack | risks/monte_carlo.py:77-86 | An occurring risk whose points are out of order does not abort the run. It adds most_likely and consumes only its occurrence draw. |
| MonteCarlo.ContributionBounds | risks/monte_carlo.py:73-86 | With non-negative costs, one risk adds between 0 and its ceiling. The ceiling is pessimistic when the points are ordered and most_likely, the fallback, otherwise. |
| MonteCarlo.TrialBounds | risks/monte_carlo.py:71-88 | With non-negative costs, a trial adds between 0 and the sum of those ceilings. |
| MonteCarlo.TotalsBounded | risks/monte_carlo.py:70-88 | With non-negative costs, every recorded total lies between 0 and the sum of the ceilings. |
| MonteCarlo.CertainRiskTrial | risks/monte_carlo.py:73-86 | A single certain risk with ordered points adds a cost in [optimistic, pessimistic], and exactly most_likely when the width is zero. |
| MonteCarlo.CertainRiskTotals | risks/monte_carlo.py:70-88 | A single certain risk with ordered points makes every total lie in [optimistic, pessimistic]. |
| MonteCarlo.DegenerateRiskTotals | risks/monte_carlo.py:70-88 | A single certain risk whose three points coincide makes every total exactly that cost. |
| PyBuiltins.SortAscending | risks/monte_carlo.py:111 | `sorted` returns an ascending permutation of its input. |
| PyBuiltins.InsertSorted | risks/monte_carlo.py:111 | Inserting into a sorted list keeps it sorted. |
| PyBuiltins.InsertPermutes | risks/monte_carlo.py:111 | Inserting adds exactly the new element to the multiset. |
| PyBuiltins.SeqMin | risks/monte_carlo.py:117 | `min` of a non-empty list is one of its elements and no element is below it. |
| PyBuiltins.SeqMax | risks/monte_carlo.py:118 | `max` of a non-empty list is one of its elements and no element is above it. |
| PyBuiltins.SortedEnds | risks/monte_carlo.py:111-118 | The first of the sorted totals is `min_cost` and the last is `max_cost`. |
| SummaryStatistics.Mean | risks/monte_carlo.py:114 | The definition: `statistics.mean` as the exact sum divided by the count. Bounded by `MeanBounds`. |
| SummaryStatistics.Median | risks/monte_carlo.py:115 | The definition: the middle of the sorted totals, or the average of the two middle ones for an even count. Placed between p25 and p75 by `QuartilesAroundMedian`. |
| SummaryStatistics.StdDev | risks/monte_carlo.py:116 | The definition: `statistics.stdev`, the square root of the squared deviations from the mean divided by n - 1. Shown non-negative by `StdDevNonNegative`. |
| SummaryStatistics.Percentile | risks/monte_carlo.py:119-123 | The entry at index `int(k/100 * n)` of the sorted totals. It is always one of the totals. |
| SummaryStatistics.Summarize | risks/monte_carlo.py:113-124 | The definition of the statistics dictionary: mean, median, stdev (0 for a single total), min, max and the five percentiles. Its order is stated by `StatisticsOrdered`. |
| SummaryStatistics.PercentileIndexInRange | risks/monte_carlo.py:119-123 | `int(k/100 * n)` for k < 100 and n > 0 is a valid index into the sorted totals, so no percentile lookup fails. |
| SummaryStatistics.PercentileIndexMonotone | risks/monte_carlo.py:119-123 | A higher percentile never reads an earlier index. |
| SummaryStatistics.QuartilesAroundMedian | risks/monte_carlo.py:115-121 | p25 <= median <= p75, for odd and even counts. |
| SummaryStatistics.StatisticsOrdered | risks/monte_carlo.py:111-124 | With at least one trial, min <= p10 <= p25 <= median <= p75 <= p90 <= p95 <= max, and min <= mean <= max. |
| SummaryStatistics.MeanBounds | risks/monte_carlo.py:114 | The mean lies between any lower and upper bound of the totals. |
| SummaryStatistics.SingleTrial | risks/monte_carlo.py:113-124 | With exactly one trial, std_dev is 0 and every other statistic is that trial's total. |
| SummaryStatistics.StdDevNonNegative | risks/monte_carlo.py:116 | With more than one trial, the sample standard deviation is non-negative. |
| SummaryStatistics.SquaredDeviationsNonNegative | risks/monte_carlo.py:116 | The sum of squared deviations under the square root is non-negative. |
| HistogramData.BinIndex | risks/monte_carlo.py:169 | The clamped bin index is always below `num_bins`, so the increment never fails. |
| HistogramData.BinIndexBrackets | risks/monte_carlo.py:169 | A value goes to the bin whose lower edge is at or below it. The next edge is above it, except in the clamped last bin. |
| HistogramData.MaxGoesToLastBin | risks/monte_carlo.py:162-169 | The maximum value computes index `num_bins` and is clamped into the last bin. |
| HistogramData.BinWidthPositive | risks/monte_carlo.py:162 | When max > min, the bin width is positive and `num_bins` widths span exactly max - min. |
| HistogramData.Frequencies | risks/monte_carlo.py:166-170 | The counting produces exactly `num_bins` counts. |
| HistogramData.FrequenciesSum | risks/monte_carlo.py:166-170 | Every value is counted exactly once: the counts sum to `len(data)`. |
| HistogramData.CountIntoBins | risks/monte_carlo.py:166-170 | The in-place loop over the counts array yields `Frequencies`: `num_bins` counts summing to `len(data)`. |
| HistogramData.BinEdges | risks/monte_carlo.py:163 | There are `num_bins + 1` edges. |
| HistogramData.EdgeStep | risks/monte_carlo.py:163 | Consecutive edges are one bin width apart. |
| HistogramData.EdgesIncreasing | risks/monte_carlo.py:163 | Edges strictly increase. |
| HistogramData.Midpoints | risks/monte_carlo.py:173-176 | There is one label per bin. |
| HistogramData.MidpointLabels | risks/monte_carlo.py:173-176 | The label loop yields the midpoints, each lying between its two edges. |
| HistogramData.LabelBetweenEdges | risks/monte_carlo.py:175 | Each label lies strictly inside its bin. |
| HistogramData.LabelsWithinRange | risks/monte_carlo.py:173-176 | Every label lies strictly between min and max. |
| HistogramData.LabelsIncreasing | risks/monte_carlo.py:173-176 | Labels strictly increase from bin to bin. |
| HistogramData.HistogramShape | risks/monte_carlo.py:149-181 | Empty data gives empty bins and frequencies. Equal values give the single bin `[min]` with `[len(data)]`. Otherwise there are `num_bins` labels and `num_bins` counts. Non-empty data is always fully counted. |
| HistogramData.SingleBin | risks/monte_carlo.py:155-159 | When min == max, the histogram is one bin at that value holding every item. |
| HistogramData.HistogramConserves | risks/monte_carlo.py:161-181 | When min < max, there are `num_bins` labels and `num_bins` counts, summing to `len(data)`. |
| HistogramData.HistogramOf | risks/monte_carlo.py:149-181 | The definition of the three cases of `create_histogram_data`: empty, a single bin, or `num_bins` midpoints with their counts. Their shape is stated by `HistogramShape`. |
| HistogramData.CreateHistogramData | risks/monte_carlo.py:138-181 | The method's result is the histogram of the data. Empty data gives the empty histogram. Otherwise the counts sum to `len(data)`, with one label per count. |
| RiskModel.NewRisk | risks/models.py:49-58 | The definition: a risk created with only a title, with likelihood 1, impact 1, status Open and empty text fields. Its consequences are stated by `DefaultRiskIsOpenAndLow`. |
| RiskModel.RiskScore | risks/models.py:60-62 | The definition: likelihood × impact. |
| RiskModel.RiskLevel | risks/models.py:64-72 | The definition: the level of the risk's score. The thresholds are stated by `LevelOfScore`. |
| RiskModel.LevelOfScore | risks/models.py:64-72 | The level is High iff score >= 6, Medium iff 3 <= score < 6, and Low iff score < 3. |
| RiskModel.ScoreOfChoices | risks/models.py:53-72 | With likelihood and impact from the 1–3 choices, the score is in {1,2,3,4,6,9}: High iff it is 6 or 9, Medium iff 3 or 4, Low iff 1 or 2. |
| RiskModel.LevelLabelIsChoiceName | risks/models.py:24-72 | `risk_level` is always one of 'Low', 'Medium' and 'High', each a label of the choice lists. |
| RiskModel.ScoreExamples | risks/tests.py:59-82 | The scores and levels the risk tests expect: 2×3 = 6 and 3×3 = 9 are High, 1×3 = 3 is Medium, 1×1 = 1 is Low. |
| RiskModel.SeededRiskExamples | risks/tests.py:622-632 | The seeded risks of the project tests: 3×3 = 9 is "High", 2×2 = 4 is "Medium", 1×1 = 1 is "Low". |
| RiskModel.StatusChoicesMatchLabels | risks/models.py:43-47 | Every status appears among the three status choices under its own label, and every choice's label is its status's label. |
| RiskModel.RiskLevelMonotone | risks/models.py:60-72 | Raising a non-negative likelihood or impact never lowers the score or the level (Low < Medium < High). |
| RiskModel.DefaultRiskIsOpenAndLow | risks/models.py:53-56 | A risk with default fields is Open and has score 1, so its level is Low. |
| PyStrings.Strip | risks/ai_features.py:40-43 | `strip()` yields a text that neither starts nor ends with whitespace (Python's `isspace` set). |
| PyStrings.StripRemovesOnlySpace | risks/ai_features.py:40-43 | Everything `strip()` removes is whitespace. It yields the empty string iff the text is all whitespace. |
| PyStrings.StripStripped | risks/ai_features.py:40-43 | A text without leading or trailing whitespace is its own `strip()`. |
| PyStrings.StripIdempotent | risks/ai_features.py:40-43 | `strip()` is idempotent. |
| PyStrings.Find | risks/ai_features.py:35-38 | `find(sub, start)` is -1 iff there is no occurrence at or after `start`. Otherwise it is the first such occurrence. |
| PyStrings.FindFirst | risks/ai_features.py:35-38 | An occurrence with none before it, from `start` on, is the one `find` reports. |
| PyStrings.Contains | risks/ai_features.py:31 | The definition of `pat in s`: some index where `pat` occurs. Related to `find` by `ContainsIffFound`. |
| PyStrings.ContainsIffFound | risks/ai_features.py:31-36 | `'```json' in text` holds iff `find` reports an index, so the guard on line 36 always passes. |
| AiFeatures.ExtractJsonFromResponse | risks/ai_features.py:20-43 | The result never starts or ends with whitespace. |
| AiFeatures.ExtractedOccursInReply | risks/ai_features.py:20-43 | The result is a contiguous piece of the reply. |
| AiFeatures.NoFenceStripsOnly | risks/ai_features.py:31-43 | A reply without "```json" is returned stripped. |
| AiFeatures.FencedBlockExtracted | risks/ai_features.py:31-40 | With a first "```json" and a "```" after it, the result is the stripped text strictly between them. |
| AiFeatures.UnclosedFenceStripsOnly | risks/ai_features.py:35-43 | A "```json" with no "```" after it falls back to the whole reply stripped. |
| AiFeatures.NoClosedBlockStripsOnly | risks/ai_features.py:31-43 | A text with no "```json" followed by a "```" is only stripped. |
| AiFeatures.ExtractedHasNoClosedBlock | risks/ai_features.py:20-43 | The extracted text never contains a "```json" followed by a "```". |
| AiFeatures.ExtractIdempotent | risks/ai_features.py:20-43 | Extracting from an extracted text changes nothing. |
| AiFeatures.FencedBodyExtracted | test_json_extraction.py:25-43 | Every reply made of a "```json" line, a body and a closing "```" line yields exactly the body, when the body holds no "```" and has no whitespace at either end. The test's sample is such a reply, with the JSON object as its body. |
| AiFeatures.FallbackCategory | risks/ai_features.py:533 | The fallback is the first allowed category, or "Technical" when none is allowed. |
| AiFeatures.SuggestedCategory | risks/ai_features.py:531-533 | An allowed suggested category is kept. Otherwise the category falls back. Either way it ends up allowed, or "Technical" when none is. |
| AiFeatures.FallbackIsTechnicalForRegisterChoices | risks/models.py:36-41 | Over the `CATEGORY_CHOICES` constant, whose first entry is "Technical", the fallback picks "Technical", as it does when no category is offered. Any suggestion outside that constant becomes "Technical". |
| AiFeatures.CategorySuggestion.constructor | risks/ai_features.py:540-546 | The suggestion dictionary holds exactly the five given fields. |
| AiFeatures.AutoCategorizeRisk | risks/ai_features.py:523-546 | On every path the category is allowed, or "Technical" when none is. A parsed reply with an allowed category is returned untouched. One without is corrected in place: the category falls back, confidence becomes 0.3, " (Fallback to default category)" is appended to the reasoning, and the lists are kept. A failure yields a new suggestion with confidence 0.2, the fixed reasoning and empty lists. |
| AiFeatures.HighRisks | risks/ai_features.py:719 | The High count never exceeds the number of risks. |
| AiFeatures.MediumRisks | risks/ai_features.py:720 | The Medium count never exceeds the number of risks. |
| AiFeatures.LowRisks | risks/ai_features.py:721 | The Low count never exceeds the number of risks. |
| AiFeatures.ScoreOrZero | risks/ai_features.py:719-721 | The definition of `r.get('risk_score', 0)`: the score when present, 0 when missing. |
| AiFeatures.LevelCountsPartition | risks/ai_features.py:718-721 | High, Medium and Low counts sum to the total number of risks. |
| AiFeatures.LevelCountsAgreeWithRiskLevel | risks/ai_features.py:719-721 | Each count is the number of scores to which `risk_level`'s thresholds (risks/models.py) assign that level. |
| AiFeatures.MissingScoreIsLow | risks/ai_features.py:719-721 | A risk without a `risk_score` counts as score 0, which is Low. |

## Left out

- The Gemini calls, the prompt construction and `json.loads` in `risks/ai_features.py`. These are foreign calls. `AutoCategorizeRisk` takes the parsed reply as an `Option`.
- AiFeatures.AutoCategorizeRisk: `None` stands for every exception the `except` at risks/ai_features.py:538 catches. These are:
  - an API failure;
  - text that is not JSON;
  - JSON that is not an object;
  - a missing `suggested_category` key;
  - on the correcting path, a `reasoning` that is missing or neither a string nor a list, so the `+=` at line 535 raises.
  The model does not say which reply raises which.
- AiFeatures.CategorySuggestion: the source returns the parsed dictionary with whatever keys the reply had (line 537). The class always has exactly the five keys of the fallback dictionary. Extra keys are not carried, and a missing list field is not modelled.
- AiFeatures.CategorySuggestion: a `reasoning` that is a JSON array is not represented, because the field is a `string`. In the source, `list += str` extends that list with the note's characters, nothing raises, and line 537 returns the corrected dictionary with the list.
- AiFeatures.FallbackIsTechnicalForRegisterChoices: speaks only of the `CATEGORY_CHOICES` constant (risks/models.py:36-41), which no field or call in the source uses. The categories actually offered come from the `Category` table, ordered by name (risks/models.py:17). Holding the same four names, that table would offer "Financial" first. The model states nothing about that table.
- `print` of the error in `auto_categorize_risk`: console output only.
- The true randomness of `random.random()` and every distributional claim, such as the convergence of the mean. Draws are an explicit stream, and only their range [0, 1) is assumed.
- `math.sqrt` is a parameter. Only the two facts `IsSqrt` states are used.
- IEEE floating point throughout. Arithmetic is exact, so `int(0.10 * n)` is the exact floor `(10 * n) / 100`. The conversion of the `Decimal` cost fields to `float` is the identity.
- HistogramData.MidpointLabels: `round(midpoint, 2)` is not applied. The labels are the exact midpoints.
- `format_currency` (risks/monte_carlo.py:184-186): string formatting of floats.
- `CreateHistogramData` requires `num_bins > 0`. The source divides by it, and its one caller passes 20. The defaults `num_simulations=5000` and `num_bins=20` are kept as default parameter values.
- The Django side: views, forms, admin, URL routing, notifications, management commands, templates, the setup scripts and the browser scripts. They are framework, e-mail, file and HTTP plumbing.
- The migration that defines the cost fields (`likelihood_percentage` and the three cost impacts) is not part of this model. `MonteCarlo.CostRisk` records exactly what the engine reads.
- A `risk_score` key present with the value `None` in `generate_executive_summary` raises a `TypeError` in the source. The model covers present and missing scores only.
- MonteCarlo.ActiveRisks: its own contract only bounds the length. `ActiveRisksAreTheOpenOnes` and `NonOpenRiskIgnored` state which risks it keeps. `ActiveRisksAppend` states that it keeps their input order.
- AiFeatures.HighRisks, AiFeatures.MediumRisks, AiFeatures.LowRisks: each contract only bounds its count. The thresholds are stated by `LevelCountsAgreeWithRiskLevel` and the partition by `LevelCountsPartition`.
