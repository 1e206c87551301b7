# Feature store: transaction features, engineering rules and metadata discovery

A Dafny model of the computational core of a small feature-store repository written in
Python with pandas. It covers four parts.

- **Rolling transaction features.** `src/feature_engineering.py` keeps the completed
  transactions. For each customer it anchors a 12-calendar-month window at the latest
  transaction and builds a dictionary of 22 features: counts, sums, mean, extrema,
  standard deviation, per-type counts and amounts, days since the first transaction and
  quantile outlier counts. It then replaces every NaN with 0. A six-rule first-match
  cascade assigns each customer a segment.
- **The composition step.** Lines 22-40 of `scripts/generate_features.py` filter the
  transactions and generate the features. They left-merge the features onto the
  customers table, zero-fill the numeric columns and assign the `customer_segment` column.
- **Feature engineering rules.** `src/feature_generation/feature_engineering.py` has
  four `engineer_*` functions. Each copies a raw frame, assigns derived columns one after
  another (`pd.cut` bins, fixed categorical maps, the lifetime-value estimate) and
  selects the columns the feature store serves. The same file has
  `engineer_all_features`, which fills a dictionary of feature frames, and
  `validate_engineered_features`.
- **JSON metadata discovery.** From `feast_feature_discovery/method4_metadata.py`: the
  overview counts, the case-insensitive keyword search over views, features and
  entities, and the text of the summary report.

Modules, in dependency order:

| module | file | contents |
|---|---|---|
| `Wrappers` | Wrappers.dfy | `Option`, `Result` |
| `Decimal` | Decimal.dfy | decimal text of counts and `int()` on strings (whitespace stripping, optional sign) |
| `Seqs` | Seqs.dfy | boolean-mask selection `Where`, `Series.unique()` as `Distinct` |
| `Calendar` | Calendar.dfy | timestamps (date plus nanoseconds of the day), `pd.DateOffset(months=12)` with day clamping, `.days`, `dt.dayofweek` |
| `Stats` | Stats.dfy | sum, mean, extrema, sample variance, sorting, linearly interpolated quantile, outlier counts |
| `Cells` | Cells.dfy | the value of one frame cell (number, symbolic square root, timestamp, text, flag, NaN) and `fillna(0)` |
| `FeatureTable` | FeatureTable.dfy | the 22 feature keys, the feature dictionary and its NaN sweep |
| `RollingFeatures` | RollingFeatures.dfy | `filter_completed_transactions`, `generate_12month_features` (a method over the customers with the NaN sweep as an inner loop) and the laws of one feature row |
| `Segmentation` | Segmentation.dfy | `segment_customers`' cascade |
| `FeaturePipeline` | FeaturePipeline.dfy | the left merge, zero-filling and segmenting of the script, as a method |
| `Columns` | Columns.dfy | the column names of the engineering functions |
| `Frames` | Frames.dfy | a pandas frame as a value (`Table`) and as a class (`DataFrame`) with `copy`, column assignment and selection |
| `Bucketing` | Bucketing.dfy | `pd.cut` and its thirteen rules, the categorical codes, major cities, the lifetime-value estimate, `astype(int)`, `pd.to_datetime`, `dt.month` |
| `FeatureGeneration` | FeatureGeneration.dfy | the four `engineer_*` functions, as methods on `DataFrame` proved against functions on `Table` |
| `EngineeredFeatures` | EngineeredFeatures.dfy | `engineer_all_features` (a method filling the dictionary step by step) and `validate_engineered_features` (a loop with early return) |
| `MetadataDiscovery` | MetadataDiscovery.dfy | overview, keyword search (nested loops with a `found` flag), summary report (a loop of `+=`) |

Modelling decisions:

- Amounts are exact reals. A window's standard deviation is kept symbolic as
  `Root(SampleVariance(amounts))`.
- Transactions, customers and metadata are datatypes with the fields the code reads. A
  JSON key that may be absent is an `Option`, read with the source's default.
- The feature dictionary is a `map<Key, Cell>` over an enumeration of its 22 keys. The
  key list `FeatureKeys()` fixes the insertion order the NaN sweep visits.
- A pandas frame is a map from column names to equally long columns, plus the column
  order.
- `pandas` errors that the core can raise are `Err` results:
  - the `KeyError` of a missing column;
  - the failure of `astype(int)`;
  - the `KeyError` of merging on `customer_id` when no transaction is completed.
- Three things the code reads from the outside world are parameters:
  - the wall clock `datetime.now().isoformat()` of the report (`generatedOn`);
  - the string parser behind `pd.to_datetime` (`parse`);
  - the set of customer columns pandas stores as numbers (`numericAttrs`).

Two behaviours of the code that a reader might not expect:

- `Series.std()` is the sample deviation (`ddof=1`), so the model uses the sample
  variance.
- When no transaction is completed, `generate_12month_features` returns
  `pd.DataFrame([])`. That frame has no `customer_id` column, so the merge at
  `scripts/generate_features.py:33` raises `KeyError`. The model returns
  `Err(MissingMergeKey)` there.

## Model

| member | source | states |
|---|---|---|
| RollingFeatures.FilterCompleted | src/feature_engineering.py:4-6 | a transaction is kept exactly when it is in the input and its status is 'completed'; validity of the rows is preserved |
| RollingFeatures.FilterCompletedKeepsOrder | src/feature_engineering.py:4-6 | filtering a concatenation filters each part, so the kept rows stay in their original order |
| RollingFeatures.FilterCompletedIdempotent | src/feature_engineering.py:4-6 | filtering already filtered rows changes nothing |
| Seqs.Where | src/feature_engineering.py:6 | a boolean-mask selection holds exactly the rows satisfying the mask and is no longer than its input |
| Seqs.WhereConcat | src/feature_engineering.py:6 | a mask selection distributes over concatenation (keeps relative order) |
| Seqs.Distinct | src/feature_engineering.py:14 | `unique()` has no duplicates and holds exactly the values of the input |
| Seqs.DistinctSnoc | src/feature_engineering.py:14 | adding a row extends the unique values exactly when its value is new |
| Seqs.DistinctFirstAppearance | src/feature_engineering.py:14-15 | a value appearing first before another is listed before it (order of first appearance) |
| Seqs.PrefixDistinct | src/feature_engineering.py:14-15 | the unique values of a prefix are a prefix of the unique values |
| RollingFeatures.TransactionsOf | src/feature_engineering.py:16 | the customer's rows are exactly the input rows with that id, non-empty for an id that occurs |
| RollingFeatures.LatestDate | src/feature_engineering.py:17 | the latest date is one of the rows' dates and no row is later |
| RollingFeatures.EarliestDate | src/feature_engineering.py:43 | the earliest date is one of the rows' dates and no row is earlier |
| Calendar.WindowStart | src/feature_engineering.py:18 | 12 calendar months back: same month, day and time of day one year earlier, Feb 29 clamped to Feb 28, strictly before the anchor |
| Calendar.WindowSpan | src/feature_engineering.py:18 | the window spans exactly 365 or 366 whole days |
| Calendar.DaysBetweenNonNegative | src/feature_engineering.py:43 | `.days` of a non-negative difference is non-negative |
| Calendar.WithinWindow | src/feature_engineering.py:18-19 | a date inside the window is 0 to 366 days before the anchor |
| Calendar.InstantMonotone | src/feature_engineering.py:19 | timestamp comparison agrees with the order of instants |
| Calendar.DaysInMonth | src/feature_engineering.py:18 | month lengths are 28-31, 29 exactly for February of a leap year |
| RollingFeatures.OnOrAfter | src/feature_engineering.py:19 | the window keeps exactly the rows on or after its start (inclusive bound) |
| RollingFeatures.Recent | src/feature_engineering.py:17-19 | the window of a customer with transactions is never empty |
| RollingFeatures.WindowBounds | src/feature_engineering.py:17-19 | the window holds the latest transaction, exactly the customer's rows from the start on, and nothing more than 366 days before the anchor |
| RollingFeatures.Generate12MonthFeatures | src/feature_engineering.py:13-53 | one output row per distinct customer, in first-appearance order, each the swept feature row of that customer |
| RollingFeatures.CustomerFeatures | src/feature_engineering.py:16-52 | the loop body builds exactly `FeaturesFor`, the swept feature row of the customer |
| RollingFeatures.ReplaceNaN | src/feature_engineering.py:48-51 | the sweep over the dictionary's keys, in order, gives `fillna(0)` of the whole dictionary |
| RollingFeatures.RowComplete | src/feature_engineering.py:24-51 | a feature row has exactly the 22 feature keys and, after the sweep, no NaN |
| RollingFeatures.IdentityCells | src/feature_engineering.py:25-27 | the row names the customer, the latest date and the window start |
| RollingFeatures.CountCells | src/feature_engineering.py:28-29 | the transaction count is the window size, at least 1, and the monthly rate is that count divided by 12 |
| RollingFeatures.DayCells | src/feature_engineering.py:43-44 | days since first is the whole days from the earliest row over all the customer's rows to the latest, never negative; days since last is 0 |
| RollingFeatures.AmountCells | src/feature_engineering.py:30-33 | total, mean, maximum and minimum are those of the window's amounts, and the mean lies between the extrema |
| RollingFeatures.StdCell | src/feature_engineering.py:34 | a one-row window has deviation 0 (NaN swept); otherwise the root of the non-negative sample variance, zero for equal amounts |
| RollingFeatures.OutlierCells | src/feature_engineering.py:21-46 | high and low counts are the amounts strictly above the 90th / below the 10th percentile, together at most the window size, both 0 for equal amounts |
| RollingFeatures.OutlierBounds | src/feature_engineering.py:22-46 | over any non-empty series, the two outlier counts add up to at most its length and vanish for a constant series |
| RollingFeatures.TypeCells | src/feature_engineering.py:35-42 | the per-type counts and amounts are those of the window's rows of each type, 0 for an absent type |
| RollingFeatures.TypeSplit | src/feature_engineering.py:28-42 | when every type is one of the four, the per-type counts sum to the count and the per-type amounts to the total |
| RollingFeatures.DecodeType | src/feature_engineering.py:35-42 | the decoded type prints back as its string |
| RollingFeatures.DecodeTypeCanonical | src/feature_engineering.py:35-42 | decoding never yields another-type row under one of the four names, and for decoded types, type equality is string equality with the compared literal |
| RollingFeatures.TypeStep | src/feature_engineering.py:35-42 | the first row counts towards its own type only |
| FeatureTable.FeatureDict | src/feature_engineering.py:24-47 | the dictionary has exactly the 22 keys, each holding its feature value |
| FeatureTable.FeatureKeysDistinct | src/feature_engineering.py:24-47 | the insertion-order key list has no duplicates and lists every key |
| FeatureTable.SweptValue | src/feature_engineering.py:48-51 | a swept cell is the dictionary entry, or 0 where that entry is NaN |
| FeatureTable.SweptIdentity | src/feature_engineering.py:25-44 | the swept identity cells and day counts |
| FeatureTable.SweptCounts | src/feature_engineering.py:28-46 | the swept count, rate, total and outlier cells |
| FeatureTable.SweptMaybeMissing | src/feature_engineering.py:31-51 | the mean, extrema and deviation become 0 exactly where pandas gives NaN |
| FeatureTable.SweptTypeCounts | src/feature_engineering.py:35-38 | the swept per-type counts |
| FeatureTable.SweptTypeAmounts | src/feature_engineering.py:39-42 | the swept per-type amounts |
| Stats.MaxOf | src/feature_engineering.py:32 | the maximum is an element no element exceeds |
| Stats.MinOf | src/feature_engineering.py:33 | the minimum is an element exceeding no element |
| Stats.MeanBetween | src/feature_engineering.py:31 | the mean lies between the minimum and the maximum |
| Stats.SampleVariance | src/feature_engineering.py:34 | the sample variance (ddof=1) is non-negative |
| Stats.VarianceConstant | src/feature_engineering.py:34 | equal amounts have variance 0 |
| Stats.Sort | src/feature_engineering.py:22-23 | sorting gives an ascending permutation of the amounts |
| Stats.QuantileBounds | src/feature_engineering.py:22-23 | a linear-interpolation quantile lies between the minimum and the maximum |
| Stats.QuantileMonotone | src/feature_engineering.py:22-23 | the quantile grows with the requested fraction |
| Stats.QuantileConstant | src/feature_engineering.py:22-23 | every quantile of equal amounts is that amount |
| Stats.InterpolateBetween | src/feature_engineering.py:22-23 | an interpolated value lies between its two sorted neighbours |
| Stats.OutliersAtMostAll | src/feature_engineering.py:45-46 | counts above an upper and below a lower threshold add up to at most the length |
| Stats.NoneAbove | src/feature_engineering.py:45 | no value is strictly above a bound all values respect |
| Stats.NoneBelow | src/feature_engineering.py:46 | no value is strictly below a bound all values respect |
| Cells.FillNa | scripts/generate_features.py:36-37 | `fillna(0)` on the listed columns: keys kept, no NaN left there, non-missing and unlisted cells unchanged |
| Segmentation.FirstMatch | src/feature_engineering.py:58-71 | a segment is picked exactly when its own condition holds and no earlier rule's does (first-match priority) |
| Segmentation.PicksInactive | src/feature_engineering.py:59-60 | first-match law for the first rule |
| Segmentation.PicksHighValueActive | src/feature_engineering.py:61-62 | first-match law for the second rule |
| Segmentation.PicksActive | src/feature_engineering.py:63-64 | first-match law for the third rule |
| Segmentation.PicksHighValueOccasional | src/feature_engineering.py:65-66 | first-match law for the fourth rule |
| Segmentation.PicksRegular | src/feature_engineering.py:67-68 | first-match law for the fifth rule |
| Segmentation.PicksOccasional | src/feature_engineering.py:69-70 | the last rule applies when none before it does |
| Segmentation.InactiveExactly | src/feature_engineering.py:59-60 | Inactive exactly when the amount total is 0 (a NaN total is not) |
| Segmentation.HighValueActiveNeedsBoth | src/feature_engineering.py:61-62 | High-Value Active exactly when total > 10000 and count > 20 |
| Segmentation.SegmentExamples | src/feature_engineering.py:58-70 | 10000 over 25 transactions is Active; concrete rows for each other segment |
| Segmentation.LabelInjective | src/feature_engineering.py:60-70 | the six labels are pairwise different |
| FeaturePipeline.GenerateFeatures | scripts/generate_features.py:22-40 | the script's result is `FinalTable`: an error without completed transactions, else the merged, zero-filled, segmented rows |
| FeaturePipeline.CompletedOnly | scripts/generate_features.py:22-29 | only completed transactions affect the result |
| FeaturePipeline.FailsExactlyWithoutCompleted | scripts/generate_features.py:29-33 | the merge fails exactly when no transaction is completed |
| FeaturePipeline.OneRowPerCustomer | scripts/generate_features.py:33-40 | one row per customer, in order, with its own columns zero-filled where numeric, a segment and its id |
| FeaturePipeline.UnmatchedCustomer | scripts/generate_features.py:33-40 | a customer without completed transactions gets 0 in every numeric feature, missing timestamps, and segment Inactive |
| FeaturePipeline.MatchedCustomer | scripts/generate_features.py:33-40 | a customer with completed transactions keeps its feature row unchanged by the fill, segmented by that row |
| FeaturePipeline.CustomersExactly | src/feature_engineering.py:14 | an id is among the grouped customers exactly when one of its transactions is in the input |
| FeaturePipeline.MergedTable | scripts/generate_features.py:33 | the left merge gives one row per customer, in order, carrying the features computed for it |
| FeaturePipeline.MergeOneRowPerCustomer | scripts/generate_features.py:33 | with at most one match per id, a left merge keeps exactly one row per customer in order |
| FeaturePipeline.MatchingLabelled | scripts/generate_features.py:33 | in a frame labelled by distinct ids an id matches its own row or none |
| FeaturePipeline.FrameMatchesOnce | scripts/generate_features.py:29-33 | in the feature frame every id matches at most one row |
| FeaturePipeline.FeatureFrameIds | src/feature_engineering.py:25-53 | the `customer_id` cell of each feature row names its customer |
| FeaturePipeline.MergeRowLabelled | scripts/generate_features.py:33 | the merged row of a customer is its labelled row, or missing features |
| FeaturePipeline.MergeRowInFrame | scripts/generate_features.py:33 | a customer's merged row carries its features or missing features |
| FeaturePipeline.NoMergedFeatures | scripts/generate_features.py:33 | a customer absent from the feature frame gets missing features |
| FeaturePipeline.MergedFeatures | scripts/generate_features.py:33 | the merged features have all feature keys and name the customer |
| FeaturePipeline.NoFeatures | scripts/generate_features.py:33 | an unmatched row has every feature missing except the merge key |
| FeaturePipeline.FeatureFrame | src/feature_engineering.py:52-53 | the feature frame has one row per distinct customer |
| FeaturePipeline.FrameAt | src/feature_engineering.py:52-53 | row i of the feature frame is the features of the i-th customer |
| FeaturePipeline.GeneratedFrame | scripts/generate_features.py:29 | the rows the feature method returns are the feature frame |
| FeaturePipeline.AfterMerge | scripts/generate_features.py:36-40 | zero-filling and segmenting the merged table gives the final rows |
| FeaturePipeline.FilledRecord | scripts/generate_features.py:36-37 | a filled row keeps all feature keys |
| FeaturePipeline.SegmentCustomers | src/feature_engineering.py:56-71 | one segment per row |
| Frames.FirstMissing | src/feature_generation/feature_engineering.py:60-63 | the first absent name, none exactly when all are present |
| Frames.WithColumn | src/feature_generation/feature_engineering.py:34-57 | assigning a column lists it alongside the existing ones |
| Frames.WithColumnPlaces | src/feature_generation/feature_engineering.py:34-57 | an existing column keeps its place, a new one goes last |
| Frames.Assigned | src/feature_generation/feature_engineering.py:34-57 | after `frame[name] = col` the frame stays well formed and holds `col` under `name` |
| Frames.AssignedKeeps | src/feature_generation/feature_engineering.py:34-57 | assigning one column leaves every other column as it was |
| Frames.AssignedSame | src/feature_generation/feature_engineering.py:57 | assigning a column its own contents changes nothing |
| Frames.Selected | src/feature_generation/feature_engineering.py:60-63 | `frame[names]` fails exactly when a name is absent, else holds those columns in that order, same rows |
| Frames.AgreeOnTrans | src/feature_generation/feature_engineering.py:60-63 | agreement on the selected columns is transitive |
| Frames.AssignedOutside | src/feature_generation/feature_engineering.py:60-63 | assigning an unselected column does not change the selection's columns |
| Frames.AssignedAgree | src/feature_generation/feature_engineering.py:57-63 | the same assignment keeps agreeing frames agreeing |
| Frames.FirstMissingAgree | src/feature_generation/feature_engineering.py:60-63 | the first absent name depends only on which names are present |
| Frames.SelectedAgree | src/feature_generation/feature_engineering.py:60-63 | the selection from agreeing frames is the same |
| Frames.DataFrame.Copy | src/feature_generation/feature_engineering.py:27 | `copy()` is a fresh frame with the same contents |
| Frames.DataFrame.Assign | src/feature_generation/feature_engineering.py:34-57 | column assignment in place |
| Frames.DataFrame.Select | src/feature_generation/feature_engineering.py:60-63 | the selection as a fresh frame |
| Bucketing.CutExactly | src/feature_generation/feature_engineering.py:39-43 | `pd.cut` gives label i exactly on (edge i, edge i+1] and no label exactly outside (first edge, last edge] |
| Bucketing.RulesWellFormed | src/feature_generation/feature_engineering.py:89-238 | the other ten bin rules are well formed, so `CutExactly` describes each of them |
| Bucketing.AgeGroupRule | src/feature_generation/feature_engineering.py:39-43 | (0,25] '18-25', (25,35] '26-35', (35,45] '36-45', (45,55] '46-55', (55,100] '55+', no label at or below 0 or above 100 |
| Bucketing.ActivityRecencyRule | src/feature_generation/feature_engineering.py:110-114 | 0 gets no label, (0,1] 'Very Recent', (1,7] 'Recent', (7,30] 'Moderate', (30,1000] 'Inactive' |
| Bucketing.CustomerValueRule | src/feature_generation/feature_engineering.py:182-186 | (0,200] Bronze, (200,1000] Silver, (1000,5000] Gold, (5000,100000] Platinum, otherwise no tier |
| Bucketing.ClvRule | src/feature_generation/feature_engineering.py:179-186 | each order adds a tenth of the amount spent, the estimate is at least the amount, and two concrete tiers |
| Bucketing.CutCell | src/feature_generation/feature_engineering.py:39-43 | a cut cell is a label or NaN |
| Bucketing.CutColumn | src/feature_generation/feature_engineering.py:39-43 | `pd.cut` on a column cuts each cell |
| Bucketing.GenderRule | src/feature_generation/feature_engineering.py:50 | M is 1, F is 2, Other is 3, any other value NaN |
| Bucketing.EncodeColumn | src/feature_generation/feature_engineering.py:50 | `Series.map(codes)` encodes each cell |
| Bucketing.IsMajorCity | src/feature_generation/feature_engineering.py:46-47 | the flag holds exactly for the five listed cities |
| Bucketing.IsMajorCityColumn | src/feature_generation/feature_engineering.py:47 | `isin` on a column tests each cell |
| Bucketing.ClvColumn | src/feature_generation/feature_engineering.py:179 | the estimate on each row |
| Bucketing.AsIntColumn | src/feature_generation/feature_engineering.py:57 | `astype(int)` fails exactly when some cell cannot be cast, else casts every cell |
| Bucketing.IsPremiumCasts | src/feature_generation/feature_engineering.py:57 | a column of flags, or of the strings "1" and "0", casts to 1 and 0 |
| Bucketing.IsPremiumRefuses | src/feature_generation/feature_engineering.py:57 | a word or a NaN anywhere in the column makes the cast fail |
| Bucketing.AsIntPair | src/feature_generation/feature_engineering.py:57 | a two-row column casts exactly when both cells do, cell by cell |
| Decimal.ParseInt | src/feature_generation/feature_engineering.py:57 | `int()` on a string succeeds exactly when, once stripped of whitespace, it is an optional sign and at least one digit, and gives the signed decimal value |
| Decimal.ParseIntReadsBack | src/feature_generation/feature_engineering.py:57 | `int()` reads back any printed number, with or without sign and surrounding whitespace |
| Decimal.ParseIntDigit | src/feature_generation/feature_engineering.py:57 | a single digit reads as its value |
| Decimal.ParseIntRefusesEmpty | src/feature_generation/feature_engineering.py:57 | blank text and a bare sign are refused |
| Decimal.ParseIntRefusesText | src/feature_generation/feature_engineering.py:57 | a decimal fraction and a word are refused |
| Decimal.NotIntLiteral | src/feature_generation/feature_engineering.py:57 | a character other than a digit or a leading sign rules a literal out |
| Decimal.StripPadded | src/feature_generation/feature_engineering.py:57 | `strip()` removes exactly the whitespace around a text |
| Decimal.LeadingSpaces | src/feature_generation/feature_engineering.py:57 | the leading run of whitespace `lstrip()` drops, no more |
| Decimal.TrailingSpaces | src/feature_generation/feature_engineering.py:57 | the trailing run of whitespace `rstrip()` drops, no more |
| Bucketing.TruncateTowardZero | src/feature_generation/feature_engineering.py:57 | `int(x)` is the integer next to x towards 0 |
| Bucketing.ToDatetime | src/feature_generation/feature_engineering.py:31 | strings are parsed, other cells kept |
| Bucketing.ToDatetimeKeepsTimestamps | src/feature_generation/feature_engineering.py:30-31 | a column without strings is unchanged, so the `object` guard does not matter |
| Bucketing.MonthColumn | src/feature_generation/feature_engineering.py:53 | `dt.month` of each cell |
| Bucketing.DayOfWeekColumn | src/feature_generation/feature_engineering.py:54 | `dt.dayofweek` of each cell |
| Calendar.DayOfWeek | src/feature_generation/feature_engineering.py:54 | the day of the week lies in 0..6 |
| FeatureGeneration.Converted | src/feature_generation/feature_engineering.py:30-31 | converting a date column changes that column only |
| FeatureGeneration.ConvertDates | src/feature_generation/feature_engineering.py:30-31 | the conversion in place |
| FeatureGeneration.CastColumn | src/feature_generation/feature_engineering.py:57 | the cast fails with that column's name exactly when `astype(int)` fails |
| FeatureGeneration.ConvertedOutside | src/feature_generation/feature_engineering.py:30-31 | converting an unselected column does not change the selection |
| FeatureGeneration.ReadThenSelect | src/feature_generation/feature_engineering.py:123-126 | a step succeeds exactly when the columns it reads and serves are present, and serves the raw columns in the listed order |
| FeatureGeneration.DemographicDerived | src/feature_generation/feature_engineering.py:38-54 | deriving keeps the frame well formed and its length |
| FeatureGeneration.DemographicDerivedCells | src/feature_generation/feature_engineering.py:38-54 | row i's age group, major-city flag, gender code, registration month and day of week |
| FeatureGeneration.DemographicDerivedNotServed | src/feature_generation/feature_engineering.py:60-63 | no derived column is served |
| FeatureGeneration.DemographicDerivedDropped | src/feature_generation/feature_engineering.py:38-63 | deriving leaves the served columns as they were |
| FeatureGeneration.DemographicFeatures | src/feature_generation/feature_engineering.py:60-66 | the result has exactly the seven listed columns in order and the input's length |
| FeatureGeneration.DemographicServed | src/feature_generation/feature_engineering.py:29-57 | the frame the selection is taken from is well formed with the raw columns and length |
| FeatureGeneration.DemographicServedData | src/feature_generation/feature_engineering.py:29-57 | it holds the converted dates, the cast `is_premium` and every other raw column unchanged |
| FeatureGeneration.DeriveDemographic | src/feature_generation/feature_engineering.py:38-54 | the derivation in place |
| FeatureGeneration.EngineerUserDemographicFeatures | src/feature_generation/feature_engineering.py:14-66 | works on a copy (input untouched, result fresh) and returns `DemographicFeatures` of the raw frame: the demographic frame or its error |
| FeatureGeneration.DemographicReadsChecked | src/feature_generation/feature_engineering.py:30-57 | no read fails exactly when all five read columns are present |
| FeatureGeneration.DemographicServedChecked | src/feature_generation/feature_engineering.py:60-63 | all served columns are present exactly when the reads and the two keys are |
| FeatureGeneration.DemographicSucceeds | src/feature_generation/feature_engineering.py:14-66 | success exactly when every read and served column is present and `is_premium` casts |
| FeatureGeneration.DemographicSelected | src/feature_generation/feature_engineering.py:57-63 | a successful result is the selection from the served frame |
| FeatureGeneration.DemographicColumnKept | src/feature_generation/feature_engineering.py:60-63 | a served raw column other than the two rewritten ones is unchanged |
| FeatureGeneration.DemographicKept | src/feature_generation/feature_engineering.py:60-63 | ids, age, gender, location and timestamp reach the result unchanged |
| FeatureGeneration.DemographicConvertedValues | src/feature_generation/feature_engineering.py:30-57 | the result holds the converted dates and the integer `is_premium` |
| FeatureGeneration.DemographicValues | src/feature_generation/feature_engineering.py:27-63 | every column of the demographic result, from the raw frame |
| FeatureGeneration.BehaviorDerived | src/feature_generation/feature_engineering.py:88-120 | deriving keeps the frame well formed and its length |
| FeatureGeneration.BehaviorDerivedCells | src/feature_generation/feature_engineering.py:88-120 | row i's frequency, duration, engagement, recency labels and category code |
| FeatureGeneration.BehaviorDerivedNotServed | src/feature_generation/feature_engineering.py:85-126 | neither the converted dates nor a derived column is served |
| FeatureGeneration.BehaviorDerivedDropped | src/feature_generation/feature_engineering.py:88-126 | deriving leaves the served columns as they were |
| FeatureGeneration.DeriveBehavior | src/feature_generation/feature_engineering.py:88-120 | the derivation in place |
| FeatureGeneration.BehaviorReadsChecked | src/feature_generation/feature_engineering.py:88-120 | no read fails exactly when all five read columns are present |
| FeatureGeneration.EngineerUserBehaviorFeatures | src/feature_generation/feature_engineering.py:69-129 | works on a copy and returns the raw served columns or the missing-column error |
| FeatureGeneration.BehaviorSucceeds | src/feature_generation/feature_engineering.py:69-129 | success exactly when the five reads and the two keys are present |
| FeatureGeneration.TransactionDerived | src/feature_generation/feature_engineering.py:151-186 | deriving keeps the frame well formed and its length |
| FeatureGeneration.TransactionDerivedCells | src/feature_generation/feature_engineering.py:151-186 | row i's spending, frequency, recency labels, payment code, estimate and value tier |
| FeatureGeneration.TransactionDerivedNotServed | src/feature_generation/feature_engineering.py:148-192 | neither the converted dates nor a derived column is served |
| FeatureGeneration.TransactionDerivedDropped | src/feature_generation/feature_engineering.py:151-192 | deriving leaves the served columns as they were |
| FeatureGeneration.DeriveTransaction | src/feature_generation/feature_engineering.py:151-186 | the derivation in place |
| FeatureGeneration.TransactionReadsChecked | src/feature_generation/feature_engineering.py:151-186 | no read fails exactly when all four read columns are present |
| FeatureGeneration.EngineerTransactionFeatures | src/feature_generation/feature_engineering.py:132-195 | works on a copy and returns the raw served columns or the missing-column error |
| FeatureGeneration.TransactionSucceeds | src/feature_generation/feature_engineering.py:132-195 | success exactly when the four reads, `avg_order_value` and the two keys are present |
| FeatureGeneration.ProductDerived | src/feature_generation/feature_engineering.py:213-246 | deriving keeps the frame well formed and its length |
| FeatureGeneration.ProductDerivedCells | src/feature_generation/feature_engineering.py:213-246 | row i's price, rating, volume, inventory labels and category code |
| FeatureGeneration.ProductDerivedNotServed | src/feature_generation/feature_engineering.py:263-266 | no derived column is served |
| FeatureGeneration.ProductDerivedDropped | src/feature_generation/feature_engineering.py:213-266 | deriving leaves the served columns as they were |
| FeatureGeneration.DeriveProduct | src/feature_generation/feature_engineering.py:213-246 | the derivation in place |
| FeatureGeneration.ProductReadsChecked | src/feature_generation/feature_engineering.py:213-246 | no read fails exactly when all five read columns are present |
| FeatureGeneration.EngineerProductFeatures | src/feature_generation/feature_engineering.py:198-269 | works on a copy and returns the raw served columns or the missing-column error |
| FeatureGeneration.ProductSucceeds | src/feature_generation/feature_engineering.py:198-269 | success exactly when the five reads and the two keys are present |
| EngineeredFeatures.Keys | src/feature_generation/feature_engineering.py:284-304 | the dictionary's keys in insertion order |
| EngineeredFeatures.Lookup | src/feature_generation/feature_engineering.py:284-304 | a key is found exactly when it is among the keys |
| EngineeredFeatures.KeysConcat | src/feature_generation/feature_engineering.py:284-304 | keys of two dictionaries written in turn |
| EngineeredFeatures.LookupConcat | src/feature_generation/feature_engineering.py:284-304 | lookup in two dictionaries written in turn |
| EngineeredFeatures.AddedKeys | src/feature_generation/feature_engineering.py:287-300 | one step appends its key exactly when it ran |
| EngineeredFeatures.AddedOthers | src/feature_generation/feature_engineering.py:287-300 | one step leaves the other keys' entries alone |
| EngineeredFeatures.AddedHolds | src/feature_generation/feature_engineering.py:287-300 | a step with a new key holds its own entry |
| EngineeredFeatures.HoldsKept | src/feature_generation/feature_engineering.py:287-300 | later steps keep earlier entries |
| EngineeredFeatures.CombineKeys | src/feature_generation/feature_engineering.py:284-304 | the keys are those of the steps that ran, in order |
| EngineeredFeatures.TwoHold | src/feature_generation/feature_engineering.py:287-292 | the first two steps hold their entries |
| EngineeredFeatures.ThreeHold | src/feature_generation/feature_engineering.py:287-296 | the first three steps hold their entries |
| EngineeredFeatures.CombineHolds | src/feature_generation/feature_engineering.py:284-304 | every step that ran has its frame in the dictionary |
| EngineeredFeatures.CombineSucceeds | src/feature_generation/feature_engineering.py:284-304 | the run succeeds exactly when every step that runs does |
| EngineeredFeatures.CombineFirstError | src/feature_generation/feature_engineering.py:284-304 | a failing run raises the first failing step's error |
| EngineeredFeatures.AllFeaturesSucceeds | src/feature_generation/feature_engineering.py:272-304 | succeeds exactly when each step whose raw frame is present succeeds |
| EngineeredFeatures.AllFeaturesFirstError | src/feature_generation/feature_engineering.py:272-304 | the error is that of the first failing step, in the source's order |
| EngineeredFeatures.AllFeaturesKeys | src/feature_generation/feature_engineering.py:284-304 | key user_demographic / user_behavior / transaction / product exactly when users / behavior / transactions / products is given, no other, in that order |
| EngineeredFeatures.AllFeaturesValues | src/feature_generation/feature_engineering.py:284-304 | each entry holds its step's frame for its raw frame |
| EngineeredFeatures.MissingRequiredExactly | src/feature_generation/feature_engineering.py:386-392 | the id check cannot fail: only `event_timestamp` can be missing |
| EngineeredFeatures.ValidatesExactly | src/feature_generation/feature_engineering.py:379-403 | validation passes exactly when every frame has `event_timestamp` |
| EngineeredFeatures.AddedServed | src/feature_generation/feature_engineering.py:287-300 | a step serving well-formed frames with a timestamp keeps that so |
| EngineeredFeatures.AllFeaturesServed | src/feature_generation/feature_engineering.py:284-304 | every engineered frame is well formed and has `event_timestamp` |
| EngineeredFeatures.AllFeaturesValidate | src/feature_generation/feature_engineering.py:368-403 | everything `engineer_all_features` returns passes validation |
| EngineeredFeatures.Snapshots | src/feature_generation/feature_engineering.py:284 | a dictionary of frames read entry by entry |
| EngineeredFeatures.SnapshotsSnoc | src/feature_generation/feature_engineering.py:288 | adding an entry adds its contents |
| EngineeredFeatures.RawContents | src/feature_generation/feature_engineering.py:272 | the raw frames by name, same keys, well formed when valid |
| EngineeredFeatures.ValidateEngineeredFeatures | src/feature_generation/feature_engineering.py:368-406 | the loop with early return answers exactly the validation predicate |
| EngineeredFeatures.RunDemographic | src/feature_generation/feature_engineering.py:287-288 | the demographic entry is appended when `users` is given; raw frames and earlier entries unchanged |
| EngineeredFeatures.RunBehavior | src/feature_generation/feature_engineering.py:291-292 | the behaviour entry, likewise |
| EngineeredFeatures.RunTransaction | src/feature_generation/feature_engineering.py:295-296 | the transaction entry, likewise |
| EngineeredFeatures.RunProduct | src/feature_generation/feature_engineering.py:299-300 | the product entry, likewise |
| EngineeredFeatures.EngineerAllFeatures | src/feature_generation/feature_engineering.py:272-304 | the dictionary filled key by key is `AllFeatures` of the raw frames, with fresh valid frames |
| MetadataDiscovery.MetadataOverview | feast_feature_discovery/method4_metadata.py:27-35 | the labels, 'Unknown' when absent, and the three list lengths, 0 when absent |
| MetadataDiscovery.Lower | feast_feature_discovery/method4_metadata.py:61 | lower-casing keeps the length |
| MetadataDiscovery.LowerAt | feast_feature_discovery/method4_metadata.py:61 | each character is lower-cased on its own |
| MetadataDiscovery.LowerIdempotent | feast_feature_discovery/method4_metadata.py:61 | no capital remains, and lower-casing twice is lower-casing once |
| MetadataDiscovery.ContainsAt | feast_feature_discovery/method4_metadata.py:61 | `in` on strings holds exactly when the needle occurs at some offset |
| MetadataDiscovery.MatchesIgnoresCase | feast_feature_discovery/method4_metadata.py:61-74 | matching ignores the case of keyword and name |
| MetadataDiscovery.EmptyKeywordMatches | feast_feature_discovery/method4_metadata.py:61-74 | the empty keyword matches every name |
| MetadataDiscovery.SearchMetadataByKeyword | feast_feature_discovery/method4_metadata.py:51-79 | the nested loops report exactly `SearchHits` in order, and "No matches" exactly when there is none |
| MetadataDiscovery.SearchFeatures | feast_feature_discovery/method4_metadata.py:64-67 | the feature loop appends exactly the view's matching features, in order, and `found` holds exactly when some hit exists |
| MetadataDiscovery.SearchEntities | feast_feature_discovery/method4_metadata.py:71-75 | the entity loop appends exactly the matching entities, in order, and `found` holds exactly when some hit exists |
| MetadataDiscovery.FeatureHitsAre | feast_feature_discovery/method4_metadata.py:66-69 | a feature is reported, within its view, exactly when it matches |
| MetadataDiscovery.ViewsHitsAre | feast_feature_discovery/method4_metadata.py:59-69 | a view is reported exactly when its name (default '') matches; its features whatever its name does |
| MetadataDiscovery.OneViewHitsAre | feast_feature_discovery/method4_metadata.py:59-69 | one view reports itself exactly when its name matches, and exactly its matching features |
| MetadataDiscovery.EntityHitsAre | feast_feature_discovery/method4_metadata.py:72-76 | an entity is reported exactly when its name (default '') matches |
| MetadataDiscovery.NoHitNoMatch | feast_feature_discovery/method4_metadata.py:78-79 | no hit means nothing matched |
| MetadataDiscovery.HitSomeMatch | feast_feature_discovery/method4_metadata.py:56-76 | a hit means something matched |
| MetadataDiscovery.NoMatchesExactly | feast_feature_discovery/method4_metadata.py:56-79 | "No matches" exactly when no view, feature or entity matches |
| MetadataDiscovery.AllFeatureHits | feast_feature_discovery/method4_metadata.py:66-69 | the empty keyword reports every feature of a view |
| MetadataDiscovery.AllViewsHits | feast_feature_discovery/method4_metadata.py:59-69 | the empty keyword reports every view and feature |
| MetadataDiscovery.AllEntityHits | feast_feature_discovery/method4_metadata.py:72-76 | the empty keyword reports every entity |
| MetadataDiscovery.EmptyKeywordFindsAll | feast_feature_discovery/method4_metadata.py:33-76 | the empty keyword gives as many hits as the overview's views and entities plus all features |
| MetadataDiscovery.FeatureHitsPrefix | feast_feature_discovery/method4_metadata.py:66-69 | the inner loop's hits grow one feature at a time |
| MetadataDiscovery.ViewsHitsPrefix | feast_feature_discovery/method4_metadata.py:59-69 | the outer loop's hits grow one view at a time |
| MetadataDiscovery.EntityHitsPrefix | feast_feature_discovery/method4_metadata.py:72-76 | the entity loop's hits grow one entity at a time |
| MetadataDiscovery.JoinSnoc | feast_feature_discovery/method4_metadata.py:107-108 | joining one more item appends ', ' and the item |
| MetadataDiscovery.JoinLength | feast_feature_discovery/method4_metadata.py:107-108 | the joined text is the items plus two characters between each pair |
| Decimal.NatText | feast_feature_discovery/method4_metadata.py:96-98 | a printed count is a non-empty string of digits |
| Decimal.NatTextReadsBack | feast_feature_discovery/method4_metadata.py:96-98 | a printed count reads back as the count, without a leading zero |
| MetadataDiscovery.ExportSummaryReport | feast_feature_discovery/method4_metadata.py:81-110 | the text built by the loop of `+=` is the header followed by one section per view |
| MetadataDiscovery.ConcatSplit | feast_feature_discovery/method4_metadata.py:105-110 | the sections of two lists of views written in turn |
| MetadataDiscovery.ConcatPrefix | feast_feature_discovery/method4_metadata.py:105-110 | one more view appends its section |
| MetadataDiscovery.ConcatAt | feast_feature_discovery/method4_metadata.py:105-110 | a view's section lies between the sections before and after it |
| MetadataDiscovery.ReportSectionsInOrder | feast_feature_discovery/method4_metadata.py:105-110 | the report holds one section per view in input order |
| MetadataDiscovery.ReportCountsReadBack | feast_feature_discovery/method4_metadata.py:96-98 | the report's summary counts read back as the list lengths |

## Left out

- Printing, file reading and file writing are left out, along with the CLI `main` functions. This covers `load_metadata`, the write of the report and loading and exporting in the script. The model returns the values those functions print or write.
- `explore_feature_views_metadata` only prints and is not part of this model.
- The `user_tenure_days` column needs the wall clock and is not modelled. It is dropped from the demographic output anyway.
- FeatureGeneration.DemographicFeatures: does not raise `TypeError` when `registration_date` holds neither strings nor timestamps; pandas raises it when subtracting that column from `datetime.now()`.
- The product `popularity_score` and `popularity_level` are left out: they use floating-point `log1p` and are dropped from the output.
- FeatureGeneration.ProductDerived: the popularity columns are not assigned, so that step's possible failures on non-numeric inputs are not modelled.
- RollingFeatures.StdCell: the square root is symbolic (`Root`), and amounts are exact reals. Floating-point rounding of sums, means and quantiles is not modelled.
- Bucketing.CutCell: a non-numeric cell gets NaN, where `pd.cut` on a column of strings raises `TypeError`.
- Bucketing.ClvCell: a non-numeric cell gives NaN, where pandas' arithmetic on strings raises.
- Bucketing.ToDatetime: the parser is a parameter, so it cannot fail, and `pd.to_datetime`'s errors on unparsable strings are not modelled.
- Bucketing.DayOfWeekCell: a timestamp outside the valid calendar gives NaN rather than an error.
- MetadataDiscovery.Lower: only the letters A to Z are lower-cased. Unicode case mapping is not modelled.
- MetadataDiscovery.SearchMetadataByKeyword: JSON values are taken to be strings and lists of strings. A non-string name raises `AttributeError` in the source, and that is not modelled.
- MetadataDiscovery.ExportSummaryReport: the generation time is the parameter `generatedOn` rather than `datetime.now().isoformat()`. Values other than strings are not rendered as Python would print them.
- FeaturePipeline.GenerateFeatures: `select_dtypes(include=['number'])` is the parameter `numericAttrs` for the customer columns plus a fixed rule for the feature columns. For the merge, a customer column that shares a name with a feature column would get pandas' `_x`/`_y` suffixes; the model keeps customer columns and features apart, so that renaming is not modelled.
- The `Other` column of a raw frame stands for every column the engineering functions do not name.
- `validate_engineered_features`' missing-value and duplicate-row warnings only print, so they are left out. The model keeps only the early `False` on a missing required column. Its `try`/`except` has nothing to catch in the model.
- `engineer_all_features_for_demo` is not part of this model.
- Transactions are taken to have valid calendar dates, and types decoded from their strings (`ValidTransactions`). Unparsable dates are the caller's responsibility, as in the source.
- Frames.Selected: the error names only the first absent column; pandas' `KeyError` lists every absent one.
- Bucketing.AsInt: `int()` also accepts underscores between digits and non-ASCII digits and whitespace; the model refuses those strings.
