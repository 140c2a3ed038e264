# Bilibili uploader analysis: cleaning, aggregation and recommendation in Dafny

This project models the data path of the Bilibili uploader dashboard:

- **Cleaning** (`data_cleaner.py`). A raw spreadsheet becomes a clean video table:
  - each numeric cell goes through `clean_numeric_value`, with its "ten thousand" unit (`w`, `W`, `万`), its thousands commas and its fallback to 0;
  - headers are renamed from Chinese to English;
  - a synthetic `video_title` column is added when absent;
  - numeric columns are cleaned and cast to int, and text columns filled;
  - a missing required column fails.
- **Loading and aggregation** (`utils/data_loader.py`):
  - the optional row filters of `get_filtered_data`;
  - the per-uploader aggregate of `get_up_aggregated_data`: a sorted group-by, the `agg_config` reductions and the column renames;
  - its weighted, min-max normalised `comprehensive_score`;
  - the dictionary of `get_data_summary`.
- **Recommendation** (`pages/uploaders_recommand.py`):
  - the score block adds `<col>_normalized` columns, `stability_score`, `stability_normalized` and the slider-weighted `推荐分数`;
  - for a chosen domain, `nlargest(10, '推荐分数')` picks the uploaders.

Numbers are exact. Cells are ints, or finite decimals `mantissa / 10^scale`, and scores are `real`.

## Modules

| file | module | contents |
|---|---|---|
| wrappers.dfy | `Wrappers` | `Option`, and `Outcome` (a Python call returns or raises `ValueError`/`KeyError`) |
| py_numbers.dfy | `PyNumbers` | `str()` of ints and floats, `float()` of decimal literals, `str.strip()` |
| data_cleaner.dfy | `DataCleaner` | `clean_numeric_value`, and `clean_bilibili_data` over a column-oriented frame |
| stats.dfy | `Stats` | `sum`, `min`, `max` and min-max normalisation of a column |
| data_loader.dfy | `DataLoader` | the filters, group-by, reductions, composite score and summary |
| recommend.dfy | `Recommend` | the recommendation score block and the per-domain top ten |

## Behaviour modelled as written

The model follows the code, including these behaviours of it:

- **Cleaning can raise.** `float` of the first digit run (line 22 of `data_cleaner.py`) is outside the `try`. So `"1.2.3w"` or `".w"` raises `ValueError`. In `clean_bilibili_data` the outer `except` turns that into `None`.
- **Truncation, not floor.** The unit branch truncates toward zero (`int(...)`). It reads only the first digit run, so `"-1.2w"` gives 12000 and `"1,234w"` gives 10000.
- **Constant columns differ by file.** A constant column normalises to 0 in the composite score (`data_loader.py`) but to 0.5 on the recommendation page.
- **The summed video count is not renamed.** When the count comes from summing a `video_count` column, the aggregate keeps the name `video_count_sum`, because no rename matches it. The page then finds no `video_count` and computes no score.
- **Reductions on text-only schemas.** With no plays, coins, likes or danmu column, pandas returns flat names, and `'_'.join` splits each into characters. No documented column survives (`DataLoader.LayoutOf`).
- **Stability tracks average plays (in exact arithmetic).** When the video count is the number of the uploader's rows, `total_plays / video_count` is the unrounded mean of the uploader's plays. Then `stability_score` is `a / (a + 1)` for that mean `a`, which orders uploaders exactly as the unrounded mean does (`Recommend.StabilityFollowsAverage`). The stored `avg_plays` is that mean rounded to two decimals, so in the program two uploaders with the same `avg_plays` can still differ slightly in stability.

## Model

| member | source | states |
|---|---|---|
| `PyNumbers.IntRoundTrip` | data_cleaner.py:15-29 | `float(str(i))` gives back the int `i` |
| `PyNumbers.FloatRoundTrip` | data_cleaner.py:15-29 | `float(str(x))` gives back the finite float `x` |
| `PyNumbers.ExampleFloatText` | data_cleaner.py:15 | `str()` drops trailing fractional zeros but keeps one digit: 4.50 prints as `4.5`, 0.00 as `0.0` |
| `PyNumbers.StripKeeps` | data_cleaner.py:15 | a text with no whitespace at either end is unchanged by `strip()` |
| `DataCleaner.CleanNumericValue` | data_cleaner.py:7-31 | the result is always a number; only a text cell can raise, and only `ValueError` |
| `DataCleaner.CleanNumberKeepsValue` | data_cleaner.py:15-29 | a cell that is already a number returns, with the same numeric value |
| `DataCleaner.CleanTwice` | data_cleaner.py:7-31 | cleaning is idempotent: a second pass keeps the value of the first |
| `DataCleaner.NumberTextUntouched` | data_cleaner.py:15-28 | a number's text has no surrounding space, no comma and no unit marker |
| `DataCleaner.NumberTextParses` | data_cleaner.py:29 | `float` reads a number's text back to the same value |
| `DataCleaner.FirstRunFacts` | data_cleaner.py:20 | the first run is the leftmost maximal run of digits and points; it is empty iff the text has none |
| `DataCleaner.RunParsesIff` | data_cleaner.py:22 | a run of digits and points parses iff it has a digit and at most one point |
| `DataCleaner.UnitValueIsScaledRun` | data_cleaner.py:18-23 | the unit branch returns the run's value times 10000 truncated, in whole numbers, never negative |
| `DataCleaner.CleanRaisesIff` | data_cleaner.py:18-23 | cleaning raises iff the text has a unit marker and a run that has no digit or two points |
| `DataCleaner.ExampleUnitSuffix` | data_cleaner.py:17-23 | `"4.53w"` becomes 45300 |
| `DataCleaner.ExampleSignLostInUnitBranch` | data_cleaner.py:20-23 | `"-1.2w"` becomes 12000: the sign is not part of the run |
| `DataCleaner.ExampleCommaSplitsUnit` | data_cleaner.py:20-23 | `"1,234w"` becomes 10000: the comma ends the run |
| `DataCleaner.ExampleBadRunRaises` | data_cleaner.py:20-22 | `"1.2.3w"` raises `ValueError` |
| `DataCleaner.ExamplePointRaises` | data_cleaner.py:20-22 | `".w"` raises `ValueError` |
| `DataCleaner.ExampleMarkerWithoutDigits` | data_cleaner.py:18-31 | `"w"` has no run, falls through, and becomes 0 |
| `DataCleaner.ExampleCommaNumber` | data_cleaner.py:26-29 | `"1,234"` becomes 1234.0 |
| `DataCleaner.Renamed` | data_cleaner.py:45-66 | renaming keeps the height and moves every column to its mapped name, unmapped headers keeping theirs |
| `DataCleaner.CleanColumn` | data_cleaner.py:79 | `apply` succeeds iff every cell cleans, and then holds each cell's cleaned value |
| `DataCleaner.MissingColumns` | data_cleaner.py:102-103 | the missing list holds exactly the required names absent from the frame |
| `DataCleaner.CleanNumericColumns` | data_cleaner.py:76-84 | the loop fails iff a listed column has a cell that raises; otherwise it replaces exactly the listed columns by their cleaned form, int-cast except `level` |
| `DataCleaner.CleanTextColumns` | data_cleaner.py:87-91 | the loop fills and stringifies exactly the listed columns and leaves the rest |
| `DataCleaner.StagesGiveFinalColumns` | data_cleaner.py:76-91 | the numeric loop followed by the text loop gives every column its final form |
| `DataCleaner.CleanBilibiliData` | data_cleaner.py:38-122 | the method's result is the frame the renaming, title, numeric, text and required-column stages define |
| `DataCleaner.TitledFacts` | data_cleaner.py:66-73 | adding titles fails iff neither `video_title` nor `up_name` exists after renaming; otherwise the renamed columns plus `video_title`, same height |
| `DataCleaner.RequiredIff` | data_cleaner.py:102-114 | the required columns are all present iff the six besides `video_title` survive renaming |
| `DataCleaner.CleanedFrameFailsIff` | data_cleaner.py:38-122 | cleaning returns `None` iff a required column is missing or some numeric cell raises |
| `DataCleaner.CleanedColumn` | data_cleaner.py:66-91 | each renamed column of the result is its final form of the sheet's column |
| `DataCleaner.CleanedNumericCell` | data_cleaner.py:76-84 | each numeric cell is its cleaned value, truncated to an int except in `level` |
| `DataCleaner.CleanedTextCell` | data_cleaner.py:87-91 | each text cell is `str()` of the sheet's cell, or `未知<col>` when missing |
| `DataCleaner.UntouchedColumn` | data_cleaner.py:66-91 | every other column comes through renamed and unchanged |
| `DataCleaner.CleanedTitleCell` | data_cleaner.py:70-73 | without a title column, each title is the uploader's name followed by `_视频` |
| `DataCleaner.CleanedFrameShape` | data_cleaner.py:66-114 | the result keeps the row count, has equal-height columns, and holds every required column |
| `Stats.Min` | utils/data_loader.py:218 | `min()` is an entry of the column and at most every entry |
| `Stats.Max` | utils/data_loader.py:218 | `max()` is an entry of the column and at least every entry |
| `Stats.NormalizeInUnit` | pages/uploaders_recommand.py:55-61 | every normalised entry lies in [0, 1] |
| `Stats.NormalizeMonotone` | utils/data_loader.py:218-222 | normalising keeps the order of the entries |
| `Stats.NormalizeExtremes` | pages/uploaders_recommand.py:55-59 | in a non-constant column the minimum becomes 0 and the maximum 1 |
| `Stats.NormalizeConstant` | pages/uploaders_recommand.py:60-61 | a constant column becomes the flat value everywhere |
| `DataLoader.FilterIsSubsequence` | utils/data_loader.py:81 | a boolean mask keeps the rows in their order |
| `DataLoader.FilterCount` | utils/data_loader.py:81 | a row passing the mask is kept as often as it occurs, and a failing row never |
| `DataLoader.FilterTwice` | utils/data_loader.py:81-92 | two successive masks are one mask on the conjunction |
| `DataLoader.MasksMeanAdmits` | utils/data_loader.py:77-92 | passing the masks the code builds is passing every active condition, bounds inclusive |
| `DataLoader.GetFilteredData` | utils/data_loader.py:72-94 | the successive masks give the rows admitted by every active condition, or `KeyError` when an active condition's column is absent |
| `DataLoader.FilteredRows` | utils/data_loader.py:74-94 | the result is an order-preserving subsequence in which a row keeps all its copies iff it meets every active condition |
| `DataLoader.InactiveFiltersKeepAll` | utils/data_loader.py:77-92 | absent, empty or non-list choices and no bounds keep the table, as `None` does |
| `DataLoader.AllValuesKeepAll` | pages/uploaders_recommand.py:26-34 | the page's filters listing every domain and gender keep every row |
| `DataLoader.BelowTransitive` | utils/data_loader.py:166 | Python's string order is transitive |
| `DataLoader.BelowTotal` | utils/data_loader.py:166 | two different names are ordered one way or the other |
| `DataLoader.InsertFacts` | utils/data_loader.py:166 | inserting a key into sorted keys keeps them sorted and adds just that key |
| `DataLoader.GroupNamesFacts` | utils/data_loader.py:166 | the group keys are strictly sorted and are exactly the names in the rows |
| `DataLoader.GroupsNonEmpty` | utils/data_loader.py:166 | every group has a row |
| `DataLoader.Largest` | utils/data_loader.py:129 | `max` is one group member's value and bounds all of them |
| `DataLoader.Creators` | utils/data_loader.py:166 | one aggregate row per group key |
| `DataLoader.ScoreComponents` | utils/data_loader.py:214-251 | the lists are the present totals, normalised with 0 for a constant column, with weights 0.2/0.3/0.3/0.2, in the code's order |
| `DataLoader.AppendComponent` | utils/data_loader.py:223-224 | one step appends a normalised total and its weight |
| `DataLoader.ComprehensiveScore` | utils/data_loader.py:213-256 | the score column is the weighted mean of the components, or absent |
| `DataLoader.WeightsPositive` | utils/data_loader.py:224-253 | every weight is positive, so the weights sum to more than 0 iff some total is present |
| `DataLoader.ScoreExists` | utils/data_loader.py:213-255 | a score column exists iff the aggregate has rows and some total is present; it has one entry per uploader |
| `DataLoader.ScoreInUnit` | utils/data_loader.py:217-255 | every `comprehensive_score` lies in [0, 1] |
| `DataLoader.ScoreMonotone` | utils/data_loader.py:217-255 | an uploader at least as large on every present total scores at least as high |
| `DataLoader.SingleMetricScore` | utils/data_loader.py:253-254 | with one total present, the score is that total normalised |
| `DataLoader.GetUpAggregatedData` | utils/data_loader.py:97-268 | the result is empty for an empty table or one without `up_name`; otherwise it has one row per distinct uploader |
| `DataLoader.AggregateRows` | utils/data_loader.py:166-171 | one row per distinct uploader name, none missing or repeated, in ascending name order |
| `DataLoader.FirstRowValues` | utils/data_loader.py:116-123 | `domain` and `gender` are taken from the uploader's earliest row |
| `DataLoader.GroupMembers` | utils/data_loader.py:166 | a group holds only rows of its uploader, taken from the table |
| `DataLoader.GroupPlays` | utils/data_loader.py:129 | in a group the mean is at most the maximum, which is at most the sum for non-negative plays |
| `DataLoader.PlaysBounds` | utils/data_loader.py:128-129 | `max_plays` bounds and is reached by the uploader's plays; `avg_plays <= max_plays`; `max_plays <= total_plays` for non-negative plays |
| `DataLoader.Conservation` | utils/data_loader.py:128-160 | summing a total (or the summed video count) over uploaders gives the sum over all rows |
| `DataLoader.RowTotalIsLength` | utils/data_loader.py:153 | a row count is the number of rows |
| `DataLoader.CountStrategy` | utils/data_loader.py:152-182 | the video count is the row count under `video_title` or `up_name`, else the sum of `video_count`, left as `video_count_sum` |
| `DataLoader.SummaryFacts` | utils/data_loader.py:271-285 | the summary `DataLoader.GetDataSummary` returns counts every video, each distinct uploader once and each distinct domain once (neither count exceeds the videos); the per-uploader mean is the sum of `avg_plays` over the distinct uploaders divided by their number; the play total is the sum over all videos; the per-video mean is NaN only for an empty `plays` column |
| `Recommend.NormalizedNameInjective` | pages/uploaders_recommand.py:56 | different columns get different `_normalized` names |
| `Recommend.WithNormalizedKeys` | pages/uploaders_recommand.py:54-61 | the loop adds exactly one `_normalized` column per listed column |
| `Recommend.WithNormalizedValues` | pages/uploaders_recommand.py:54-61 | each `_normalized` column holds its column normalised, 0.5 when constant |
| `Recommend.WithNormalizedOthers` | pages/uploaders_recommand.py:54-61 | the loop leaves every other column alone |
| `Recommend.NormalizeColumns` | pages/uploaders_recommand.py:54-61 | the loop produces the columns the normalisation defines |
| `Recommend.BaseColumnsKeys` | pages/uploaders_recommand.py:54-61 | on the three base columns the loop writes exactly their three labels |
| `Recommend.BaseColumnsValues` | pages/uploaders_recommand.py:54-61 | and each holds its base column normalised |
| `Recommend.FreshLabels` | pages/uploaders_recommand.py:64-79 | the later columns are new and pairwise distinct |
| `Recommend.KeepsBase` | pages/uploaders_recommand.py:64-79 | writing another column keeps the normalised base columns |
| `Recommend.AddedNamesDistinct` | pages/uploaders_recommand.py:56-79 | the added columns have pairwise different names in the frame |
| `Recommend.RecommendationScores` | pages/uploaders_recommand.py:51-84 | a non-scorable aggregate gets no columns; otherwise exactly the three normalised columns, `stability_score`, `stability_normalized`, and `推荐分数` iff the weights sum to more than 0, each with its defining contents |
| `Recommend.ReducedStability` | pages/uploaders_recommand.py:64-65 | for a row-counted group, in exact arithmetic, the stability is defined and equals `a/(a+1)` for its unrounded mean plays `a >= 0` |
| `Recommend.AggregateStability` | pages/uploaders_recommand.py:64-65 | the same holds, in exact arithmetic, for every uploader of a scorable aggregate |
| `Recommend.StabilityInRange` | pages/uploaders_recommand.py:64-65 | every stability score lies in [0, 1) |
| `Recommend.RatioIncreasing` | pages/uploaders_recommand.py:64-65 | `x/(x+1)` is strictly increasing for `x >= 0` |
| `Recommend.StabilityFollowsAverage` | pages/uploaders_recommand.py:64-65 | in exact arithmetic (`round(2)` dropped), stability orders uploaders exactly as their mean plays do |
| `Recommend.WeightedBounds` | pages/uploaders_recommand.py:78-84 | entries in [0, 1] and non-negative weights give a sum in [0, total weight] |
| `Recommend.WeightedMonotone` | pages/uploaders_recommand.py:78-84 | larger entries give a larger weighted sum |
| `Recommend.RecommendScoreBounds` | pages/uploaders_recommand.py:76-84 | each score lies in [0, total weight]; the sum is not divided by it |
| `Recommend.RecommendScoreMonotone` | pages/uploaders_recommand.py:54-84 | an uploader at least as good in total plays, average plays, video count and stability scores at least as high |
| `Recommend.SingleCreatorScore` | pages/uploaders_recommand.py:54-84 | a lone uploader scores half the total weight, all columns being constant |
| `Recommend.BeforeTransitive` | pages/uploaders_recommand.py:96 | the `nlargest` order is transitive |
| `Recommend.BeforeTotal` | pages/uploaders_recommand.py:96 | the `nlargest` order ranks any two different uploaders |
| `Recommend.InsertOrdered` | pages/uploaders_recommand.py:96 | inserting at the right place keeps the list ordered |
| `Recommend.InsertRanked` | pages/uploaders_recommand.py:96 | offering one uploader keeps the list ordered and at most ten long; it enters iff there is room or it beats the last; whatever is left out ranks below the kept |
| `Recommend.TopTen` | pages/uploaders_recommand.py:93-96 | the result is the domain's uploaders: at most ten, best first (ties by position), every omitted one ranking below all ten |
| `Recommend.FirstDifference` | pages/uploaders_recommand.py:96 | where two rankings first differ, neither entry ranks above the other |
| `Recommend.PrefixRanking` | pages/uploaders_recommand.py:96 | a ranking that is a prefix of another equals it |
| `Recommend.NotInPrefix` | pages/uploaders_recommand.py:96 | an ordered list repeats no uploader |
| `Recommend.RankedUnique` | pages/uploaders_recommand.py:93-96 | only one list meets the top-ten conditions, so `TopTen` is `nlargest` |
| `Recommend.RankedSize` | pages/uploaders_recommand.py:93-96 | fewer than ten results means every uploader of the domain is listed; all listed are of the domain |
| `Recommend.RecommendPage` | pages/uploaders_recommand.py:87-96 | a list is shown iff the aggregate has `domain`, is scorable and the weights sum to more than 0; then it is the top ten of the selected domain by `推荐分数` |

## Left out

- Reading and writing files: Excel I/O, `load_data` and its fallbacks, `save_cleaned_data` and the sample data. The cleaner starts from the sheet as a frame.
- Dates are left out: the `date` column passes through unchanged, because `pd.to_datetime` is a foreign library call.
- `print`, progress output, the Streamlit cache and every widget. The sliders and the selected domain are parameters. The page's `sort_values` display (line 105) re-sorts the ten results by score; `TopTen` already lists them by descending score, and only the order among equal scores could change there. The detail section after line 106 is not modelled.
- IEEE floats are not modelled: all arithmetic is exact. This covers:
  - `round(2)` and `round(4)`; in particular the rounded `avg_plays` is no longer exactly `total_plays / video_count`, which `Recommend.ReducedStability` and `Recommend.StabilityFollowsAverage` use;
  - rounding error in `number * 10000`;
  - `inf` and `NaN`;
  - `float()` of exponents, `inf`, `nan`, underscores or non-ASCII digits.
- `DataCleaner.CleanNumericValue`: the digit run of the unit branch (`re.findall(r'[\d.]+')`, line 20) reads ASCII digits only, while Python's `\d` and `float()` also accept other Unicode decimal digits. For such text the model gives a different result: `"１.２w"` raises `ValueError` (its run is `"."`), which turns the whole `clean_bilibili_data` result into `None`, where the program returns 12000; `"１２w"` gives 0 where the program returns 120000.
- Floats print positionally with the shortest fraction that keeps their exact decimal value (`str(1e20)` style exponents are not produced), and integers are unbounded (int64 overflow of `astype(int)` is not modelled).
- `DataCleaner.CleanBilibiliData`: requires that no two headers are renamed to one name. pandas would then hold duplicate columns, which a map cannot.
- `DataCleaner.CleanBilibiliData`: the `apply` that builds titles on a frame with no rows is modelled like any other frame.
- `pd.to_numeric(..., errors='coerce').fillna(0)` after `apply` is the identity here, because every cleaned cell is already a number.
- `DataLoader.GetFilteredData`: the rows are typed records; a `domain`/`gender` or plays value of another type is not modelled, nor is `isin` on NaN. A truthy choice that is not a list is `NotAList`, which does not filter; a numpy array or Series of more than one element would instead raise at `and filters['domains']` (line 77, and line 83 for `genders`), since its truth value is ambiguous.
- `DataLoader.GetUpAggregatedData`: does not model the catch-all `except` of lines 264-268. Its triggers are pandas internals, such as summing text.
- `DataLoader.GetUpAggregatedData`: rows with a missing `up_name` are not modelled (groupby drops NaN keys); names are always strings here.
- `Recommend.RecommendationScores`: requires every uploader's `video_count` and stability divisor to be non-zero on a scorable aggregate. Python would produce `inf`/`NaN` there, which exact reals cannot hold. `Recommend.AggregateStability` shows the requirement holds for row-counted aggregates of non-negative plays.
- `Recommend.RecommendationScores`: column names are labels (`Named`, `NormalizedOf`) rather than strings. `Recommend.AddedNamesDistinct` shows they map to distinct strings. `stability_normalized` is the label derived from `stability`.
- `Recommend.RecommendPage`: the two warnings of lines 138-141 are represented only by the `None` result.
