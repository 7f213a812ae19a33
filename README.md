# Stack Overflow tag chart: the tally-and-report pipeline

The application reads a CSV file of Stack Overflow questions, one `Tag` per row.
It counts the tags and keeps the ten most frequent. For each kept tag it makes up
three yearly question counts (2023 to 2025), then turns them into yearly totals,
yearly percentage shares and an average share per tag. The result is the dict
that the `/api/data` endpoint returns.

This project models `process_csv` and `generate_growth_pattern` in `app.py` and
proves properties of them. The model is organised as follows:

- `Wrappers` holds the `Option` and `Result` datatypes.
- `Text` models `str.strip()` with Python's `str.isspace()` character set.
- `StableSort` models Python's stable `sorted(..., reverse=True)` and
  `list.sort(..., reverse=True)`. It is specified by two properties: the result is
  non-increasing by key, and for every key value it lists the input's elements with
  that key in input order. That makes the result a permutation in which ties keep
  their order.
- `Aggregator` models the row loop. It follows the `defaultdict(int)` and both
  counters. It also models the top-10 selection.
- `GrowthSynthesizer` models `generate_growth_pattern`: three tiers chosen by the
  base count, and one loop per tier that appends three counts.
- `ReportBuilder` models the rest of `process_csv`. It covers the `yearly_data`
  loops, the totals and percentages loop, the `tag_totals` and `tags_data` loops
  and the final sort.
- `App` models `process_csv` end to end: the error paths, the report and its
  metadata.

The row loop and the report loops mutate dicts and counters, so they are methods
with loops and invariants. Each method is proved against a specification function
(`NonBlankTags`, `FirstSeen`, `CountMap`, `YearCounts`, `ReportSeries`, ...), and
the properties the program promises are lemmas about those functions.

Inputs the program gets from its environment are parameters:

- The CSV file is an `Option<CsvFile>`. It is `None` when the file does not exist.
  Otherwise it holds the header field list (`None` for an empty file) and the Tag
  value of each data row (`None` when the row has fewer fields than the position
  of the `Tag` column).
- The successive values of `random.random()` are a function `random: nat -> real`.
  The i-th top tag uses draws 3i, 3i+1 and 3i+2. `random.uniform(a, b)` is
  `a + (b - a) * u`, as CPython computes it.
- `math.log` is a function `ln: nat -> real`.

Floats are modelled as exact reals. `int()` is truncation toward zero.

`App.ProcessCsv` follows the code as written, including two cases where it
differs from what the code evidently intends; "## Findings" lists both. A row
with fewer fields than the position of the `Tag` column has `None` as its Tag
value, and `None.strip()` raises `AttributeError`. The per-row
`except (ValueError, KeyError)` does not catch it, so the whole call returns
`{'error': "Error reading CSV file: 'NoneType' object has no attribute 'strip'"}`
instead of skipping the row. An empty file has no header, and `'Tag' in None`
raises `TypeError`. The result is then
`"Error reading CSV file: argument of type 'NoneType' is not iterable"`, not
`'Invalid CSV structure'`. `App.ProcessCsvIntended` is the corrected pipeline:
it skips rows without a Tag value and reports an empty file as having no `Tag`
column.

## Model

| member | source | states |
|---|---|---|
| Text.Strip | app.py:65 | `strip()` returns the slice of the field between a leading and a trailing run of whitespace, and the result neither starts nor ends with whitespace |
| Text.StripEmptyIffBlank | app.py:65-66 | a Tag field strips to the empty string exactly when every character is whitespace, so exactly those rows are not counted |
| Text.StripIdempotent | app.py:65 | stripping a stripped tag changes nothing |
| Aggregator.NonBlankTags | app.py:62-68 | the tags counted are at most one per row and none is empty |
| Aggregator.FirstSeen | app.py:62-67 | the dict's keys in insertion order: distinct, and exactly the tags that occur |
| Aggregator.CountTags | app.py:53-72 | the row loop: fails with the `AttributeError` text exactly when some row has no Tag value; otherwise `total_rows` is the number of rows, `processed_rows` the number of non-blank tags, and `tag_counts` and its key order are the count map and first-seen order of those tags |
| Aggregator.CountTagsSkipping | app.py:62-72 | the row loop as intended: a row without a Tag value is skipped like a blank one; `total_rows` is the number of rows, `processed_rows` the number of non-blank tags, and `tag_counts` and its key order are the count map and first-seen order of those tags; it never fails |
| Aggregator.CountRow | app.py:64-72 | one pass of the intended loop body: the count map and key order grow by the row's stripped tag when the row has a non-blank Tag value, and are unchanged otherwise |
| Aggregator.RowTag | app.py:65-66 | a row adds at most one tag to the tally |
| Aggregator.SkippedRowsCount | app.py:62-68 | the rows the intended loop does not count (no Tag value, or a blank one) number `total_rows - processed_rows` |
| Aggregator.ShortRowAbortsTally | app.py:62-83 | a valid row followed by a row without a Tag value: there is a non-blank tag to count, yet the row without a Tag value is in the input, so `CountTags` fails with the `AttributeError` text instead of counting the tag |
| Aggregator.Increment | app.py:67 | `tag_counts[tag] += 1` on the `defaultdict`: the count map and key order become those of the tags seen so far plus this one, and the tag is then a key with a count of at least 1 |
| Aggregator.CountMapCounts | app.py:67 | `tag_counts` has exactly the tags seen as keys, each mapped to its number of occurrences |
| Aggregator.NoEmptyTag | app.py:65-67 | the empty tag is never a key of `tag_counts` |
| Aggregator.CountsSumToProcessed | app.py:66-68 | the counts of all keys add up to `processed_rows` |
| Aggregator.FirstSeenOrder | app.py:62-67 | the keys are ordered by the row where each tag first occurs |
| Aggregator.UniqueTagsCount | app.py:156 | `len(tag_counts)` is the number of distinct tags |
| Aggregator.TopTags | app.py:86 | `sorted(tag_counts.items(), key=count, reverse=True)[:10]` over the entries in key order; `TopTagsSpec` and `TopTagsAreLargest` state its properties |
| Aggregator.TopTagsSpec | app.py:86 | `top_tags` has `min(10, len(tag_counts))` entries, non-increasing by count, each an entry of `tag_counts`, no tag twice; for each count, the kept tags with that count are the first-inserted ones, in insertion order |
| Aggregator.TopTagsAreLargest | app.py:86 | a tag left out of `top_tags` has a count no larger than that of any kept tag |
| StableSort.SortDesc | app.py:86 | Python's stable descending sort, by insertion; `SortDescSpec` states that it is a stable, non-increasing permutation |
| StableSort.SortDescSpec | app.py:86 | the descending sort keeps the length and the multiset of elements, is non-increasing by key, and keeps the input order of the elements with equal keys |
| StableSort.SortDescDistinct | app.py:86 | sorting distinct elements yields distinct elements |
| StableSort.WithKeyPrefix | app.py:86 | cutting a list to its first k entries (`[:10]`) keeps, for every key, a prefix of the list's entries with that key |
| GrowthSynthesizer.Uniform | app.py:18-29 | `random.uniform(a, b)` from one draw `u`: `a + (b - a) * u` |
| GrowthSynthesizer.UniformRange | app.py:18-29 | a draw in [0, 1] gives a value in [a, b], `a` for the draw 0 and `b` for the draw 1 |
| GrowthSynthesizer.Trunc | app.py:19-30 | `int()` on a float truncates toward zero |
| GrowthSynthesizer.TruncSpec | app.py:19-30 | the truncation of x lies between 0 and x, less than 1 away from x |
| GrowthSynthesizer.SyntheticCount | app.py:15-31 | count k is `int()` of the volume of the tier chosen by the base count; the `SyntheticCount*` lemmas state its bounds |
| GrowthSynthesizer.GenerateGrowthPattern | app.py:11-32 | always returns exactly three counts; count k is the truncated volume of the tier chosen by `base_count` (> 1500, > 800, the rest) for year index k and the k-th draw |
| GrowthSynthesizer.SyntheticCountNonNegative | app.py:15-31 | with draws in [0, 1] and a non-negative base count, every tier's count is non-negative |
| GrowthSynthesizer.SyntheticCountPositive | app.py:15-31 | a base count of at least 4 never gives a zero count |
| GrowthSynthesizer.NicheCountCanBeZero | app.py:26-31 | a tag seen once can get the count 0 (`int(0.3)`) |
| GrowthSynthesizer.SyntheticCountAtMostBase | app.py:21-31 | below the top tier no synthetic count exceeds the real count |
| ReportBuilder.BuildYearlyData | app.py:89-97 | `yearly_data` has one dict per year 2023-2025; each has exactly the top tags as keys; tag i's entry for year k is the k-th count of the i-th `generate_growth_pattern` call |
| ReportBuilder.RecordCounts | app.py:96-97 | stores count k under the tag in year k's dict, for each of the three years; the years stay the same and the other tags' entries are unchanged |
| ReportBuilder.SumYear | app.py:105-108 | a year's total is the sum of that year's counts over the top tags |
| ReportBuilder.YearShares | app.py:111-114 | a year's percentage dict has exactly the top tags as keys, each the tag's count as a percentage of the total, or 0 when the total is 0 |
| ReportBuilder.ComputeYearStats | app.py:100-114 | `yearly_totals` and `yearly_percentages` have exactly the three years; each total is the sum of the year's counts; each percentage is the count's share of that total |
| ReportBuilder.Percentage | app.py:113 | a count's share of the year total in percent, 0 when the total is 0; `PercentageBounds` and `SharesSumTo100` state its properties |
| ReportBuilder.SharesSumTo100 | app.py:113 | when a year's total is positive, the unrounded percentages add up to exactly 100 |
| ReportBuilder.PercentageBounds | app.py:113 | a count between 0 and a positive total gives a percentage between 0 and 100 |
| ReportBuilder.BuildTagsData | app.py:130-147 | `tags_data` is the list of one entry per top tag (name, the yearly percentages, their mean), sorted by average, descending and stable |
| ReportBuilder.BuildReport | app.py:89-147 | the yearly totals are the sums of the synthetic counts, and the `tags` list is the sorted list of the per-tag series computed from those counts |
| ReportBuilder.ReportTagsSpec | app.py:137-147 | the `tags` list has one entry per top tag, non-increasing by the unrounded average, a permutation of the top-list order with equal unrounded averages kept in that order; each entry's average is the mean of its data |
| ReportBuilder.YearTotalPositive | app.py:104-108 | a top tag with a count of at least 4 makes every year's total positive |
| ReportBuilder.YearPercentagesSpec | app.py:111-114 | each percentage lies in [0, 100]; all are 0 when the year's total is 0; otherwise they add up to 100 |
| App.ProcessCsv | app.py:34-83 | the result is each error in its case (no file; no header; no `Tag` column; a row without a Tag value; no non-blank tag); it is a report exactly when the header has `Tag`, every row has a Tag value and some tag is non-blank; that report is the report of the rows |
| App.ProcessCsvIntended | app.py:34-83 | the pipeline as intended: no file, and a file without a `Tag` column (an empty file included), give their errors; no non-blank tag gives the no-data error; otherwise the result is the report of the rows, with rows without a Tag value skipped |
| App.EmptyFileIsReadError | app.py:57-60 | an empty file has no `Tag` column, yet the message `ProcessCsv` returns for it is a read error, not the invalid-structure message |
| App.MakeReport | app.py:85-159 | the report of a non-empty tally: years 2023-2025, `total_questions` per year, `tags` as `BuildReport` states, and metadata that mirrors the tally |
| App.MetadataFacts | app.py:153-158 | `processed_rows <= total_rows`; `unique_tags` is the number of distinct tags; `top_tags_count` is `min(10, unique_tags)`; the top tags are distinct |
| App.TopCountsPositive | app.py:86 | every kept tag has a count of at least 1 |
| App.FrequentTagFillsEveryYear | app.py:86-114 | if some tag occurs at least 4 times, every year's total is positive, so every year's unrounded percentages add up to exactly 100 |

## Left out

- Flask routing, `send_from_directory`, `jsonify` and the error handler (app.py:161-173): web plumbing with no logic of its own.
- Path building, `os.path.exists`, opening the file and `csv.DictReader` parsing (app.py:40-52): file I/O. The model receives the file as a value: whether it exists, its header and each row's Tag value.
- Read errors other than the two modelled ones (encoding errors, an unreadable file) are left out: they come from the file system, not from the pipeline.
- Writing `tag_summary.csv` (app.py:116-128) is file output, and its own errors are caught and only printed, so it does not change the result.
- `print` logging and the `__main__` bootstrap (app.py:175-179): no effect on the result.
- `round(..., 2)` on percentages and averages (app.py:114, app.py:134): binary floating-point rounding. Percentages and averages are exact reals, and the averages are means of the unrounded percentages.
- ReportBuilder.BuildTagsData: sorts by the unrounded mean of the unrounded percentages, while the source sorts by `round(sum of the rounded percentages / 3, 2)` (app.py:134, app.py:147). Rounding can make two averages equal: a tag at 33.331 in every year and one at 33.334 both average 33.33 in the source and keep their top-list order, while the model puts the second first.
- ReportBuilder.YearPercentagesSpec: the sum-to-100 property holds for the unrounded percentages only; after `round(..., 2)` the sum may differ from 100 by a few hundredths.
- Float arithmetic inside the growth formulas is exact real arithmetic. `random.random()` and `math.log` are parameters, so the model states which draw each count uses, not its value.
- GrowthSynthesizer.GenerateGrowthPattern: the `years` argument is taken but unused, as in the source. The count is always three.
- `tags_data.sort` sorts the list in place. The model states the sorted list as the result of `SortDesc`, not as an in-place rearrangement.
- The list copy at app.py:87 rebuilds the same pairs and is not modelled separately.

## Findings

| source | as written | input that shows it | evidently intended | confidence | as-written member | corrected member |
|---|---|---|---|---|---|---|
| app.py:64-83 | a row with fewer fields than the position of the `Tag` column has the Tag value `None`; `None.strip()` raises `AttributeError`, which `except (ValueError, KeyError)` does not catch, so the whole call fails with "Error reading CSV file: 'NoneType' object has no attribute 'strip'" | header `Id,Tag`, then the rows `1,python` and `2` | skip the bad row like a blank one and count the other rows | not executed | Aggregator.ShortRowAbortsTally | Aggregator.CountTagsSkipping |
| app.py:57-60 | an empty file has `fieldnames == None`; `'Tag' not in None` raises `TypeError`, so the result is "Error reading CSV file: argument of type 'NoneType' is not iterable" | a file of zero bytes | the invalid-structure error ('Invalid CSV structure') | not executed | App.EmptyFileIsReadError | App.ProcessCsvIntended |
