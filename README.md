# BRCA cleaning and analysis pipeline, modelled in Dafny

This project models the data-handling core of a small breast-cancer (BRCA) analysis
repository written in Python with pandas:

- the cleaning pipeline of `process_data.py`:
  - `standardize_columns` normalises the column labels (strip, lower-case, spaces to underscores);
  - `remove_empty_rows` drops the rows without a `patient_id`;
  - `handle_missing_values` drops the rows without a `patient_status`;
  - `validate_tumour_stage` checks the stages against I, II and III;
  - `clean_data` runs the four stages in that order;
- the validation and analysis functions of `functions.py`:
  - `validate_dataframe` checks the argument type and the required columns;
  - `helper` computes the six statistics of a numeric series;
  - `analyze` builds one row per group with flat `{col}_{stat}` fields;
  - the input guards of `run_kmeans`.

A DataFrame is modelled as column labels, one dtype tag per column, and rows whose cells
are a value or missing (`frames.dfy`). `DataFrame` is a class because `standardize_columns`
overwrites the caller's `df.columns`. The filters return new frames, and the lemmas are
stated on the value `Table`.

How each module is modelled:

- **`names.dfy`**: Python's `str.strip`, `str.lower` and `str.replace` as used on a label.
- **`series.dfy`**: the arithmetic behind `helper`.
  - Mean and median are exact rationals.
  - The median comes from an insertion sort proved to return an ascending permutation.
- **`grouping.dfy`**: pandas' `groupby` defaults.
  - The keys are the sorted, distinct, present values of the key column.
  - When a key column mixes numbers and strings, the numbers come first, as in pandas' fallback sort for mixed keys.
  - A group holds the rows carrying its key, in table order.
- **`analyze`**: written as loops over the groups, the numeric columns and the statistics, as the code does. It is proved equal to the specification function `AnalyzeResult`.
- **The cleaning methods**: `StandardizeColumns`, `RemoveEmptyRows`, `HandleMissingValues`, `ValidateTumourStage` and `CleanData` run straight through, as the code does.
  - Each is proved to produce what a specification function gives (`Standardized`, `DropNa`, `TumourStageCheck`, `Clean`).
- **Lemmas** state what the specification functions promise.
- **Default arguments** are kept: `group_col` defaults to `"patient_status"` and `n_clusters` to 2.

Behaviours of the code the model keeps:

- **Mutation.** `clean_data` renames the columns of the frame it is given. This happens through `standardize_columns`, even when a later stage fails. `CleanData` states this.
- **Missing id column.** A table with no `patient_id` or `patient_status` column fails with pandas' `KeyError` for that label. It does not fail with a validation error.
- **Tumour stages.** An unexpected stage is only reported. The table is returned unchanged.
- **No groups.** When every key cell is missing, `analyze` raises a `KeyError` for the label `group`. The reason is that `set_index("group")` runs on an empty frame.

## Model

| member | source | states |
|---|---|---|
| Frames.DataFrame.constructor | process_data.py:58 | the frame `dropna` hands back: a valid frame whose contents are exactly the given table |
| Frames.IndexOf | process_data.py:99-100 | `None` exactly when no column has the label; otherwise the first column carrying it, which stands for `df[name]` when labels are distinct |
| Frames.MissingAt | process_data.py:58 | defined as: some column carrying the label holds a missing cell in the row, the test `dropna(subset=[name])` applies |
| Names.IsSpace | process_data.py:49 | defined as Python's `str.isspace` for one character, the whitespace `strip()` removes: tab to carriage return, 0x1C-0x1F, space, 0x85, 0xA0 and the Unicode space and line separators |
| Names.IsUpper | process_data.py:49 | defined as the characters the model's `lower()` changes: A-Z and the Latin-1 capitals other than the multiplication sign |
| Names.LowerChar | process_data.py:49 | the lowered character is never upper-case, is whitespace exactly when the input was, and a non-upper-case character is unchanged |
| Names.LeadingSpaces | process_data.py:49 | the leading run it counts is all whitespace and cannot be extended |
| Names.TrailingSpaces | process_data.py:49 | the trailing run it counts is all whitespace and cannot be extended |
| Names.Strip | process_data.py:49 | `strip()` never lengthens the label, and the result neither starts nor ends with whitespace |
| Names.StripSlice | process_data.py:49 | `strip()` returns the slice between a maximal whitespace prefix and an all-whitespace suffix; the result neither starts nor ends with whitespace |
| Names.Lower | process_data.py:49 | `lower()` keeps the length and lowers each character |
| Names.ReplaceSpaces | process_data.py:49 | `replace(" ", "_")` keeps the length and turns exactly the spaces into underscores |
| Names.Normalize | process_data.py:49 | a normalised label is no longer than the original, has no space or upper-case letter, and no whitespace at either end |
| Names.NormalizedIsFixed | process_data.py:44-49 | a label that is already normalised is left unchanged |
| Names.NormalizeIdempotent | process_data.py:44-49 | normalising twice equals normalising once |
| Names.NormalizeNames | process_data.py:49 | the list comprehension keeps the number and order of labels, mapping each in place |
| Names.NormalizeNamesSpec | process_data.py:49 | over a whole header: same length, every label normalised, a second pass changes nothing |
| Series.Present | functions.py:56 | `dropna()` never lengthens the series |
| Series.PresentEmpty | functions.py:56 | nothing is present exactly when every cell is missing |
| Series.PresentCounts | functions.py:56 | every present value is kept as often as it occurs; a value is kept iff it occurs; the count is the length minus the missing cells |
| Series.PresentMultiset | functions.py:56 | the present values form, as a multiset, the non-missing cells |
| Series.PresentLength | functions.py:56 | `count()` is the length minus the number of missing cells |
| Series.MinOfSpec | functions.py:60 | `min()` is a member of the values and no value is smaller |
| Series.MaxOfSpec | functions.py:61 | `max()` is a member of the values and no value is larger |
| Series.Sum | functions.py:57 | defined as the sum of the values, the numerator of `series.mean()`; `SumBounds` states its bounds |
| Series.SumBounds | functions.py:57 | the sum lies between n·lo and n·hi when every value lies in [lo, hi] |
| Series.MeanBounds | functions.py:57 | the mean lies between the minimum and the maximum |
| Series.InsertSorted | functions.py:58 | insertion adds one element |
| Series.InsertSortedPermutes | functions.py:58 | insertion adds exactly the inserted value to the multiset |
| Series.InsertSortedSorted | functions.py:58 | insertion into an ascending sequence keeps it ascending |
| Series.Sort | functions.py:58 | defined as insertion sort, each value inserted into the sorted rest; `SortSpec` states that it returns an ascending permutation |
| Series.SortSpec | functions.py:58 | the sort behind the median returns an ascending permutation of the values, of the same length |
| Series.SortSorted | functions.py:58 | the sort's result is ascending and as long as the input |
| Series.SortPermutes | functions.py:58 | the sort's result is a permutation of the input |
| Series.MinOf | functions.py:60 | defined as the least of a non-empty series; `MinOfSpec` states its properties |
| Series.MaxOf | functions.py:61 | defined as the greatest of a non-empty series; `MaxOfSpec` states its properties |
| Series.Mean | functions.py:57 | the mean times the number of values is their sum |
| Series.Median | functions.py:58 | defined as the middle element of the sorted values, or the average of the two middle ones for an even length; `MedianBounds` states its bounds |
| Series.MedianBounds | functions.py:58 | the median lies between the minimum and the maximum |
| Series.PairCentre | functions.py:57-58 | of two values, mean and median are both their midpoint, whatever their order |
| Series.SquaredDeviations | functions.py:59 | the sum of squared deviations is non-negative |
| Series.Variance | functions.py:59 | the sample variance (`ddof=1`) under `std()` is non-negative |
| Grouping.StrLess | functions.py:87 | defined as Python's `<` on strings: lexicographic by code point, a proper prefix first; its order properties are the three lemmas below |
| Grouping.Less | functions.py:87 | defined as the key order: numbers by value, strings by `StrLess`, numbers before strings; `LessIsStrictTotalOrder` states it is a strict total order |
| Grouping.StrLessIrreflexive | functions.py:87 | no string sorts before itself |
| Grouping.StrLessTransitive | functions.py:87 | string order is transitive |
| Grouping.StrLessTotal | functions.py:87 | of two different strings one sorts first |
| Grouping.LessIsStrictTotalOrder | functions.py:87 | the key order is a strict total order on cell values |
| Grouping.InsertKey | functions.py:87 | adding a key keeps the key list strictly ascending and adds exactly that key |
| Grouping.GroupKeys | functions.py:87 | the group keys are strictly ascending and are exactly the present values of the key column |
| Grouping.SortedKeysDistinct | functions.py:87 | strictly ascending keys are pairwise distinct, so each group appears once |
| Grouping.SortedPair | functions.py:87 | a strictly ascending list holding exactly two values is those two, in order |
| Grouping.ColumnCells | functions.py:87 | the key column `df[group_col]`: one cell per row, the row's cell at that position |
| Grouping.GroupKeysOfColumn | functions.py:87 | in terms of rows: a value is a key iff some row holds it in the key column; no keys iff every key cell is missing |
| Grouping.TwoKeys | functions.py:87 | a key column holding two values a < b, and nothing else, has the groups a then b |
| Grouping.GroupOf | functions.py:87 | a row belongs to a group iff it is a row of the table carrying the group's key |
| Grouping.GroupOfAppend | functions.py:87 | grouping distributes over concatenation, so a group keeps the table's row order |
| Functions.MissingFrom | functions.py:33 | a name is reported iff it is required and absent; never more names than were required |
| Functions.MissingFromAppend | functions.py:33 | the missing names come in the order they were required |
| Functions.MissingFromSingle | functions.py:33 | for one required name, the list is empty when the name is present and is that name otherwise |
| Functions.ValidateDataframe | functions.py:30-35 | a non-table fails with the type error whatever is required; a table passes iff every required label is present; otherwise the error lists the absent labels, a non-empty list |
| Functions.ValidateDataframeExamples | test_functions.py:49-64 | the three validation test cases: pass, missing `b`, and the type error for a string |
| Functions.Helper | functions.py:55-62 | `helper`: the count never exceeds the series length; it is 0 exactly when every cell is missing, and exactly then `mean`, `median`, `min` and `max` are NaN; `std` is NaN exactly when fewer than two values are present |
| Functions.HelperCount | functions.py:56 | `count` is the length minus the missing cells; on an all-missing series every other statistic is NaN |
| Functions.HelperMinMax | functions.py:60-61 | with a value present, `min` and `max` are present values and bound every present value |
| Functions.HelperCentre | functions.py:57-61 | with a value present, `mean` and `median` lie between `min` and `max` |
| Functions.HelperStd | functions.py:59 | `std` is NaN iff fewer than two values are present, and otherwise the root of a non-negative variance |
| Functions.Items | functions.py:55-62 | `stats.items()` lists the six statistics in dictionary order, each name (`StatNames`: count, mean, median, std, min, max) paired with that statistic's value |
| Functions.HelperExampleCount | test_functions.py:34-37 | the series 1, 2, missing, 4 has count 3 |
| Functions.HelperExampleSingle | test_functions.py:39-43 | a single 42 has count 1, mean, median, min and max 42, and std NaN |
| Functions.HelperExampleFive | test_functions.py:12-15 | the series 1 to 5 has mean 3 and count 5 |
| Functions.HelperExampleMean | test_functions.py:24-27 | the mean of 10, 20, 30 is 20 |
| Functions.HelperExampleMedian | test_functions.py:29-32 | the median of 1, 2, 3, 4 is 2.5 |
| Functions.HelperPair | functions.py:57-58 | `helper` on two present values gives their midpoint as mean and median |
| Functions.FieldName | functions.py:92 | defined as the f-string `{col}_{stat}`: the column label, an underscore, the statistic name; `FieldNameInjective` and `FieldNameHasUnderscore` state its properties |
| Functions.FieldNameInjective | functions.py:92 | with statistic names free of underscores, different (column, statistic) pairs give different field names |
| Functions.UnderscoreInLongerSuffix | functions.py:92 | if two field names coincide, the longer statistic name contains an underscore |
| Functions.StatNamesHaveNoUnderscore | functions.py:55-62 | the six statistic names are distinct and contain no underscore |
| Functions.NumericColumns | functions.py:83 | the numeric columns are exactly the columns tagged numeric, in ascending column order |
| Functions.ColumnSeries | functions.py:90 | `group_df[col]` has one entry per group row, missing exactly where the cell is missing or holds no number, and otherwise that row's number |
| Functions.ColumnStats | functions.py:89-91 | one `stats.items()` list per numeric column, each naming the six statistics in order; list p is `helper`'s items for the p-th numeric column of the group |
| Functions.AnalyzeResult | functions.py:81 | the type error and the missing group column are reported by the validation, before any grouping |
| Functions.AddStatFields | functions.py:91-92 | the innermost loop writes the items of one column into the row |
| Functions.GroupRowFields | functions.py:88-92 | the loops over columns and statistics build the group's fields, `GroupFields` |
| Functions.StatsFieldsSnoc | functions.py:89-92 | one more numeric column adds its items after the ones before it |
| Functions.ItemsInto | functions.py:91-92 | defined as the fold of `row[f"{col}_{stat_name}"] = stat_value` over a column's items; `ItemsIntoKeys`, `ItemsIntoValue` and `ItemsIntoOther` state what it writes |
| Functions.StatsFields | functions.py:89-92 | defined as `ItemsInto` folded over the numeric columns in order; `StatsFieldsKeys` and `StatsFieldsValue` state its fields |
| Functions.GroupFields | functions.py:88-92 | defined as `StatsFields` over each numeric column's `helper` items for one group |
| Functions.GroupRowOf | functions.py:87-93 | defined as the row for one key: the key and the `GroupFields` of `GroupOf`'s rows; `GroupRowOfKeys` and `GroupRowOfValue` state its fields |
| Functions.GroupRows | functions.py:86-93 | one row per key |
| Functions.GroupRowsAt | functions.py:86-93 | the p-th row is the one built for the p-th key |
| Functions.BuildGroupRows | functions.py:86-93 | the loop over the groups builds `GroupRows` |
| Functions.GroupRowsSnoc | functions.py:93 | `rows.append(row)` puts the new group's row last |
| Functions.Analyze | functions.py:65-96 | `analyze`, with its three nested loops, returns `AnalyzeResult`: validation errors, the `group` KeyError, or the group rows |
| Functions.FieldNameSuffix | functions.py:92 | for one column, different statistics give different field names |
| Functions.ItemsIntoKeys | functions.py:91-92 | writing a column's items adds exactly one field name per item |
| Functions.ItemsIntoValue | functions.py:91-92 | each written field holds its item's value |
| Functions.ItemsIntoOther | functions.py:91-92 | fields with names of another shape are untouched |
| Functions.ItemsFieldNames | functions.py:91-92 | a column's items add the six names `{col}_{stat}` |
| Functions.FieldNamesSnoc | functions.py:89-92 | the field names of one more column are the earlier ones plus that column's six |
| Functions.StatsFieldsKeys | functions.py:89-92 | the fold over the numeric columns has exactly the `{col}_{stat}` field names |
| Functions.StatsFieldsValue | functions.py:89-92 | with distinct labels, field `{col}_{stat}` holds that column's statistic |
| Functions.GroupColumn | functions.py:87 | the grouped column carries the group label |
| Functions.Groups | functions.py:95 | the index after `set_index("group")`: one entry per row, the row's group value |
| Functions.GroupRowsGroups | functions.py:86-95 | the result's index is the list of keys |
| Functions.AnalyzeGroups | functions.py:87-95 | the result is the `group` KeyError exactly when every key cell is missing; otherwise its rows are one per distinct present key, strictly ascending, and a value is a group iff some row holds it |
| Functions.GroupRowOfKeys | functions.py:88-92 | a group's row has exactly the `{col}_{stat}` fields of the numeric columns |
| Functions.GroupRowOfValue | functions.py:88-92 | with distinct labels, a group's field `{col}_{stat}` holds that statistic of `helper` over the group's column |
| Functions.AnalyzeOk | functions.py:81-95 | for a table with the group column, the result is the KeyError with no keys and otherwise the rows built for the sorted keys |
| Functions.AnalyzeFieldNames | functions.py:88-92 | every result row has exactly the fields `{col}_{stat}` for numeric columns and the six statistics, and `group` is none of them |
| Functions.GroupIsNotAField | functions.py:88-92 | the `group` entry never collides with a statistic field |
| Functions.FieldNameHasUnderscore | functions.py:92 | a field name has the underscore right after the column label |
| Functions.AnalyzeFieldValue | functions.py:87-92 | with distinct labels, the `{col}_{stat}` field of a group's row is that statistic of `helper` over the column's cells in the rows carrying the group's key |
| Functions.StatusKeys | test_functions.py:70-80 | the statuses of the test table group as `Alive` then `Dead` |
| Functions.AnalyzeByFirstColumn | functions.py:81-95 | grouping by the first column of a well-formed table returns the rows for its keys |
| Functions.AliveGroup | test_functions.py:70-86 | the `Alive` group of the test table is its first two rows |
| Functions.DeadGroup | test_functions.py:70-87 | the `Dead` group of the test table is its last two rows |
| Functions.AgeMeanOf | functions.py:88-92 | a group whose ages are a and b gets their midpoint as `age_mean` |
| Functions.AliveRowMean | test_functions.py:82-86 | the `Alive` row of the test table has `age_mean` 55 |
| Functions.DeadRowMean | test_functions.py:82-87 | the `Dead` row of the test table has `age_mean` 75 |
| Functions.AnalyzeExample | test_functions.py:70-87 | `TestAnalyze`: two rows, `Alive` then `Dead`, with `age_mean` 55 and 75 |
| Functions.RunKmeansGuard | functions.py:200-220 | a non-table fails with the type error; a table passes iff it has at least `n_clusters` rows, and otherwise reports the number needed and the number found |
| ProcessData.Standardized | process_data.py:49 | renaming keeps cells, dtype tags and the number of columns, and gives each column its normalised label |
| ProcessData.StandardizedSpec | process_data.py:43-50 | standardising keeps a table well formed, leaves every label normalised, and is idempotent |
| ProcessData.StandardizeColumns | process_data.py:43-50 | assigns the normalised labels to the caller's frame, keeps it valid, and returns the same frame |
| ProcessData.KeepRows | process_data.py:58 | never more rows; a row is kept iff it is an input row with no missing cell under the label |
| ProcessData.KeepRowsAppend | process_data.py:58 | the filter distributes over concatenation, so kept rows keep their relative order |
| ProcessData.KeepRowsNothingMissing | process_data.py:58 | when no row is missing the label, nothing is dropped |
| ProcessData.KeepRowsIdempotent | process_data.py:58 | dropping twice on the same label drops nothing more |
| ProcessData.DropNa | process_data.py:58 | `dropna(subset=[name])` fails iff no column has the label, with `KeyError(name)`; on success the table is well formed |
| ProcessData.DropNaSpec | process_data.py:58 | on success, labels and dtype tags are kept and the rows are exactly the input rows with a value under the label, in order |
| ProcessData.RemoveEmptyRows | process_data.py:53-62 | a new frame holding the `patient_id` filter, or its KeyError; `removed` is rows before minus rows after, never negative |
| ProcessData.HandleMissingValues | process_data.py:65-90 | a new frame holding the `patient_status` filter, or its KeyError; `dropped` is rows before minus rows after, never negative |
| ProcessData.StageValues | process_data.py:100 | defined as `set(df["tumour_stage"].dropna().unique())`: the present values of the first `tumour_stage` column |
| ProcessData.TumourStageCheck | process_data.py:98-105 | no report without the column; otherwise the unexpected stages are the present values outside `ExpectedStages` (I, II, III), or all present values when none is unexpected |
| ProcessData.TumourStageWarns | process_data.py:98-103 | the warning is given iff the column exists and some row holds a present stage outside I, II, III |
| ProcessData.ValidateTumourStage | process_data.py:93-106 | returns the same frame, unchanged, with the report `TumourStageCheck` |
| ProcessData.Clean | process_data.py:109-117 | the error, if any, is the KeyError for `patient_id` or for `patient_status`; a result is a well-formed table with no more rows than the input |
| ProcessData.CleanErrors | process_data.py:109-117 | cleaning fails iff, after standardising, `patient_id` or `patient_status` is absent, with the KeyError of the first absent one |
| ProcessData.CleanOk | process_data.py:109-117 | the cleaned table has the standardised labels and dtype tags, never more rows than the input, and exactly the input rows with both `patient_id` and `patient_status` present, in order; a row missing other cells is kept |
| ProcessData.CleanIdempotent | process_data.py:109-117 | cleaning a cleaned table changes nothing |
| ProcessData.CleanData | process_data.py:109-117 | the stages in order: the caller's frame gets the standardised labels; the result is a new frame holding `Clean`'s table, or `Clean`'s error |

## Left out

- Plotting (`visualize_survival_by`, `visualize_proteins`, `visualize_age`): rendering with matplotlib and seaborn.
- K-means fitting in `run_kmeans`: a call into scikit-learn; only the guards before it are modelled.
- `load_csv` and the `__main__` block of `process_data.py`: file I/O and CSV parsing.
- Console output: the missing-value report of `handle_missing_values` and every `print`, including the sorted stage list `validate_tumour_stage` prints. The model returns what would be printed as values (`removed`, `dropped`, `StageCheck`).
- Dtype inference: numbers are integers, and each column carries a numeric or non-numeric tag. The model does not infer what `select_dtypes` would.
- Functions.Helper: does not model floating point or `round(..., 4)`. `mean` and `median` are exact rationals, and `std` is kept as the square root of the exact sample variance (`SqrtOf`). A value from pandas can differ from them in the last digits.
- Names.LowerChar: does not model the full Unicode case mapping of `str.lower` for one character. It lowers exactly the characters `IsUpper` names, 32 code points down, and leaves every other character unchanged.
- Names.Lower: does not model the full Unicode case mapping of `str.lower`. It lowers A-Z and the one-to-one Latin-1 capitals and leaves every other character unchanged.
- Functions.AnalyzeFieldValue: states field values only for tables whose column labels are distinct.
- Repeated column labels, which `standardize_columns` can create (from "Age" and "age ", for instance), are not modelled as pandas handles them. There `df[name]` returns every column carrying the label, so pandas raises where the model returns a value:
  - `df["tumour_stage"].dropna().unique()` raises `AttributeError`;
  - `df.groupby(group_col)` on a repeated group label raises `ValueError`;
  - `int(series.count())` on a repeated numeric label raises `TypeError` in `helper`.
- Lookups by label: the model's `tumour_stage` check and grouping read the first column carrying the label (`IndexOf`). `dropna(subset=[name])` looks at every column carrying it, as pandas does.
- Non-frame arguments to the `process_data.py` functions are not modelled. There they fail with Python's own exceptions, for example a `TypeError` from `len(df)` in `remove_empty_rows` or an `AttributeError` on `df.columns` in `standardize_columns`.
- Column order of `analyze`'s result: `pd.DataFrame(rows)` lays the columns out one numeric column at a time, `count` through `max`. `GroupRow.fields` is a map and keeps no order. The model states which fields exist and what they hold.
- `run_kmeans` with `n_clusters` ≤ 0 passes the guard as written, because the code has no such check. Rejecting it is left to scikit-learn, which is not part of this model.
- The test module imports `describe_series`, which the source does not define. The model's examples use `helper`.
- The test module reads the analysis result through `("age", "mean")` column tuples. The code produces flat `age_mean` fields, so the examples are stated on those.
- The payload of pandas' `KeyError`: the model's `KeyError` carries only the label concerned. pandas words it differently, for example a list of labels from `dropna(subset=...)` or a "None of [...] are in the columns" message from `set_index`.
