# Engine Test Data Explorer — verified model of its data logic

The Engine Test Data Explorer is a desktop window for tab-separated engine test
logs. Around its widgets sits a small amount of data logic, and this project models
that logic and proves properties of it:

- **File selection.** Recursive discovery keeps `.txt`/`.tsv` files, matching the
  extension without regard to case. The filter box keeps the paths whose base name
  contains the filter text, again without regard to case. Ticked entries form the
  selection.
- **Column inference.** A header is time-like when it contains "time", "zaman" or
  "date". The numeric columns are the sorted union, over the selected files, of the
  columns whose sampled values all convert to numbers. When no header is
  time-like, the first numeric column is offered as the time column.
- **Axis table.** One to four Y-axis rows, each bound to a numeric column by a
  combo box. Rows can be added and removed; a refused operation changes nothing,
  and an accepted one refreshes the column lists of the current selection.
- **Loading.** Each selected file is read in full. A failing file becomes an error
  line. The loaded tables replace the previous ones wholesale.
- **Summary engine.** Elapsed seconds come from the chosen time column. A time
  window is given as two text bounds; only bounds that parse as floats count, and
  both are inclusive. The summary has one row per file with mean, median, min, max
  or standard deviation per axis column, under the header `File, col-metric, …`.
  The metric choice includes the custom comma-separated list, which is remembered.

Library calls are parameters of the model:

- `Reader` stands for `pandas.read_csv`. It takes a path and an optional row
  limit and returns a table or an error message. The decimal separator is folded
  into it.
- `NumberParser` stands for `pandas.to_numeric` on a text cell.
- `StampParser` stands for `pandas.to_datetime` on a cell, giving a time stamp in
  nanoseconds, NaT, or a failure.
- `FloatParser` and `DateParser` stand for `float()` and `pandas.to_datetime` on
  a time-window bound.
- `os.walk` is replaced by its list of `(dirpath, dirnames, filenames)` entries.

Sample values are exact `real`s, and a missing value is `None`.

Modules: `Wrappers` (Option, Result), `Text` (the `str`/`os.path` helpers the code
relies on), `Ordering` (string order and `sorted`), `Tables` (tables and cells),
`FileCatalog`, `Schema`, `TimeNormalizer`, `Statistics`, `Summary`, `Loader`,
`AxisBinding` (class `AxisTable`) and `Explorer` (class `Explorer`, the window's
file and selection state).

Behaviour that is easy to misread, as the code has it:

- After a removal, only the vertical header labels are renumbered to the first N
  canonical names. The names kept in `axis_rows`, which `get_axis_column_mapping`
  reports, stay as they were. A removal followed by an addition can therefore
  repeat a name.
- From the initial single row, three additions succeed and the fourth is refused.
  `AxisBinding.CapacityScenario` proves this.
- A summary row is keyed by the file's base name with its extension (`A.txt`),
  as `os.path.basename` gives it, not by a bare display name (`A`).
- When the first time stamp is NaT, every elapsed time is missing. The numeric
  fallback of `extract_datetime_col` is not rebased to zero.

## Model

| member | source | states |
|---|---|---|
| FileCatalog.FindDataFiles | engine_test_data_explorer.py:21-27 | the result is exactly the collected walk list `Collected(walk)`, built directory by directory |
| FileCatalog.Collected | engine_test_data_explorer.py:21-27 | defines the walk result: directory by directory, in walk order, the joined paths of the `.txt`/`.tsv` file names; `FindDataFiles` computes it and `CollectedIff`, `CollectedSound`, `CollectedComplete` and `CollectedAreDataFiles` state its properties |
| FileCatalog.CollectedIff | engine_test_data_explorer.py:21-27 | a path is collected iff some walk entry has a file name with a data extension that joins its directory to give that path |
| FileCatalog.CollectedSound | engine_test_data_explorer.py:21-27 | every collected path is the join of a walked directory and one of its data file names |
| FileCatalog.CollectedComplete | engine_test_data_explorer.py:21-27 | every data file a walked directory lists is collected under its joined path |
| FileCatalog.MatchesInIff | engine_test_data_explorer.py:24-26 | within one directory, a path is kept iff it is the join of the directory and a matching file name |
| FileCatalog.CollectedAreDataFiles | engine_test_data_explorer.py:21-27 | every collected path's base name ends in `.txt` or `.tsv`, ignoring case |
| FileCatalog.IsDataFileIgnoresCase | engine_test_data_explorer.py:25 | the extension test gives the same answer for a name and its lower-cased form |
| FileCatalog.FilteredIndices | engine_test_data_explorer.py:410-421 | the filtered list is an order-preserving subsequence of the scanned list; it holds exactly the positions whose lower-cased base name contains the lower-cased filter text |
| FileCatalog.Filtered | engine_test_data_explorer.py:410-421 | defines `filter_files`' list: the scanned paths whose lower-cased base name contains the lower-cased filter text, in scan order; `FilteredIndices`, `FilteredIff`, `FilterEmptyKeepsAll` and `FilteredIdempotent` state its properties |
| FileCatalog.FilteredIff | engine_test_data_explorer.py:410-421 | a path is in the filtered list iff it was scanned and passes the filter |
| FileCatalog.FilterEmptyKeepsAll | engine_test_data_explorer.py:410-421 | an empty filter keeps every scanned path, in order |
| FileCatalog.FilteredIdempotent | engine_test_data_explorer.py:410-421 | filtering the filtered list again with the same text changes nothing |
| Explorer.Explorer.FilterFiles | engine_test_data_explorer.py:410-421 | `filteredFiles` becomes the filtered scan list and every list row is unchecked |
| Explorer.Explorer.StartScan | engine_test_data_explorer.py:380-383 | starting a scan empties the scanned list and the list rows |
| Explorer.Explorer.ScanComplete | engine_test_data_explorer.py:400-408 | a finished scan stores its result and refilters it, so nothing is selected; the column refresh then leaves the numeric list and the time choices empty and every axis combo blank |
| Explorer.Explorer.SelectAll | engine_test_data_explorer.py:423-425 | every list row becomes checked; when some row changed, its itemChanged refresh leaves the combos showing the columns of the new selection (`ColumnsRefreshed`), otherwise the combos are untouched |
| Explorer.Explorer.DeselectAll | engine_test_data_explorer.py:426-428 | every list row becomes unchecked; when some row changed, the combos show the columns of the new selection, otherwise they are untouched |
| Explorer.Explorer.SetChecked | engine_test_data_explorer.py:436-437 | ticking a row sets that row's check state; when the state changes, `on_file_checked` refreshes the numeric list, the time choices and the axis combos for the new selection, otherwise nothing else changes |
| Explorer.Explorer.AddAxisRow | engine_test_data_explorer.py:462-478 | at four rows it is refused and neither the axis table nor the combo lists change; otherwise the axis table grows as `AxisTable.AddAxisRow` states, bound to the numeric columns of the current selection, and line 478's refresh leaves the numeric list, the time choices and every axis combo as `ColumnsRefreshed` describes |
| Explorer.Explorer.RemoveAxisRow | engine_test_data_explorer.py:480-494 | with one row it is refused and nothing changes; otherwise row idx is removed as `AxisTable.RemoveAxisRow` states, bound to the numeric columns of the current selection, and line 494's refresh leaves the combo lists as `ColumnsRefreshed` describes |
| Explorer.Explorer.GetSelectedFiles | engine_test_data_explorer.py:429-435 | the result is the filtered paths of the checked rows, in list order |
| Explorer.Selected | engine_test_data_explorer.py:429-435 | defines the selection: the filtered paths of the checked rows, in list order; `GetSelectedFiles` computes it and `SelectedIff`, `SelectedAllChecked` and `SelectedNoneChecked` state its properties |
| Explorer.SelectedIff | engine_test_data_explorer.py:429-435 | a path is selected iff some checked row holds it |
| Explorer.SelectedAllChecked | engine_test_data_explorer.py:423-435 | after "select all" the selection is the whole filtered list |
| Explorer.SelectedNoneChecked | engine_test_data_explorer.py:426-435 | after "deselect all" nothing is selected |
| Explorer.Explorer.constructor | engine_test_data_explorer.py:111-167 | a new window has empty lists, no loaded tables, "mean" as the remembered custom metric and one unbound "Primary Y" axis row, with empty combo boxes |
| Schema.IsTimeColIff | engine_test_data_explorer.py:70-71 | a header is time-like iff its lower-cased form contains "time", "zaman" or "date" at some position |
| Schema.IsTimeCol | engine_test_data_explorer.py:70-71 | defines the time-column heuristic on the lower-cased header; `IsTimeColIff` and `IsTimeColIgnoresCase` state its properties |
| Schema.IsTimeColIgnoresCase | engine_test_data_explorer.py:70-71 | the heuristic gives the same answer for a header and its lower-cased form |
| Schema.UniqueNumericColumns | engine_test_data_explorer.py:83-97 | the result is strictly sorted, so it has no duplicates, and holds exactly the union over files of the 10-row sample columns whose values all convert |
| Schema.NumericColumnSet | engine_test_data_explorer.py:83-97 | defines the numeric columns of a selection: the union over files of the 10-row sample columns whose cells all convert, a failed read adding nothing; `UniqueNumericColumns` computes it sorted and `NumericColumnSetIff` and `NumericColumnsMonotone` state its properties |
| Schema.NumericChoicesAsWritten | engine_test_data_explorer.py:83-97 | models the helper as written: an empty selection gives no columns, any other raises NameError at line 85; `SelfDefect` states the consequence |
| Schema.NumericColumnSetIff | engine_test_data_explorer.py:83-97 | a column is numeric iff it is numeric in some file's sample; a file whose read fails adds nothing |
| Schema.NumericColumnsMonotone | engine_test_data_explorer.py:83-97 | selecting more files never removes a numeric column |
| Schema.TimeColumnChoices | engine_test_data_explorer.py:513-527 | the time choices are strictly sorted and are exactly the time-like headers of the 5-row samples; with none, and a non-empty numeric list, they are exactly the first numeric column |
| Schema.TimeChoiceSet | engine_test_data_explorer.py:513-527 | defines the time choices: the time-like headers of the 5-row samples, or the first numeric column when there is none; `TimeColumnChoices` computes it sorted and `TimeHeadersAreTimeLike` and `TimeChoicesExplained` state its properties |
| Schema.TimeHeadersAreTimeLike | engine_test_data_explorer.py:513-521 | every collected header satisfies the time-column heuristic |
| Schema.TimeChoicesExplained | engine_test_data_explorer.py:513-527 | every time choice is time-like, or else it is the fallback and no selected file has a time-like header |
| Explorer.Explorer.PopulateColumnChoices | engine_test_data_explorer.py:504-537 | the axis combo items are the sorted numeric columns of the selection, the time combo holds the sorted time choices with their fallback, and every axis combo keeps a still-offered column or takes an offered one (`Rebind`), blank when none is offered |
| Explorer.Explorer.ChoicesOfSelection | engine_test_data_explorer.py:504-527 | the numeric list is strictly sorted and holds exactly `NumericColumnSet` of the selection; the time choices are strictly sorted and hold exactly `TimeChoiceSet` of the selection and that list |
| Ordering.SortedList | engine_test_data_explorer.py:97 | `sorted` of a set is strictly increasing, has the set's size and holds exactly its members |
| Ordering.LessTotal | engine_test_data_explorer.py:97 | string order is total on distinct strings; with `LessIrreflexive` and `LessTransitive` it is a strict order |
| AxisBinding.Rebind | engine_test_data_explorer.py:529-537 | the combo refresh keeps one entry per axis row |
| AxisBinding.RebindChoosesOffered | engine_test_data_explorer.py:529-537 | after a refresh every combo shows an offered column, or nothing when none is offered; a still-offered choice is kept |
| AxisBinding.RebindAllChooseOffered | engine_test_data_explorer.py:529-537 | after a refresh every combo shows an offered column, or all are blank when none is offered |
| AxisBinding.RebindIdempotent | engine_test_data_explorer.py:529-537 | refreshing twice with the same columns is the same as refreshing once |
| AxisBinding.Removed | engine_test_data_explorer.py:485-486 | `pop(idx)` drops exactly entry idx and keeps the others in order |
| AxisBinding.AxisTable.constructor | engine_test_data_explorer.py:449-460 | the table starts with the single "Primary Y" row and an empty mapping entry, and the invariant holds |
| AxisBinding.AxisTable.AddAxisRow | engine_test_data_explorer.py:462-478 | it succeeds iff fewer than 4 rows exist. On success the next canonical name and `("", "")` are appended and the combos are refreshed. On refusal nothing changes. The 1..4 row bound, the equal lengths and the canonical names are preserved |
| AxisBinding.AxisTable.RemoveAxisRow | engine_test_data_explorer.py:480-494 | it succeeds iff more than one row exists. On success entry idx is removed from every list, the header labels become the first N canonical names and the combos are refreshed. On refusal nothing changes. The invariant is preserved |
| AxisBinding.AxisTable.Refresh | engine_test_data_explorer.py:529-537 | only the combo selections change, as `Rebind` states |
| AxisBinding.AxisTable.Mapping | engine_test_data_explorer.py:557-564 | the mapping has one to four entries, one per row in row order, each labelled with a canonical axis name and carrying that row's combo text |
| AxisBinding.CapacityScenario | engine_test_data_explorer.py:449-478 | from the initial table, exactly three of four additions are accepted and four rows remain |
| TimeNormalizer.ElapsedStartsAtZero | engine_test_data_explorer.py:99-104 | when every cell parses as a time stamp, the first elapsed time is 0 |
| TimeNormalizer.ElapsedSeconds | engine_test_data_explorer.py:99-107 | defines `extract_datetime_col`: one value per row; when the column is non-empty and every cell gives a time stamp or NaT, the seconds since the first stamp (missing where either is NaT), otherwise the numeric coercion; `ElapsedStartsAtZero`, `ElapsedKeepsSpacing`, `NaTOriginBlanksAll` and `FallbackNotRebased` state its properties |
| TimeNormalizer.ElapsedKeepsSpacing | engine_test_data_explorer.py:99-104 | elapsed times differ by the difference of their stamps, in seconds |
| TimeNormalizer.NaTOriginBlanksAll | engine_test_data_explorer.py:101-104 | a NaT first stamp (a blank cell, or text that parses to NaT) makes every elapsed time missing |
| TimeNormalizer.FallbackNotRebased | engine_test_data_explorer.py:105-107 | when the column does not parse as time stamps, the values are the plain numeric coercion, not shifted to start at 0 |
| TimeNormalizer.TimeWindowBound | engine_test_data_explorer.py:767-781 | a bound is kept iff its stripped text is non-empty and parses as a float, and it is that float |
| TimeNormalizer.ParseTime | engine_test_data_explorer.py:768-777 | defines `parse_time`: blank text gives nothing, otherwise the `float()` reading, else the date reading, else nothing; `TimeWindowBound` and `DateOnlyBoundIgnored` state its properties |
| TimeNormalizer.TimeWindow | engine_test_data_explorer.py:767-781 | defines `get_time_window`: each bound is kept only when `parse_time` gives a float; `TimeWindowBound` and `DateOnlyBoundIgnored` state its properties |
| TimeNormalizer.DateOnlyBoundIgnored | engine_test_data_explorer.py:768-781 | a bound that parses only as a date is parsed as a date but then dropped from the window |
| TimeNormalizer.Mask | engine_test_data_explorer.py:708-712 | one entry per row: with no bound every row is in; with a bound a row without an elapsed time is out; a row before the start or after the end is out; a row between the bounds, both included, is in |
| TimeNormalizer.UnboundedIncludesAll | engine_test_data_explorer.py:708-712 | with no bounds every row is included |
| TimeNormalizer.MissingExcludedWhenBounded | engine_test_data_explorer.py:708-712 | with any bound a row with missing elapsed time is excluded |
| TimeNormalizer.NarrowerIncludesFewer | engine_test_data_explorer.py:708-712 | a narrower window never includes more rows |
| TimeNormalizer.CoveringWindowIncludesAll | engine_test_data_explorer.py:708-712 | a window covering every elapsed time selects the same rows as no window |
| Statistics.ParseMetricName | engine_test_data_explorer.py:716-726 | metric names and metrics correspond one to one |
| Statistics.PresentIndices | engine_test_data_explorer.py:714-726 | the values the metrics see are the non-missing entries, each occurrence once, in order: an increasing index list picks exactly the positions that hold a value |
| Statistics.PresentIff | engine_test_data_explorer.py:714-726 | a value is seen by the metrics iff some entry holds it |
| Statistics.PresentConcat | engine_test_data_explorer.py:714-726 | the non-missing values of two slices laid end to end are those of each, laid end to end |
| Statistics.MinOf | engine_test_data_explorer.py:721-722 | min is a member of the values and at most each of them |
| Statistics.MaxOf | engine_test_data_explorer.py:723-724 | max is a member of the values and at least each of them |
| Statistics.SortValues | engine_test_data_explorer.py:719-720 | the sort used for the median is sorted and a permutation of its input |
| Statistics.MeanBetween | engine_test_data_explorer.py:717-718 | the mean lies between min and max |
| Statistics.MedianBetween | engine_test_data_explorer.py:719-720 | the median lies between min and max |
| Statistics.VarianceNonNegative | engine_test_data_explorer.py:725-726 | the sample variance under the std is never negative |
| Statistics.ComputeNaNIff | engine_test_data_explorer.py:714-726 | a metric is NaN iff it has no values, or fewer than two for std |
| Statistics.Compute | engine_test_data_explorer.py:716-726 | defines the metric dispatch over the present values (mean, median, min, max, N−1 std), NaN when the slice has no value; `ComputeNaNIff`, `SingleValue`, `MissingSkipped`, `MeanBetween`, `MedianBetween` and `VarianceNonNegative` state its properties |
| Statistics.SingleValue | engine_test_data_explorer.py:714-726 | on a single value every metric is that value, except std, which is NaN |
| Statistics.MissingSkipped | engine_test_data_explorer.py:714-726 | inserting a missing value anywhere changes no metric |
| Summary.MaskedNothing | engine_test_data_explorer.py:715 | an all-false mask gives an empty slice |
| Summary.FlattenAt | engine_test_data_explorer.py:713-727 | position `a·width + m` of the flattened blocks holds entry m of block a |
| Summary.RowValues | engine_test_data_explorer.py:713-727 | the row's values are the metric blocks of the axis columns, flattened in axis order then metric order |
| Summary.HeaderColumns | engine_test_data_explorer.py:729-732 | the loop builds exactly `Header`: "File" followed by `col-metric` in axis order then metric order |
| Summary.SummaryTable | engine_test_data_explorer.py:704-732 | the rows and the header are exactly `SummaryRows` and `Header` |
| Summary.RowMatchesHeader | engine_test_data_explorer.py:713-732 | a row has one value per (axis, metric) pair after its file name, and the header has one more entry |
| Summary.ValueLayout | engine_test_data_explorer.py:713-727 | with n metrics, value a·n + m is metric m computed on the masked values of axis column a |
| Summary.HeaderLayout | engine_test_data_explorer.py:729-732 | with n metrics, header entry 1 + a·n + m is axis column a, a hyphen and metric m |
| Summary.AbsentColumnAllNaN | engine_test_data_explorer.py:714-726 | a column missing from the table gives NaN for every metric |
| Summary.CoveringWindowSameRow | engine_test_data_explorer.py:707-727 | a window covering every elapsed time gives the same row as no window |
| Summary.SingleBlock | engine_test_data_explorer.py:713-727 | with one axis column that the table has and one metric, the row's values are exactly that metric over the column's masked, coerced values |
| Summary.ScenarioRpmMean | engine_test_data_explorer.py:704-727 | a log with Time 0, 1, 2 and RPM 1000, 1200, 1100, summarised by the RPM mean over the window [0, 1], gives the row `A.txt`, 1100, whether the Time column takes the timestamp path (numbers read as nanoseconds) or the numeric fallback |
| Summary.SummaryRowsIndices | engine_test_data_explorer.py:704-706 | one row per selected file that is loaded and has the time column, in selection order, each for its own file |
| Summary.SummaryRows | engine_test_data_explorer.py:704-727 | defines the summary rows: one `FileRow` per selected file that is loaded and has the time column, in selection order; `SummaryRowsIndices`, `RowMatchesHeader` and `SummaryTable` state its properties |
| Summary.FileRow | engine_test_data_explorer.py:707-727 | defines one file's row: its base name, then each metric over each axis column's slice under the time mask; `ValueLayout`, `AbsentColumnAllNaN`, `CoveringWindowSameRow` and `SingleBlock` state its properties |
| Summary.SelectMetrics | engine_test_data_explorer.py:749-765 | at least one metric is always chosen, and the remembered custom list is either kept or replaced by the chosen one |
| Summary.ChosenFromNames | engine_test_data_explorer.py:758-760 | reading back a list of metric names gives the same metrics |
| Summary.DialogTextRoundTrip | engine_test_data_explorer.py:756-762 | accepting the dialog's pre-filled text unchanged chooses the remembered metrics again |
| Explorer.Explorer.SelectedSummaryMetrics | engine_test_data_explorer.py:749-765 | the returned metrics and the remembered list are those of `SelectMetrics` on the previous list |
| Loader.LoadedIff | engine_test_data_explorer.py:540-552 | a file is loaded iff it is selected and its read succeeds, and it maps to what was read |
| Loader.Load | engine_test_data_explorer.py:540-552 | defines the intended load loop: each selected file read in full goes into the map, each failure adds `basename: message`; `LoadedIff`, `LoadReplacesWholesale`, `ErrorsOfFailures` and `ErrorsIndices` state its properties |
| Loader.LoadReplacesWholesale | engine_test_data_explorer.py:552 | every loaded key is a selected file, so nothing from an earlier load survives |
| Loader.ErrorsOfFailures | engine_test_data_explorer.py:546-551 | the error lines are `basename: message` for exactly the files whose read fails, in selection order |
| Loader.ErrorsIndices | engine_test_data_explorer.py:546-551 | the error lines are, in order, `basename: message`, one for each selected file whose read fails |
| Explorer.Explorer.LoadSelectedDataframes | engine_test_data_explorer.py:540-555 | the loaded tables and error lines are exactly `Load` of the current selection |
| Loader.FilepathDefect | engine_test_data_explorer.py:548 | as written no file is loaded and every file gives an error line; the intended read loads every readable file |
| Loader.LoadAsWritten | engine_test_data_explorer.py:546-552 | models the loop as written: line 548 raises NameError for every file, the except at line 550 turns each into an error line, and the map stays empty; `FilepathDefect` states the consequence |
| Schema.SelfDefect | engine_test_data_explorer.py:85 | as written, any selection that has a numeric column raises instead of offering it |
| Summary.CustomSummaryRaisesAsWritten | engine_test_data_explorer.py:755-756 | as written the custom choice raises, while the intended dialog always yields at least one metric |
| Summary.SelectMetricsAsWritten | engine_test_data_explorer.py:749-765 | models the call as written: the preset types answer as intended and the custom type raises NameError; `CustomSummaryRaisesAsWritten` states the consequence |
| Text.Lower | engine_test_data_explorer.py:71 | lower-casing keeps the length and maps each character on its own |
| Text.LowerIdempotent | engine_test_data_explorer.py:411 | lower-casing twice is lower-casing once |
| Text.ContainsIff | engine_test_data_explorer.py:416 | the substring test holds iff the needle occurs at some position |
| Text.StripShape | engine_test_data_explorer.py:769 | `strip` removes only whitespace, from both ends, and leaves no whitespace at either end |
| Text.JoinSplit | engine_test_data_explorer.py:758-760 | splitting on a separator and joining back gives the original text |
| Text.SplitJoin | engine_test_data_explorer.py:758-760 | joining separator-free pieces and splitting gives the pieces back |
| Text.Basename | engine_test_data_explorer.py:416 | the base name has no '/', ends the path and is preceded by '/' when shorter |
| Text.BasenameOfJoin | engine_test_data_explorer.py:26 | the base name of a joined path is the file name that was joined |
| Tables.Lookup | engine_test_data_explorer.py:706 | a column is found iff the table has it, and then it has one cell per row |

## Left out

- Widgets, layouts, menus, toolbars, message boxes, the About box and the summary preview dialog are user interface and are not modelled. `HeaderPreviewDialog` exists only for that interface, and `read_file_headers` (line 73) is never called. As written, `HeaderPreviewDialog.__init__` reads `self.decimal_sep_combo` (line 45), which the dialog does not have, so it raises AttributeError before any preview is shown.
- The scan thread, the 60-second abort timer and `terminate()` exist for concurrency and forced cancellation. Only the list updates before and after a scan are modelled.
- `os.walk`, `pandas.read_csv`, `pandas.to_datetime`, `pandas.to_numeric` and `float()` are foreign library calls. They appear as parameters, so their own behaviour, such as the decimal-separator handling and date formats, is not modelled. Line 102 converts the whole column at once, and pandas infers one format for it (in pandas 2, from the first non-null value); the model parses each cell on its own and uses the time stamps when every cell parses, so a column whose later cells use another format, which pandas rejects and sends to the numeric fallback, is not captured.
- Plotting (`plot_data`, `export_plot_png`, `export_plot_csv`) and the summary's `to_csv`/`to_excel` writes and save dialog are rendering and file I/O.
- Window geometry, state and last-folder persistence through `QSettings` are left out as user interface state.
- The `np.round(val, 6)` display formatting of the preview dialog is presentation.
- Floating point is not modelled. Values are exact reals, so overflow, infinity and the rounding of sums do not arise.
- TimeNormalizer.TimeWindow: `FloatParser` gives a real or nothing, so a bound of `nan`, which `float()` accepts and line 781 keeps and which then excludes every row, is not modelled.
- Statistics.Compute: std is returned as `SqrtOf(sample variance)` with the N−1 divisor, because the square root is not taken over exact reals.
- Text.Lower: only ASCII letters are lower-cased. Python's full Unicode case mapping is not modelled.
- Text.Basename: POSIX paths with '/' only. Windows separators and drive letters are not modelled.
- TimeNormalizer.ElapsedSeconds: time stamps are whole nanoseconds from the parser, and time zones are not modelled.
- Explorer.Explorer.SelectAll: each changed row triggers its own column refresh. The contract states what the last refresh leaves (`ColumnsRefreshed`), not the exact combo selections that the chain of intermediate refreshes picks. The same holds for Explorer.Explorer.DeselectAll.
- Explorer.Explorer.DeselectAll: as for SelectAll, the axis combo selections are stated as offered columns of the final selection, not as the result of the chain of refreshes.
- Explorer.Explorer.PopulateColumnChoices: it models the intended numeric-column helper, which takes its decimal separator from the reader. The defect at line 85 is kept as a separate member.
- AxisBinding.AxisTable.RemoveAxisRow: the remove buttons are rebound to their new row indices after a removal, so `idx` is always an existing row. The method requires this instead of modelling a stale button, and so does Explorer.Explorer.RemoveAxisRow.

## Findings

| source | as written | input that shows it | evidently intended | confidence | as-written member | corrected member |
|---|---|---|---|---|---|---|
| engine_test_data_explorer.py:85 | the module-level `unique_numeric_columns` reads `self.decimal_sep_combo`, and there is no `self` in scope, so it raises NameError | any selection of at least one file, e.g. one log with a numeric column | take the decimal separator from the caller and return the sorted numeric columns of the selected files | high (not executed) | Schema.SelfDefect | Schema.UniqueNumericColumns |
| engine_test_data_explorer.py:548 | the load loop reads `filepath`, which is undefined there, so every file raises NameError; the `except Exception` at line 550 catches it, each file becomes an error line and `loaded_dfs` ends up empty | any selection with a readable file `f` | read `f` | high (not executed) | Loader.FilepathDefect | Loader.LoadedIff |
| engine_test_data_explorer.py:756 | the custom metric dialog uses `QInputDialog`, which is never imported | summary type "Custom…" | ask for a comma-separated metric list, keep the valid names, and remember them when any is valid | high (not executed) | Summary.CustomSummaryRaisesAsWritten | Summary.DialogTextRoundTrip |
