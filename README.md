# School dashboard bar-chart pipeline, modelled in Dafny

This project models the data path behind the bar charts of a school-data
dashboard, built with Dash and pandas. It covers the routine
`create_interactive_bar_chart_and_table`, in its current form and in its
earlier form that also returns table data, plus the test-results page
callback that picks the chart's comparison dimensions.

The routine takes a dataset of records and runs these steps:

1. It filters the rows. Each `(column, values)` pair keeps only the rows whose
   value in `column` is one of `values`.
2. It demotes a colour dimension that is not among the comparison columns.
3. It pivots the rows on the comparison columns, or on a synthetic `All`
   column when there are none, and aggregates the measure.
4. It gives every pivot row a `Group` label. The label is the values of the
   descriptor columns joined by single spaces. The colour column can be left
   out of the descriptor columns.
5. It can reorder the rows by a rank map, such as the grade map that puts `K`
   first. With an empty map the code as written sorts by a column literally
   named `reorder_bars_by` and so raises a KeyError (see Findings). The model
   uses the corrected branch instead, which sorts by the requested column's
   natural order. On that input the modelled routine therefore succeeds where
   the source raises.
6. It chooses the bar mode.

Both routines keep the source's default arguments: no filter list, no
colour, bar mode 'group', dropping the colour column from the labels, no
reordering column and an empty reordering map.

The chart is represented by what is handed to the plotting call: the table,
the x column `Group`, the y column, the colour column and the bar mode.

Modules:

- `Frame` (`frame.dfy`): records, datasets, filters, errors and the filter
  semantics (`Select`).
- `Ordering` (`ordering.dfy`):
  - Python's order on strings and on tuples of strings.
  - The sort used for `sort_values`, proved to return a sorted permutation.
- `Pivot` (`pivot.dfy`): `pivot_table(...).reset_index()` as grouping into a
  key-sorted list. It is proved against a reference aggregate, `Aggregated`.
- `GroupLabel` (`group_label.dfy`):
  - The descriptor-column choice.
  - The space-joined label, with its split-back round trip.
- `AppFunctions` (`app_functions.dfy`): the current routine. It is written as
  imperative methods with the loops of the source:
  - the filter loop;
  - the label loop;
  - the reorder step.

  Each method is proved against the specification functions above. The
  routine's overall promise is the predicate `BarFigure`.
- `AppFunctionsV1` (`app_functions_v1.dfy`): the earlier routine, which also
  returns `to_dict('records')`, and the grade rank map.
- `TestResults` (`test_results.dfy`): the selection of colour, line dash and
  comparison list in `update_graph`, and its five-pair filter list.

Values are immutable in Dafny. So the guarantee that the caller's DataFrame
and comparison list are never modified (the source works on `.copy()`) holds
by construction: no operation can change its arguments.

## Model

| member | source | states |
|---|---|---|
| Frame.SelectMembers | dsd/app_functions_and_variables.py:95-99 | a row survives the filters exactly when it is an input row and its value in every filtered column is among that filter's values |
| Frame.SelectStep | dsd/app_functions_and_variables.py:97-99 | narrowing by one more filter equals filtering by the extended list at once, so the in-place query loop computes the conjunction of all filters |
| Frame.SelectNoFilters | dsd/app_functions_and_variables.py:96 | no filters (`filter_list = None`, or an empty list) keeps every row in order |
| Frame.EmptyValueListKeepsNothing | dsd/app_functions_and_variables.py:97-99 | there is no special case for an empty value list: a filter with no values leaves no rows |
| AppFunctions.FilterData | dsd/app_functions_and_variables.py:95-99 | the filter loop succeeds exactly when every filtered column exists; it returns the rows passing all filters, else an undefined-column error naming the first filter column that does not exist |
| AppFunctions.DemoteColor | dsd/app_functions_and_variables.py:105-106 | the colour survives exactly when it is one of the comparison columns, and it is then unchanged; otherwise it becomes None |
| Pivot.PivotIndex | dsd/app_functions_and_variables.py:119-127 | the pivot index is the comparison columns, or the single synthetic column 'All' when there are none |
| Pivot.AggregateCorrect | dsd/app_functions_and_variables.py:124-127 | grouping by insertion yields strictly ascending distinct keys, the same key set as the input and the same total per key |
| Pivot.PivotTable | dsd/app_functions_and_variables.py:119-127 | one group per distinct key combination present in the filtered rows, keys strictly ascending, each holding the sum (or count) over exactly the rows with that key |
| Pivot.AllBucket | dsd/app_functions_and_variables.py:119-123 | with no comparison columns the pivot has one 'All' group holding the grand aggregate, or none when no rows remain |
| AppFunctions.AllDataLabels | dsd/app_functions_and_variables.py:138-139 | with no comparison columns every pivot row is labelled 'All' and there is at most one |
| GroupLabel.DescriptorColumns | dsd/app_functions_and_variables.py:141-144 | the descriptor list is never empty and lists only comparison columns; the colour column is removed (its first occurrence) exactly when a colour is set, there are several comparisons and dropping is on, and is then absent |
| GroupLabel.SplitJoin | dsd/app_functions_and_variables.py:161-164 | a label joined with single spaces splits back into the values it was built from when no value contains a space |
| GroupLabel.JoinInjective | dsd/app_functions_and_variables.py:161-164 | distinct space-free value lists give distinct labels |
| GroupLabel.RowLabelDistinguishes | dsd/app_functions_and_variables.py:150-164 | two pivot rows with the same label agree on every descriptor column when no value contains a space |
| GroupLabel.FullLabelInjective | dsd/app_functions_and_variables.py:150-164 | with all comparison columns as descriptors, equal labels imply equal pivot keys |
| AppFunctions.BuildGroupColumn | dsd/app_functions_and_variables.py:150-164 | the label loop gives each row its descriptor values joined by ' ' in descriptor order |
| AppFunctions.LabelRows | dsd/app_functions_and_variables.py:138-166 | the Group column holds 'All' with no comparisons, otherwise each row's descriptor label |
| AppFunctions.LabelsDistinctWithoutDrop | dsd/app_functions_and_variables.py:141-166 | when no colour column is dropped and no key value contains a space, distinct pivot rows get distinct Group labels |
| AppFunctions.AddColumn | dsd/app_functions_and_variables.py:184-185 | assigning a column adds it (or keeps it) and leaves the other columns |
| AppFunctions.Without | dsd/app_functions_and_variables.py:189-190 | dropping a column removes exactly that column, and leaves the list unchanged when the column is absent |
| AppFunctions.WithoutAdded | dsd/app_functions_and_variables.py:184-190 | adding the temporary sort column and dropping it again gives the same columns as dropping it alone, and exactly the original columns when the sort column was not one of them |
| Ordering.SortByCorrect | dsd/app_functions_and_variables.py:186-187 | the sort returns a permutation of its input ordered by the given total preorder |
| AppFunctions.ReorderBars | dsd/app_functions_and_variables.py:173-190 | rows are reordered only when the column name is non-empty and a pivot column; the rows are always a permutation; with a map the mapped ranks are non-decreasing (unmapped last) and column_for_sorting is absent, the columns being the original ones when it was not among them; with an empty map the rows are in the column's natural order |
| AppFunctions.SortByLiteralColumnName | dsd/app_functions_and_variables.py:177-180 | the empty-map branch as written sorts by the column literally named 'reorder_bars_by' and raises a KeyError exactly when the pivot has no such column |
| AppFunctions.LiteralSortColumnRaises | dsd/app_functions_and_variables.py:173-180 | a grade pivot reordered by 'Grade' with an empty map passes the guard yet the code as written raises a KeyError |
| AppFunctions.SelectedBarMode | dsd/app_functions_and_variables.py:198-202 | the bar mode is 'relative' exactly when there is one comparison column, otherwise the caller's mode |
| AppFunctions.ShapeTable | dsd/app_functions_and_variables.py:119-190 | pivot, label and reorder yield a permutation of the labelled pivot with the pivot's index, measure and columns and the reordering guarantees; an empty filtered table gives an empty pivot that still lists the measure column (see Left out) |
| AppFunctions.CreateInteractiveBarChartAndTable | dsd/app_functions_and_variables.py:15-212 | in the model, succeeds exactly when every filtered column exists, every comparison column is a dimension and none repeats; an empty filtered table is not an error here (see Left out); otherwise the error names the first missing filter column or the first missing comparison column, or reports the repeat; the figure uses x = Group, y = the measure, the demoted colour, the chosen bar mode and the filtered, pivoted, labelled and reordered table, the reorder using the corrected empty-map branch |
| AppFunctionsV1.GradeRanks | previous_app_versions/app_functions_and_variables_v1.py:124-126 | 'K' ranks 0, and grade n ranks n both as text and as a number |
| AppFunctionsV1.GradeRankBounds | previous_app_versions/app_functions_and_variables_v1.py:124-126 | every rank lies between 0 and 12 |
| AppFunctionsV1.LowestRankIsKindergarten | previous_app_versions/app_functions_and_variables_v1.py:124-126 | only 'K' has rank 0 |
| AppFunctionsV1.HighestRankIsTwelfthGrade | previous_app_versions/app_functions_and_variables_v1.py:124-126 | only grade 12 (text or number) has rank 12 |
| AppFunctionsV1.KindergartenFirst | previous_app_versions/app_functions_and_variables_v1.py:239-243 | after sorting by the grade map, a kindergarten row, if any, is the first row |
| AppFunctionsV1.TwelfthGradeLast | previous_app_versions/app_functions_and_variables_v1.py:239-243 | after sorting by the grade map with every value mapped, a grade-12 row, if any, means the last row is grade 12 |
| AppFunctionsV1.Records | previous_app_versions/app_functions_and_variables_v1.py:378 | one record per row, each keyed by exactly the table's columns |
| AppFunctionsV1.CreateInteractiveBarChartAndTable | previous_app_versions/app_functions_and_variables_v1.py:183-381 | in the model, the same success condition, errors and figure as the current routine, including the corrected empty-map reorder and an empty filtered table succeeding (see Left out); the table data is exactly the records of the figure's table (one per final row, in order, each keyed by exactly its columns, so holding every comparison column, Group and the measure), and no column_for_sorting after a map reorder |
| TestResults.UpdateGraphSelection | dsd/pages/test_results.py:66-78 | no comparisons: no colour and no line dash; one: it is the colour; two or more: first is colour, second is line dash, and the list is cut to two; 'Period' is put in front |
| TestResults.SelectionComparisons | dsd/pages/test_results.py:74-86 | the list passed on starts with 'Period', has at most three entries, and the rest is a prefix of the user's choice |
| TestResults.SelectionSurvivesDemotion | dsd/pages/test_results.py:58-86 | colour and line dash, when set, are among the comparisons passed on, so colour demotion keeps them |
| TestResults.SelectionDistinct | dsd/pages/test_results.py:74-86 | distinct choices without 'Period' give a comparison list with no repeats and different colour and line-dash dimensions |
| TestResults.TestResultsFilterList | dsd/pages/test_results.py:53-55 | exactly five pairs, on School, Grade, Gender, Race and Ethnicity in that order |
| TestResults.TestResultsFilterMeaning | dsd/pages/test_results.py:53-55 | a record passes the page's filters exactly when each of its five demographic values is among those selected |

## Left out

- Plotting (`px.histogram`), colour maps, palettes, Dash layout and callback registration: these are foreign library calls. The figure is represented by the arguments passed to the plotting call.
- The 'mean' aggregate and any rounding: they are floating point. `AggFunc` has only integer sum and count.
- Debug printing and the `debug` flag: they have no effect on the result.
- Data loading and the module-level DataFrames of both app files: this is I/O.
- `create_pivot_for_charts`, `create_interactive_line_chart_and_table` and `merge_demographics_into_df`, which the test-results page calls: they are not part of this model. The page is modelled up to the arguments it passes them.
- The dropdown values of the page are modelled as lists. A dropdown that yields `None` is not modelled.
- AppFunctions.CreateInteractiveBarChartAndTable: requires that the measure column is not a comparison column. pandas' behaviour when `values` is also in `index` is not part of the model.
- AppFunctions.CreateInteractiveBarChartAndTable: a repeated comparison column is modelled as an error (`DuplicateColumn`). The exact pandas exception and the point where it is raised are not modelled.
- Column-name collisions are not modelled:
  - a comparison column named 'Group' or 'All';
  - a measure named 'Group' or 'column_for_sorting'.

  In the model, 'Group' simply takes precedence when it is read.
- The measure is an unbounded integer. pandas sums an integer measure as int64, which wraps around silently on overflow; `Pivot.Aggregated` and `Pivot.PivotTable` do not model that wrap-around.
- Missing dimension values (NaN, or None from an SQL NULL) are not modelled: every record holds a value for every dimension. pandas' `pivot_table` groups with `dropna=True` and drops rows with a missing key from the pivot, whereas the model counts every row.
- Mixed-type columns: dimension columns hold text and the measure holds integers. Integer-typed dimension columns, as in the integer keys of the grade map, are not modelled.
- The query string is modelled as plain list membership. Quoting and escaping of column names and values are not modelled.
- Ordering.SortBy: only permutation and sortedness are claimed. `sort_values`' default algorithm is not stable, so the relative order of rows with equal sort values is not modelled.
- The initial row order of the pivot is modelled as key-sorted, as pandas' grouping sorts keys by default.
- Unmapped values (NaN after `.map`) sort last, as with `sort_values`' default `na_position`.
- Filtering keeps nothing when a value list is empty. This follows the code. The reading that an empty list leaves the column unfiltered is not followed.
- AppFunctions.CreateInteractiveBarChartAndTable: it uses the corrected empty-map reorder branch. A call with a non-empty reorder_bars_by that names a pivot column and an empty reordering map therefore succeeds in the model, sorted by that column, while the source raises a KeyError for 'reorder_bars_by'.
- AppFunctionsV1.CreateInteractiveBarChartAndTable: it also uses the corrected empty-map reorder branch, so the same input succeeds in the model and raises a KeyError in the source (previous_app_versions/app_functions_and_variables_v1.py:345-348).
- AppFunctions.ShapeTable: when the filters leave no rows, the model returns an empty pivot whose columns still include the measure. pandas' `pivot_table` drops an all-NaN measure column by default (`dropna=True`), which the model does not follow.
- AppFunctions.CreateInteractiveBarChartAndTable: when the filters leave no rows, the model succeeds with an empty table, while the plotting call with `y` set to the measure most likely raises in the source because that column is gone. A `y_value` that names no column of the data (a KeyError in `pivot_table`) is not modelled either: the measure is part of `Dataset` and always exists.
- AppFunctionsV1.CreateInteractiveBarChartAndTable: the same two gaps hold. An empty filtered table succeeds in the model, and a `y_value` naming no column is not modelled.
- AppFunctions.ReorderBars: the empty-map branch is modelled as sorting by the requested column (the evidently intended behaviour). The code as written is `SortByLiteralColumnName`; see Findings.

## Findings

| source | as written | input that shows it | evidently intended | confidence | as-written member | corrected member |
|---|---|---|---|---|---|---|
| dsd/app_functions_and_variables.py:180 | with an empty reordering map the pivot is sorted by the literal column name 'reorder_bars_by', which is not a pivot column, so pandas raises a KeyError | comparison columns ['Grade'], measure 'Students', reorder_bars_by = 'Grade', reordering_map = {} | sort the pivot rows by the column named by the reorder_bars_by argument | high; not executed | AppFunctions.SortByLiteralColumnName, AppFunctions.LiteralSortColumnRaises | AppFunctions.ReorderBars |
