/** `create_interactive_bar_chart_and_table`: filter the dataset, demote a
    colour dimension that is not compared, pivot, label every pivot row with its
    `Group` string, optionally reorder the rows through a rank map, and pick the
    bar mode. The chart itself is represented by the inputs handed to the
    plotting call: the pivot table, the x and y columns, the colour column and
    the bar mode. */
module AppFunctions {
  import opened Frame
  import opened Ordering
  import opened Pivot
  import opened GroupLabel

  const GroupColumn: string := "Group"
  const SortColumn: string := "column_for_sorting"
  const LiteralSortColumn: string := "reorder_bars_by"

  /** A pivot row after `data_source_pivot['Group'] = data_descriptor`. */
  datatype BarRow = BarRow(key: seq<string>, value: int, group: string)

  /** The pivot DataFrame: its column names in order, the index columns, the
      measure column and the rows. */
  datatype BarTable = BarTable(columns: seq<string>, index: seq<string>, measure: string, rows: seq<BarRow>)

  /** What is passed to the histogram call: the data, x = 'Group', y = the
      measure, the colour column and the bar mode. */
  datatype Figure = Figure(data: BarTable, x: string, y: string, color: Option<string>, barMode: string)

  /** The value a row holds in column `c`; 'Group' was assigned last, so it
      takes precedence. */
  function CellAt(t: BarTable, row: BarRow, c: string): Cell {
    if c == GroupColumn then Text(row.group)
    else if c == t.measure then Num(row.value)
    else Text(KeyValue(t.index, row.key, c))
  }

  /** `df[c] = ...` appends a new column or overwrites an existing one in place. */
  function AddColumn(columns: seq<string>, c: string): (r: seq<string>)
    ensures c in r
    ensures forall x :: x in r <==> x in columns || x == c
  {
    if c in columns then columns else columns + [c]
  }

  /** `df.drop(c, axis = 1)`: the column list without `c`, order kept. */
  function Without(columns: seq<string>, c: string): (r: seq<string>)
    ensures c !in r
    ensures forall x :: x in r <==> x in columns && x != c
    ensures c !in columns ==> r == columns
  {
    if |columns| == 0 then []
    else (if columns[0] == c then [] else [columns[0]]) + Without(columns[1..], c)
  }

  // ---------------------------------------------------------------------------
  // Colour demotion and bar mode
  // ---------------------------------------------------------------------------

  /** A colour dimension survives only if it is one of the comparison columns. */
  function DemoteColor(colorValue: Option<string>, comparisonValues: seq<string>): (c: Option<string>)
    ensures c.Some? ==> c == colorValue && c.value in comparisonValues
    ensures c.None? <==> colorValue.None? || colorValue.value !in comparisonValues
  {
    if colorValue.Some? && colorValue.value in comparisonValues then colorValue else None
  }

  /** 'relative' exactly when there is one comparison column, otherwise the
      caller's mode. */
  function SelectedBarMode(comparisonValues: seq<string>, barmode: string): (m: string)
    ensures |comparisonValues| == 1 ==> m == "relative"
    ensures |comparisonValues| != 1 ==> m == barmode
  {
    if |comparisonValues| == 1 then "relative" else barmode
  }

  // ---------------------------------------------------------------------------
  // The pipeline's specification
  // ---------------------------------------------------------------------------

  function FilterSeq(filterList: Option<seq<Filter>>): seq<Filter> {
    if filterList.None? then [] else filterList.value
  }

  predicate FiltersKnown(ds: Dataset, filterList: Option<seq<Filter>>) {
    forall i :: 0 <= i < |FilterSeq(filterList)| ==> HasColumn(ds, FilterSeq(filterList)[i].column)
  }

  /** Filter `i` is the first one whose column the data does not have. */
  predicate FirstUnknownFilter(ds: Dataset, fs: seq<Filter>, i: int) {
    && 0 <= i < |fs|
    && !HasColumn(ds, fs[i].column)
    && forall j :: 0 <= j < i ==> HasColumn(ds, fs[j].column)
  }

  /** Comparison column `i` is the first one the data does not have. */
  predicate FirstUnknownComparison(ds: Dataset, comparisonValues: seq<string>, i: int) {
    && 0 <= i < |comparisonValues|
    && comparisonValues[i] !in ds.dimensions
    && forall j :: 0 <= j < i ==> comparisonValues[j] in ds.dimensions
  }

  predicate ComparisonsKnown(ds: Dataset, comparisonValues: seq<string>) {
    forall i :: 0 <= i < |comparisonValues| ==> comparisonValues[i] in ds.dimensions
  }

  /** The columns of the pivot once 'Group' has been assigned. */
  function PivotColumns(comparisonValues: seq<string>, measure: string): seq<string> {
    AddColumn(PivotIndex(comparisonValues) + [measure], GroupColumn)
  }

  /** The `Group` label of a pivot row with key `key`. */
  function LabelFor(comparisonValues: seq<string>, color: Option<string>, dropColor: bool, key: seq<string>): string
    requires color.Some? ==> color.value in comparisonValues
  {
    if |comparisonValues| == 0 then AllDataValue
    else RowLabel(comparisonValues, key, DescriptorColumns(comparisonValues, color, dropColor))
  }

  /** Pivot rows with their `Group` column. */
  function Labeled(g: seq<Group>, comparisonValues: seq<string>, color: Option<string>, dropColor: bool): (r: seq<BarRow>)
    requires color.Some? ==> color.value in comparisonValues
  {
    seq(|g|, i requires 0 <= i < |g| =>
      BarRow(g[i].key, g[i].value, LabelFor(comparisonValues, color, dropColor, g[i].key)))
  }

  /** The pivot of the filtered rows with the `Group` column, before any reordering. */
  function LabeledPivot(rows: seq<Record>, comparisonValues: seq<string>, agg: AggFunc,
                        color: Option<string>, dropColor: bool): (r: seq<BarRow>)
    requires color.Some? ==> color.value in comparisonValues
  {
    Labeled(PivotTable(rows, comparisonValues, agg), comparisonValues, color, dropColor)
  }

  /** With no comparison columns the pivot has at most one row and its label
      is 'All'. */
  lemma AllDataLabels(rows: seq<Record>, agg: AggFunc, dropColor: bool)
    ensures |LabeledPivot(rows, [], agg, None, dropColor)| <= 1
    ensures forall i :: 0 <= i < |LabeledPivot(rows, [], agg, None, dropColor)| ==>
      LabeledPivot(rows, [], agg, None, dropColor)[i] ==
        BarRow([AllDataValue], Aggregated(rows, [], agg, [AllDataValue]), AllDataValue)
  {
    AllBucket(rows, agg);
  }

  /** When every comparison column is kept in the label (no colour column is
      dropped) and no key value contains a space, different pivot rows get
      different `Group` labels, so no two bars share an x position. */
  lemma {:induction false} LabelsDistinctWithoutDrop(g: seq<Group>, comparisonValues: seq<string>,
                                                    color: Option<string>, dropColor: bool)
    requires |comparisonValues| > 0 && Distinct(comparisonValues)
    requires color.Some? ==> color.value in comparisonValues
    requires !(color.Some? && |comparisonValues| > 1 && dropColor)
    requires StrictlySorted(g)
    requires forall i :: 0 <= i < |g| ==> |g[i].key| == |comparisonValues| && NoSpaces(g[i].key)
    ensures forall i, j :: 0 <= i < j < |g| ==>
      Labeled(g, comparisonValues, color, dropColor)[i].group != Labeled(g, comparisonValues, color, dropColor)[j].group
  {
    var labeled := Labeled(g, comparisonValues, color, dropColor);
    forall k | 0 <= k < |comparisonValues| ensures IndexOf(comparisonValues, comparisonValues[k]) == k {
    }
    forall i, j | 0 <= i < j < |g| ensures labeled[i].group != labeled[j].group {
      KeyLessIrreflexive(g[i].key);
      assert g[i].key != g[j].key;
      assert DescriptorValues(comparisonValues, g[i].key, comparisonValues) == g[i].key;
      assert DescriptorValues(comparisonValues, g[j].key, comparisonValues) == g[j].key;
      SplitJoin(g[i].key);
      SplitJoin(g[j].key);
      assert Split(labeled[i].group) != Split(labeled[j].group);
    }
  }

  function Rank(m: map<Cell, int>, c: Cell): Option<int> {
    if c in m then Some(m[c]) else None
  }

  /** Order of `sort_values` on a mapped column: ascending, unmapped (NaN) last. */
  function RankLe(a: Option<int>, b: Option<int>): bool {
    b.None? || (a.Some? && a.value <= b.value)
  }

  /** Natural ascending order of a column's values (a column holds one kind). */
  function CellLe(a: Cell, b: Cell): bool {
    match (a, b)
    case (Num(x), Num(y)) => x <= y
    case (Text(x), Text(y)) => !StrLess(y, x)
    case (Num(_), Text(_)) => true
    case (Text(_), Num(_)) => false
  }

  /** Rows in non-decreasing mapped rank of column `c`, unmapped values last. */
  ghost predicate RankSorted(t: BarTable, rows: seq<BarRow>, c: string, m: map<Cell, int>) {
    Sorted(rows, RankOrder(t, c, m))
  }

  /** Rows in the natural ascending order of column `c`. */
  ghost predicate NaturallySorted(t: BarTable, rows: seq<BarRow>, c: string) {
    Sorted(rows, NaturalLe(t, c))
  }

  /** The reordering guard: a non-empty column name that is a pivot column. */
  predicate Reorders(columns: seq<string>, reorderBarsBy: string) {
    reorderBarsBy != "" && reorderBarsBy in columns
  }

  /** The pivot table after labelling and the optional reordering, for the
      filtered `rows` and the already demoted colour. */
  ghost predicate ShapedTable(rows: seq<Record>, comparisonValues: seq<string>, agg: AggFunc,
                              color: Option<string>, dropColor: bool, measure: string,
                              reorderBarsBy: string, reorderingMap: map<Cell, int>, t: BarTable)
    requires color.Some? ==> color.value in comparisonValues
  {
    var expected := LabeledPivot(rows, comparisonValues, agg, color, dropColor);
    var columns := PivotColumns(comparisonValues, measure);
    && t.index == PivotIndex(comparisonValues) && t.measure == measure
    && multiset(t.rows) == multiset(expected)
    && (!Reorders(columns, reorderBarsBy) ==> t.rows == expected && t.columns == columns)
    && (Reorders(columns, reorderBarsBy) && |reorderingMap| == 0 ==>
          t.columns == columns && NaturallySorted(t, t.rows, reorderBarsBy))
    && (Reorders(columns, reorderBarsBy) && |reorderingMap| > 0 ==>
          && t.columns == Without(columns, SortColumn)
          && (SortColumn !in columns ==> t.columns == columns)
          && RankSorted(t, t.rows, reorderBarsBy, reorderingMap))
  }

  /** Everything the routine promises about a figure it returns. */
  ghost predicate BarFigure(ds: Dataset, comparisonValues: seq<string>, agg: AggFunc,
                            filterList: Option<seq<Filter>>, colorValue: Option<string>,
                            barmode: string, dropColor: bool, reorderBarsBy: string,
                            reorderingMap: map<Cell, int>, fig: Figure)
  {
    var color := DemoteColor(colorValue, comparisonValues);
    && fig.x == GroupColumn && fig.y == ds.measure
    && fig.color == color
    && fig.barMode == SelectedBarMode(comparisonValues, barmode)
    && ShapedTable(Select(ds, ds.rows, FilterSeq(filterList)), comparisonValues, agg, color, dropColor,
                   ds.measure, reorderBarsBy, reorderingMap, fig.data)
  }

  // ---------------------------------------------------------------------------
  // Orders used by the reordering step
  // ---------------------------------------------------------------------------

  lemma CellLeTotal(a: Cell, b: Cell)
    ensures CellLe(a, b) || CellLe(b, a)
  {
    if a.Text? && b.Text? {
      StrLessStrictTotal();
    }
  }

  lemma CellLeTransitive(a: Cell, b: Cell, c: Cell)
    requires CellLe(a, b) && CellLe(b, c)
    ensures CellLe(a, c)
  {
    if a.Text? && b.Text? && c.Text? {
      StrLessStrictTotal();
      assert !StrLess(c.text, a.text) by {
        if a.text != b.text && b.text != c.text {
          assert StrLess(a.text, b.text) && StrLess(b.text, c.text);
        }
      }
    }
  }

  /** Rows compared by their natural value in column `c`. */
  function NaturalLe(t: BarTable, c: string): (BarRow, BarRow) -> bool {
    (a: BarRow, b: BarRow) => CellLe(CellAt(t, a, c), CellAt(t, b, c))
  }

  /** Rows compared by the rank their value in column `c` gets from `m`. */
  function RankOrder(t: BarTable, c: string, m: map<Cell, int>): (BarRow, BarRow) -> bool {
    (a: BarRow, b: BarRow) => RankLe(Rank(m, CellAt(t, a, c)), Rank(m, CellAt(t, b, c)))
  }

  lemma NaturalLePreorder(t: BarTable, c: string)
    ensures TotalPreorder(NaturalLe(t, c))
  {
    var le := NaturalLe(t, c);
    forall a, b ensures le(a, b) || le(b, a) {
      CellLeTotal(CellAt(t, a, c), CellAt(t, b, c));
    }
    forall a, b, d | le(a, b) && le(b, d) ensures le(a, d) {
      CellLeTransitive(CellAt(t, a, c), CellAt(t, b, c), CellAt(t, d, c));
    }
  }

  lemma RankOrderPreorder(t: BarTable, c: string, m: map<Cell, int>)
    ensures TotalPreorder(RankOrder(t, c, m))
  {
  }

  /** Sorting with NaturalLe gives a naturally sorted table, read through any
      table with the same index and measure. */
  lemma NaturalLeSorted(t: BarTable, r: BarTable, c: string)
    requires r.index == t.index && r.measure == t.measure
    requires Sorted(r.rows, NaturalLe(t, c))
    ensures NaturallySorted(r, r.rows, c)
  {
    forall i, j | 0 <= i < j < |r.rows| ensures CellLe(CellAt(r, r.rows[i], c), CellAt(r, r.rows[j], c)) {
      assert NaturalLe(t, c)(r.rows[i], r.rows[j]);
    }
  }

  /** Sorting with RankOrder gives a rank-sorted table, read through any table
      with the same index and measure. */
  lemma RankOrderSorted(t: BarTable, r: BarTable, c: string, m: map<Cell, int>)
    requires r.index == t.index && r.measure == t.measure
    requires Sorted(r.rows, RankOrder(t, c, m))
    ensures RankSorted(r, r.rows, c, m)
  {
    forall i, j | 0 <= i < j < |r.rows|
      ensures RankLe(Rank(m, CellAt(r, r.rows[i], c)), Rank(m, CellAt(r, r.rows[j], c)))
    {
      assert RankOrder(t, c, m)(r.rows[i], r.rows[j]);
    }
  }

  // ---------------------------------------------------------------------------
  // The steps, imperatively
  // ---------------------------------------------------------------------------

  /** The filter loop: each `(column, values)` pair narrows the copy in place
      with `query(f"{column} in {values}", inplace = True)`. A `None` filter list
      leaves the data as it is. */
  method FilterData(source: Dataset, filterList: Option<seq<Filter>>) returns (r: Result<seq<Record>>)
    ensures r.Ok? <==> FiltersKnown(source, filterList)
    ensures r.Err? ==> && r.error.UndefinedColumn?
                       && exists i :: FirstUnknownFilter(source, FilterSeq(filterList), i)
                                      && FilterSeq(filterList)[i].column == r.error.name
    ensures r.Ok? ==> r.value == Select(source, source.rows, FilterSeq(filterList))
  {
    var fs := FilterSeq(filterList);
    var rows := source.rows;
    SelectNoFilters(source, source.rows);
    assert fs[..0] == [];
    var i := 0;
    while i < |fs|
      invariant 0 <= i <= |fs|
      invariant forall j :: 0 <= j < i ==> HasColumn(source, fs[j].column)
      invariant rows == Select(source, source.rows, fs[..i])
    {
      if !HasColumn(source, fs[i].column) {
        assert FirstUnknownFilter(source, fs, i);
        return Err(UndefinedColumn(fs[i].column));
      }
      SelectStep(source, source.rows, fs[..i], fs[i]);
      assert fs[..i + 1] == fs[..i] + [fs[i]];
      rows := Select(source, rows, [fs[i]]);
      i := i + 1;
    }
    assert fs[..|fs|] == fs;
    return Ok(rows);
  }

  /** The label loop: start from the first descriptor column and append
      ' ' + the next column's value, one column at a time. */
  method BuildGroupColumn(groups: seq<Group>, index: seq<string>, desc: seq<string>) returns (labels: seq<string>)
    requires |desc| > 0
    ensures |labels| == |groups|
    ensures forall i :: 0 <= i < |groups| ==> labels[i] == RowLabel(index, groups[i].key, desc)
  {
    labels := seq(|groups|, i requires 0 <= i < |groups| => KeyValue(index, groups[i].key, desc[0]));
    var k := 1;
    while k < |desc|
      invariant 1 <= k <= |desc|
      invariant |labels| == |groups|
      invariant forall i :: 0 <= i < |groups| ==> labels[i] == Join(DescriptorValues(index, groups[i].key, desc[..k]))
    {
      var next := seq(|groups|, i requires 0 <= i < |groups| && |labels| == |groups| =>
        labels[i] + " " + KeyValue(index, groups[i].key, desc[k]));
      forall i | 0 <= i < |groups|
        ensures next[i] == Join(DescriptorValues(index, groups[i].key, desc[..k + 1]))
      {
        JoinStep(index, groups[i].key, desc, k);
      }
      labels := next;
      k := k + 1;
    }
    assert desc[..|desc|] == desc;
  }

  /** One turn of the label loop appends ' ' and the next descriptor's value. */
  lemma JoinStep(index: seq<string>, key: seq<string>, desc: seq<string>, k: nat)
    requires 1 <= k < |desc|
    ensures Join(DescriptorValues(index, key, desc[..k + 1]))
            == Join(DescriptorValues(index, key, desc[..k])) + " " + KeyValue(index, key, desc[k])
  {
    var vs := DescriptorValues(index, key, desc[..k + 1]);
    var ws := DescriptorValues(index, key, desc[..k]);
    assert |vs| == k + 1 && |ws| == k;
    assert vs[k] == KeyValue(index, key, desc[k]);
    assert vs[..k] == ws by {
      forall j | 0 <= j < k ensures vs[j] == ws[j] {
        assert desc[..k + 1][j] == desc[..k][j];
      }
    }
    assert Join(vs) == Join(vs[..k]) + " " + vs[k];
  }

  /** `data_source_pivot['Group'] = data_descriptor`: the constant 'All' with
      no comparison columns, otherwise the label loop over the descriptor columns. */
  method LabelRows(groups: seq<Group>, comparisonValues: seq<string>, color: Option<string>, dropColor: bool)
    returns (rows: seq<BarRow>)
    requires color.Some? ==> color.value in comparisonValues
    ensures rows == Labeled(groups, comparisonValues, color, dropColor)
  {
    var labels: seq<string>;
    if |comparisonValues| == 0 {
      labels := seq(|groups|, i => AllDataValue);
    } else {
      var desc := DescriptorColumns(comparisonValues, color, dropColor);
      labels := BuildGroupColumn(groups, comparisonValues, desc);
    }
    rows := seq(|groups|, i requires 0 <= i < |groups| => BarRow(groups[i].key, groups[i].value, labels[i]));
  }

  /** The reordering step (the corrected form of its empty-map branch, see
      SortByLiteralColumnName): with a rank map, a temporary rank column is
      added, the rows are sorted by it (unmapped values last) and the column is
      dropped; with an empty map the rows are sorted by the column's own values. */
  method ReorderBars(t: BarTable, reorderBarsBy: string, reorderingMap: map<Cell, int>) returns (r: BarTable)
    ensures r.index == t.index && r.measure == t.measure
    ensures multiset(r.rows) == multiset(t.rows)
    ensures !Reorders(t.columns, reorderBarsBy) ==> r == t
    ensures Reorders(t.columns, reorderBarsBy) && |reorderingMap| == 0 ==>
      r.columns == t.columns && NaturallySorted(r, r.rows, reorderBarsBy)
    ensures Reorders(t.columns, reorderBarsBy) && |reorderingMap| > 0 ==>
      && r.columns == Without(t.columns, SortColumn)
      && (SortColumn !in t.columns ==> r.columns == t.columns)
      && RankSorted(r, r.rows, reorderBarsBy, reorderingMap)
  {
    r := t;
    if reorderBarsBy != "" && reorderBarsBy in t.columns {
      if |reorderingMap| == 0 {
        NaturalLePreorder(t, reorderBarsBy);
        SortByCorrect(t.rows, NaturalLe(t, reorderBarsBy));
        r := t.(rows := SortBy(t.rows, NaturalLe(t, reorderBarsBy)));
        NaturalLeSorted(t, r, reorderBarsBy);
      } else {
        var columns := AddColumn(t.columns, SortColumn);
        RankOrderPreorder(t, reorderBarsBy, reorderingMap);
        SortByCorrect(t.rows, RankOrder(t, reorderBarsBy, reorderingMap));
        var rows := SortBy(t.rows, RankOrder(t, reorderBarsBy, reorderingMap));
        columns := Without(columns, SortColumn);
        WithoutAdded(t.columns, SortColumn);
        r := t.(columns := columns, rows := rows);
        RankOrderSorted(t, r, reorderBarsBy, reorderingMap);
      }
    }
  }

  /** The empty-map branch as the code has it: `sort_values` is given the
      literal column name 'reorder_bars_by' instead of the argument's value, so
      it raises a KeyError unless the pivot happens to have a column with that
      very name; the column the caller asked for plays no part. */
  function SortByLiteralColumnName(t: BarTable, reorderBarsBy: string): (r: Result<BarTable>)
    ensures r.Err? <==> LiteralSortColumn !in t.columns
    ensures r.Err? ==> r.error == KeyError(LiteralSortColumn)
    ensures r.Ok? ==> r.value.columns == t.columns && multiset(r.value.rows) == multiset(t.rows)
                      && NaturallySorted(r.value, r.value.rows, LiteralSortColumn)
  {
    if LiteralSortColumn !in t.columns then Err(KeyError(LiteralSortColumn))
    else
      var le := NaturalLe(t, LiteralSortColumn);
      NaturalLePreorder(t, LiteralSortColumn);
      SortByCorrect(t.rows, le);
      NaturalLeSorted(t, t.(rows := SortBy(t.rows, le)), LiteralSortColumn);
      Ok(t.(rows := SortBy(t.rows, le)))
  }

  /** The usual call: a grade pivot reordered by 'Grade' with an empty map.
      The guard lets the request through, the code as written raises a
      KeyError, and the corrected step (ReorderBars) sorts by 'Grade'. */
  lemma LiteralSortColumnRaises(rows: seq<BarRow>)
    ensures Reorders(PivotColumns(["Grade"], "Students"), "Grade")
    ensures SortByLiteralColumnName(BarTable(PivotColumns(["Grade"], "Students"), ["Grade"], "Students", rows), "Grade")
            == Err(KeyError(LiteralSortColumn))
  {
    var columns := PivotColumns(["Grade"], "Students");
    assert columns == ["Grade", "Students", GroupColumn];
    assert columns[0] == "Grade";
    assert LiteralSortColumn !in columns by {
      assert LiteralSortColumn != "Grade" && LiteralSortColumn != "Students" && LiteralSortColumn != GroupColumn;
    }
  }

  /** Adding a column and then dropping it leaves the other columns as they were. */
  lemma {:induction false} WithoutAdded(columns: seq<string>, c: string)
    ensures Without(AddColumn(columns, c), c) == Without(columns, c)
    ensures c !in columns ==> Without(AddColumn(columns, c), c) == columns
  {
    if c !in columns {
      WithoutAppend(columns, c);
    }
  }

  lemma {:induction false} WithoutAppend(columns: seq<string>, c: string)
    ensures Without(columns + [c], c) == Without(columns, c)
  {
    if |columns| > 0 {
      assert (columns + [c])[1..] == columns[1..] + [c];
      WithoutAppend(columns[1..], c);
    } else {
      assert Without([c], c) == [] + Without([], c);
    }
  }

  // ---------------------------------------------------------------------------
  // The routine
  // ---------------------------------------------------------------------------

  /** Pivot, label and reorder the filtered rows. */
  method ShapeTable(rows: seq<Record>, comparisonValues: seq<string>, agg: AggFunc,
                    color: Option<string>, dropColor: bool, measure: string,
                    reorderBarsBy: string, reorderingMap: map<Cell, int>) returns (t: BarTable)
    requires color.Some? ==> color.value in comparisonValues
    ensures ShapedTable(rows, comparisonValues, agg, color, dropColor, measure, reorderBarsBy, reorderingMap, t)
  {
    var groups := PivotTable(rows, comparisonValues, agg);
    var barRows := LabelRows(groups, comparisonValues, color, dropColor);
    assert barRows == LabeledPivot(rows, comparisonValues, agg, color, dropColor);
    var t0 := BarTable(PivotColumns(comparisonValues, measure), PivotIndex(comparisonValues), measure, barRows);
    t := ReorderBars(t0, reorderBarsBy, reorderingMap);
  }

  /** The current copy returns only the figure. */
  method CreateInteractiveBarChartAndTable(
    originalDataSource: Dataset, comparisonValues: seq<string>, pivotAggfunc: AggFunc,
    filterList: Option<seq<Filter>> := None, colorValue: Option<string> := None,
    barmode: string := "group", dropColorValueFromXVals: bool := true,
    reorderBarsBy: string := "", reorderingMap: map<Cell, int> := map[])
    returns (r: Result<Figure>)
    requires WellFormed(originalDataSource)
    requires originalDataSource.measure !in comparisonValues
    ensures r.Ok? <==> FiltersKnown(originalDataSource, filterList)
                       && ComparisonsKnown(originalDataSource, comparisonValues)
                       && Distinct(comparisonValues)
    ensures r.Err? && !FiltersKnown(originalDataSource, filterList) ==>
      && r.error.UndefinedColumn?
      && exists i :: FirstUnknownFilter(originalDataSource, FilterSeq(filterList), i)
                     && FilterSeq(filterList)[i].column == r.error.name
    ensures r.Err? && FiltersKnown(originalDataSource, filterList) ==>
      if ComparisonsKnown(originalDataSource, comparisonValues)
      then r.error.DuplicateColumn? && r.error.name in comparisonValues
      else && r.error.KeyError?
           && exists i :: FirstUnknownComparison(originalDataSource, comparisonValues, i)
                          && comparisonValues[i] == r.error.name
    ensures r.Ok? ==> BarFigure(originalDataSource, comparisonValues, pivotAggfunc, filterList, colorValue,
                                barmode, dropColorValueFromXVals, reorderBarsBy, reorderingMap, r.value)
  {
    var filtered := FilterData(originalDataSource, filterList);
    if filtered.Err? {
      return Err(filtered.error);
    }

    var color := DemoteColor(colorValue, comparisonValues);

    if !ComparisonsKnown(originalDataSource, comparisonValues) {
      var i := 0;
      while comparisonValues[i] in originalDataSource.dimensions
        invariant 0 <= i < |comparisonValues|
        invariant forall j :: 0 <= j < i ==> comparisonValues[j] in originalDataSource.dimensions
        decreases |comparisonValues| - i
      {
        i := i + 1;
      }
      assert FirstUnknownComparison(originalDataSource, comparisonValues, i);
      return Err(KeyError(comparisonValues[i]));
    }
    if !Distinct(comparisonValues) {
      var i, j :| 0 <= i < j < |comparisonValues| && comparisonValues[i] == comparisonValues[j];
      return Err(DuplicateColumn(comparisonValues[j]));
    }
    var table := ShapeTable(filtered.value, comparisonValues, pivotAggfunc, color, dropColorValueFromXVals,
                            originalDataSource.measure, reorderBarsBy, reorderingMap);
    var selectedBarmode := SelectedBarMode(comparisonValues, barmode);
    return Ok(Figure(table, GroupColumn, originalDataSource.measure, color, selectedBarmode));
  }
}
