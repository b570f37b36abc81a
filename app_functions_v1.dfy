/** The earlier version of `create_interactive_bar_chart_and_table`. It runs the
    same pipeline and also returns the final pivot as a list of records
    (`to_dict('records')`). It also holds the grade rank map that puts
    kindergarten first and grade 12 last. */
module AppFunctionsV1 {
  import opened Frame
  import opened GroupLabel
  import opened AppFunctions

  /** `grade_reordering_map`: 'K' is 0, and each grade 1..12 maps to its own
      number, both as text and as an integer. */
  const GradeReorderingMap: map<Cell, int> :=
    map[Text("K") := 0,
        Text("1") := 1, Text("2") := 2, Text("3") := 3, Text("4") := 4,
        Text("5") := 5, Text("6") := 6, Text("7") := 7, Text("8") := 8,
        Text("9") := 9, Text("10") := 10, Text("11") := 11, Text("12") := 12,
        Num(1) := 1, Num(2) := 2, Num(3) := 3, Num(4) := 4, Num(5) := 5, Num(6) := 6,
        Num(7) := 7, Num(8) := 8, Num(9) := 9, Num(10) := 10, Num(11) := 11, Num(12) := 12]

  function GradeText(n: nat): string
    requires 1 <= n <= 12
  {
    ["1", "2", "3", "4", "5", "6", "7", "8", "9", "10", "11", "12"][n - 1]
  }

  /** Every grade gets its own rank: 'K' ranks 0, and grade n ranks n whether
      it is stored as text or as a number. */
  lemma GradeRanks(n: nat)
    requires 1 <= n <= 12
    ensures Rank(GradeReorderingMap, Text("K")) == Some(0)
    ensures Rank(GradeReorderingMap, Text(GradeText(n))) == Some(n)
    ensures Rank(GradeReorderingMap, Num(n)) == Some(n)
  {
  }

  /** Ranks run from 0 to 12. */
  lemma GradeRankBounds()
    ensures forall c :: c in GradeReorderingMap ==> 0 <= GradeReorderingMap[c] <= 12
  {
  }

  /** Only kindergarten has the lowest rank. */
  lemma LowestRankIsKindergarten()
    ensures forall c :: c in GradeReorderingMap && GradeReorderingMap[c] == 0 ==> c == Text("K")
  {
  }

  /** Only grade 12, as text or as a number, has the highest rank. */
  lemma HighestRankIsTwelfthGrade()
    ensures forall c :: c in GradeReorderingMap && GradeReorderingMap[c] == 12 ==> c == Text("12") || c == Num(12)
  {
  }

  /** Once the rows are sorted by the grade map, a kindergarten row, if any,
      comes first. */
  lemma KindergartenFirst(t: BarTable, rows: seq<BarRow>, c: string, k: nat)
    requires RankSorted(t, rows, c, GradeReorderingMap)
    requires k < |rows| && CellAt(t, rows[k], c) == Text("K")
    ensures CellAt(t, rows[0], c) == Text("K")
  {
    GradeRankBounds();
    LowestRankIsKindergarten();
    if k > 0 {
      assert RankLe(Rank(GradeReorderingMap, CellAt(t, rows[0], c)), Rank(GradeReorderingMap, CellAt(t, rows[k], c)));
    }
  }

  /** Once the rows are sorted by the grade map and every value is a grade, a
      grade-12 row, if any, comes last. */
  lemma TwelfthGradeLast(t: BarTable, rows: seq<BarRow>, c: string, k: nat)
    requires RankSorted(t, rows, c, GradeReorderingMap)
    requires forall i :: 0 <= i < |rows| ==> CellAt(t, rows[i], c) in GradeReorderingMap
    requires k < |rows| && CellAt(t, rows[k], c) == Text("12")
    ensures CellAt(t, rows[|rows| - 1], c) in {Text("12"), Num(12)}
  {
    GradeRankBounds();
    HighestRankIsTwelfthGrade();
    var last := |rows| - 1;
    if k < last {
      assert RankLe(Rank(GradeReorderingMap, CellAt(t, rows[k], c)), Rank(GradeReorderingMap, CellAt(t, rows[last], c)));
    }
  }

  /** `to_dict('records')`: one record per row, in row order, mapping each
      column of the table to the row's value in it. */
  function Records(t: BarTable): (rs: seq<map<string, Cell>>)
    ensures |rs| == |t.rows|
    ensures forall i :: 0 <= i < |rs| ==> rs[i].Keys == set c | c in t.columns
  {
    seq(|t.rows|, i requires 0 <= i < |t.rows| => map c | c in t.columns :: CellAt(t, t.rows[i], c))
  }

  /** The earlier copy returns the figure and the table data. */
  method CreateInteractiveBarChartAndTable(
    originalDataSource: Dataset, comparisonValues: seq<string>, pivotAggfunc: Pivot.AggFunc,
    filterList: Option<seq<Filter>> := None, colorValue: Option<string> := None,
    barmode: string := "group", dropColorValueFromXVals: bool := true,
    reorderBarsBy: string := "", reorderingMap: map<Cell, int> := map[])
    returns (r: Result<(Figure, seq<map<string, Cell>>)>)
    requires WellFormed(originalDataSource)
    requires originalDataSource.measure !in comparisonValues
    ensures r.Ok? <==> FiltersKnown(originalDataSource, filterList)
                       && ComparisonsKnown(originalDataSource, comparisonValues)
                       && Distinct(comparisonValues)
    ensures r.Ok? ==> BarFigure(originalDataSource, comparisonValues, pivotAggfunc, filterList, colorValue,
                                barmode, dropColorValueFromXVals, reorderBarsBy, reorderingMap, r.value.0)
    ensures r.Ok? ==> r.value.1 == Records(r.value.0.data)
    ensures r.Ok? ==>
      var (fig, tableData) := r.value;
      && |tableData| == |fig.data.rows|
      && (forall i :: 0 <= i < |tableData| ==>
            && GroupColumn in tableData[i]
            && tableData[i][GroupColumn] == Text(fig.data.rows[i].group)
            && (fig.y != GroupColumn && fig.y != SortColumn ==>
                  fig.y in tableData[i] && tableData[i][fig.y] == Num(fig.data.rows[i].value)))
      && (Reorders(PivotColumns(comparisonValues, originalDataSource.measure), reorderBarsBy)
          && |reorderingMap| > 0 ==>
            forall i :: 0 <= i < |tableData| ==> SortColumn !in tableData[i])
  {
    var figure := AppFunctions.CreateInteractiveBarChartAndTable(
      originalDataSource, comparisonValues, pivotAggfunc, filterList, colorValue, barmode,
      dropColorValueFromXVals, reorderBarsBy, reorderingMap);
    if figure.Err? {
      return Err(figure.error);
    }
    var fig := figure.value;
    var columns := PivotColumns(comparisonValues, originalDataSource.measure);
    assert fig.y in columns by {
      assert fig.y in Pivot.PivotIndex(comparisonValues) + [fig.y];
    }
    assert GroupColumn in fig.data.columns;
    assert fig.y != GroupColumn && fig.y != SortColumn ==> fig.y in fig.data.columns;
    var tableData := Records(fig.data);
    return Ok((fig, tableData));
  }
}
