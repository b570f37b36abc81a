/** The test-results page callback: it turns the five filter dropdowns into a
    filter list and picks the colour and line-dash dimensions from the user's
    comparison choices. 'Period' is always put first so that the line chart
    can show change over time. */
module TestResults {
  import opened Frame
  import opened GroupLabel
  import opened AppFunctions

  const PeriodColumn: string := "Period"

  /** The colour and line-dash dimensions and the comparison list passed on
      (the same list goes to the pivot call and to the chart call). */
  datatype Selection = Selection(color: Option<string>, lineDash: Option<string>, comparisons: seq<string>)

  /** The branches on the number of chosen comparisons: none gives no colour and
      no line dash; one gives it as the colour; two or more give the first as
      the colour and the second as the line dash, and the rest are dropped. */
  function UpdateGraphSelection(enrollmentComparisons: seq<string>): (s: Selection)
    ensures |enrollmentComparisons| == 0 ==> s.color.None? && s.lineDash.None?
    ensures |enrollmentComparisons| == 1 ==> s.color == Some(enrollmentComparisons[0]) && s.lineDash.None?
    ensures |enrollmentComparisons| >= 2 ==>
      s.color == Some(enrollmentComparisons[0]) && s.lineDash == Some(enrollmentComparisons[1])
    ensures s.comparisons == [PeriodColumn] + enrollmentComparisons[..if |enrollmentComparisons| < 2 then |enrollmentComparisons| else 2]
  {
    if |enrollmentComparisons| == 0 then
      Selection(None, None, [PeriodColumn])
    else if |enrollmentComparisons| == 1 then
      Selection(Some(enrollmentComparisons[0]), None, [PeriodColumn] + enrollmentComparisons)
    else
      Selection(Some(enrollmentComparisons[0]), Some(enrollmentComparisons[1]),
                [PeriodColumn] + enrollmentComparisons[0..2])
  }

  /** The list passed on starts with 'Period', holds at most two chosen
      comparisons, and those are the first ones chosen, in order. */
  lemma SelectionComparisons(enrollmentComparisons: seq<string>)
    ensures var s := UpdateGraphSelection(enrollmentComparisons);
      && 1 <= |s.comparisons| <= 3
      && s.comparisons[0] == PeriodColumn
      && s.comparisons[1..] <= enrollmentComparisons
      && |s.comparisons| == 1 + (if |enrollmentComparisons| < 2 then |enrollmentComparisons| else 2)
  {
  }

  /** The colour and line-dash dimensions are always among the comparisons
      passed on, so the colour demotion in the chart routine keeps the colour. */
  lemma SelectionSurvivesDemotion(enrollmentComparisons: seq<string>)
    ensures var s := UpdateGraphSelection(enrollmentComparisons);
      && (s.color.Some? ==> s.color.value in s.comparisons)
      && (s.lineDash.Some? ==> s.lineDash.value in s.comparisons)
      && DemoteColor(s.color, s.comparisons) == s.color
      && DemoteColor(s.lineDash, s.comparisons) == s.lineDash
  {
    var s := UpdateGraphSelection(enrollmentComparisons);
    if |enrollmentComparisons| >= 1 {
      assert s.comparisons[1] == enrollmentComparisons[0];
    }
    if |enrollmentComparisons| >= 2 {
      assert s.comparisons[2] == enrollmentComparisons[1];
    }
  }

  /** Colour and line dash are different dimensions whenever the chosen
      comparisons are distinct, and the list passed on has no repeated column
      (the pivot cannot insert a column twice) as long as 'Period' was not
      chosen again. */
  lemma {:induction false} SelectionDistinct(enrollmentComparisons: seq<string>)
    requires Distinct(enrollmentComparisons)
    requires PeriodColumn !in enrollmentComparisons
    ensures var s := UpdateGraphSelection(enrollmentComparisons);
      && Distinct(s.comparisons)
      && (s.color.Some? && s.lineDash.Some? ==> s.color != s.lineDash)
  {
    var s := UpdateGraphSelection(enrollmentComparisons);
    forall i, j | 0 <= i < j < |s.comparisons| ensures s.comparisons[i] != s.comparisons[j] {
      assert s.comparisons[j] == enrollmentComparisons[j - 1];
      if i > 0 {
        assert s.comparisons[i] == enrollmentComparisons[i - 1];
      }
    }
  }

  /** The five `(column, values)` pairs, in the fixed order School, Grade,
      Gender, Race, Ethnicity. */
  function TestResultsFilterList(school: seq<Cell>, grade: seq<Cell>, gender: seq<Cell>,
                                 race: seq<Cell>, ethnicity: seq<Cell>): (fs: seq<Filter>)
    ensures |fs| == 5
    ensures fs[0].column == "School" && fs[1].column == "Grade" && fs[2].column == "Gender"
    ensures fs[3].column == "Race" && fs[4].column == "Ethnicity"
  {
    [Filter("School", school), Filter("Grade", grade), Filter("Gender", gender),
     Filter("Race", race), Filter("Ethnicity", ethnicity)]
  }

  /** A record passes the page's filters exactly when each of its five
      demographic values is among the ones selected for it. */
  lemma TestResultsFilterMeaning(ds: Dataset, r: Record, school: seq<Cell>, grade: seq<Cell>,
                                 gender: seq<Cell>, race: seq<Cell>, ethnicity: seq<Cell>)
    ensures PassesAll(ds, r, TestResultsFilterList(school, grade, gender, race, ethnicity)) <==>
      && ColumnValue(ds, r, "School") in school
      && ColumnValue(ds, r, "Grade") in grade
      && ColumnValue(ds, r, "Gender") in gender
      && ColumnValue(ds, r, "Race") in race
      && ColumnValue(ds, r, "Ethnicity") in ethnicity
  {
    var fs := TestResultsFilterList(school, grade, gender, race, ethnicity);
    if Matches(ds, r, fs[0]) && Matches(ds, r, fs[1]) && Matches(ds, r, fs[2])
       && Matches(ds, r, fs[3]) && Matches(ds, r, fs[4]) {
      forall i | 0 <= i < |fs| ensures Matches(ds, r, fs[i]) {
      }
    }
  }
}
