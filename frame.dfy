/** The tabular data the dashboard works on: a dataset of records with string
    dimension columns (School, Grade, Gender, ...) and one integer measure
    column (Students, Score), the filter pairs applied to it, and the error
    kinds pandas raises on the paths the core can reach. */
module Frame {

  datatype Option<T> = None | Some(value: T)

  datatype Error =
    | UndefinedColumn(name: string)   // `query` names a column the data does not have
    | KeyError(name: string)          // a pivot index or sort column that does not exist
    | DuplicateColumn(name: string)   // `reset_index` cannot insert a column twice

  datatype Result<T> = Ok(value: T) | Err(error: Error)

  /** One cell: dimension columns hold text, the measure column holds integers.
      The grade rank map is keyed by both kinds. */
  datatype Cell = Text(text: string) | Num(num: int)

  datatype Record = Record(dims: map<string, string>, value: int)

  /** A DataFrame as the core sees it: named dimension columns, the name of the
      measure column (the `y_value`), and the rows in their original order. */
  datatype Dataset = Dataset(dimensions: seq<string>, measure: string, rows: seq<Record>)

  /** Every row has a value for every dimension column, and the measure is not
      also a dimension: the DataFrame is rectangular. */
  predicate WellFormed(ds: Dataset) {
    && ds.measure !in ds.dimensions
    && forall r, c :: r in ds.rows && c in ds.dimensions ==> c in r.dims
  }

  predicate HasColumn(ds: Dataset, c: string) {
    c == ds.measure || c in ds.dimensions
  }

  function ColumnValue(ds: Dataset, r: Record, c: string): Cell {
    if c == ds.measure then Num(r.value)
    else if c in r.dims then Text(r.dims[c])
    else Text("")
  }

  /** One `(column, values)` pair of a filter list; a row is kept when its value
      in `column` is one of `values`. */
  datatype Filter = Filter(column: string, values: seq<Cell>)

  predicate Matches(ds: Dataset, r: Record, f: Filter) {
    ColumnValue(ds, r, f.column) in f.values
  }

  predicate PassesAll(ds: Dataset, r: Record, fs: seq<Filter>) {
    forall i :: 0 <= i < |fs| ==> Matches(ds, r, fs[i])
  }

  /** The rows that pass every filter, in their original order. */
  function Select(ds: Dataset, rows: seq<Record>, fs: seq<Filter>): (r: seq<Record>)
    ensures |r| <= |rows|
  {
    if |rows| == 0 then []
    else (if PassesAll(ds, rows[0], fs) then [rows[0]] else []) + Select(ds, rows[1..], fs)
  }

  /** A row survives the filters exactly when it is one of the input rows and
      its value in every filtered column is among that filter's values. */
  lemma {:induction false} SelectMembers(ds: Dataset, rows: seq<Record>, fs: seq<Filter>, x: Record)
    ensures x in Select(ds, rows, fs) <==> x in rows && PassesAll(ds, x, fs)
  {
    if |rows| > 0 {
      SelectMembers(ds, rows[1..], fs, x);
      assert rows == [rows[0]] + rows[1..];
    }
  }

  /** Applying the filters one after another, as the query loop does, is the
      same as keeping the rows that pass all of them at once. */
  lemma {:induction false} SelectStep(ds: Dataset, rows: seq<Record>, fs: seq<Filter>, f: Filter)
    ensures Select(ds, Select(ds, rows, fs), [f]) == Select(ds, rows, fs + [f])
  {
    if |rows| > 0 {
      SelectStep(ds, rows[1..], fs, f);
      var x := rows[0];
      assert PassesAll(ds, x, fs + [f]) <==> PassesAll(ds, x, fs) && Matches(ds, x, f) by {
        assert (fs + [f])[|fs|] == f;
        assert forall i :: 0 <= i < |fs| ==> (fs + [f])[i] == fs[i];
      }
      var head := if PassesAll(ds, x, fs) then [x] else [];
      var s := Select(ds, rows[1..], fs);
      assert Select(ds, rows, fs) == head + s;
      if PassesAll(ds, x, fs) {
        assert (head + s)[1..] == s;
      } else {
        assert head + s == s;
      }
    }
  }

  /** An empty filter list keeps every row, in order. */
  lemma {:induction false} SelectNoFilters(ds: Dataset, rows: seq<Record>)
    ensures Select(ds, rows, []) == rows
  {
    if |rows| > 0 {
      SelectNoFilters(ds, rows[1..]);
      assert rows == [rows[0]] + rows[1..];
    }
  }

  /** There is no special case for an empty value list: `column in []` holds of
      no row, so such a filter keeps nothing. */
  lemma {:induction false} EmptyValueListKeepsNothing(ds: Dataset, rows: seq<Record>, fs: seq<Filter>, k: nat)
    requires k < |fs| && fs[k].values == []
    ensures Select(ds, rows, fs) == []
  {
    if |rows| > 0 {
      assert !Matches(ds, rows[0], fs[k]);
      EmptyValueListKeepsNothing(ds, rows[1..], fs, k);
    }
  }
}
