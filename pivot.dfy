/** The aggregation done by `pivot_table(index = ..., values = y_value,
    aggfunc = ...).reset_index()`: one row per distinct combination of the index
    columns' values present in the data, in ascending key order (pandas groups
    with sort=True), holding the aggregated measure. With no comparison columns
    the index is a synthetic column `All` holding the constant 'All'. */
module Pivot {
  import opened Frame
  import opened Ordering

  /** The integer aggregate functions; 'mean' is floating point and not modelled. */
  datatype AggFunc = Sum | Count

  /** One pivot row: the values of the index columns and the aggregated measure. */
  datatype Group = Group(key: seq<string>, value: int)

  const AllDataValue: string := "All"

  /** The columns the pivot is indexed by. */
  function PivotIndex(comparisonValues: seq<string>): (index: seq<string>)
    ensures |index| > 0
    ensures |comparisonValues| == 0 ==> index == [AllDataValue]
    ensures |comparisonValues| > 0 ==> index == comparisonValues
  {
    if |comparisonValues| == 0 then [AllDataValue] else comparisonValues
  }

  /** A row's group key: its values in the comparison columns, or the synthetic
      constant 'All' when there are none. */
  function KeyOf(r: Record, comparisonValues: seq<string>): seq<string> {
    if |comparisonValues| == 0 then [AllDataValue]
    else seq(|comparisonValues|, j requires 0 <= j < |comparisonValues| =>
           if comparisonValues[j] in r.dims then r.dims[comparisonValues[j]] else "")
  }

  function Contribution(agg: AggFunc, r: Record): int {
    match agg
    case Sum => r.value
    case Count => 1
  }

  /** Reference definition of a group's aggregate: the measure summed (or the
      rows counted) over every row whose key is `k`. */
  function Aggregated(rows: seq<Record>, comparisonValues: seq<string>, agg: AggFunc, k: seq<string>): int {
    if |rows| == 0 then 0
    else (if KeyOf(rows[0], comparisonValues) == k then Contribution(agg, rows[0]) else 0)
         + Aggregated(rows[1..], comparisonValues, agg, k)
  }

  // ---------------------------------------------------------------------------
  // Grouping by insertion into a key-sorted list
  // ---------------------------------------------------------------------------

  ghost predicate StrictlySorted(g: seq<Group>) {
    forall i, j :: 0 <= i < j < |g| ==> KeyLess(g[i].key, g[j].key)
  }

  function Keys(g: seq<Group>): set<seq<string>> {
    set i | 0 <= i < |g| :: g[i].key
  }

  /** Sum of the values carried under key `k`. */
  function Total(g: seq<Group>, k: seq<string>): int {
    if |g| == 0 then 0
    else (if g[0].key == k then g[0].value else 0) + Total(g[1..], k)
  }

  function Insert(g: seq<Group>, k: seq<string>, v: int): seq<Group> {
    if |g| == 0 then [Group(k, v)]
    else if g[0].key == k then [Group(k, g[0].value + v)] + g[1..]
    else if KeyLess(k, g[0].key) then [Group(k, v)] + g
    else [g[0]] + Insert(g[1..], k, v)
  }

  function Aggregate(e: seq<Group>): seq<Group> {
    if |e| == 0 then [] else Insert(Aggregate(e[1..]), e[0].key, e[0].value)
  }

  function Entries(rows: seq<Record>, comparisonValues: seq<string>, agg: AggFunc): (e: seq<Group>)
    ensures |e| == |rows|
    ensures forall i :: 0 <= i < |rows| ==>
      e[i] == Group(KeyOf(rows[i], comparisonValues), Contribution(agg, rows[i]))
  {
    seq(|rows|, i requires 0 <= i < |rows| => Group(KeyOf(rows[i], comparisonValues), Contribution(agg, rows[i])))
  }

  lemma KeysCons(g: seq<Group>)
    requires |g| > 0
    ensures Keys(g) == {g[0].key} + Keys(g[1..])
  {
    forall x | x in Keys(g[1..]) ensures x in Keys(g) {
      var i :| 0 <= i < |g| - 1 && g[1..][i].key == x;
      assert g[i + 1].key == x;
    }
  }

  lemma {:induction false} InsertKeys(g: seq<Group>, k: seq<string>, v: int)
    ensures Keys(Insert(g, k, v)) == Keys(g) + {k}
  {
    var r := Insert(g, k, v);
    KeysCons(r);
    if |g| > 0 {
      KeysCons(g);
      if g[0].key == k {
        assert r[1..] == g[1..];
      } else if KeyLess(k, g[0].key) {
        assert r[1..] == g;
      } else {
        assert r[1..] == Insert(g[1..], k, v);
        InsertKeys(g[1..], k, v);
      }
    }
  }

  lemma {:induction false} InsertTotal(g: seq<Group>, k: seq<string>, v: int, k': seq<string>)
    ensures Total(Insert(g, k, v), k') == Total(g, k') + (if k' == k then v else 0)
  {
    var r := Insert(g, k, v);
    if |g| > 0 {
      if g[0].key == k {
        assert r[1..] == g[1..];
      } else if KeyLess(k, g[0].key) {
        assert r[1..] == g;
      } else {
        assert r[1..] == Insert(g[1..], k, v);
        InsertTotal(g[1..], k, v, k');
      }
    }
  }

  lemma {:induction false} InsertSortedness(g: seq<Group>, k: seq<string>, v: int)
    requires StrictlySorted(g)
    ensures StrictlySorted(Insert(g, k, v))
  {
    var r := Insert(g, k, v);
    if |g| == 0 {
    } else if g[0].key == k {
      assert forall i :: 0 <= i < |r| ==> r[i].key == g[i].key;
    } else if KeyLess(k, g[0].key) {
      forall i, j | 0 <= i < j < |r| ensures KeyLess(r[i].key, r[j].key) {
        if i == 0 {
          assert r[j] == g[j - 1];
          if j > 1 {
            KeyLessTransitive(k, g[0].key, g[j - 1].key);
          }
        } else {
          assert r[i] == g[i - 1] && r[j] == g[j - 1];
        }
      }
    } else {
      KeyLessTotal(k, g[0].key);
      var t := Insert(g[1..], k, v);
      assert StrictlySorted(g[1..]);
      InsertSortedness(g[1..], k, v);
      InsertKeys(g[1..], k, v);
      assert r == [g[0]] + t;
      forall i, j | 0 <= i < j < |r| ensures KeyLess(r[i].key, r[j].key) {
        if i == 0 {
          assert r[j] == t[j - 1];
          assert r[j].key in Keys(t);
          if r[j].key != k {
            var m :| 0 <= m < |g| - 1 && g[1..][m].key == r[j].key;
            assert g[m + 1].key == r[j].key;
          }
        } else {
          assert r[i] == t[i - 1] && r[j] == t[j - 1];
        }
      }
    }
  }

  lemma {:induction false} AggregateCorrect(e: seq<Group>)
    ensures StrictlySorted(Aggregate(e))
    ensures Keys(Aggregate(e)) == Keys(e)
    ensures forall k :: Total(Aggregate(e), k) == Total(e, k)
  {
    if |e| > 0 {
      AggregateCorrect(e[1..]);
      var a := Aggregate(e[1..]);
      InsertSortedness(a, e[0].key, e[0].value);
      InsertKeys(a, e[0].key, e[0].value);
      KeysCons(e);
      forall k ensures Total(Aggregate(e), k) == Total(e, k) {
        InsertTotal(a, e[0].key, e[0].value, k);
      }
    }
  }

  /** In a list with distinct keys the total under a present key is that
      group's own value. */
  lemma {:induction false} TotalOfDistinct(g: seq<Group>, j: nat)
    requires StrictlySorted(g)
    requires j < |g|
    ensures Total(g, g[j].key) == g[j].value
  {
    if j == 0 {
      TotalAbsent(g[1..], g[0].key);
    } else {
      KeyLessIrreflexive(g[j].key);
      assert g[0].key != g[j].key;
      TotalOfDistinct(g[1..], j - 1);
    }
  }

  lemma {:induction false} TotalAbsent(g: seq<Group>, k: seq<string>)
    requires forall i :: 0 <= i < |g| ==> KeyLess(k, g[i].key)
    ensures Total(g, k) == 0
  {
    if |g| > 0 {
      KeyLessIrreflexive(k);
      TotalAbsent(g[1..], k);
    }
  }

  lemma {:induction false} DistinctKeysCount(g: seq<Group>)
    requires StrictlySorted(g)
    ensures |Keys(g)| == |g|
  {
    if |g| > 0 {
      DistinctKeysCount(g[1..]);
      KeysCons(g);
      if g[0].key in Keys(g[1..]) {
        var i :| 0 <= i < |g| - 1 && g[1..][i].key == g[0].key;
        assert KeyLess(g[0].key, g[i + 1].key);
        KeyLessIrreflexive(g[0].key);
      }
    }
  }

  lemma {:induction false} EntriesTotal(rows: seq<Record>, comparisonValues: seq<string>, agg: AggFunc, k: seq<string>)
    ensures Total(Entries(rows, comparisonValues, agg), k) == Aggregated(rows, comparisonValues, agg, k)
  {
    if |rows| > 0 {
      EntriesTotal(rows[1..], comparisonValues, agg, k);
      assert Entries(rows, comparisonValues, agg)[1..] == Entries(rows[1..], comparisonValues, agg);
    }
  }

  function RowKeys(rows: seq<Record>, comparisonValues: seq<string>): set<seq<string>> {
    set x | x in rows :: KeyOf(x, comparisonValues)
  }

  /** The pivot of the filtered rows: one group per distinct key present, keys
      strictly ascending, each holding the aggregate over its rows. */
  function PivotTable(rows: seq<Record>, comparisonValues: seq<string>, agg: AggFunc): (g: seq<Group>)
    ensures StrictlySorted(g)
    ensures Keys(g) == RowKeys(rows, comparisonValues)
    ensures |g| == |RowKeys(rows, comparisonValues)|
    ensures forall j :: 0 <= j < |g| ==> g[j].value == Aggregated(rows, comparisonValues, agg, g[j].key)
    ensures forall j :: 0 <= j < |g| ==> |g[j].key| == |PivotIndex(comparisonValues)|
  {
    var e := Entries(rows, comparisonValues, agg);
    AggregateCorrect(e);
    var g := Aggregate(e);
    DistinctKeysCount(g);
    assert Keys(e) == RowKeys(rows, comparisonValues) by {
      forall x | x in RowKeys(rows, comparisonValues) ensures x in Keys(e) {
        var r :| r in rows && KeyOf(r, comparisonValues) == x;
        var i :| 0 <= i < |rows| && rows[i] == r;
        assert e[i].key == x;
      }
    }
    assert forall j :: 0 <= j < |g| ==> g[j].value == Aggregated(rows, comparisonValues, agg, g[j].key) by {
      forall j | 0 <= j < |g| ensures g[j].value == Aggregated(rows, comparisonValues, agg, g[j].key) {
        TotalOfDistinct(g, j);
        EntriesTotal(rows, comparisonValues, agg, g[j].key);
      }
    }
    assert forall j :: 0 <= j < |g| ==> |g[j].key| == |PivotIndex(comparisonValues)| by {
      forall j | 0 <= j < |g| ensures |g[j].key| == |PivotIndex(comparisonValues)| {
        assert g[j].key in Keys(e);
      }
    }
    g
  }

  /** With no comparison columns there is a single 'All' bucket (none at all
      when the filters left no rows) holding the grand aggregate. */
  lemma AllBucket(rows: seq<Record>, agg: AggFunc)
    ensures |PivotTable(rows, [], agg)| == (if |rows| == 0 then 0 else 1)
    ensures forall j :: 0 <= j < |PivotTable(rows, [], agg)| ==>
      PivotTable(rows, [], agg)[j] == Group([AllDataValue], Aggregated(rows, [], agg, [AllDataValue]))
  {
    var g := PivotTable(rows, [], agg);
    if |rows| == 0 {
      assert RowKeys(rows, []) == {};
    } else {
      assert RowKeys(rows, []) == {[AllDataValue]} by {
        assert KeyOf(rows[0], []) in RowKeys(rows, []);
      }
      assert g[0].key in Keys(g);
    }
  }
}
