/** The `Group` column: the x-axis label of each pivot row, the values of the
    descriptor columns joined by single spaces in comparison order. The colour
    column is left out of the descriptors when it is encoded by colour anyway,
    but never when it is the only comparison column. */
module GroupLabel {
  import opened Frame

  /** Values joined by ' ', built left to right as the label loop does. */
  function Join(vs: seq<string>): string
    requires |vs| > 0
  {
    if |vs| == 1 then vs[0] else Join(vs[..|vs| - 1]) + " " + vs[|vs| - 1]
  }

  function LastSpace(s: string): (i: nat)
    requires ' ' in s
    ensures i < |s| && s[i] == ' '
    ensures forall j :: i < j < |s| ==> s[j] != ' '
  {
    if s[|s| - 1] == ' ' then |s| - 1 else LastSpace(s[..|s| - 1])
  }

  /** Splitting on ' ' (Python's `str.split(' ')`), from the right. */
  function Split(s: string): (r: seq<string>)
    ensures |r| > 0
    decreases |s|
  {
    if ' ' !in s then [s]
    else
      var i := LastSpace(s);
      Split(s[..i]) + [s[i + 1..]]
  }

  predicate NoSpaces(vs: seq<string>) {
    forall j :: 0 <= j < |vs| ==> ' ' !in vs[j]
  }

  /** A label splits back into the values it was built from when no value
      contains a space. */
  lemma {:induction false} SplitJoin(vs: seq<string>)
    requires |vs| > 0 && NoSpaces(vs)
    ensures Split(Join(vs)) == vs
  {
    if |vs| > 1 {
      var init, last := vs[..|vs| - 1], vs[|vs| - 1];
      var s := Join(vs);
      var p := Join(init);
      assert s == p + " " + last;
      assert s[|p|] == ' ';
      assert forall j :: |p| < j < |s| ==> s[j] == last[j - |p| - 1];
      var i := LastSpace(s);
      assert forall j :: |p| < j < |s| ==> s[j] != ' ';
      assert i == |p|;
      assert s[..i] == p && s[i + 1..] == last;
      SplitJoin(init);
      assert vs == init + [last];
    }
  }

  /** Distinct value lists without spaces give distinct labels. */
  lemma JoinInjective(a: seq<string>, b: seq<string>)
    requires |a| > 0 && |b| > 0 && NoSpaces(a) && NoSpaces(b)
    requires Join(a) == Join(b)
    ensures a == b
  {
    SplitJoin(a);
    SplitJoin(b);
  }

  // ---------------------------------------------------------------------------
  // Descriptor columns and row labels
  // ---------------------------------------------------------------------------

  function IndexOf(s: seq<string>, x: string): (i: nat)
    requires x in s
    ensures i < |s| && s[i] == x
    ensures forall j :: 0 <= j < i ==> s[j] != x
  {
    if s[0] == x then 0 else 1 + IndexOf(s[1..], x)
  }

  predicate Distinct(s: seq<string>) {
    forall i, j :: 0 <= i < j < |s| ==> s[i] != s[j]
  }

  /** `list.remove(color)` on the copied comparison list: the colour column is
      dropped when a colour is set, there is more than one comparison column and
      dropping is enabled; otherwise the list is the comparison list itself. */
  function DescriptorColumns(comparisonValues: seq<string>, color: Option<string>, dropColor: bool): (d: seq<string>)
    requires |comparisonValues| > 0
    requires color.Some? ==> color.value in comparisonValues
    ensures |d| > 0
    ensures forall c :: c in d ==> c in comparisonValues
    ensures !(color.Some? && |comparisonValues| > 1 && dropColor) ==> d == comparisonValues
    ensures color.Some? && |comparisonValues| > 1 && dropColor ==>
      var i := IndexOf(comparisonValues, color.value);
      && d == comparisonValues[..i] + comparisonValues[i + 1..]
      && |d| == |comparisonValues| - 1
      && (Distinct(comparisonValues) ==> color.value !in d)
  {
    if color.Some? && |comparisonValues| > 1 && dropColor then
      var i := IndexOf(comparisonValues, color.value);
      var d := comparisonValues[..i] + comparisonValues[i + 1..];
      assert |d| > 0;
      assert forall c :: c in d ==> c in comparisonValues by {
        forall c | c in d ensures c in comparisonValues {
          var k :| 0 <= k < |d| && d[k] == c;
          if k < i { assert comparisonValues[k] == c; } else { assert comparisonValues[k + 1] == c; }
        }
      }
      assert Distinct(comparisonValues) ==> color.value !in d by {
        if Distinct(comparisonValues) {
          forall k | 0 <= k < |d| ensures d[k] != color.value {
            if k < i { assert d[k] == comparisonValues[k]; } else { assert d[k] == comparisonValues[k + 1]; }
          }
        }
      }
      d
    else comparisonValues
  }

  /** The value of index column `c` in a pivot row with key `key`. */
  function KeyValue(index: seq<string>, key: seq<string>, c: string): string {
    if c in index && |key| == |index| then key[IndexOf(index, c)] else ""
  }

  function DescriptorValues(index: seq<string>, key: seq<string>, desc: seq<string>): (vs: seq<string>)
    ensures |vs| == |desc|
    ensures forall j :: 0 <= j < |desc| ==> vs[j] == KeyValue(index, key, desc[j])
  {
    seq(|desc|, j requires 0 <= j < |desc| => KeyValue(index, key, desc[j]))
  }

  /** The label of one pivot row. */
  function RowLabel(index: seq<string>, key: seq<string>, desc: seq<string>): string
    requires |desc| > 0
  {
    Join(DescriptorValues(index, key, desc))
  }

  /** Two rows get the same label only if they agree on every descriptor
      column, provided no value contains a space. */
  lemma RowLabelDistinguishes(index: seq<string>, k1: seq<string>, k2: seq<string>, desc: seq<string>)
    requires |desc| > 0
    requires NoSpaces(DescriptorValues(index, k1, desc)) && NoSpaces(DescriptorValues(index, k2, desc))
    requires RowLabel(index, k1, desc) == RowLabel(index, k2, desc)
    ensures forall j :: 0 <= j < |desc| ==> KeyValue(index, k1, desc[j]) == KeyValue(index, k2, desc[j])
  {
    JoinInjective(DescriptorValues(index, k1, desc), DescriptorValues(index, k2, desc));
  }

  /** With every comparison column kept, distinct pivot keys get distinct labels. */
  lemma {:induction false} FullLabelInjective(index: seq<string>, k1: seq<string>, k2: seq<string>)
    requires |index| > 0 && Distinct(index)
    requires |k1| == |index| && |k2| == |index|
    requires NoSpaces(k1) && NoSpaces(k2)
    requires RowLabel(index, k1, index) == RowLabel(index, k2, index)
    ensures k1 == k2
  {
    forall j | 0 <= j < |index| ensures IndexOf(index, index[j]) == j {
    }
    assert DescriptorValues(index, k1, index) == k1;
    assert DescriptorValues(index, k2, index) == k2;
    JoinInjective(k1, k2);
  }
}
