/** Orders used by the pivot (lexicographic order of group keys, as Python
    compares strings and tuples) and by the bar reordering (a rank order and a
    natural order on cells), plus the sort that pandas' sort_values performs. */
module Ordering {

  // ---------------------------------------------------------------------------
  // Strict total orders and lexicographic extension
  // ---------------------------------------------------------------------------

  ghost predicate StrictTotalOrder<T(!new)>(lt: (T, T) -> bool) {
    && (forall x :: !lt(x, x))
    && (forall x, y, z :: lt(x, y) && lt(y, z) ==> lt(x, z))
    && (forall x, y :: x != y ==> lt(x, y) || lt(y, x))
  }

  /** Lexicographic order: a proper prefix comes first, otherwise the first
      differing element decides. This is how Python compares str and tuple. */
  function Lex<T(==)>(a: seq<T>, b: seq<T>, lt: (T, T) -> bool): bool
    decreases |a|
  {
    if |a| == 0 then |b| > 0
    else if |b| == 0 then false
    else if a[0] == b[0] then Lex(a[1..], b[1..], lt)
    else lt(a[0], b[0])
  }

  lemma {:induction false} LexIrreflexive<T(!new)>(a: seq<T>, lt: (T, T) -> bool)
    ensures !Lex(a, a, lt)
    decreases |a|
  {
    if |a| > 0 {
      LexIrreflexive(a[1..], lt);
    }
  }

  lemma {:induction false} LexTransitive<T(!new)>(a: seq<T>, b: seq<T>, c: seq<T>, lt: (T, T) -> bool)
    requires StrictTotalOrder(lt)
    requires Lex(a, b, lt) && Lex(b, c, lt)
    ensures Lex(a, c, lt)
    decreases |a|
  {
    if |a| > 0 && |b| > 0 && |c| > 0 && a[0] == b[0] && b[0] == c[0] {
      LexTransitive(a[1..], b[1..], c[1..], lt);
    }
  }

  lemma {:induction false} LexTotal<T(!new)>(a: seq<T>, b: seq<T>, lt: (T, T) -> bool)
    requires StrictTotalOrder(lt)
    requires a != b
    ensures Lex(a, b, lt) || Lex(b, a, lt)
    decreases |a|
  {
    if |a| > 0 && |b| > 0 && a[0] == b[0] {
      assert a == [a[0]] + a[1..] && b == [b[0]] + b[1..];
      LexTotal(a[1..], b[1..], lt);
    }
  }

  function CharLess(x: char, y: char): bool { x < y }

  /** Python's `<` on str: code point by code point. */
  function StrLess(a: string, b: string): bool { Lex(a, b, CharLess) }

  /** Python's `<` on tuples of str, used by pandas to sort group keys. */
  function KeyLess(a: seq<string>, b: seq<string>): bool { Lex(a, b, StrLess) }

  lemma StrLessStrictTotal()
    ensures StrictTotalOrder(StrLess)
  {
    assert StrictTotalOrder(CharLess);
    forall a: string { LexIrreflexive(a, CharLess); }
    forall a: string, b: string, c: string | StrLess(a, b) && StrLess(b, c)
      ensures StrLess(a, c)
    {
      LexTransitive(a, b, c, CharLess);
    }
    forall a: string, b: string | a != b
      ensures StrLess(a, b) || StrLess(b, a)
    {
      LexTotal(a, b, CharLess);
    }
  }

  lemma KeyLessIrreflexive(a: seq<string>)
    ensures !KeyLess(a, a)
  {
    LexIrreflexive(a, StrLess);
  }

  lemma KeyLessTransitive(a: seq<string>, b: seq<string>, c: seq<string>)
    requires KeyLess(a, b) && KeyLess(b, c)
    ensures KeyLess(a, c)
  {
    StrLessStrictTotal();
    LexTransitive(a, b, c, StrLess);
  }

  lemma KeyLessTotal(a: seq<string>, b: seq<string>)
    requires a != b
    ensures KeyLess(a, b) || KeyLess(b, a)
  {
    StrLessStrictTotal();
    LexTotal(a, b, StrLess);
  }

  // ---------------------------------------------------------------------------
  // Total preorders and sorting
  // ---------------------------------------------------------------------------

  ghost predicate TotalPreorder<T(!new)>(le: (T, T) -> bool) {
    && (forall x, y :: le(x, y) || le(y, x))
    && (forall x, y, z :: le(x, y) && le(y, z) ==> le(x, z))
  }

  ghost predicate Sorted<T>(s: seq<T>, le: (T, T) -> bool) {
    forall i, j :: 0 <= i < j < |s| ==> le(s[i], s[j])
  }

  function InsertSorted<T>(x: T, s: seq<T>, le: (T, T) -> bool): seq<T> {
    if |s| == 0 then [x]
    else if le(x, s[0]) then [x] + s
    else [s[0]] + InsertSorted(x, s[1..], le)
  }

  /** The row sort behind `sort_values`. Only its two contract properties,
      permutation and order (see SortByCorrect), are relied on. */
  function SortBy<T>(s: seq<T>, le: (T, T) -> bool): seq<T> {
    if |s| == 0 then [] else InsertSorted(s[0], SortBy(s[1..], le), le)
  }

  lemma {:induction false} InsertSortedPermutes<T>(x: T, s: seq<T>, le: (T, T) -> bool)
    ensures multiset(InsertSorted(x, s, le)) == multiset(s) + multiset{x}
  {
    if |s| > 0 && !le(x, s[0]) {
      assert s == [s[0]] + s[1..];
      InsertSortedPermutes(x, s[1..], le);
    }
  }

  lemma {:induction false} InsertSortedMembers<T>(x: T, s: seq<T>, le: (T, T) -> bool, y: T)
    requires y in InsertSorted(x, s, le)
    ensures y == x || y in s
  {
    if |s| > 0 && !le(x, s[0]) && y != s[0] {
      InsertSortedMembers(x, s[1..], le, y);
    }
  }

  lemma {:induction false} InsertSortedOrders<T(!new)>(x: T, s: seq<T>, le: (T, T) -> bool)
    requires TotalPreorder(le)
    requires Sorted(s, le)
    ensures Sorted(InsertSorted(x, s, le), le)
  {
    if |s| == 0 {
    } else if le(x, s[0]) {
      var r := [x] + s;
      forall i, j | 0 <= i < j < |r| ensures le(r[i], r[j]) {
        if i == 0 && j > 1 {
          assert le(s[0], s[j - 1]);
        }
      }
    } else {
      var t := InsertSorted(x, s[1..], le);
      InsertSortedOrders(x, s[1..], le);
      var r := [s[0]] + t;
      assert le(s[0], x);
      forall i, j | 0 <= i < j < |r| ensures le(r[i], r[j]) {
        if i == 0 {
          InsertSortedMembers(x, s[1..], le, t[j - 1]);
        } else {
          assert r[i] == t[i - 1] && r[j] == t[j - 1];
        }
      }
    }
  }

  lemma {:induction false} SortByCorrect<T(!new)>(s: seq<T>, le: (T, T) -> bool)
    requires TotalPreorder(le)
    ensures multiset(SortBy(s, le)) == multiset(s)
    ensures Sorted(SortBy(s, le), le)
  {
    if |s| > 0 {
      SortByCorrect(s[1..], le);
      InsertSortedPermutes(s[0], SortBy(s[1..], le), le);
      InsertSortedOrders(s[0], SortBy(s[1..], le), le);
      assert s == [s[0]] + s[1..];
    }
  }
}
