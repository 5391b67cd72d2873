/**
 * ORDER BY on one column: every row is keyed by the text in that column (a
 * missing column keys as "", so it sorts first ascending), rows are compared
 * in code-point order, ascending or descending.
 */
module Sorting {
  import opened Strings
  import opened Fields

  datatype Ordering = Ordering(column: string, ascending: bool)

  function Key(row: Row, column: string): string {
    Get(row, column)
  }

  /** `a` may come before `b` under `ord`. */
  predicate InOrder(a: Row, b: Row, ord: Ordering) {
    if ord.ascending then LessOrEqual(Key(a, ord.column), Key(b, ord.column))
    else LessOrEqual(Key(b, ord.column), Key(a, ord.column))
  }

  predicate SortedBy(rows: seq<Row>, ord: Ordering) {
    forall i, j :: 0 <= i < j < |rows| ==> InOrder(rows[i], rows[j], ord)
  }

  lemma InOrderTotal(a: Row, b: Row, ord: Ordering)
    ensures InOrder(a, b, ord) || InOrder(b, a, ord)
  {
    LessTotal(Key(a, ord.column), Key(b, ord.column));
  }

  lemma InOrderTransitive(a: Row, b: Row, c: Row, ord: Ordering)
    requires InOrder(a, b, ord) && InOrder(b, c, ord)
    ensures InOrder(a, c, ord)
  {
    var ka, kb, kc := Key(a, ord.column), Key(b, ord.column), Key(c, ord.column);
    if ord.ascending {
      if ka != kb && kb != kc { LessTransitive(ka, kb, kc); }
    } else {
      if kc != kb && kb != ka { LessTransitive(kc, kb, ka); }
    }
  }

  /** A row that may precede every row of a sorted sequence can head it. */
  lemma ConsSorted(h: Row, rows: seq<Row>, ord: Ordering)
    requires SortedBy(rows, ord)
    requires forall j :: 0 <= j < |rows| ==> InOrder(h, rows[j], ord)
    ensures SortedBy([h] + rows, ord)
  {
    var r := [h] + rows;
    forall i, j | 0 <= i < j < |r|
      ensures InOrder(r[i], r[j], ord)
    {
      if i > 0 {
        assert r[i] == rows[i - 1] && r[j] == rows[j - 1];
      } else {
        assert r[j] == rows[j - 1];
      }
    }
  }

  /** The head of a sorted sequence may precede any row in its multiset. */
  lemma HeadPrecedes(rows: seq<Row>, ord: Ordering, y: Row)
    requires SortedBy(rows, ord) && rows != [] && y in multiset(rows[1..])
    ensures InOrder(rows[0], y, ord)
  {
    var k :| 0 <= k < |rows[1..]| && rows[1..][k] == y;
    assert rows[k + 1] == y;
  }

  /** `x` placed into the sorted `rows` before the first row it may precede. */
  function Insert(x: Row, rows: seq<Row>, ord: Ordering): (r: seq<Row>)
    requires SortedBy(rows, ord)
    ensures SortedBy(r, ord)
    ensures multiset(r) == multiset(rows) + multiset{x}
    decreases |rows|
  {
    if rows == [] then [x]
    else if InOrder(x, rows[0], ord) then
      InsertFront(x, rows, ord);
      [x] + rows
    else
      var tail := Insert(x, rows[1..], ord);
      InsertBehind(x, rows, ord, tail);
      [rows[0]] + tail
  }

  lemma InsertFront(x: Row, rows: seq<Row>, ord: Ordering)
    requires SortedBy(rows, ord) && rows != [] && InOrder(x, rows[0], ord)
    ensures SortedBy([x] + rows, ord)
  {
    forall j | 0 < j < |rows|
      ensures InOrder(x, rows[j], ord)
    {
      InOrderTransitive(x, rows[0], rows[j], ord);
    }
    ConsSorted(x, rows, ord);
  }

  lemma InsertBehind(x: Row, rows: seq<Row>, ord: Ordering, tail: seq<Row>)
    requires SortedBy(rows, ord) && rows != [] && !InOrder(x, rows[0], ord)
    requires SortedBy(tail, ord) && multiset(tail) == multiset(rows[1..]) + multiset{x}
    ensures SortedBy([rows[0]] + tail, ord)
    ensures multiset([rows[0]] + tail) == multiset(rows) + multiset{x}
  {
    InOrderTotal(x, rows[0], ord);
    forall j | 0 <= j < |tail|
      ensures InOrder(rows[0], tail[j], ord)
    {
      assert tail[j] in multiset(tail);
      if tail[j] != x {
        HeadPrecedes(rows, ord, tail[j]);
      }
    }
    ConsSorted(rows[0], tail, ord);
    assert rows == [rows[0]] + rows[1..];
  }

  /** The rows of `rows` in `ord` order (insertion sort). */
  function SortRows(rows: seq<Row>, ord: Ordering): (r: seq<Row>)
    ensures SortedBy(r, ord)
    ensures multiset(r) == multiset(rows)
    ensures |r| == |rows|
    decreases |rows|
  {
    if rows == [] then []
    else
      assert rows == [rows[0]] + rows[1..];
      Insert(rows[0], SortRows(rows[1..], ord), ord)
  }

  /** Any slice of a sorted sequence is sorted. */
  lemma SortedSlice(rows: seq<Row>, ord: Ordering, i: nat, j: nat)
    requires SortedBy(rows, ord) && i <= j <= |rows|
    ensures SortedBy(rows[i..j], ord)
  {
    assert forall a :: 0 <= a < j - i ==> rows[i..j][a] == rows[i + a];
  }
}
