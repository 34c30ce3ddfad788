/**
 * The distinct non-missing values of one column, in ascending order: what
 * `sorted(df[col].dropna().unique())` returns and what a one-hot encoder
 * learns as the categories of a column.  Computed as the keys of a
 * one-column group-by.
 */
module Distinct {
  import opened Frame
  import opened Order
  import opened Grouping

  function KeyCells(gs: seq<Group>): (r: seq<Cell>)
    requires forall i :: 0 <= i < |gs| ==> |gs[i].key| == 1
    ensures |r| == |gs|
    ensures forall i :: 0 <= i < |gs| ==> r[i] == gs[i].key[0]
  {
    seq(|gs|, i requires 0 <= i < |gs| => gs[i].key[0])
  }

  /** The one-column group keys are present values in strictly ascending order. */
  lemma ValuesOrdered(rows: seq<Row>, col: string)
    ensures forall i :: 0 <= i < |GroupRows(rows, [col])| ==> |GroupRows(rows, [col])[i].key| == 1
    ensures forall i :: 0 <= i < |GroupRows(rows, [col])| ==> KeyCells(GroupRows(rows, [col]))[i] != Missing
    ensures forall i, j :: 0 <= i < j < |GroupRows(rows, [col])| ==>
      CellLess(KeyCells(GroupRows(rows, [col]))[i], KeyCells(GroupRows(rows, [col]))[j])
  {
    var gs := GroupRows(rows, [col]);
    KeyLengths(rows, [col]);
    var r := KeyCells(gs);
    forall i | 0 <= i < |gs| ensures gs[i].key == [r[i]] && r[i] != Missing {
      assert Complete(gs[i].key);
    }
    forall i, j | 0 <= i < j < |r| ensures CellLess(r[i], r[j]) {
      SingletonKeyLess(r[i], r[j]);
    }
  }

  /** Every present value of the column is one of the group keys. */
  lemma ValuesCovered(rows: seq<Row>, col: string, x: Row)
    requires x in rows && Get(x, col) != Missing
    ensures forall i :: 0 <= i < |GroupRows(rows, [col])| ==> |GroupRows(rows, [col])[i].key| == 1
    ensures Get(x, col) in KeyCells(GroupRows(rows, [col]))
  {
    var gs := GroupRows(rows, [col]);
    KeyLengths(rows, [col]);
    CompleteKeyOf(x, [col]);
    RowHasGroup(rows, [col], x);
    var i :| 0 <= i < |gs| && gs[i].key == KeyOf(x, [col]);
    assert KeyCells(gs)[i] == Get(x, col);
  }

  /** Every group key is the value of some row. */
  lemma ValuesWitnessed(rows: seq<Row>, col: string, i: nat)
    requires i < |GroupRows(rows, [col])|
    ensures forall i :: 0 <= i < |GroupRows(rows, [col])| ==> |GroupRows(rows, [col])[i].key| == 1
    ensures exists x :: x in rows && Get(x, col) == KeyCells(GroupRows(rows, [col]))[i]
  {
    var gs := GroupRows(rows, [col]);
    KeyLengths(rows, [col]);
    GroupIsMembers(rows, [col], i);
    var x := gs[i].members[0];
    assert x in gs[i].members;
    assert KeyOf(x, [col]) == gs[i].key;
    assert Get(x, col) == KeyCells(gs)[i];
  }

  /**
   * `col` holds both a number and a text value.  Python cannot compare the
   * two, so `sorted` over the column's values raises TypeError, and so does
   * fitting a one-hot encoder on the column.
   */
  predicate Mixed(rows: seq<Row>, col: string)
  {
    && (exists i :: 0 <= i < |rows| && Get(rows[i], col).Num?)
    && (exists i :: 0 <= i < |rows| && Get(rows[i], col).Str?)
  }

  /** The distinct non-missing values of `col` over `rows`, strictly ascending, and exactly those. */
  function DistinctValues(rows: seq<Row>, col: string): (r: seq<Cell>)
    ensures forall i :: 0 <= i < |r| ==> r[i] != Missing
    ensures forall i, j :: 0 <= i < j < |r| ==> CellLess(r[i], r[j])
    ensures forall v :: v in r <==> v != Missing && exists x :: x in rows && Get(x, col) == v
  {
    var gs := GroupRows(rows, [col]);
    ValuesOrdered(rows, col);
    var r := KeyCells(gs);
    forall v | v != Missing && exists x :: x in rows && Get(x, col) == v
      ensures v in r
    {
      var x :| x in rows && Get(x, col) == v;
      ValuesCovered(rows, col, x);
    }
    forall v | v in r ensures exists x :: x in rows && Get(x, col) == v {
      var i :| 0 <= i < |r| && r[i] == v;
      ValuesWitnessed(rows, col, i);
    }
    r
  }

  /** A present value of `col` in row `i` is one of the column's distinct values. */
  lemma ValueListed(rows: seq<Row>, col: string, i: nat)
    requires i < |rows| && Get(rows[i], col) != Missing
    ensures Get(rows[i], col) in DistinctValues(rows, col)
  {
    assert rows[i] in rows;
  }

  /** Each distinct value of `col` is the value of `col` in some row, returned as `i`. */
  lemma ValueSource(rows: seq<Row>, col: string, v: Cell) returns (i: nat)
    requires v in DistinctValues(rows, col)
    ensures i < |rows| && Get(rows[i], col) == v
  {
    var x :| x in rows && Get(x, col) == v;
    i :| 0 <= i < |rows| && rows[i] == x;
  }

  /** A column is mixed exactly when its distinct values include both a number and a text value. */
  lemma MixedValues(rows: seq<Row>, col: string)
    ensures var vs := DistinctValues(rows, col);
      Mixed(rows, col) <==> (exists v :: v in vs && v.Num?) && (exists v :: v in vs && v.Str?)
  {
    var vs := DistinctValues(rows, col);
    if Mixed(rows, col) {
      var i :| 0 <= i < |rows| && Get(rows[i], col).Num?;
      var j :| 0 <= j < |rows| && Get(rows[j], col).Str?;
      ValueListed(rows, col, i);
      ValueListed(rows, col, j);
    }
    if (exists v :: v in vs && v.Num?) && (exists v :: v in vs && v.Str?) {
      var a :| a in vs && a.Num?;
      var b :| b in vs && b.Str?;
      var i := ValueSource(rows, col, a);
      var j := ValueSource(rows, col, b);
    }
  }
}
