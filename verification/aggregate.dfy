/**
 * The aggregations the modelled code applies to a group or a column: the
 * numeric values of a column (pandas skips missing cells), their count, sum,
 * minimum and maximum.
 */
module Aggregate {
  import opened Frame

  /** The numeric cells of column `col` over `rows`, in row order; missing cells are skipped. */
  function Values(rows: seq<Row>, col: string): (vs: seq<real>)
    ensures |vs| <= |rows|
  {
    if rows == [] then []
    else (if Get(rows[0], col).Num? then [Get(rows[0], col).x] else []) + Values(rows[1..], col)
  }

  function Sum(vs: seq<real>): real
  {
    if vs == [] then 0.0 else vs[0] + Sum(vs[1..])
  }

  function Min(vs: seq<real>): (m: real)
    requires |vs| > 0
    ensures m in vs
    ensures forall v :: v in vs ==> m <= v
  {
    if |vs| == 1 then vs[0]
    else
      var rest := Min(vs[1..]);
      assert forall v :: v in vs ==> v == vs[0] || v in vs[1..];
      if vs[0] <= rest then vs[0] else rest
  }

  function Max(vs: seq<real>): (m: real)
    requires |vs| > 0
    ensures m in vs
    ensures forall v :: v in vs ==> v <= m
  {
    if |vs| == 1 then vs[0]
    else
      var rest := Max(vs[1..]);
      assert forall v :: v in vs ==> v == vs[0] || v in vs[1..];
      if vs[0] >= rest then vs[0] else rest
  }

  /** When every row has a number in `col`, there is one value per row. */
  lemma {:induction false} ValuesAllPresent(rows: seq<Row>, col: string)
    requires forall r :: r in rows ==> Get(r, col).Num?
    ensures |Values(rows, col)| == |rows|
    decreases |rows|
  {
    if rows != [] {
      assert rows[0] in rows;
      forall r | r in rows[1..] ensures Get(r, col).Num? {
        assert r in rows;
      }
      ValuesAllPresent(rows[1..], col);
    }
  }
}
