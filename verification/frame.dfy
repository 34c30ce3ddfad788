/**
 * The in-memory table every component works on: a pandas DataFrame seen as an
 * ordered list of column names and an ordered sequence of rows, each row a map
 * from column name to cell.  A cell is missing (NaN/None), a number or text.
 */
module Frame {

  datatype Option<T> = None | Some(value: T)

  /** The exceptions the modelled code raises, by kind. */
  datatype Error =
    | KeyError(column: string)       // a column selected with df[...] that does not exist
    | ValueError(reason: string)     // explicit `raise ValueError`, library value checks, float() on bad text
    | TypeError(reason: string)      // iterating None; ordering or encoding numbers mixed with text
    | AttributeError(reason: string) // a method called on None
    | NotFittedError                 // transform on an encoder whose fit failed

  datatype Result<T> = Ok(value: T) | Err(error: Error)

  datatype Cell = Missing | Num(x: real) | Str(s: string)

  type Row = map<string, Cell>

  datatype Table = Table(columns: seq<string>, rows: seq<Row>)

  /**
   * `[f(x) for x in xs]` where `f` may raise: the results in order, or the
   * error of the first element that fails.
   */
  method MapAll<A, B>(xs: seq<A>, f: A -> Result<B>) returns (r: Result<seq<B>>)
    ensures r.Ok? <==> forall i :: 0 <= i < |xs| ==> f(xs[i]).Ok?
    ensures r.Ok? ==> |r.value| == |xs| && forall i :: 0 <= i < |xs| ==> f(xs[i]) == Ok(r.value[i])
    ensures r.Err? ==> exists k :: 0 <= k < |xs| && f(xs[k]) == Err(r.error) && forall i :: 0 <= i < k ==> f(xs[i]).Ok?
  {
    var out: seq<B> := [];
    var k := 0;
    while k < |xs|
      invariant 0 <= k <= |xs| && |out| == k
      invariant forall i :: 0 <= i < k ==> f(xs[i]) == Ok(out[i])
    {
      var y := f(xs[k]);
      if y.Err? {
        return Err(y.error);
      }
      out := out + [y.value];
      k := k + 1;
    }
    return Ok(out);
  }

  /** The cell of row `r` in column `c`; a row without that key reads as missing. */
  function Get(r: Row, c: string): Cell
  {
    if c in r then r[c] else Missing
  }

  /** True iff no cell of `r` in the columns `cs` is missing (the survivors of dropna(subset=cs)). */
  predicate NotNull(r: Row, cs: seq<string>)
  {
    forall i :: 0 <= i < |cs| ==> Get(r, cs[i]) != Missing
  }

  /** df.dropna(subset=cs): the rows with no missing cell in `cs`, in their original order. */
  function DropNa(rows: seq<Row>, cs: seq<string>): (kept: seq<Row>)
    ensures |kept| <= |rows|
    ensures forall r :: r in kept <==> r in rows && NotNull(r, cs)
  {
    if rows == [] then []
    else (if NotNull(rows[0], cs) then [rows[0]] else []) + DropNa(rows[1..], cs)
  }

  /** True iff every name in `cs` is a column of `t`. */
  predicate HasAll(t: Table, cs: seq<string>)
  {
    forall i :: 0 <= i < |cs| ==> cs[i] in t.columns
  }

  /** `[f for f in cs if f in df.columns]`: the requested names that are columns of `t`, in request order. */
  function PresentIn(cs: seq<string>, t: Table): (r: seq<string>)
    ensures forall c :: c in r <==> c in cs && c in t.columns
    ensures |r| <= |cs|
  {
    if cs == [] then []
    else (if cs[0] in t.columns then [cs[0]] else []) + PresentIn(cs[1..], t)
  }

  /**
   * `s[:n]` on a Python list and `df.head(n)`: the first n elements; a
   * negative n drops the last |n| elements instead.
   */
  function Head<T>(s: seq<T>, n: int): (r: seq<T>)
    ensures r <= s
    ensures n >= 0 ==> |r| == if n < |s| then n else |s|
    ensures n < 0 ==> |r| == if |s| + n < 0 then 0 else |s| + n
  {
    if n >= 0 then s[..if n < |s| then n else |s|]
    else s[..if |s| + n < 0 then 0 else |s| + n]
  }

  /** Every row of `rows`, with the cell in column `c` set to `v` (`df[c] = v`). */
  function SetColumn(rows: seq<Row>, c: string, v: Cell): (r: seq<Row>)
    ensures |r| == |rows|
    ensures forall i :: 0 <= i < |r| ==> r[i] == rows[i][c := v]
  {
    seq(|rows|, i requires 0 <= i < |rows| => rows[i][c := v])
  }

  /** The column list after adding `c` at the end when it is not already a column. */
  function WithColumn(columns: seq<string>, c: string): (r: seq<string>)
    ensures c in r
    ensures forall x :: x in r <==> x in columns || x == c
  {
    if c in columns then columns else columns + [c]
  }

  /** The column list without `c`, the others in their order. */
  function Without(cs: seq<string>, c: string): (r: seq<string>)
    ensures |r| <= |cs|
    ensures forall x :: x in r <==> x in cs && x != c
  {
    if cs == [] then []
    else (if cs[0] == c then [] else [cs[0]]) + Without(cs[1..], c)
  }

  /** Removing a name a list does not hold leaves the list as it is. */
  lemma {:induction false} WithoutAbsent(cs: seq<string>, c: string)
    requires c !in cs
    ensures Without(cs, c) == cs
  {
    if cs != [] {
      WithoutAbsent(cs[1..], c);
      assert cs == [cs[0]] + cs[1..];
    }
  }

  /** `df.drop(columns=[c])` when `c` is a column of `t`; `t` itself otherwise. */
  function DropColumn(t: Table, c: string): (r: Table)
    ensures r.columns == Without(t.columns, c)
    ensures forall x :: x in r.columns <==> x in t.columns && x != c
    ensures |r.rows| == |t.rows|
    ensures forall i, x :: 0 <= i < |t.rows| && x != c ==> Get(r.rows[i], x) == Get(t.rows[i], x)
    ensures c in t.columns ==> forall i :: 0 <= i < |r.rows| ==> c !in r.rows[i]
  {
    if c !in t.columns then WithoutAbsent(t.columns, c); t
    else Table(Without(t.columns, c), seq(|t.rows|, i requires 0 <= i < |t.rows| => t.rows[i] - {c}))
  }

  /** No element of `s` occurs twice. */
  predicate NoDuplicates<T(==)>(s: seq<T>)
  {
    forall i, j :: 0 <= i < j < |s| ==> s[i] != s[j]
  }

  /** The first name of `cs` that is not a column of `t`, if any (the column a `KeyError` names). */
  function FirstAbsent(t: Table, cs: seq<string>): (r: Option<string>)
    ensures r.None? <==> HasAll(t, cs)
    ensures r.Some? ==> r.value in cs && r.value !in t.columns
  {
    if cs == [] then None
    else if cs[0] !in t.columns then Some(cs[0])
    else
      var rest := FirstAbsent(t, cs[1..]);
      assert HasAll(t, cs) <==> HasAll(t, cs[1..]) by {
        if HasAll(t, cs[1..]) {
          forall i | 0 <= i < |cs| ensures cs[i] in t.columns {
            if i > 0 { assert cs[i] == cs[1..][i - 1]; }
          }
        }
      }
      rest
  }

  /** A position at which an element of a sequence occurs. */
  lemma IndexOf<T>(x: T, s: seq<T>) returns (i: nat)
    requires x in s
    ensures i < |s| && s[i] == x
  {
    i :| 0 <= i < |s| && s[i] == x;
  }

  /** A table that has every column of `a + b` has every column of `a`. */
  lemma HasAllPrefix(t: Table, a: seq<string>, b: seq<string>)
    requires HasAll(t, a + b)
    ensures HasAll(t, a)
  {
    forall i | 0 <= i < |a| ensures a[i] in t.columns {
      assert (a + b)[i] == a[i];
    }
  }

  /** `PresentIn` keeps the requested order: any two names it returns come in the order they were asked for. */
  lemma {:induction false} PresentInOrder(cs: seq<string>, t: Table, i: nat, j: nat) returns (a: nat, b: nat)
    requires i < j < |PresentIn(cs, t)|
    ensures a < b < |cs| && cs[a] == PresentIn(cs, t)[i] && cs[b] == PresentIn(cs, t)[j]
    decreases |cs|
  {
    var tail := cs[1..];
    var rest := PresentIn(tail, t);
    if cs[0] !in t.columns {
      assert PresentIn(cs, t) == rest;
      var a', b' := PresentInOrder(tail, t, i, j);
      a, b := a' + 1, b' + 1;
    } else {
      assert PresentIn(cs, t) == [cs[0]] + rest;
      if i == 0 {
        var b' := PresentInTail(tail, t, j - 1);
        a, b := 0, b' + 1;
      } else {
        var a', b' := PresentInOrder(tail, t, i - 1, j - 1);
        a, b := a' + 1, b' + 1;
      }
    }
  }

  lemma PresentInTail(cs: seq<string>, t: Table, k: nat) returns (b: nat)
    requires k < |PresentIn(cs, t)|
    ensures b < |cs| && cs[b] == PresentIn(cs, t)[k]
  {
    assert PresentIn(cs, t)[k] in PresentIn(cs, t);
    b :| 0 <= b < |cs| && cs[b] == PresentIn(cs, t)[k];
  }

  /** Filtering a duplicate-free list leaves it duplicate-free. */
  lemma PresentInNoDuplicates(cs: seq<string>, t: Table)
    requires NoDuplicates(cs)
    ensures NoDuplicates(PresentIn(cs, t))
  {
    var r := PresentIn(cs, t);
    forall i, j | 0 <= i < j < |r| ensures r[i] != r[j] {
      var a, b := PresentInOrder(cs, t, i, j);
    }
  }
}
