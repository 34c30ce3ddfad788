/**
 * scikit-learn's `OneHotEncoder(handle_unknown='ignore')` as the modelled code
 * uses it: fitting learns, per categorical column, the sorted distinct values
 * seen; the encoded features are one indicator per (column, category), block
 * by block; a row encodes as 1 in the indicator of its own value and 0
 * elsewhere, so a value never seen in fitting encodes as all zeros.
 */
module Encoding {
  import opened Frame
  import opened Order
  import opened Distinct

  /** A column of a feature matrix: a column taken as it is, or the indicator of one category. */
  datatype Feature = Col(name: string) | Indicator(column: string, category: Cell)

  /** The categories learned for one column. */
  datatype Block = Block(column: string, categories: seq<Cell>)

  datatype Encoder = Unfitted | Fitted(blocks: seq<Block>)

  predicate StrictlySorted(cs: seq<Cell>)
  {
    forall i, j :: 0 <= i < j < |cs| ==> CellLess(cs[i], cs[j])
  }

  function Columns(bs: seq<Block>): (cs: seq<string>)
    ensures |cs| == |bs|
    ensures forall j :: 0 <= j < |bs| ==> cs[j] == bs[j].column
  {
    seq(|bs|, j requires 0 <= j < |bs| => bs[j].column)
  }

  /** One block per column, holding that column's distinct present values in ascending order. */
  function FitBlocks(rows: seq<Row>, cols: seq<string>): (bs: seq<Block>)
    ensures |bs| == |cols|
    ensures forall j :: 0 <= j < |cols| ==> bs[j].column == cols[j] && StrictlySorted(bs[j].categories)
    ensures forall j, v :: 0 <= j < |cols| ==>
      (v in bs[j].categories <==> v != Missing && exists x :: x in rows && Get(x, cols[j]) == v)
  {
    seq(|cols|, j requires 0 <= j < |cols| => Block(cols[j], DistinctValues(rows, cols[j])))
  }

  /** What fitting an encoder on a column of numbers mixed with text raises. */
  const NotUniform := "Encoders require their input argument must be uniformly strings or numbers"

  /**
   * `fit` on the columns `cols` of `rows`: fitting on no rows at all is a
   * ValueError; otherwise a column mixing numbers and text is a TypeError.
   */
  function Fit(rows: seq<Row>, cols: seq<string>): (r: Result<Encoder>)
    ensures r.Err? <==> rows == [] || exists j :: 0 <= j < |cols| && Mixed(rows, cols[j])
    ensures rows == [] ==> r == Err(ValueError("Found array with 0 sample(s)"))
    ensures r.Err? && rows != [] ==> r.error.TypeError?
    ensures r.Ok? ==> r.value.Fitted? && Columns(r.value.blocks) == cols
  {
    if rows == [] then Err(ValueError("Found array with 0 sample(s)"))
    else if exists j :: 0 <= j < |cols| && Mixed(rows, cols[j]) then Err(TypeError(NotUniform))
    else Ok(Fitted(FitBlocks(rows, cols)))
  }

  /** The indicator features, block by block and, within a block, in category order. */
  function Indicators(bs: seq<Block>): (fs: seq<Feature>)
    ensures forall i :: 0 <= i < |fs| ==> fs[i].Indicator?
  {
    if bs == [] then []
    else
      var b := bs[0];
      seq(|b.categories|, k requires 0 <= k < |b.categories| => Indicator(b.column, b.categories[k]))
        + Indicators(bs[1..])
  }

  /**
   * What `transform` followed by `get_feature_names_out(cols)` yields about
   * the encoded columns: their names, or the error raised by an encoder that
   * was never fitted or was fitted on other columns.
   */
  function EncodedNames(e: Encoder, cols: seq<string>): (r: Result<seq<Feature>>)
    ensures r.Ok? <==> e.Fitted? && Columns(e.blocks) == cols
    ensures r.Ok? ==> forall f :: f in r.value ==> f.Indicator? && f.column in cols
  {
    if e.Unfitted? then Err(NotFittedError)
    else if Columns(e.blocks) != cols then Err(ValueError("feature names differ from those seen in fit"))
    else
      forall f | f in Indicators(e.blocks) ensures f.Indicator? && f.column in cols {
        IndicatorsMembership(e.blocks, f);
      }
      Ok(Indicators(e.blocks))
  }

  /** The value of feature `f` in row `x`: the cell itself, or 1/0 for whether the row holds the category. */
  function Value(x: Row, f: Feature): (v: Cell)
    ensures f.Indicator? ==> (v == Num(1.0) <==> Get(x, f.column) == f.category)
    ensures f.Indicator? ==> v == Num(1.0) || v == Num(0.0)
  {
    match f
    case Col(n) => Get(x, n)
    case Indicator(c, cat) => Num(if Get(x, c) == cat then 1.0 else 0.0)
  }

  /** The feature row of `x`: one value per feature, in feature order. */
  function Encode(x: Row, fs: seq<Feature>): (v: seq<Cell>)
    ensures |v| == |fs|
    ensures forall i :: 0 <= i < |fs| ==> v[i] == Value(x, fs[i])
  {
    seq(|fs|, i requires 0 <= i < |fs| => Value(x, fs[i]))
  }

  lemma {:induction false} IndicatorsMembership(bs: seq<Block>, f: Feature)
    ensures f in Indicators(bs) <==>
      f.Indicator? && exists j :: 0 <= j < |bs| && bs[j].column == f.column && f.category in bs[j].categories
    decreases |bs|
  {
    if bs != [] {
      var b := bs[0];
      var first := seq(|b.categories|, k requires 0 <= k < |b.categories| => Indicator(b.column, b.categories[k]));
      assert Indicators(bs) == first + Indicators(bs[1..]);
      IndicatorsMembership(bs[1..], f);
      if f in first {
        var k :| 0 <= k < |first| && first[k] == f;
        assert bs[0].column == f.column && f.category in bs[0].categories;
      }
      if f.Indicator? && bs[0].column == f.column && f.category in bs[0].categories {
        var k :| 0 <= k < |b.categories| && b.categories[k] == f.category;
        assert first[k] == f;
      }
      if f.Indicator? && exists j :: 0 <= j < |bs| && bs[j].column == f.column && f.category in bs[j].categories {
        var j :| 0 <= j < |bs| && bs[j].column == f.column && f.category in bs[j].categories;
        if j > 0 {
          assert bs[1..][j - 1] == bs[j];
        }
      }
      if f in Indicators(bs[1..]) {
        var j :| 0 <= j < |bs[1..]| && bs[1..][j].column == f.column && f.category in bs[1..][j].categories;
        assert bs[j + 1] == bs[1..][j];
      }
    }
  }

  lemma StrictlySortedDistinct(cs: seq<Cell>, i: nat, j: nat)
    requires StrictlySorted(cs) && i < j < |cs|
    ensures cs[i] != cs[j]
  {
    if cs[i] == cs[j] {
      CellLessIrreflexive(cs[i]);
    }
  }

  /** Distinct columns with duplicate-free category lists give duplicate-free feature names. */
  lemma {:induction false} IndicatorsDistinct(bs: seq<Block>)
    requires NoDuplicates(Columns(bs))
    requires forall j :: 0 <= j < |bs| ==> StrictlySorted(bs[j].categories)
    ensures NoDuplicates(Indicators(bs))
    decreases |bs|
  {
    if bs != [] {
      var b := bs[0];
      var first := seq(|b.categories|, k requires 0 <= k < |b.categories| => Indicator(b.column, b.categories[k]));
      var rest := Indicators(bs[1..]);
      assert Columns(bs[1..]) == Columns(bs)[1..];
      IndicatorsDistinct(bs[1..]);
      var fs := first + rest;
      assert Indicators(bs) == fs;
      forall i, k | 0 <= i < k < |fs| ensures fs[i] != fs[k] {
        if k < |first| {
          StrictlySortedDistinct(b.categories, i, k);
        } else if i < |first| {
          IndicatorsMembership(bs[1..], fs[k]);
          var j :| 0 <= j < |bs[1..]| && bs[1..][j].column == fs[k].column && fs[k].category in bs[1..][j].categories;
          assert Columns(bs)[0] != Columns(bs)[j + 1];
        } else {
          assert fs[i] == rest[i - |first|] && fs[k] == rest[k - |first|];
        }
      }
    }
  }

  /**
   * With distinct columns and duplicate-free categories, a row holding one of
   * the categories of block j has exactly one 1 among that block's
   * indicators: at the indicator of its own value.
   */
  lemma OneHotInBlock(bs: seq<Block>, x: Row, j: nat)
    requires NoDuplicates(Columns(bs))
    requires forall i :: 0 <= i < |bs| ==> StrictlySorted(bs[i].categories)
    requires j < |bs| && Get(x, bs[j].column) in bs[j].categories
    ensures var fs := Indicators(bs);
      exists h :: 0 <= h < |fs| && fs[h] == Indicator(bs[j].column, Get(x, bs[j].column)) &&
        forall k :: 0 <= k < |fs| && fs[k].column == bs[j].column ==> (Value(x, fs[k]) == Num(1.0) <==> k == h)
  {
    var fs := Indicators(bs);
    IndicatorsDistinct(bs);
    var hot := Indicator(bs[j].column, Get(x, bs[j].column));
    IndicatorsMembership(bs, hot);
    var h :| 0 <= h < |fs| && fs[h] == hot;
    forall k | 0 <= k < |fs| && fs[k].column == bs[j].column ensures Value(x, fs[k]) == Num(1.0) <==> k == h {
      if k != h {
        assert fs[k] != fs[h] by {
          if k < h { assert fs[k] != fs[h]; } else { assert fs[h] != fs[k]; }
        }
      }
    }
  }

  /**
   * Every row the encoder was fitted on has exactly one 1 in the block of
   * each categorical column: at the indicator of its own value.
   */
  lemma ExactlyOneHot(rows: seq<Row>, cols: seq<string>, x: Row, j: nat)
    requires NoDuplicates(cols) && j < |cols|
    requires x in rows && Get(x, cols[j]) != Missing
    ensures var fs := Indicators(FitBlocks(rows, cols));
      exists h :: 0 <= h < |fs| && fs[h] == Indicator(cols[j], Get(x, cols[j])) &&
        forall k :: 0 <= k < |fs| && fs[k].column == cols[j] ==> (Value(x, fs[k]) == Num(1.0) <==> k == h)
  {
    var bs := FitBlocks(rows, cols);
    var v := Get(x, cols[j]);
    assert Columns(bs) == cols;
    assert v in bs[j].categories by {
      assert v != Missing && x in rows && Get(x, cols[j]) == v;
    }
    OneHotInBlock(bs, x, j);
  }

  /**
   * handle_unknown='ignore': a value of column `c` that is not among the
   * learned categories encodes as 0 in every indicator of `c`, without error.
   */
  lemma UnseenAllZero(e: Encoder, x: Row, c: string)
    requires e.Fitted?
    requires forall j :: 0 <= j < |e.blocks| && e.blocks[j].column == c ==> Get(x, c) !in e.blocks[j].categories
    ensures EncodedNames(e, Columns(e.blocks)).Ok?
    ensures forall k :: 0 <= k < |Indicators(e.blocks)| && Indicators(e.blocks)[k].column == c ==>
      Value(x, Indicators(e.blocks)[k]) == Num(0.0)
  {
    var fs := Indicators(e.blocks);
    forall k | 0 <= k < |fs| && fs[k].column == c ensures Value(x, fs[k]) == Num(0.0) {
      IndicatorsMembership(e.blocks, fs[k]);
    }
  }

  /**
   * Indicator features come block by block: of two positions i < k, the
   * first belongs to the same or an earlier block, and within one block the
   * categories ascend.
   */
  lemma {:induction false} IndicatorsOrder(bs: seq<Block>, i: nat, k: nat)
    requires i < k < |Indicators(bs)|
    requires forall j :: 0 <= j < |bs| ==> StrictlySorted(bs[j].categories)
    ensures exists a, b ::
              && 0 <= a <= b < |bs|
              && Indicators(bs)[i].column == bs[a].column && Indicators(bs)[k].column == bs[b].column
              && (a == b ==> CellLess(Indicators(bs)[i].category, Indicators(bs)[k].category))
    decreases |bs|
  {
    var b0 := bs[0];
    var first := seq(|b0.categories|, c requires 0 <= c < |b0.categories| => Indicator(b0.column, b0.categories[c]));
    var rest := Indicators(bs[1..]);
    var fs := first + rest;
    assert Indicators(bs) == fs;
    if k < |first| {
      assert fs[i] == first[i] && fs[k] == first[k];
      assert CellLess(fs[i].category, fs[k].category);
    } else if i < |first| {
      assert fs[k] == rest[k - |first|] && rest[k - |first|] in rest;
      IndicatorsMembership(bs[1..], fs[k]);
      var b :| 0 <= b < |bs[1..]| && bs[1..][b].column == fs[k].column && fs[k].category in bs[1..][b].categories;
      assert bs[b + 1] == bs[1..][b];
      assert fs[i].column == bs[0].column;
    } else {
      forall j | 0 <= j < |bs[1..]| ensures StrictlySorted(bs[1..][j].categories) {
        assert bs[1..][j] == bs[j + 1];
      }
      IndicatorsOrder(bs[1..], i - |first|, k - |first|);
      var a, b :| 0 <= a <= b < |bs[1..]| &&
        rest[i - |first|].column == bs[1..][a].column && rest[k - |first|].column == bs[1..][b].column &&
        (a == b ==> CellLess(rest[i - |first|].category, rest[k - |first|].category));
      assert bs[a + 1] == bs[1..][a] && bs[b + 1] == bs[1..][b];
      assert fs[i] == rest[i - |first|] && fs[k] == rest[k - |first|];
    }
  }
}
