/**
 * The wide-to-long step both crop scripts apply to a crop table: `melt` on
 * the id columns and the year columns (the year name under ANO, the year's
 * cell under HECTAREAS), the strict numeric conversion of ANO, the coercing
 * conversion of HECTAREAS, `dropna` on HECTAREAS, and the crop-type tag.
 */
module CropLong {
  import opened Frame
  import opened Text
  import opened Grouping
  import opened Aggregate
  import opened Sorting
  import opened Join
  import opened Crops

  const Hectares := "HECTAREAS"

  /** A melted row after `pd.to_numeric` on ANO and on the hectares. */
  function Typed(m: Row): Row
  {
    m["ANO" := ToNumeric(Get(m, "ANO"))][Hectares := ToNumeric(Get(m, Hectares))]
  }

  /** The typed melted rows that hold a number of hectares, in their order. */
  function Kept(melted: seq<Row>): seq<Row>
  {
    DropNa(CoerceNumeric(CoerceNumeric(melted, "ANO"), Hectares), [Hectares])
  }

  /** The long rows: melted, typed, those without hectares dropped, each tagged with the crop type. */
  function LongRows(rows: seq<Row>, ids: seq<string>, years: seq<string>, cropType: string): seq<Row>
  {
    SetColumn(Kept(Melt(rows, ids, years, Hectares)), "TIPO_CULTIVO", Str(cropType))
  }

  /** The long row `out` is the one of input row `x` and year column `y`. */
  predicate LongFrom(out: Row, x: Row, y: string, ids: seq<string>, cropType: string)
  {
    && Get(out, "ANO") == ToNumeric(Str(y))
    && Get(out, Hectares) == ToNumeric(Get(x, y))
    && Get(out, "TIPO_CULTIVO") == Str(cropType)
    && forall c :: c in ids && c != "ANO" && c != Hectares && c != "TIPO_CULTIVO" ==> c in out && out[c] == Get(x, c)
  }

  /** A long row holds the cell of its input row under an id column. */
  lemma LongFromId(out: Row, x: Row, y: string, ids: seq<string>, cropType: string, c: string)
    requires LongFrom(out, x, y, ids, cropType)
    requires c in ids && c != "ANO" && c != Hectares && c != "TIPO_CULTIVO"
    ensures c in out && out[c] == Get(x, c)
  {
  }

  /** A year name made only of digits reads back as the number it spells. */
  lemma YearValue(y: string)
    requires IsDigits(y)
    ensures ToNumeric(Str(y)) == Num(DigitsValue(y) as real)
  {
    ParseFloatDigits(y);
  }

  /** Typing changes the year and the hectares and no other cell. */
  lemma TypedCells(m: Row)
    ensures Get(Typed(m), "ANO") == ToNumeric(Get(m, "ANO"))
    ensures Get(Typed(m), Hectares) == ToNumeric(Get(m, Hectares))
    ensures forall c :: c in m && c != "ANO" && c != Hectares ==> c in Typed(m) && Typed(m)[c] == m[c]
  {
  }

  /** The tagged typed melted row of `x` and `y` carries their cells. */
  lemma TypedFrom(x: Row, y: string, ids: seq<string>, cropType: string)
    ensures LongFrom(Typed(MeltRow(x, ids, y, Hectares))["TIPO_CULTIVO" := Str(cropType)], x, y, ids, cropType)
  {
    TypedCellsOf(x, y, ids, cropType);
    TypedIds(x, y, ids, cropType);
  }

  lemma TypedCellsOf(x: Row, y: string, ids: seq<string>, cropType: string)
    ensures var out := Typed(MeltRow(x, ids, y, Hectares))["TIPO_CULTIVO" := Str(cropType)];
      && Get(out, "ANO") == ToNumeric(Str(y))
      && Get(out, Hectares) == ToNumeric(Get(x, y))
      && Get(out, "TIPO_CULTIVO") == Str(cropType)
  {
    TypedCells(MeltRow(x, ids, y, Hectares));
  }

  lemma TypedIds(x: Row, y: string, ids: seq<string>, cropType: string)
    ensures var out := Typed(MeltRow(x, ids, y, Hectares))["TIPO_CULTIVO" := Str(cropType)];
      forall c :: c in ids && c != "ANO" && c != Hectares && c != "TIPO_CULTIVO" ==> c in out && out[c] == Get(x, c)
  {
    TypedCells(MeltRow(x, ids, y, Hectares));
  }

  /** A kept row is a typed melted row that holds a number of hectares. */
  lemma KeptRow(melted: seq<Row>, d: Row) returns (l: nat)
    requires d in Kept(melted)
    ensures Get(d, Hectares).Num?
    ensures l < |melted| && d == Typed(melted[l])
  {
    var typed := CoerceNumeric(CoerceNumeric(melted, "ANO"), Hectares);
    l :| 0 <= l < |typed| && typed[l] == d;
    assert [Hectares][0] == Hectares;
  }

  /** A typed melted row that holds hectares is kept. */
  lemma KeptComplete(melted: seq<Row>, l: nat) returns (j: nat)
    requires l < |melted| && Get(Typed(melted[l]), Hectares) != Missing
    ensures j < |Kept(melted)| && Kept(melted)[j] == Typed(melted[l])
  {
    var typed := CoerceNumeric(CoerceNumeric(melted, "ANO"), Hectares);
    assert typed[l] == Typed(melted[l]);
    assert [Hectares][0] == Hectares;
    var kept := Kept(melted);
    assert typed[l] in kept;
    j :| 0 <= j < |kept| && kept[j] == typed[l];
  }

  /** The input row and year column a melted row comes from. */
  lemma MeltSource(rows: seq<Row>, ids: seq<string>, years: seq<string>, m: Row) returns (i: nat, k: nat)
    requires m in Melt(rows, ids, years, Hectares)
    ensures i < |rows| && k < |years| && m == MeltRow(rows[i], ids, years[k], Hectares)
  {
    MeltMembership(rows, ids, years, Hectares, m);
    i, k :| 0 <= i < |rows| && 0 <= k < |years| && m == MeltRow(rows[i], ids, years[k], Hectares);
  }

  /**
   * Every long row comes from one input row and one year column: its year
   * and hectares converted, its hectares a number, its id cells copied, its
   * crop type the tag.
   */
  lemma LongSound(rows: seq<Row>, ids: seq<string>, years: seq<string>, cropType: string, out: Row)
    returns (i: nat, k: nat)
    requires out in LongRows(rows, ids, years, cropType)
    ensures Get(out, Hectares).Num?
    ensures i < |rows| && k < |years| && LongFrom(out, rows[i], years[k], ids, cropType)
  {
    var melted := Melt(rows, ids, years, Hectares);
    var kept := Kept(melted);
    var long := LongRows(rows, ids, years, cropType);
    var j :| 0 <= j < |long| && long[j] == out;
    var l := KeptRow(melted, kept[j]);
    i, k := MeltSource(rows, ids, years, melted[l]);
    TypedFrom(rows[i], years[k], ids, cropType);
  }

  /** Every (input row, year column) pair whose cell converts to a number gives a long row. */
  lemma LongComplete(rows: seq<Row>, ids: seq<string>, years: seq<string>, cropType: string, i: nat, k: nat)
    returns (j: nat)
    requires i < |rows| && k < |years| && ToNumeric(Get(rows[i], years[k])).Num?
    ensures j < |LongRows(rows, ids, years, cropType)|
    ensures LongFrom(LongRows(rows, ids, years, cropType)[j], rows[i], years[k], ids, cropType)
  {
    var melted := Melt(rows, ids, years, Hectares);
    var m := MeltRow(rows[i], ids, years[k], Hectares);
    MeltMembership(rows, ids, years, Hectares, m);
    var l :| 0 <= l < |melted| && melted[l] == m;
    j := KeptComplete(melted, l);
    TypedFrom(rows[i], years[k], ids, cropType);
  }

  /** The cell of year column `y` converts to a number. */
  function ConvertsAt(y: string): Row -> bool
  {
    x => ToNumeric(Get(x, y)).Num?
  }

  /** The (year column, input row) pairs whose cell converts to a number. */
  function ConvertingPairs(rows: seq<Row>, years: seq<string>): nat
  {
    if years == [] then 0 else Count(rows, ConvertsAt(years[0])) + ConvertingPairs(rows, years[1..])
  }

  /** `dropna` keeps exactly the melted rows whose hectares convert to a number. */
  lemma {:induction false} KeptCount(melted: seq<Row>)
    ensures |Kept(melted)| == Count(melted, ConvertsAt(Hectares))
    decreases |melted|
  {
    if melted != [] {
      KeptCount(melted[1..]);
      var c := CoerceNumeric(CoerceNumeric(melted, "ANO"), Hectares);
      assert c[1..] == CoerceNumeric(CoerceNumeric(melted[1..], "ANO"), Hectares);
      var h := ToNumeric(Get(melted[0], Hectares));
      assert Get(c[0], Hectares) == h;
      assert [Hectares][0] == Hectares;
      assert NotNull(c[0], [Hectares]) <==> h != Missing;
      assert h != Missing <==> h.Num?;
    }
  }

  /** The block of the melt for one year column holds as many numbers as that column converts. */
  lemma {:induction false} BlockCount(rows: seq<Row>, ids: seq<string>, y: string)
    ensures Count(seq(|rows|, i requires 0 <= i < |rows| => MeltRow(rows[i], ids, y, Hectares)), ConvertsAt(Hectares))
            == Count(rows, ConvertsAt(y))
    decreases |rows|
  {
    if rows != [] {
      var block := seq(|rows|, i requires 0 <= i < |rows| => MeltRow(rows[i], ids, y, Hectares));
      BlockCount(rows[1..], ids, y);
      assert block[1..] == seq(|rows[1..]|, i requires 0 <= i < |rows[1..]| => MeltRow(rows[1..][i], ids, y, Hectares));
      assert Get(block[0], Hectares) == Get(rows[0], y);
    }
  }

  lemma {:induction false} MeltCount(rows: seq<Row>, ids: seq<string>, years: seq<string>)
    ensures Count(Melt(rows, ids, years, Hectares), ConvertsAt(Hectares)) == ConvertingPairs(rows, years)
    decreases |years|
  {
    if years != [] {
      var block := seq(|rows|, i requires 0 <= i < |rows| => MeltRow(rows[i], ids, years[0], Hectares));
      MeltCount(rows, ids, years[1..]);
      BlockCount(rows, ids, years[0]);
      CountAppend(block, Melt(rows, ids, years[1..], Hectares), ConvertsAt(Hectares));
    }
  }

  lemma {:induction false} PairsBound(rows: seq<Row>, years: seq<string>)
    ensures ConvertingPairs(rows, years) <= |years| * |rows|
    decreases |years|
  {
    if years != [] {
      PairsBound(rows, years[1..]);
      CountBound(rows, ConvertsAt(years[0]));
      assert |years| * |rows| == |rows| + (|years| - 1) * |rows|;
    }
  }

  /**
   * Exactly one long row per (year column, input row) pair whose cell
   * converts to a number, hence at most one per pair.
   */
  lemma LongLength(rows: seq<Row>, ids: seq<string>, years: seq<string>, cropType: string)
    ensures |LongRows(rows, ids, years, cropType)| == ConvertingPairs(rows, years)
    ensures |LongRows(rows, ids, years, cropType)| <= |years| * |rows|
  {
    KeptCount(Melt(rows, ids, years, Hectares));
    MeltCount(rows, ids, years);
    PairsBound(rows, years);
  }

  /**
   * Lines 34-44 of the simple script (46-56 and 93-103 of the other):
   * `melt`, the strict conversion of ANO, the coercion of HECTAREAS, `dropna`
   * on it and the crop-type column, each stage replacing the table.  The year
   * columns are digit strings, as both scripts select them.
   */
  method MeltAndClean(t: Table, ids: seq<string>, years: seq<string>, cropType: string) returns (r: Result<Table>)
    requires forall k :: 0 <= k < |years| ==> IsDigits(years[k])
    ensures r.Err? <==> !HasAll(t, ids)
    ensures r.Err? ==> r.error.KeyError? && r.error.column in ids && r.error.column !in t.columns
    ensures r.Ok? ==> r.value.columns == WithColumn(ids + ["ANO", Hectares], "TIPO_CULTIVO")
    ensures r.Ok? ==> r.value.rows == LongRows(t.rows, ids, years, cropType)
  {
    var melted := MeltTable(t, ids, years, Hectares);
    if melted.Err? {
      return Err(melted.error);
    }
    var long := melted.value;
    YearsParse(t.rows, ids, years, Hectares);
    var rows := StrictNumeric(long.rows, "ANO").value;
    rows := CoerceNumeric(rows, Hectares);
    rows := DropNa(rows, [Hectares]);
    long := Table(WithColumn(long.columns, "TIPO_CULTIVO"), SetColumn(rows, "TIPO_CULTIVO", Str(cropType)));
    return Ok(long);
  }

  // ---- per-crop totals of a merged table ----

  const CropPair: seq<string> := ["CULTIVO", "TIPO_CULTIVO"]
  const AnalysisColumns: seq<string> := CropPair + ["VALOR_F", Hectares]

  lemma TotalNamesDistinct()
    ensures NoDuplicates(AnalysisColumns)
  {
    var s := ["CULTIVO", "TIPO_CULTIVO", "VALOR_F", "HECTAREAS"];
    DistinctNames(s);
    assert AnalysisColumns == s;
  }

  /** A per-crop total: its crop occurs among the merged rows, and its VALOR_F and HECTAREAS are that crop's sums. */
  lemma CropTotal(merged: Table, i: nat) returns (y: Row)
    requires GroupSums(merged, CropPair, ["VALOR_F", Hectares]).Ok?
    requires i < |GroupSums(merged, CropPair, ["VALOR_F", Hectares]).value.rows|
    ensures var x := GroupSums(merged, CropPair, ["VALOR_F", Hectares]).value.rows[i];
      var k := KeyOf(x, CropPair);
      && y in merged.rows && KeyOf(y, CropPair) == k
      && Get(x, "VALOR_F") == Num(Sum(Values(Members(merged.rows, CropPair, k), "VALOR_F")))
      && Get(x, Hectares) == Num(Sum(Values(Members(merged.rows, CropPair, k), Hectares)))
  {
    var cols := ["VALOR_F", Hectares];
    var x := GroupSums(merged, CropPair, cols).value.rows[i];
    TotalNamesDistinct();
    GroupSumsRow(merged, CropPair, cols, i);
    y :| y in merged.rows && KeyOf(y, CropPair) == KeyOf(x, CropPair);
    assert cols[0] == "VALOR_F" && cols[1] == Hectares;
  }
}
