/**
 * The numeric coercion both the analyzer and the prediction model apply to a
 * freshly loaded table: `ANO` is rendered as text, its commas become decimal
 * points and it is parsed as a float; `VALOR_F` is rendered as text, its
 * thousands commas are removed and it is parsed as a float.  Parsing is strict
 * (`astype(float)` raises on the first unparseable cell).
 */
module Preprocessing {
  import opened Frame
  import opened Text

  /** The text rewrite applied before parsing a column. */
  datatype Rewrite = CommaToPoint | DropCommas

  function Rewritten(rw: Rewrite, s: string): string
  {
    match rw
    case CommaToPoint => ReplaceChar(s, ',', '.')
    case DropCommas => RemoveChar(s, ',')
  }

  /**
   * One cell through `astype(str)`, the rewrite and `astype(float)`.  A number's
   * text form carries no comma and reads back as the same number, so numbers
   * pass through; a missing cell renders as "nan" and reads back as missing.
   */
  function CoerceCell(c: Cell, rw: Rewrite): (r: Result<Cell>)
    ensures r.Ok? ==> !r.value.Str?
    ensures r.Err? ==> c.Str?
  {
    if c.Num? then Ok(c)
    else
      var text := Rewritten(rw, CellText(c));
      if c.Missing? then
        MissingParses(rw);
        Ok(Missing)
      else
        match ParseFloat(text)
        case Some(v) => Ok(v)
        case None => Err(ValueError(text))
  }

  /** The text of a missing cell survives either rewrite and parses back as missing. */
  lemma MissingParses(rw: Rewrite)
    ensures ParseFloat(Rewritten(rw, CellText(Missing))) == Some(Missing)
  {
    if rw.DropCommas? {
      RemoveCharAbsent("nan", ',');
    }
    assert Rewritten(rw, "nan") == "nan";
    ParseNan();
  }

  /** `df[col] = df[col].astype(str).str.<rewrite>.astype(float)`: the first failure aborts. */
  function CoerceColumn(rows: seq<Row>, col: string, rw: Rewrite): (r: Result<seq<Row>>)
    ensures r.Ok? ==> |r.value| == |rows|
    ensures r.Ok? ==> forall i :: 0 <= i < |rows| ==>
      && col in r.value[i]
      && !r.value[i][col].Str?
      && r.value[i] == rows[i][col := r.value[i][col]]
    ensures r.Ok? ==> forall i :: 0 <= i < |rows| ==> CoerceCell(Get(rows[i], col), rw) == Ok(r.value[i][col])
    ensures r.Ok? <==> forall i :: 0 <= i < |rows| ==> CoerceCell(Get(rows[i], col), rw).Ok?
  {
    if rows == [] then Ok([])
    else
      var head := CoerceCell(Get(rows[0], col), rw);
      var tail := CoerceColumn(rows[1..], col, rw);
      if head.Err? then Err(head.error)
      else if tail.Err? then
        TailFails(rows, col, rw);
        Err(tail.error)
      else
        var out := [rows[0][col := head.value]] + tail.value;
        ConsRows(rows, out, tail.value);
        Ok(out)
  }

  /** A cell that fails to parse in the tail fails in the whole column. */
  lemma TailFails(rows: seq<Row>, col: string, rw: Rewrite)
    requires rows != []
    requires exists i :: 0 <= i < |rows[1..]| && CoerceCell(Get(rows[1..][i], col), rw).Err?
    ensures exists i :: 0 <= i < |rows| && CoerceCell(Get(rows[i], col), rw).Err?
  {
    var i :| 0 <= i < |rows[1..]| && CoerceCell(Get(rows[1..][i], col), rw).Err?;
    assert rows[1..][i] == rows[i + 1];
  }

  /** Positions past the head of a consed sequence are the tail's, shifted by one. */
  lemma ConsRows(rows: seq<Row>, out: seq<Row>, tail: seq<Row>)
    requires rows != [] && out != [] && out[1..] == tail
    ensures forall i :: 1 <= i < |out| ==> out[i] == tail[i - 1]
    ensures forall i :: 1 <= i < |rows| ==> rows[i] == rows[1..][i - 1]
  {
  }

  /** The ANO and VALOR_F columns, where present, hold no text. */
  predicate Coerced(t: Table)
  {
    && ("ANO" in t.columns ==> forall r :: r in t.rows ==> !Get(r, "ANO").Str?)
    && ("VALOR_F" in t.columns ==> forall r :: r in t.rows ==> !Get(r, "VALOR_F").Str?)
  }

  function CoerceIfPresent(t: Table, col: string, rw: Rewrite): Result<seq<Row>>
  {
    if col in t.columns then CoerceColumn(t.rows, col, rw) else Ok(t.rows)
  }

  /**
   * The two column coercions in order.  The table keeps its columns and rows;
   * only the ANO and VALOR_F cells change: where the column is present each
   * cell becomes `CoerceCell` of the old one under its rewrite (ANO with its
   * commas turned into points, VALOR_F with its commas dropped).
   */
  function Preprocess(t: Table): (r: Result<Table>)
    ensures r.Ok? ==> r.value.columns == t.columns && |r.value.rows| == |t.rows|
    ensures r.Ok? ==> Coerced(r.value)
    ensures r.Ok? ==> forall i, c :: 0 <= i < |t.rows| && c != "ANO" && c != "VALOR_F" ==>
      Get(r.value.rows[i], c) == Get(t.rows[i], c)
    ensures r.Ok? ==> forall i :: 0 <= i < |t.rows| ==>
      && ("ANO" in t.columns ==> CoerceCell(Get(t.rows[i], "ANO"), CommaToPoint) == Ok(Get(r.value.rows[i], "ANO")))
      && ("ANO" !in t.columns ==> Get(r.value.rows[i], "ANO") == Get(t.rows[i], "ANO"))
    ensures r.Ok? ==> forall i :: 0 <= i < |t.rows| ==>
      && ("VALOR_F" in t.columns ==> CoerceCell(Get(t.rows[i], "VALOR_F"), DropCommas) == Ok(Get(r.value.rows[i], "VALOR_F")))
      && ("VALOR_F" !in t.columns ==> Get(r.value.rows[i], "VALOR_F") == Get(t.rows[i], "VALOR_F"))
  {
    var a := CoerceIfPresent(t, "ANO", CommaToPoint);
    if a.Err? then Err(a.error)
    else
      var mid := Table(t.columns, a.value);
      var v := CoerceIfPresent(mid, "VALOR_F", DropCommas);
      if v.Err? then Err(v.error)
      else
        var out := Table(t.columns, v.value);
        assert forall i :: 0 <= i < |t.rows| ==> Get(out.rows[i], "ANO") == Get(a.value[i], "ANO");
        assert forall i :: 0 <= i < |t.rows| ==> Get(a.value[i], "VALOR_F") == Get(t.rows[i], "VALOR_F");
        assert forall r :: r in out.rows ==> exists i :: 0 <= i < |out.rows| && out.rows[i] == r;
        Ok(out)
  }

  /** Preprocessing fails exactly when some ANO or VALOR_F cell is text that does not parse after its rewrite. */
  lemma PreprocessFails(t: Table)
    ensures Preprocess(t).Err? <==>
      || ("ANO" in t.columns && exists i :: 0 <= i < |t.rows| && CoerceCell(Get(t.rows[i], "ANO"), CommaToPoint).Err?)
      || ("VALOR_F" in t.columns && exists i :: 0 <= i < |t.rows| && CoerceCell(Get(t.rows[i], "VALOR_F"), DropCommas).Err?)
  {
    var a := CoerceIfPresent(t, "ANO", CommaToPoint);
    if a.Ok? && "VALOR_F" in t.columns {
      forall i | 0 <= i < |t.rows|
        ensures Get(a.value[i], "VALOR_F") == Get(t.rows[i], "VALOR_F")
      {
      }
    }
  }

  /** A text cell is parsed after its rewrite; the error carries the rewritten text. */
  lemma CoerceText(s: string, rw: Rewrite)
    ensures CoerceCell(Str(s), rw) ==
      match ParseFloat(Rewritten(rw, s))
      case Some(v) => Ok(v)
      case None => Err(ValueError(Rewritten(rw, s)))
  {
  }

  lemma DigitsThousand()
    ensures DigitsValue("1000") == 1000
  {
    assert DigitsValue("1") == 1 by { assert "1"[..0] == ""; }
    assert DigitsValue("10") == 10 by { assert "10"[..1] == "1"; }
    assert DigitsValue("100") == 100 by { assert "100"[..2] == "10"; }
    assert "1000"[..3] == "100";
  }

  lemma ParseThousand()
    ensures ParseFloat("1000") == Some(Num(1000.0))
  {
    ParseFloatDigits("1000");
    DigitsThousand();
  }

  lemma DropThousandComma()
    ensures RemoveChar("1,000", ',') == "1000"
  {
    assert "1,000"[0] == '1' && "1,000"[1..] == ",000";
    assert ",000"[0] == ',' && ",000"[1..] == "000";
    RemoveCharAbsent("000", ',');
    assert ['1'] + "000" == "1000";
  }

  /** Thousands separators are removed: the VALOR_F text "1,000" becomes 1000. */
  lemma ThousandsSeparatorRemoved()
    ensures CoerceCell(Str("1,000"), DropCommas) == Ok(Num(1000.0))
  {
    DropThousandComma();
    CoerceText("1,000", DropCommas);
    ParseThousand();
  }

  lemma DigitsYear()
    ensures DigitsValue("2020") == 2020 && Fraction("0") == 0.0
  {
    assert DigitsValue("2") == 2 by { assert "2"[..0] == ""; }
    assert DigitsValue("20") == 20 by { assert "20"[..1] == "2"; }
    assert DigitsValue("202") == 202 by { assert "202"[..2] == "20"; }
    assert "2020"[..3] == "202";
    assert "0"[1..] == "";
  }

  lemma ParseYear()
    ensures ParseFloat("2020.0") == Some(Num(2020.0))
  {
    assert "2020.0" == "2020" + "." + "0";
    ParseFloatDecimal("2020.0", "2020", "0");
    DigitsYear();
  }

  /** A decimal comma in ANO becomes a point: "2020,0" reads as 2020. */
  lemma YearDecimalComma()
    ensures CoerceCell(Str("2020,0"), CommaToPoint) == Ok(Num(2020.0))
  {
    var t := Rewritten(CommaToPoint, "2020,0");
    assert t == "2020.0" by {
      var r := ReplaceChar("2020,0", ',', '.');
      assert |r| == 6 && r[0] == '2' && r[1] == '0' && r[2] == '2' && r[3] == '0' && r[4] == '.' && r[5] == '0';
    }
    CoerceText("2020,0", CommaToPoint);
    ParseYear();
  }

  lemma CoerceCellStable(c: Cell, rw: Rewrite)
    requires !c.Str?
    ensures CoerceCell(c, rw) == Ok(c)
  {
  }

  lemma {:induction false} CoerceColumnStable(rows: seq<Row>, col: string, rw: Rewrite)
    requires forall i :: 0 <= i < |rows| ==> col in rows[i] && !rows[i][col].Str?
    ensures CoerceColumn(rows, col, rw) == Ok(rows)
    decreases |rows|
  {
    if rows != [] {
      CoerceCellStable(Get(rows[0], col), rw);
      CoerceColumnStable(rows[1..], col, rw);
      assert rows[0][col := rows[0][col]] == rows[0];
      assert rows == [rows[0]] + rows[1..];
    }
  }

  /** Preprocessing an already preprocessed table changes nothing. */
  lemma PreprocessIdempotent(t: Table)
    requires Preprocess(t).Ok?
    ensures Preprocess(Preprocess(t).value) == Preprocess(t)
  {
    var a := CoerceIfPresent(t, "ANO", CommaToPoint);
    var u := Preprocess(t).value;
    var v := CoerceIfPresent(Table(t.columns, a.value), "VALOR_F", DropCommas);
    assert u.rows == v.value;
    if "ANO" in t.columns {
      forall i | 0 <= i < |u.rows| ensures "ANO" in u.rows[i] && !u.rows[i]["ANO"].Str? {
        if "VALOR_F" in t.columns {
          assert Get(u.rows[i], "ANO") == Get(a.value[i], "ANO");
        }
      }
      CoerceColumnStable(u.rows, "ANO", CommaToPoint);
    }
    if "VALOR_F" in t.columns {
      CoerceColumnStable(u.rows, "VALOR_F", DropCommas);
    }
  }
}
