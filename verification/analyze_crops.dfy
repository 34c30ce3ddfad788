/**
 * The crops-and-CO2 script (co2_microservice/scripts/analyze_crops.py): the
 * two crop tables reshaped to one row per (crop row, four-digit year
 * column), stacked when both have rows, hectares summed per (year, crop,
 * crop type) and joined by year with the CO2 totals per year, then the
 * per-crop totals and the fifteen crops with the largest CO2 total.
 *
 * Printing and file output are left out.  Line 135 prints the merged year
 * range with `int(merged['ANO'].min())`, which raises when the merge is
 * empty; `AnalyzeAsWritten` models that, `Analyze` the intended fall-through
 * to the message at lines 180-181.
 */
module AnalyzeCrops {
  import opened Frame
  import opened Text
  import opened Grouping
  import opened Aggregate
  import opened Sorting
  import opened Join
  import opened Crops
  import opened CropLong

  // ---- one crop table ----

  /** Lines 42-44: the crop column (Tipo before TIPO, else none), then Departamento when present. */
  function IdColumns(cols: seq<string>): (ids: seq<string>)
    ensures forall c :: c in ids ==> c in cols
    ensures forall c :: c in ids ==> c == "Tipo" || c == "TIPO" || c == "Departamento"
    ensures "Tipo" in ids <==> "Tipo" in cols
    ensures "TIPO" in ids <==> "TIPO" in cols && "Tipo" !in cols
    ensures "Departamento" in ids <==> "Departamento" in cols
  {
    (if "Tipo" in cols then ["Tipo"] else if "TIPO" in cols then ["TIPO"] else [])
      + (if "Departamento" in cols then ["Departamento"] else [])
  }

  /**
   * The column renamed to CULTIVO: Tipo, else (for the transitory table,
   * lines 59-62) TIPO; the permanent table renames only Tipo (lines 105-106).
   */
  function CropName(cols: seq<string>, fallback: bool): (r: Option<string>)
  {
    if "Tipo" in cols then Some("Tipo")
    else if fallback && "TIPO" in cols then Some("TIPO")
    else None
  }

  /** The melted, converted and tagged table before the rename. */
  function LongTable(t: Table, cropType: string): Table
  {
    var ids := IdColumns(t.columns);
    Table(WithColumn(ids + ["ANO", Hectares], "TIPO_CULTIVO"), LongRows(t.rows, ids, Filter(t.columns, FourDigitYear), cropType))
  }

  /**
   * One crop table after lines 24-68 (75-112): an empty table when it has no
   * four-digit year column; otherwise the long table with its crop column
   * renamed to CULTIVO, or the KeyError the `nunique` of CULTIVO at line 65
   * (109) raises when no column was renamed.
   */
  function Reshaped(t: Table, cropType: string, fallback: bool): Result<Table>
  {
    if Filter(t.columns, FourDigitYear) == [] then Ok(Table([], []))
    else
      match CropName(t.columns, fallback)
      case None => Err(KeyError("CULTIVO"))
      case Some(name) => Ok(Rename(LongTable(t, cropType), name, "CULTIVO"))
  }

  /** The selected year columns are digit strings. */
  lemma FourDigitYears(cols: seq<string>)
    ensures forall k :: 0 <= k < |Filter(cols, FourDigitYear)| ==> IsDigits(Filter(cols, FourDigitYear)[k])
  {
    var years := Filter(cols, FourDigitYear);
    forall k | 0 <= k < |years| ensures IsDigits(years[k]) {
      assert years[k] in years;
    }
  }

  /** Which names the long table's columns hold: the id columns, ANO, HECTAREAS, the tag, never CULTIVO. */
  lemma LongColumns(cols: seq<string>)
    ensures var long := WithColumn(IdColumns(cols) + ["ANO", Hectares], "TIPO_CULTIVO");
      && ("Tipo" in long <==> "Tipo" in cols)
      && ("TIPO" in long <==> "TIPO" in cols && "Tipo" !in cols)
      && "CULTIVO" !in long
      && "ANO" in long && Hectares in long && "TIPO_CULTIVO" in long
  {
    var ids := IdColumns(cols);
    var base := ids + ["ANO", Hectares];
    assert forall c :: c in base <==> c in ids || c == "ANO" || c == Hectares;
  }

  /**
   * Lines 24-68 (75-112) step by step: the year loop, the id columns, the
   * melt with its conversions, the rename, and the KeyError of line 65 (109)
   * when there is no CULTIVO column.
   */
  method ReshapeCrops(t: Table, cropType: string, fallback: bool) returns (r: Result<Table>)
    ensures r == Reshaped(t, cropType, fallback)
  {
    var years := YearColumns(t.columns, FourDigitYear);
    if |years| == 0 {
      return Ok(Table([], []));
    }
    var ids := IdColumns(t.columns);
    FourDigitYears(t.columns);
    var long := MeltAndClean(t, ids, years, cropType);
    var table := long.value;
    assert table == LongTable(t, cropType);
    LongColumns(t.columns);
    if "Tipo" in table.columns {
      RenameColumns(table, "Tipo", "CULTIVO", "Tipo");
      table := Rename(table, "Tipo", "CULTIVO");
    } else if fallback && "TIPO" in table.columns {
      RenameColumns(table, "TIPO", "CULTIVO", "TIPO");
      table := Rename(table, "TIPO", "CULTIVO");
    }
    if "CULTIVO" !in table.columns {
      return Err(KeyError("CULTIVO"));
    }
    return Ok(table);
  }

  /** The reshaped row `out` is the one of input row `x` and year column `y`, with crop column `name`. */
  predicate ReshapedFrom(out: Row, x: Row, y: string, name: string, ids: seq<string>, cropType: string)
  {
    && Get(out, "ANO") == ToNumeric(Str(y))
    && Get(out, Hectares) == ToNumeric(Get(x, y))
    && Get(out, "CULTIVO") == Get(x, name)
    && Get(out, "TIPO_CULTIVO") == Str(cropType)
    && ("Departamento" in ids ==> Get(out, "Departamento") == Get(x, "Departamento"))
  }

  /** Renaming the crop column of a long row moves its crop cell to CULTIVO and keeps the rest. */
  lemma RenamedFrom(d: Row, x: Row, y: string, name: string, ids: seq<string>, cropType: string)
    requires LongFrom(d, x, y, ids, cropType)
    requires name in ids && (name == "Tipo" || name == "TIPO")
    ensures ReshapedFrom(RenameRow(d, name, "CULTIVO"), x, y, name, ids, cropType)
  {
    assert name in d && d[name] == Get(x, name);
    if "Departamento" in ids {
      assert "Departamento" in d && d["Departamento"] == Get(x, "Departamento");
    }
  }

  /**
   * Every reshaped row comes from one input row and one four-digit year
   * column: its year is the number the column name spells, its hectares the
   * number the cell converts to (rows whose cell does not convert are
   * dropped), its crop the cell of the renamed column, its tag the table's.
   */
  lemma ReshapedSound(t: Table, cropType: string, fallback: bool, out: Row) returns (i: nat, k: nat)
    requires Reshaped(t, cropType, fallback).Ok? && out in Reshaped(t, cropType, fallback).value.rows
    ensures CropName(t.columns, fallback).Some?
    ensures i < |t.rows| && k < |Filter(t.columns, FourDigitYear)|
    ensures var y := Filter(t.columns, FourDigitYear)[k];
      && FourDigitYear(y)
      && ReshapedFrom(out, t.rows[i], y, CropName(t.columns, fallback).value, IdColumns(t.columns), cropType)
      && Get(out, "ANO") == Num(DigitsValue(y) as real)
    ensures Get(out, Hectares).Num?
  {
    var years := Filter(t.columns, FourDigitYear);
    var ids := IdColumns(t.columns);
    var name := CropName(t.columns, fallback).value;
    var long := LongTable(t, cropType).rows;
    var rows := Reshaped(t, cropType, fallback).value.rows;
    var j :| 0 <= j < |rows| && rows[j] == out;
    assert out == RenameRow(long[j], name, "CULTIVO");
    i, k := LongSound(t.rows, ids, years, cropType, long[j]);
    RenamedFrom(long[j], t.rows[i], years[k], name, ids, cropType);
    assert years[k] in years;
    YearValue(years[k]);
  }

  /** Every (input row, year column) pair whose cell converts to a number gives a reshaped row. */
  lemma ReshapedComplete(t: Table, cropType: string, fallback: bool, i: nat, k: nat) returns (j: nat)
    requires Reshaped(t, cropType, fallback).Ok?
    requires i < |t.rows| && k < |Filter(t.columns, FourDigitYear)|
    requires ToNumeric(Get(t.rows[i], Filter(t.columns, FourDigitYear)[k])).Num?
    ensures CropName(t.columns, fallback).Some?
    ensures j < |Reshaped(t, cropType, fallback).value.rows|
    ensures ReshapedFrom(Reshaped(t, cropType, fallback).value.rows[j], t.rows[i], Filter(t.columns, FourDigitYear)[k],
                         CropName(t.columns, fallback).value, IdColumns(t.columns), cropType)
  {
    var years := Filter(t.columns, FourDigitYear);
    var ids := IdColumns(t.columns);
    var name := CropName(t.columns, fallback).value;
    var long := LongTable(t, cropType).rows;
    j := LongComplete(t.rows, ids, years, cropType, i, k);
    RenamedFrom(long[j], t.rows[i], years[k], name, ids, cropType);
  }

  const YearKeys: seq<string> := ["ANO", "CULTIVO", "TIPO_CULTIVO"]

  /** A reshaped table with rows has the columns the yearly grouping at line 128 names. */
  lemma ReshapedColumns(t: Table, cropType: string, fallback: bool)
    requires Reshaped(t, cropType, fallback).Ok? && !Empty(Reshaped(t, cropType, fallback).value)
    ensures HasAll(Reshaped(t, cropType, fallback).value, YearKeys + [Hectares])
  {
    var long := LongTable(t, cropType);
    var name := CropName(t.columns, fallback).value;
    var r := Reshaped(t, cropType, fallback).value;
    assert r == Rename(long, name, "CULTIVO");
    LongColumns(t.columns);
    RenameColumns(long, name, "CULTIVO", name);
    RenameColumns(long, name, "CULTIVO", "ANO");
    RenameColumns(long, name, "CULTIVO", "TIPO_CULTIVO");
    RenameColumns(long, name, "CULTIVO", Hectares);
    assert YearKeys + [Hectares] == ["ANO", "CULTIVO", "TIPO_CULTIVO", Hectares];
  }

  // ---- combining and merging ----

  /** Line 116: the two reshaped tables are stacked only when neither is empty. */
  function Stacked(ct: Table, cp: Table): Result<Option<Table>>
  {
    match Reshaped(ct, "TRANSITORIO", true)
    case Err(e) => Err(e)
    case Ok(ctLong) =>
      match Reshaped(cp, "PERMANENTE", false)
      case Err(e) => Err(e)
      case Ok(cpLong) =>
        if !Empty(ctLong) && !Empty(cpLong) then Ok(Some(Concat(ctLong, cpLong))) else Ok(None)
  }

  /** The stacked table has the columns the yearly grouping names, and the transitory rows before the permanent ones. */
  lemma StackedColumns(ct: Table, cp: Table)
    requires Stacked(ct, cp).Ok? && Stacked(ct, cp).value.Some?
    ensures HasAll(Stacked(ct, cp).value.value, YearKeys + [Hectares])
    ensures Stacked(ct, cp).value.value.rows ==
      Reshaped(ct, "TRANSITORIO", true).value.rows + Reshaped(cp, "PERMANENTE", false).value.rows
  {
    var a := Reshaped(ct, "TRANSITORIO", true).value;
    var b := Reshaped(cp, "PERMANENTE", false).value;
    ReshapedColumns(ct, "TRANSITORIO", true);
    var all := Concat(a, b);
    var cs := YearKeys + [Hectares];
    forall i | 0 <= i < |cs| ensures cs[i] in all.columns {
      assert cs[i] in a.columns;
    }
  }

  const YearLayout: seq<string> := YearKeys + [Hectares, "VALOR_F"]

  /** Joining the yearly hectare sums with the yearly CO2 sums on ANO renames nothing and adds VALOR_F. */
  lemma YearlyLayout()
    ensures NoDuplicates(YearKeys + [Hectares]) && NoDuplicates(["ANO", "VALOR_F"]) && NoDuplicates(YearLayout)
    ensures MergedColumns(YearKeys + [Hectares], ["ANO", "VALOR_F"], ["ANO"], Suffixes("_x", "_y")) == YearLayout
  {
    DistinctNames(YearKeys + [Hectares]);
    DistinctNames(["ANO", "VALOR_F"]);
    DistinctNames(YearLayout);
    assert ["ANO"] + ["VALOR_F"] == ["ANO", "VALOR_F"];
    MergedAddsColumn(YearKeys + [Hectares], ["ANO"], "VALOR_F", Suffixes("_x", "_y"));
  }

  /**
   * Lines 123-133: CO2 summed per year, hectares summed per (year, crop, crop
   * type), joined on the year; a KeyError for a missing column.
   */
  function YearlyMerged(crops: Table, co2: Table): (r: Result<Table>)
    ensures r.Err? <==> !HasAll(co2, ["ANO", "VALOR_F"]) || !HasAll(crops, YearKeys + [Hectares])
    ensures r.Err? ==> r.error.KeyError?
    ensures r.Ok? ==> r.value.columns == YearLayout
  {
    assert ["ANO"] + ["VALOR_F"] == ["ANO", "VALOR_F"];
    match GroupSums(co2, ["ANO"], ["VALOR_F"])
    case Err(e) => Err(e)
    case Ok(co2Yearly) =>
      match GroupSums(crops, YearKeys, [Hectares])
      case Err(e) => Err(e)
      case Ok(cropsYearly) =>
        YearlyLayout();
        Ok(InnerJoin(cropsYearly, co2Yearly, ["ANO"], Suffixes("_x", "_y")))
  }

  /** The name facts the yearly join relies on. */
  lemma YearlyJoinNames()
    ensures NoDuplicates(YearKeys + [Hectares]) && NoDuplicates(["ANO"] + ["VALOR_F"])
    ensures YearKeys[..1] == ["ANO"] && "VALOR_F" !in YearKeys + [Hectares]
    ensures NoDuplicates(MergedColumns(YearKeys + [Hectares], ["ANO"] + ["VALOR_F"], ["ANO"], Suffixes("_x", "_y")))
  {
    YearlyLayout();
    assert ["ANO"] + ["VALOR_F"] == ["ANO", "VALOR_F"];
  }

  /** A merged yearly table is the join of the two yearly summaries. */
  lemma YearlyMergedIs(crops: Table, co2: Table)
    requires YearlyMerged(crops, co2).Ok?
    ensures GroupSums(crops, YearKeys, [Hectares]).Ok? && GroupSums(co2, ["ANO"], ["VALOR_F"]).Ok?
    ensures YearlyMerged(crops, co2).value ==
      InnerJoin(GroupSums(crops, YearKeys, [Hectares]).value, GroupSums(co2, ["ANO"], ["VALOR_F"]).value, ["ANO"], Suffixes("_x", "_y"))
  {
  }

  /**
   * Every merged row's year is that of some crop row `y` and of some CO2 row
   * `z`, and its VALOR_F is the CO2 total over exactly the CO2 rows of that
   * year.
   */
  lemma YearRowSource(crops: Table, co2: Table, x: Row) returns (y: Row, z: Row)
    requires YearlyMerged(crops, co2).Ok? && x in YearlyMerged(crops, co2).value.rows
    ensures y in crops.rows && Get(y, "ANO") == Get(x, "ANO")
    ensures z in co2.rows && Get(z, "ANO") == Get(x, "ANO")
    ensures Get(x, "VALOR_F") == Num(Sum(Values(Members(co2.rows, ["ANO"], KeyOf(x, ["ANO"])), "VALOR_F")))
  {
    YearlyMergedIs(crops, co2);
    YearlyJoinNames();
    y, z := SummedJoinRow(crops, YearKeys, [Hectares], co2, ["ANO"], "VALOR_F", Suffixes("_x", "_y"), x);
    assert KeyOf(y, ["ANO"])[0] == KeyOf(x, ["ANO"])[0];
    assert KeyOf(z, ["ANO"])[0] == KeyOf(x, ["ANO"])[0];
  }

  /**
   * Every merged row's (ANO, CULTIVO, TIPO_CULTIVO) is that of some crop
   * row, and its HECTAREAS is the total over exactly the crop rows with that
   * key.
   */
  lemma YearlyHectares(crops: Table, co2: Table, x: Row) returns (y: Row)
    requires YearlyMerged(crops, co2).Ok? && x in YearlyMerged(crops, co2).value.rows
    ensures y in crops.rows && KeyOf(y, YearKeys) == KeyOf(x, YearKeys)
    ensures Get(x, Hectares) == Num(Sum(Values(Members(crops.rows, YearKeys, KeyOf(x, YearKeys)), Hectares)))
  {
    YearlyMergedIs(crops, co2);
    YearlyJoinNames();
    y := SummedJoinLeft(crops, YearKeys, [Hectares], co2, ["ANO"], "VALOR_F", Suffixes("_x", "_y"), x, 0);
  }

  /**
   * Every crop row with a complete key whose year some CO2 row has reaches
   * the merge: a merged row carries its key.
   */
  lemma YearlyComplete(crops: Table, co2: Table, y: Row, z: Row) returns (x: Row)
    requires YearlyMerged(crops, co2).Ok?
    requires y in crops.rows && NotNull(y, YearKeys) && z in co2.rows && Get(z, "ANO") == Get(y, "ANO")
    ensures x in YearlyMerged(crops, co2).value.rows && KeyOf(x, YearKeys) == KeyOf(y, YearKeys)
  {
    YearlyMergedIs(crops, co2);
    YearlyJoinNames();
    assert KeyOf(z, ["ANO"]) == KeyOf(y, ["ANO"]);
    x := SummedJoinComplete(crops, YearKeys, [Hectares], co2, ["ANO"], "VALOR_F", Suffixes("_x", "_y"), y, z);
  }

  /** A summary row's year is the year of some input row. */
  lemma SummaryYear(t: Table, keys: seq<string>, cols: seq<string>, a: Row) returns (y: Row)
    requires GroupSums(t, keys, cols).Ok? && NoDuplicates(keys + cols)
    requires |keys| > 0 && keys[0] == "ANO"
    requires a in GroupSums(t, keys, cols).value.rows
    ensures y in t.rows && Get(y, "ANO") == Get(a, "ANO")
  {
    var rows := GroupSums(t, keys, cols).value.rows;
    var i :| 0 <= i < |rows| && rows[i] == a;
    GroupSumsRow(t, keys, cols, i);
    y :| y in t.rows && KeyOf(y, keys) == KeyOf(a, keys);
    assert KeyOf(y, keys)[0] == KeyOf(a, keys)[0];
  }

  /** When no crop year is a CO2 year, the merge has no rows. */
  lemma NoCommonYear(crops: Table, co2: Table)
    requires YearlyMerged(crops, co2).Ok?
    requires forall y, z :: y in crops.rows && z in co2.rows ==> Get(y, "ANO") != Get(z, "ANO")
    ensures YearlyMerged(crops, co2).value.rows == []
  {
    YearlyMergedIs(crops, co2);
    YearlyJoinNames();
    var cs := GroupSums(crops, YearKeys, [Hectares]).value;
    var co := GroupSums(co2, ["ANO"], ["VALOR_F"]).value;
    forall a, b | a in cs.rows && b in co.rows ensures KeyOf(a, ["ANO"]) != KeyOf(b, ["ANO"]) {
      var y := SummaryYear(crops, YearKeys, [Hectares], a);
      var z := SummaryYear(co2, ["ANO"], ["VALOR_F"], b);
      assert KeyOf(a, ["ANO"])[0] == Get(a, "ANO") && KeyOf(b, ["ANO"])[0] == Get(b, "ANO");
    }
    NoMatches(cs.rows, co.rows, cs.columns, co.columns, ["ANO"], Suffixes("_x", "_y"));
  }

  /** Lines 17-133: the merged yearly table, or None when line 116 finds a crop table empty. */
  function YearlyTable(co2: Table, ct: Table, cp: Table): (r: Result<Option<Table>>)
    ensures r.Err? ==> r.error.KeyError?
    ensures r.Ok? && r.value.Some? ==> r.value.value.columns == YearLayout
  {
    match Stacked(ct, cp)
    case Err(e) => Err(e)
    case Ok(None) => Ok(None)
    case Ok(Some(crops)) =>
      match YearlyMerged(crops, co2)
      case Err(e) => Err(e)
      case Ok(merged) => Ok(Some(merged))
  }

  /** Lines 17-133 step by step: each crop table reshaped, the guard at line 116, the stack, the sums and the merge. */
  method StackAndMerge(co2: Table, ct: Table, cp: Table) returns (r: Result<Option<Table>>)
    ensures r == YearlyTable(co2, ct, cp)
  {
    var ctLong := ReshapeCrops(ct, "TRANSITORIO", true);
    if ctLong.Err? {
      return Err(ctLong.error);
    }
    var cpLong := ReshapeCrops(cp, "PERMANENTE", false);
    if cpLong.Err? {
      return Err(cpLong.error);
    }
    if Empty(ctLong.value) || Empty(cpLong.value) {
      return Ok(None);
    }
    var allCrops := Concat(ctLong.value, cpLong.value);
    assert ["ANO"] + ["VALOR_F"] == ["ANO", "VALOR_F"];
    var co2Yearly := GroupSums(co2, ["ANO"], ["VALOR_F"]);
    if co2Yearly.Err? {
      return Err(co2Yearly.error);
    }
    StackedColumns(ct, cp);
    var cropsYearly := GroupSums(allCrops, YearKeys, [Hectares]).value;
    YearlyLayout();
    var merged := InnerJoin(cropsYearly, co2Yearly.value, ["ANO"], Suffixes("_x", "_y"));
    return Ok(Some(merged));
  }

  // ---- the report ----

  const TopCount := 15

  /** The message of the ValueError `int(nan)` raises. */
  const NanToInt := "cannot convert float NaN to integer"

  datatype Outcome =
    | NoCrops
    | NoMatch(merged: Table)
    | Report(merged: Table, cropStats: Table, top15: seq<Row>)

  /**
   * Lines 143-152: the per-crop totals of the merged table, and the at most
   * fifteen of them with the largest CO2 total, largest first, every total
   * left out no larger than any kept.
   */
  predicate Ranked(o: Outcome)
    requires o.Report?
  {
    && GroupSums(o.merged, CropPair, ["VALOR_F", Hectares]) == Ok(o.cropStats)
    && o.cropStats.columns == AnalysisColumns
    && |o.top15| == (if |o.cropStats.rows| < TopCount then |o.cropStats.rows| else TopCount)
    && multiset(o.top15) <= multiset(o.cropStats.rows)
    && NonIncreasing(o.top15, ByColumn("VALOR_F"))
    && forall x, y :: x in multiset(o.cropStats.rows) - multiset(o.top15) && y in o.top15 ==>
      Number(Get(x, "VALOR_F")) <= Number(Get(y, "VALOR_F"))
  }

  /** The merged table has every column the per-crop totals name. */
  lemma StatsDefined(merged: Table)
    requires merged.columns == YearLayout
    ensures GroupSums(merged, CropPair, ["VALOR_F", Hectares]).Ok?
    ensures GroupSums(merged, CropPair, ["VALOR_F", Hectares]).value.columns == AnalysisColumns
  {
    var cs := CropPair + ["VALOR_F", Hectares];
    assert cs == [YearLayout[1], YearLayout[2], YearLayout[4], YearLayout[3]];
  }

  /** Lines 143-152 on a merged table. */
  method Rank(merged: Table) returns (o: Outcome)
    requires merged.columns == YearLayout
    ensures o.Report? && o.merged == merged && Ranked(o)
  {
    StatsDefined(merged);
    var cropStats := GroupSums(merged, CropPair, ["VALOR_F", Hectares]).value;
    var top15 := Largest(cropStats.rows, TopCount, "VALOR_F");
    o := Report(merged, cropStats, top15);
  }

  /**
   * The script as written: an empty merge reaches `int(merged['ANO'].min())`
   * at line 135 and fails there, so the message of lines 180-181 is never
   * reached.
   */
  method AnalyzeAsWritten(co2: Table, ct: Table, cp: Table) returns (r: Result<Outcome>)
    ensures YearlyTable(co2, ct, cp).Err? ==> r == Err(YearlyTable(co2, ct, cp).error)
    ensures YearlyTable(co2, ct, cp) == Ok(None) <==> r == Ok(NoCrops)
    ensures YearlyTable(co2, ct, cp).Ok? && YearlyTable(co2, ct, cp).value.Some? ==>
      var merged := YearlyTable(co2, ct, cp).value.value;
      && (merged.rows == [] ==> r == Err(ValueError(NanToInt)))
      && (merged.rows != [] ==> r.Ok? && r.value.Report? && r.value.merged == merged)
    ensures r.Ok? ==> !r.value.NoMatch?
    ensures r.Ok? && r.value.Report? ==> Ranked(r.value)
  {
    var yearly := StackAndMerge(co2, ct, cp);
    if yearly.Err? {
      return Err(yearly.error);
    }
    if yearly.value.None? {
      return Ok(NoCrops);
    }
    var merged := yearly.value.value;
    if |merged.rows| == 0 {
      return Err(ValueError(NanToInt));
    }
    var o := Rank(merged);
    return Ok(o);
  }

  /** The script as intended: an empty merge ends with the no-match outcome of lines 180-181. */
  method Analyze(co2: Table, ct: Table, cp: Table) returns (r: Result<Outcome>)
    ensures r.Err? <==> YearlyTable(co2, ct, cp).Err?
    ensures r.Err? ==> r == Err(YearlyTable(co2, ct, cp).error)
    ensures YearlyTable(co2, ct, cp) == Ok(None) <==> r == Ok(NoCrops)
    ensures r.Ok? && !r.value.NoCrops? ==> YearlyTable(co2, ct, cp) == Ok(Some(r.value.merged))
    ensures r.Ok? && !r.value.NoCrops? ==> (r.value.NoMatch? <==> r.value.merged.rows == [])
    ensures r.Ok? && r.value.Report? ==> Ranked(r.value)
  {
    var yearly := StackAndMerge(co2, ct, cp);
    if yearly.Err? {
      return Err(yearly.error);
    }
    if yearly.value.None? {
      return Ok(NoCrops);
    }
    var merged := yearly.value.value;
    if |merged.rows| == 0 {
      return Ok(NoMatch(merged));
    }
    var o := Rank(merged);
    return Ok(o);
  }
}
