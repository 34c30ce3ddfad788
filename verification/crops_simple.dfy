/**
 * The simplified crop analysis: the CO2 table with its regions normalised and
 * the placeholder and national rows dropped; the transitory and permanent
 * crop tables reshaped to one row per (crop row, year) with numeric year and
 * hectares, a crop-type tag and a normalised region; both stacked; hectares
 * summed per (year, region, crop, crop type) and joined with the CO2 totals
 * per (year, region); per-crop totals ordered by CO2, largest first.
 */
module CropsSimple {
  import opened Frame
  import opened Text
  import opened Grouping
  import opened Aggregate
  import opened Sorting
  import opened Join
  import opened Crops
  import opened CropLong

  // ---- CO2 table ----

  /** Not one of the texts a missing region becomes once rendered and upper-cased. */
  predicate NotSentinel(x: Row)
  {
    Get(x, "REGION") != Str("NAN") && Get(x, "REGION") != Str("NONE")
  }

  /** `~REGION.str.contains('COLOMBIA', na=False)`: national rows are dropped, a cell that is not text is kept. */
  predicate NotNational(x: Row)
  {
    !(Get(x, "REGION").Str? && Contains(Get(x, "REGION").s, "COLOMBIA"))
  }

  /** The region text of a kept CO2 row: normalised, no placeholder, no national total. */
  predicate RegionKept(s: string)
  {
    s != "NAN" && s != "NONE" && !Contains(s, "COLOMBIA") && Strip(Upper(s)) == s
  }

  /** The CO2 rows kept, in their order: region normalised, then placeholder and national rows dropped. */
  function Co2Rows(rows: seq<Row>): seq<Row>
  {
    Filter(Filter(MapColumn(rows, "REGION", NormalizeAny), NotSentinel), NotNational)
  }

  /** The input row with its region rendered as text and normalised. */
  function Normalized(x: Row): Row
  {
    x["REGION" := NormalizeAny(Get(x, "REGION"))]
  }

  /**
   * Lines 14-21: `REGION` replaced by its text form upper-cased and stripped,
   * then the rows whose region is NAN or NONE, then those whose region
   * mentions COLOMBIA, dropped.  A KeyError when there is no REGION column.
   */
  method CleanCo2(co2: Table) returns (r: Result<Table>)
    ensures r.Err? <==> "REGION" !in co2.columns
    ensures r.Err? ==> r.error == KeyError("REGION")
    ensures r.Ok? ==> r.value == Table(co2.columns, Co2Rows(co2.rows))
  {
    if "REGION" !in co2.columns {
      return Err(KeyError("REGION"));
    }
    var df := co2;
    df := Table(df.columns, MapColumn(df.rows, "REGION", NormalizeAny));
    df := Table(df.columns, Filter(df.rows, NotSentinel));
    df := Table(df.columns, Filter(df.rows, NotNational));
    return Ok(df);
  }

  /** Every kept CO2 row is an input row with its region normalised, and that region passes both filters. */
  lemma Co2Sound(rows: seq<Row>, x: Row) returns (i: nat)
    requires x in Co2Rows(rows)
    ensures i < |rows| && x == Normalized(rows[i])
    ensures Get(x, "REGION").Str? && RegionKept(Get(x, "REGION").s)
  {
    var normalized := MapColumn(rows, "REGION", NormalizeAny);
    i :| 0 <= i < |normalized| && normalized[i] == x;
    var s := Get(x, "REGION").s;
    NormalizeAnyIdempotent(Get(rows[i], "REGION"));
  }

  /** An input row is kept, normalised, exactly when its normalised region passes both filters. */
  lemma Co2Complete(rows: seq<Row>, i: nat)
    requires i < |rows|
    ensures Normalized(rows[i]) in Co2Rows(rows) <==> NotSentinel(Normalized(rows[i])) && NotNational(Normalized(rows[i]))
  {
    var normalized := MapColumn(rows, "REGION", NormalizeAny);
    assert normalized[i] == Normalized(rows[i]);
  }

  /** A missing region reads as the text NAN, so its row is dropped. */
  lemma MissingRegionDropped(rows: seq<Row>, i: nat)
    requires i < |rows| && Get(rows[i], "REGION") == Missing
    ensures Normalized(rows[i]) !in Co2Rows(rows)
  {
    NanText();
    assert Get(Normalized(rows[i]), "REGION") == Str("NAN");
  }

  lemma NanText()
    ensures NormalizeAny(Missing) == Str("NAN")
  {
    assert Upper("nan") == "NAN";
    assert StripLeft("NAN") == "NAN";
    assert StripRight("NAN") == "NAN";
  }

  /** Cleaning the cleaned rows again changes nothing. */
  lemma Co2Idempotent(rows: seq<Row>)
    ensures Co2Rows(Co2Rows(rows)) == Co2Rows(rows)
  {
    var kept := Co2Rows(rows);
    NormalizedFixed(rows);
    forall x | x in kept ensures NotSentinel(x) && NotNational(x) {
      var _ := Co2Sound(rows, x);
    }
    FilterAll(kept, NotSentinel);
    FilterAll(kept, NotNational);
  }

  /** The kept rows' regions are already normalised. */
  lemma NormalizedFixed(rows: seq<Row>)
    ensures MapColumn(Co2Rows(rows), "REGION", NormalizeAny) == Co2Rows(rows)
  {
    var kept := Co2Rows(rows);
    var again := MapColumn(kept, "REGION", NormalizeAny);
    forall j | 0 <= j < |kept| ensures again[j] == kept[j] {
      var _ := Co2Sound(rows, kept[j]);
      NormalFixed(kept[j]);
    }
  }

  lemma NormalFixed(x: Row)
    requires Get(x, "REGION").Str? && Strip(Upper(Get(x, "REGION").s)) == Get(x, "REGION").s
    ensures Normalized(x) == x
  {
    var c := Get(x, "REGION");
    assert CellText(c) == c.s;
    assert NormalizeAny(c) == c;
    assert "REGION" in x && x["REGION"] == c;
  }

  // ---- crop tables ----

  /** The columns of a reshaped crop table. */
  const CropColumns: seq<string> := ["CULTIVO", "REGION", "ANO", Hectares, "TIPO_CULTIVO"]

  /** A long row after the renames (crop column to CULTIVO, Departamento to REGION) and the `.str` normalisation of REGION. */
  function Renamed(d: Row, crop: string): Row
  {
    var a := RenameRow(RenameRow(d, crop, "CULTIVO"), "Departamento", "REGION");
    a["REGION" := NormalizeText(Get(a, "REGION"))]
  }

  /** The reshaped rows of a crop table whose crop column is `crop`, year columns selected as at line 30. */
  function CropRows(t: Table, crop: string, cropType: string): seq<Row>
  {
    var long := LongRows(t.rows, [crop, "Departamento"], Filter(t.columns, DigitYear), cropType);
    seq(|long|, j requires 0 <= j < |long| => Renamed(long[j], crop))
  }

  /** The reshaped row `out` is the one of input row `x` and year column `y`. */
  predicate CropFrom(out: Row, x: Row, y: string, crop: string, cropType: string)
  {
    && Get(out, "ANO") == ToNumeric(Str(y))
    && Get(out, Hectares) == ToNumeric(Get(x, y))
    && Get(out, "CULTIVO") == Get(x, crop)
    && Get(out, "REGION") == NormalizeText(Get(x, "Departamento"))
    && Get(out, "TIPO_CULTIVO") == Str(cropType)
  }

  /** The selected year columns are digit strings. */
  lemma DigitYears(cols: seq<string>)
    ensures forall k :: 0 <= k < |Filter(cols, DigitYear)| ==> IsDigits(Filter(cols, DigitYear)[k])
  {
    var years := Filter(cols, DigitYear);
    forall k | 0 <= k < |years| ensures IsDigits(years[k]) {
      assert years[k] in years;
    }
  }

  /** The renames move the crop cell and the Departamento cell, and leave the year, hectares and tag. */
  lemma RenamedCells(d: Row, crop: string)
    requires crop == "TIPO" || crop == "Tipo"
    requires crop in d && "Departamento" in d
    ensures Get(Renamed(d, crop), "CULTIVO") == d[crop]
    ensures Get(Renamed(d, crop), "REGION") == NormalizeText(d["Departamento"])
    ensures Get(Renamed(d, crop), "ANO") == Get(d, "ANO")
    ensures Get(Renamed(d, crop), Hectares) == Get(d, Hectares)
    ensures Get(Renamed(d, crop), "TIPO_CULTIVO") == Get(d, "TIPO_CULTIVO")
  {
    var a1 := RenameRow(d, crop, "CULTIVO");
    assert crop != "Departamento" && crop != "CULTIVO";
    assert "Departamento" in a1 && a1["Departamento"] == d["Departamento"];
    var a2 := RenameRow(a1, "Departamento", "REGION");
    assert Get(a2, "CULTIVO") == d[crop];
    assert Get(a2, "REGION") == d["Departamento"];
    RenameKeeps(d, crop, "ANO");
    RenameKeeps(d, crop, Hectares);
    RenameKeeps(d, crop, "TIPO_CULTIVO");
  }

  /** A column other than those the renames touch is the same after them. */
  lemma RenameKeeps(d: Row, crop: string, c: string)
    requires crop == "TIPO" || crop == "Tipo"
    requires c == "ANO" || c == Hectares || c == "TIPO_CULTIVO"
    ensures Get(Renamed(d, crop), c) == Get(d, c)
  {
    var a1 := RenameRow(d, crop, "CULTIVO");
    var a2 := RenameRow(a1, "Departamento", "REGION");
    assert c != crop && c != "CULTIVO" && c != "Departamento" && c != "REGION";
    assert Get(a1, c) == Get(d, c);
    assert Get(a2, c) == Get(a1, c);
  }

  /** A long row carries the crop and Departamento cells of its input row. */
  lemma LongIds(out: Row, x: Row, y: string, crop: string, cropType: string)
    requires crop == "TIPO" || crop == "Tipo"
    requires LongFrom(out, x, y, [crop, "Departamento"], cropType)
    ensures crop in out && out[crop] == Get(x, crop)
    ensures "Departamento" in out && out["Departamento"] == Get(x, "Departamento")
  {
    var ids := [crop, "Departamento"];
    assert ids[0] == crop && ids[1] == "Departamento";
    LongFromId(out, x, y, ids, cropType, crop);
    LongFromId(out, x, y, ids, cropType, "Departamento");
  }

  /**
   * Every reshaped row comes from one input row and one year column: year and
   * hectares numbers (the year the one its digits spell), the crop cell, the
   * normalised region, the tag.
   */
  lemma CropSound(t: Table, crop: string, cropType: string, out: Row) returns (i: nat, k: nat)
    requires crop == "TIPO" || crop == "Tipo"
    requires out in CropRows(t, crop, cropType)
    ensures i < |t.rows| && k < |Filter(t.columns, DigitYear)|
    ensures CropFrom(out, t.rows[i], Filter(t.columns, DigitYear)[k], crop, cropType)
    ensures Get(out, Hectares).Num?
    ensures var y := Filter(t.columns, DigitYear)[k]; IsDigits(y) && Get(out, "ANO") == Num(DigitsValue(y) as real)
  {
    var ids := [crop, "Departamento"];
    var years := Filter(t.columns, DigitYear);
    var long := LongRows(t.rows, ids, years, cropType);
    var rows := CropRows(t, crop, cropType);
    var j :| 0 <= j < |rows| && rows[j] == out;
    i, k := LongSound(t.rows, ids, years, cropType, long[j]);
    LongIds(long[j], t.rows[i], years[k], crop, cropType);
    RenamedCells(long[j], crop);
    DigitYears(t.columns);
    YearValue(years[k]);
  }

  /** Every (input row, year column) pair whose cell converts to a number gives a reshaped row. */
  lemma CropComplete(t: Table, crop: string, cropType: string, i: nat, k: nat) returns (j: nat)
    requires crop == "TIPO" || crop == "Tipo"
    requires i < |t.rows| && k < |Filter(t.columns, DigitYear)|
    requires ToNumeric(Get(t.rows[i], Filter(t.columns, DigitYear)[k])).Num?
    ensures j < |CropRows(t, crop, cropType)|
    ensures CropFrom(CropRows(t, crop, cropType)[j], t.rows[i], Filter(t.columns, DigitYear)[k], crop, cropType)
  {
    var ids := [crop, "Departamento"];
    var years := Filter(t.columns, DigitYear);
    var long := LongRows(t.rows, ids, years, cropType);
    j := LongComplete(t.rows, ids, years, cropType, i, k);
    LongIds(long[j], t.rows[i], years[k], crop, cropType);
    RenamedCells(long[j], crop);
  }

  /** The column list after the melt, the tag and the renames. */
  lemma CropLayout(crop: string)
    requires crop == "TIPO" || crop == "Tipo"
    ensures var long := WithColumn([crop, "Departamento"] + ["ANO", Hectares], "TIPO_CULTIVO");
      Rename(Rename(Table(long, []), crop, "CULTIVO"), "Departamento", "REGION").columns == CropColumns
  {
    var cols := [crop, "Departamento"] + ["ANO", Hectares];
    assert "TIPO_CULTIVO" !in cols;
    assert WithColumn(cols, "TIPO_CULTIVO") == [crop, "Departamento", "ANO", Hectares, "TIPO_CULTIVO"];
  }

  /**
   * Lines 30 and 34-46 (56 and 58-70 for the permanent table): the year
   * columns, the melt on the crop column and Departamento with its
   * conversions, the renames and the normalisation of REGION, each stage
   * replacing the table.  A KeyError when either id column is missing.
   */
  method LoadCropTable(t: Table, crop: string, cropType: string) returns (r: Result<Table>)
    requires crop == "TIPO" || crop == "Tipo"
    ensures r.Err? <==> !HasAll(t, [crop, "Departamento"])
    ensures r.Err? ==> r.error.KeyError? && r.error.column in [crop, "Departamento"] && r.error.column !in t.columns
    ensures r.Ok? ==> r.value == Table(CropColumns, CropRows(t, crop, cropType))
  {
    var years := Filter(t.columns, DigitYear);
    DigitYears(t.columns);
    var long := MeltAndClean(t, [crop, "Departamento"], years, cropType);
    if long.Err? {
      return Err(long.error);
    }
    var df := long.value;
    CropLayout(crop);
    df := Rename(df, crop, "CULTIVO");
    df := Rename(df, "Departamento", "REGION");
    df := Table(df.columns, MapColumn(df.rows, "REGION", NormalizeText));
    assert df.rows == CropRows(t, crop, cropType);
    return Ok(df);
  }

  // ---- the whole analysis ----

  /** The message of the ValueError `min` raises on an empty list. */
  const EmptyMin := "min() arg is an empty sequence"

  /** The inputs for which lines 14-77 run to the end. */
  predicate InputsValid(co2: Table, ct: Table, cp: Table)
  {
    && "REGION" in co2.columns
    && Filter(ct.columns, DigitYear) != []
    && HasAll(ct, ["TIPO", "Departamento"])
    && HasAll(cp, ["Tipo", "Departamento"])
  }

  /** Both reshaped crop tables, stacked (line 77). */
  function AllCrops(ct: Table, cp: Table): Table
  {
    Concat(Table(CropColumns, CropRows(ct, "TIPO", "TRANSITORIO")), Table(CropColumns, CropRows(cp, "Tipo", "PERMANENTE")))
  }

  /**
   * Lines 14-77: the cleaned CO2 table and the stacked crop tables.  The
   * year range printed at line 31 takes `min` of the year columns, which
   * raises on a table without any.
   */
  method PrepareInputs(co2: Table, ct: Table, cp: Table) returns (r: Result<(Table, Table)>)
    ensures r.Err? <==> !InputsValid(co2, ct, cp)
    ensures "REGION" !in co2.columns ==> r == Err(KeyError("REGION"))
    ensures "REGION" in co2.columns && Filter(ct.columns, DigitYear) == [] ==> r == Err(ValueError(EmptyMin))
    ensures r.Err? ==> r.error.KeyError? || r.error == ValueError(EmptyMin)
    ensures r.Ok? ==> r.value == (Table(co2.columns, Co2Rows(co2.rows)), AllCrops(ct, cp))
  {
    var co2Clean := CleanCo2(co2);
    if co2Clean.Err? {
      return Err(co2Clean.error);
    }
    if Filter(ct.columns, DigitYear) == [] {
      return Err(ValueError(EmptyMin));
    }
    var ctLong := LoadCropTable(ct, "TIPO", "TRANSITORIO");
    if ctLong.Err? {
      return Err(ctLong.error);
    }
    var cpLong := LoadCropTable(cp, "Tipo", "PERMANENTE");
    if cpLong.Err? {
      return Err(cpLong.error);
    }
    var allCrops := Concat(ctLong.value, cpLong.value);
    return Ok((co2Clean.value, allCrops));
  }

  /** The grouping keys of the hectare sums and of the CO2 sums. */
  const GroupKeys: seq<string> := ["ANO", "REGION", "CULTIVO", "TIPO_CULTIVO"]
  const JoinKeys: seq<string> := ["ANO", "REGION"]

  /** A table whose columns are those of the crop layout has every column the grouping at line 82 names, but not ' HECTAREAS'. */
  lemma LayoutColumns(t: Table)
    requires forall c :: c in t.columns <==> c in CropColumns
    ensures HasAll(t, GroupKeys + [Hectares])
    ensures " HECTAREAS" !in t.columns
  {
    assert CropColumns[0] in t.columns && CropColumns[1] in t.columns && CropColumns[2] in t.columns;
    assert CropColumns[3] in t.columns && CropColumns[4] in t.columns;
    assert GroupKeys + [Hectares] == [CropColumns[2], CropColumns[1], CropColumns[0], CropColumns[4], CropColumns[3]];
    assert " HECTAREAS"[0] == ' ';
    assert forall c :: c in CropColumns ==> c[0] != ' ';
  }

  lemma AllCropsColumns(ct: Table, cp: Table)
    ensures HasAll(AllCrops(ct, cp), GroupKeys + [Hectares])
    ensures " HECTAREAS" !in AllCrops(ct, cp).columns
  {
    LayoutColumns(AllCrops(ct, cp));
  }

  /** Grouping by present keys and selecting an absent column `c` raises a KeyError naming `c`. */
  lemma AbsentSummed(t: Table, keys: seq<string>, c: string)
    requires HasAll(t, keys) && c !in t.columns
    ensures GroupSums(t, keys, [c]) == Err(KeyError(c))
  {
    var r := GroupSums(t, keys, [c]);
    assert (keys + [c])[|keys|] == c;
    assert r.error.column in keys + [c];
    assert r.error.column !in keys;
  }

  /** Line 82 as written: grouping the stacked crops and selecting ' HECTAREAS' always raises a KeyError. */
  lemma SpacedColumnAbsent(ct: Table, cp: Table)
    ensures GroupSums(AllCrops(ct, cp), GroupKeys, [" HECTAREAS"]) == Err(KeyError(" HECTAREAS"))
  {
    var t := AllCrops(ct, cp);
    AllCropsColumns(ct, cp);
    HasAllPrefix(t, GroupKeys, [Hectares]);
    AbsentSummed(t, GroupKeys, " HECTAREAS");
  }

  datatype Analysis = Analysis(merged: Table, cropAnalysis: Option<Table>)

  /**
   * The script as written: once the inputs are loaded and stacked, line 82
   * selects the column ' HECTAREAS' (with a leading space), which no table
   * has, so every run ends in a KeyError.
   */
  method AnalyzeAsWritten(co2: Table, ct: Table, cp: Table) returns (r: Result<Analysis>)
    ensures r.Err?
    ensures InputsValid(co2, ct, cp) ==> r == Err(KeyError(" HECTAREAS"))
  {
    var inputs := PrepareInputs(co2, ct, cp);
    if inputs.Err? {
      return Err(inputs.error);
    }
    var allCrops := inputs.value.1;
    var cropsGrouped := GroupSums(allCrops, GroupKeys, [" HECTAREAS"]);
    SpacedColumnAbsent(ct, cp);
    return Err(cropsGrouped.error);
  }

  // ---- the analysis as intended ----

  const MergedLayoutColumns: seq<string> := GroupKeys + [Hectares, "VALOR_F"]

  /** The summed tables' column lists and the merged column list repeat no name. */
  lemma SummaryNamesDistinct()
    ensures NoDuplicates(GroupKeys + [Hectares]) && NoDuplicates(JoinKeys + ["VALOR_F"])
    ensures NoDuplicates(MergedLayoutColumns)
    ensures "VALOR_F" !in GroupKeys + [Hectares] && GroupKeys[..|JoinKeys|] == JoinKeys
  {
    DistinctNames(GroupKeys + [Hectares]);
    DistinctNames(JoinKeys + ["VALOR_F"]);
    DistinctNames(MergedLayoutColumns);
  }

  /** Joining the hectare sums with the CO2 sums on (ANO, REGION) renames nothing and adds VALOR_F. */
  lemma SimpleLayout()
    ensures MergedColumns(GroupKeys + [Hectares], JoinKeys + ["VALOR_F"], JoinKeys, Suffixes("_x", "_y")) == MergedLayoutColumns
    ensures NoDuplicates(MergedLayoutColumns)
  {
    SummaryNamesDistinct();
    MergedAddsColumn(GroupKeys + [Hectares], JoinKeys, "VALOR_F", Suffixes("_x", "_y"));
  }

  /**
   * Lines 82-89 with the hectare column named as intended: hectares summed
   * per (ANO, REGION, CULTIVO, TIPO_CULTIVO), CO2 summed per (ANO, REGION),
   * and the two joined on (ANO, REGION).
   */
  function Merged(crops: Table, co2: Table): (r: Result<Table>)
    ensures r.Err? <==> !HasAll(crops, GroupKeys + [Hectares]) || !HasAll(co2, JoinKeys + ["VALOR_F"])
    ensures r.Err? ==> r.error.KeyError?
    ensures r.Ok? ==> r.value.columns == MergedLayoutColumns
  {
    match GroupSums(crops, GroupKeys, [Hectares])
    case Err(e) => Err(e)
    case Ok(cropsGrouped) =>
      match GroupSums(co2, JoinKeys, ["VALOR_F"])
      case Err(e) => Err(e)
      case Ok(co2Grouped) =>
        SimpleLayout();
        Ok(InnerJoin(cropsGrouped, co2Grouped, JoinKeys, Suffixes("_x", "_y")))
  }

  /**
   * Every merged row's (ANO, REGION) is that of some crop row `y` and of some
   * CO2 row `z`, and its VALOR_F is the CO2 total over exactly the CO2 rows
   * of that year and region.
   */
  lemma MergedRowSource(crops: Table, co2: Table, x: Row) returns (y: Row, z: Row)
    requires Merged(crops, co2).Ok? && x in Merged(crops, co2).value.rows
    ensures y in crops.rows && KeyOf(y, JoinKeys) == KeyOf(x, JoinKeys)
    ensures z in co2.rows && KeyOf(z, JoinKeys) == KeyOf(x, JoinKeys)
    ensures Get(x, "VALOR_F") == Num(Sum(Values(Members(co2.rows, JoinKeys, KeyOf(x, JoinKeys)), "VALOR_F")))
  {
    SimpleLayout();
    SummaryNamesDistinct();
    y, z := SummedJoinRow(crops, GroupKeys, [Hectares], co2, JoinKeys, "VALOR_F", Suffixes("_x", "_y"), x);
  }

  /**
   * Every merged row's (ANO, REGION, CULTIVO, TIPO_CULTIVO) is that of some
   * crop row, and its HECTAREAS is the total over exactly the crop rows with
   * that key.
   */
  lemma MergedHectares(crops: Table, co2: Table, x: Row) returns (y: Row)
    requires Merged(crops, co2).Ok? && x in Merged(crops, co2).value.rows
    ensures y in crops.rows && KeyOf(y, GroupKeys) == KeyOf(x, GroupKeys)
    ensures Get(x, Hectares) == Num(Sum(Values(Members(crops.rows, GroupKeys, KeyOf(x, GroupKeys)), Hectares)))
  {
    SimpleLayout();
    SummaryNamesDistinct();
    y := SummedJoinLeft(crops, GroupKeys, [Hectares], co2, JoinKeys, "VALOR_F", Suffixes("_x", "_y"), x, 0);
  }

  /**
   * Every crop row with a complete key whose year and region some CO2 row
   * shares reaches the merge: a merged row carries its key.
   */
  lemma MergedComplete(crops: Table, co2: Table, y: Row, z: Row) returns (x: Row)
    requires Merged(crops, co2).Ok?
    requires y in crops.rows && NotNull(y, GroupKeys) && z in co2.rows && KeyOf(z, JoinKeys) == KeyOf(y, JoinKeys)
    ensures x in Merged(crops, co2).value.rows && KeyOf(x, GroupKeys) == KeyOf(y, GroupKeys)
  {
    SimpleLayout();
    SummaryNamesDistinct();
    x := SummedJoinComplete(crops, GroupKeys, [Hectares], co2, JoinKeys, "VALOR_F", Suffixes("_x", "_y"), y, z);
  }

  /** The merged table has every column the per-crop totals at lines 97-100 name. */
  lemma TotalsDefined(merged: Table)
    requires merged.columns == MergedLayoutColumns
    ensures GroupSums(merged, CropPair, ["VALOR_F", Hectares]).Ok?
    ensures GroupSums(merged, CropPair, ["VALOR_F", Hectares]).value.columns == AnalysisColumns
  {
    var cs := CropPair + ["VALOR_F", Hectares];
    assert cs == [MergedLayoutColumns[2], MergedLayoutColumns[3], MergedLayoutColumns[5], MergedLayoutColumns[4]];
  }

  /**
   * The script with line 82 grouping HECTAREAS: the merged table, and, when
   * it has rows, the per-crop CO2 and hectare totals ranked by CO2, largest
   * first.
   */
  method Analyze(co2: Table, ct: Table, cp: Table) returns (r: Result<Analysis>)
    ensures r.Err? <==> !InputsValid(co2, ct, cp) || !HasAll(co2, JoinKeys + ["VALOR_F"])
    ensures r.Err? ==> r.error.KeyError? || r.error == ValueError(EmptyMin)
    ensures r.Ok? ==> Merged(AllCrops(ct, cp), Table(co2.columns, Co2Rows(co2.rows))) == Ok(r.value.merged)
    ensures r.Ok? ==> (r.value.cropAnalysis.Some? <==> r.value.merged.rows != [])
    ensures r.Ok? && r.value.cropAnalysis.Some? ==>
      var totals := GroupSums(r.value.merged, CropPair, ["VALOR_F", Hectares]);
      && totals.Ok?
      && r.value.cropAnalysis.value.columns == AnalysisColumns
      && multiset(r.value.cropAnalysis.value.rows) == multiset(totals.value.rows)
      && NonIncreasing(r.value.cropAnalysis.value.rows, ByColumn("VALOR_F"))
  {
    var inputs := PrepareInputs(co2, ct, cp);
    if inputs.Err? {
      return Err(inputs.error);
    }
    var co2Clean := inputs.value.0;
    var allCrops := inputs.value.1;
    AllCropsColumns(ct, cp);
    var cropsGrouped := GroupSums(allCrops, GroupKeys, [Hectares]).value;
    var co2Grouped := GroupSums(co2Clean, JoinKeys, ["VALOR_F"]);
    if co2Grouped.Err? {
      return Err(co2Grouped.error);
    }
    SimpleLayout();
    var merged := InnerJoin(cropsGrouped, co2Grouped.value, JoinKeys, Suffixes("_x", "_y"));
    if |merged.rows| == 0 {
      return Ok(Analysis(merged, None));
    }
    TotalsDefined(merged);
    var totals := GroupSums(merged, CropPair, ["VALOR_F", Hectares]).value;
    var ranked := SortDesc(totals.rows, ByColumn("VALOR_F"));
    return Ok(Analysis(merged, Some(Table(totals.columns, ranked))));
  }
}
