/**
 * The cleaning and combining steps of the agriculture-and-energy analysis:
 * the electricity table reduced to Colombia, each wide crop table reshaped to
 * one row per (crop row, year) with numeric year and area, the crop hectares
 * joined with the CO2 totals per year (and region), and the crops with the
 * largest CO2 totals.
 */
module AgricultureEnergy {
  import opened Frame
  import opened Grouping
  import opened Aggregate
  import opened Sorting
  import opened Join
  import opened Crops

  // ---- electricity ----

  const ElectricityColumns: seq<string> := ["ANO", "CONSUMO_ELECTRICO"]

  predicate InColombia(x: Row)
  {
    Get(x, "Area") == Str("Colombia")
  }

  /** The cells of `x` under the names `cols` (a column selection). */
  function Select(x: Row, cols: seq<string>): (y: Row)
    ensures forall c :: c in y <==> c in x && c in cols
    ensures forall c :: c in cols ==> Get(y, c) == Get(x, c)
  {
    map c | c in x && c in cols :: x[c]
  }

  /** One Colombia row with Year moved to ANO and Value to CONSUMO_ELECTRICO, reduced to those two cells. */
  function ElectricityRow(x: Row): (y: Row)
    ensures y.Keys <= {"ANO", "CONSUMO_ELECTRICO"}
    ensures Get(y, "ANO") == (if "Year" in x then x["Year"] else Get(x, "ANO"))
    ensures Get(y, "CONSUMO_ELECTRICO") == (if "Value" in x then x["Value"] else Get(x, "CONSUMO_ELECTRICO"))
  {
    Select(RenameRow(RenameRow(x, "Year", "ANO"), "Value", "CONSUMO_ELECTRICO"), ElectricityColumns)
  }

  /** The column list after the two renames holds both kept names when the input held Year and Value. */
  lemma ElectricityRenamed(t: Table)
    ensures var renamed := Rename(Rename(t, "Year", "ANO"), "Value", "CONSUMO_ELECTRICO");
      "Year" in t.columns && "Value" in t.columns ==> HasAll(renamed, ElectricityColumns)
  {
    var once := Rename(t, "Year", "ANO");
    var renamed := Rename(once, "Value", "CONSUMO_ELECTRICO");
    if "Year" in t.columns && "Value" in t.columns {
      var i :| 0 <= i < |t.columns| && t.columns[i] == "Year";
      var j :| 0 <= j < |t.columns| && t.columns[j] == "Value";
      assert once.columns[i] == "ANO" && renamed.columns[i] == "ANO";
      assert once.columns[j] == "Value" && renamed.columns[j] == "CONSUMO_ELECTRICO";
      assert forall k :: 0 <= k < |ElectricityColumns| ==> ElectricityColumns[k] in renamed.columns;
    }
  }

  /**
   * `load_and_clean_electricity_data` on the read table: the rows whose Area is
   * Colombia, Year renamed ANO and Value renamed CONSUMO_ELECTRICO, reduced to
   * those two columns; a KeyError when Area, or either kept column, is missing.
   */
  function LoadElectricity(t: Table): (r: Result<Table>)
    ensures "Area" !in t.columns ==> r == Err(KeyError("Area"))
    ensures r.Err? ==> r.error.KeyError?
    ensures "Area" in t.columns && "Year" in t.columns && "Value" in t.columns ==> r.Ok?
    ensures r.Ok? ==> r.value.columns == ElectricityColumns
    ensures r.Ok? ==> |r.value.rows| == |Filter(t.rows, InColombia)|
    ensures r.Ok? ==> forall i :: 0 <= i < |r.value.rows| ==>
      var src := Filter(t.rows, InColombia)[i];
      && InColombia(src)
      && src in t.rows
      && r.value.rows[i].Keys <= {"ANO", "CONSUMO_ELECTRICO"}
      && Get(r.value.rows[i], "ANO") == (if "Year" in src then src["Year"] else Get(src, "ANO"))
      && Get(r.value.rows[i], "CONSUMO_ELECTRICO") == (if "Value" in src then src["Value"] else Get(src, "CONSUMO_ELECTRICO"))
  {
    if "Area" !in t.columns then Err(KeyError("Area"))
    else
      var colombia := Filter(t.rows, InColombia);
      var renamed := Rename(Rename(Table(t.columns, colombia), "Year", "ANO"), "Value", "CONSUMO_ELECTRICO");
      ElectricityRenamed(Table(t.columns, colombia));
      match FirstAbsent(renamed, ElectricityColumns)
      case Some(c) => Err(KeyError(c))
      case None =>
        Ok(Table(ElectricityColumns, seq(|colombia|, i requires 0 <= i < |colombia| => ElectricityRow(colombia[i]))))
  }

  // ---- crop tables ----

  const Area := "AREA_HECTAREAS"
  const CropColumnNames: seq<string> := ["TIPO", "Tipo", "Cultivo", "CULTIVO"]

  /** The crop-name column: the first of TIPO, Tipo, Cultivo, CULTIVO the table has. */
  function CropColumn(cols: seq<string>): (r: Option<string>)
    ensures r.None? <==> forall k :: 0 <= k < |CropColumnNames| ==> CropColumnNames[k] !in cols
    ensures r.Some? ==> r.value in cols && r.value in CropColumnNames
  {
    FirstIn(CropColumnNames, cols)
  }

  /** The id columns of the melt: the crop column, and Departamento when the table has it. */
  function IdColumns(crop: string, region: bool): seq<string>
  {
    if region then [crop, "Departamento"] else [crop]
  }

  /** A melted row after both numeric coercions. */
  function Coerced(m: Row): Row
  {
    var a := m["ANO" := ToNumeric(Get(m, "ANO"))];
    a[Area := ToNumeric(Get(a, Area))]
  }

  /** A kept row after the renames, the REGION normalisation and the crop-type tag. */
  function Clean(d: Row, crop: string, region: bool, cropType: string): Row
  {
    var a := RenameRow(RenameRow(d, crop, "CULTIVO"), "Departamento", "REGION");
    var b := if region then a["REGION" := NormalizeText(Get(a, "REGION"))] else a;
    b["TIPO_CULTIVO" := Str(cropType)]
  }

  /** How a cleaned row's cells come from its input row `x` and year column `y`. */
  predicate From(out: Row, x: Row, y: string, crop: string, region: bool, cropType: string)
  {
    && Get(out, "ANO") == ToNumeric(Str(y))
    && Get(out, Area) == ToNumeric(Get(x, y))
    && Get(out, "CULTIVO") == Get(x, crop)
    && Get(out, "TIPO_CULTIVO") == Str(cropType)
    && (region ==> Get(out, "REGION") == NormalizeText(Get(x, "Departamento")))
  }

  lemma CleanKeeps(d: Row, crop: string, region: bool, cropType: string)
    requires crop in CropColumnNames
    ensures Get(Clean(d, crop, region, cropType), "ANO") == Get(d, "ANO")
    ensures Get(Clean(d, crop, region, cropType), Area) == Get(d, Area)
  {
  }

  /** A coerced melted row holds the year, the year's cell, and the id cells of its input row. */
  lemma CoercedCells(x: Row, y: string, crop: string, region: bool)
    requires crop in CropColumnNames
    ensures var c := Coerced(MeltRow(x, IdColumns(crop, region), y, Area));
      && Get(c, "ANO") == ToNumeric(Str(y))
      && Get(c, Area) == ToNumeric(Get(x, y))
      && crop in c && c[crop] == Get(x, crop)
      && (region ==> "Departamento" in c && c["Departamento"] == Get(x, "Departamento"))
  {
    var ids := IdColumns(crop, region);
    var m := MeltRow(x, ids, y, Area);
    assert crop != "ANO" && crop != Area;
    assert ids[0] == crop;
    CoercedKeeps(m, crop);
    if region {
      assert ids[1] == "Departamento";
      assert "Departamento" != "ANO" && "Departamento" != Area;
      CoercedKeeps(m, "Departamento");
    }
  }

  /** Coercion converts the year and the area and keeps every other cell. */
  lemma CoercedKeeps(m: Row, c: string)
    requires Area in m && "ANO" in m
    requires c in m && c != "ANO" && c != Area
    ensures Get(Coerced(m), "ANO") == ToNumeric(m["ANO"]) && Get(Coerced(m), Area) == ToNumeric(m[Area])
    ensures c in Coerced(m) && Coerced(m)[c] == m[c]
  {
  }

  /** Cleaning moves the crop cell to CULTIVO and the normalised Departamento cell to REGION, and adds the tag. */
  lemma CleanCells(c: Row, crop: string, region: bool, cropType: string)
    requires crop in CropColumnNames && crop in c
    requires region ==> "Departamento" in c
    ensures var out := Clean(c, crop, region, cropType);
      && Get(out, "CULTIVO") == c[crop]
      && Get(out, "TIPO_CULTIVO") == Str(cropType)
      && (region ==> Get(out, "REGION") == NormalizeText(c["Departamento"]))
  {
    assert crop != "Departamento" && crop != "REGION" && crop != "TIPO_CULTIVO";
    var a1 := RenameRow(c, crop, "CULTIVO");
    assert region ==> "Departamento" in a1 && a1["Departamento"] == c["Departamento"];
    var a2 := RenameRow(a1, "Departamento", "REGION");
    assert Get(a2, "CULTIVO") == c[crop];
  }

  /** The cleaned row of input row `x` and year column `y` carries their cells. */
  lemma CleanFrom(x: Row, y: string, crop: string, region: bool, cropType: string)
    requires crop in CropColumnNames
    ensures From(Clean(Coerced(MeltRow(x, IdColumns(crop, region), y, Area)), crop, region, cropType), x, y, crop, region, cropType)
  {
    var c := Coerced(MeltRow(x, IdColumns(crop, region), y, Area));
    CoercedCells(x, y, crop, region);
    CleanCells(c, crop, region, cropType);
    CleanKeeps(c, crop, region, cropType);
  }

  /** The melted rows after both coercions and `dropna` on ANO and the area. */
  function Kept(melted: seq<Row>): seq<Row>
  {
    DropNa(CoerceNumeric(CoerceNumeric(melted, "ANO"), Area), ["ANO", Area])
  }

  /** A kept row is a coerced melted row whose year and area are numbers. */
  lemma KeptRow(melted: seq<Row>, d: Row) returns (l: nat)
    requires d in Kept(melted)
    ensures Get(d, "ANO").Num? && Get(d, Area).Num?
    ensures l < |melted| && d == Coerced(melted[l])
  {
    var coerced := CoerceNumeric(CoerceNumeric(melted, "ANO"), Area);
    l :| 0 <= l < |coerced| && coerced[l] == d;
    assert d == Coerced(melted[l]);
    NotNullPair(d, "ANO", Area);
  }

  /** A coerced melted row whose year and area are numbers is kept. */
  lemma KeptComplete(melted: seq<Row>, l: nat) returns (j: nat)
    requires l < |melted| && Get(Coerced(melted[l]), "ANO").Num? && Get(Coerced(melted[l]), Area).Num?
    ensures j < |Kept(melted)| && Kept(melted)[j] == Coerced(melted[l])
  {
    var coerced := CoerceNumeric(CoerceNumeric(melted, "ANO"), Area);
    assert coerced[l] == Coerced(melted[l]);
    NotNullPair(coerced[l], "ANO", Area);
    var kept := Kept(melted);
    assert coerced[l] in kept;
    j :| 0 <= j < |kept| && kept[j] == coerced[l];
  }

  /** Every kept row cleaned, in order. */
  function CleanAll(rows: seq<Row>, crop: string, region: bool, cropType: string): (r: seq<Row>)
    ensures |r| == |rows|
  {
    seq(|rows|, j requires 0 <= j < |rows| => Clean(rows[j], crop, region, cropType))
  }

  lemma CleanAt(rows: seq<Row>, j: nat, crop: string, region: bool, cropType: string)
    requires j < |rows|
    ensures CleanAll(rows, crop, region, cropType)[j] == Clean(rows[j], crop, region, cropType)
  {
  }

  /** The input row and year column a melted row comes from. */
  lemma MeltSource(rows: seq<Row>, ids: seq<string>, years: seq<string>, m: Row) returns (i: nat, k: nat)
    requires m in Melt(rows, ids, years, Area)
    ensures i < |rows| && k < |years| && m == MeltRow(rows[i], ids, years[k], Area)
  {
    MeltMembership(rows, ids, years, Area, m);
    i, k :| 0 <= i < |rows| && 0 <= k < |years| && m == MeltRow(rows[i], ids, years[k], Area);
  }

  lemma FromSome(out: Row, rows: seq<Row>, years: seq<string>, crop: string, region: bool, cropType: string, i: nat, k: nat)
    requires i < |rows| && k < |years| && From(out, rows[i], years[k], crop, region, cropType)
    ensures exists i, k :: 0 <= i < |rows| && 0 <= k < |years| && From(out, rows[i], years[k], crop, region, cropType)
  {
  }

  lemma OutSome(rows: seq<Row>, x: Row, y: string, crop: string, region: bool, cropType: string, j: nat)
    requires j < |rows| && From(rows[j], x, y, crop, region, cropType)
    ensures exists out :: out in rows && From(out, x, y, crop, region, cropType)
  {
  }

  /** The kept row a cleaned row comes from. */
  lemma CleanSource(kept: seq<Row>, crop: string, region: bool, cropType: string, out: Row) returns (j: nat)
    requires out in CleanAll(kept, crop, region, cropType)
    ensures j < |kept| && out == Clean(kept[j], crop, region, cropType)
  {
    var all := CleanAll(kept, crop, region, cropType);
    j :| 0 <= j < |all| && all[j] == out;
  }

  /** Every cleaned row has a numeric year and area and comes from one input row and one year column. */
  lemma CleanSound(t: Table, years: seq<string>, crop: string, region: bool, cropType: string, out: Row)
    returns (i: nat, k: nat)
    requires crop in CropColumnNames
    requires out in CleanAll(Kept(Melt(t.rows, IdColumns(crop, region), years, Area)), crop, region, cropType)
    ensures Get(out, "ANO").Num? && Get(out, Area).Num?
    ensures i < |t.rows| && k < |years| && From(out, t.rows[i], years[k], crop, region, cropType)
  {
    var ids := IdColumns(crop, region);
    var melted := Melt(t.rows, ids, years, Area);
    var kept := Kept(melted);
    var j := CleanSource(kept, crop, region, cropType, out);
    var l := KeptRow(melted, kept[j]);
    CleanKeeps(kept[j], crop, region, cropType);
    i, k := MeltSource(t.rows, ids, years, melted[l]);
    CleanFrom(t.rows[i], years[k], crop, region, cropType);
  }

  /** Every (input row, year column) pair whose year and area are numbers gives a cleaned row. */
  lemma CleanComplete(t: Table, years: seq<string>, crop: string, region: bool, cropType: string, i: nat, k: nat)
    returns (j: nat)
    requires crop in CropColumnNames
    requires i < |t.rows| && k < |years|
    requires ToNumeric(Str(years[k])).Num? && ToNumeric(Get(t.rows[i], years[k])).Num?
    ensures j < |CleanAll(Kept(Melt(t.rows, IdColumns(crop, region), years, Area)), crop, region, cropType)|
    ensures From(CleanAll(Kept(Melt(t.rows, IdColumns(crop, region), years, Area)), crop, region, cropType)[j],
                 t.rows[i], years[k], crop, region, cropType)
  {
    var ids := IdColumns(crop, region);
    var melted := Melt(t.rows, ids, years, Area);
    var kept := Kept(melted);
    var m := MeltRow(t.rows[i], ids, years[k], Area);
    MeltMembership(t.rows, ids, years, Area, m);
    var l :| 0 <= l < |melted| && melted[l] == m;
    CoercedCells(t.rows[i], years[k], crop, region);
    j := KeptComplete(melted, l);
    CleanFrom(t.rows[i], years[k], crop, region, cropType);
    CleanAt(kept, j, crop, region, cropType);
  }

  /** A crop-column name is none of the names the cleaning gives columns. */
  lemma CropNameDistinct(crop: string)
    requires crop in CropColumnNames
    ensures crop != "Departamento" && crop != "REGION" && crop != "ANO" && crop != Area && crop != "TIPO_CULTIVO"
  {
  }

  /** The columns of a cleaned crop table: crop, REGION when the input had Departamento, year, area, crop type. */
  function CleanedColumns(region: bool): seq<string>
  {
    (if region then ["CULTIVO", "REGION"] else ["CULTIVO"]) + ["ANO", Area, "TIPO_CULTIVO"]
  }

  /**
   * After the renames the columns are those of a cleaned table but the crop
   * type; in particular there is a REGION column exactly when the input had
   * Departamento.
   */
  lemma RenamedRegion(t: Table, crop: string, region: bool)
    requires crop in CropColumnNames && t.columns == IdColumns(crop, region) + ["ANO", Area]
    ensures WithColumn(Rename(Rename(t, crop, "CULTIVO"), "Departamento", "REGION").columns, "TIPO_CULTIVO")
            == CleanedColumns(region)
    ensures "REGION" in CleanedColumns(region) <==> region
  {
    RenamedColumns(t, crop, region);
    var cs := (if region then ["CULTIVO", "REGION"] else ["CULTIVO"]) + ["ANO", Area];
    assert cs + ["TIPO_CULTIVO"] == CleanedColumns(region);
    assert "TIPO_CULTIVO" !in cs;
  }

  /** The two renames on the column list of the melted table. */
  lemma RenamedColumns(t: Table, crop: string, region: bool)
    requires crop in CropColumnNames && t.columns == IdColumns(crop, region) + ["ANO", Area]
    ensures Rename(Rename(t, crop, "CULTIVO"), "Departamento", "REGION").columns
            == (if region then ["CULTIVO", "REGION"] else ["CULTIVO"]) + ["ANO", Area]
  {
    CropNameDistinct(crop);
    var t1 := Rename(t, crop, "CULTIVO");
    var cs := Rename(t1, "Departamento", "REGION").columns;
    var want := (if region then ["CULTIVO", "REGION"] else ["CULTIVO"]) + ["ANO", Area];
    forall i | 0 <= i < |cs| ensures cs[i] == want[i] {
      assert t1.columns[i] == if i == 0 then "CULTIVO" else t.columns[i];
    }
    assert cs == want;
  }

  /** `df.empty` for a table that has columns: no rows. */
  const NoTable := Table([], [])

  /**
   * `load_and_clean_crop_data` on the read table: the year columns found by
   * the loop over the columns, no table at all without a crop column;
   * otherwise every cleaned row comes from one input row and one year column
   * (numeric year and area, crop name, normalised region, crop type), and
   * every (row, year) pair whose year and area are numbers gives a row.  The
   * rows are exactly the kept melt, cleaned one by one in order, and there
   * is a REGION column exactly when the input had Departamento.
   */
  method LoadCropData(t: Table, cropType: string) returns (r: Table)
    ensures CropColumn(t.columns).None? ==> r == NoTable
    ensures CropColumn(t.columns).Some? ==>
      var years := Filter(t.columns, ParsesAsYear);
      var crop := CropColumn(t.columns).value;
      var region := "Departamento" in t.columns;
      && r.columns == CleanedColumns(region)
      && ("REGION" in r.columns <==> region)
      && r.rows == CleanAll(Kept(Melt(t.rows, IdColumns(crop, region), years, Area)), crop, region, cropType)
      && |r.rows| <= |years| * |t.rows|
      && CleanedFrom(r.rows, t, years, crop, region, cropType)
  {
    var years := YearColumns(t.columns, ParsesAsYear);
    var found := CropColumn(t.columns);
    if found.None? {
      return NoTable;
    }
    var crop := found.value;
    var region := "Departamento" in t.columns;
    var ids := IdColumns(crop, region);
    var long := Melt(t.rows, ids, years, Area);
    MeltLength(t.rows, ids, years, Area);
    var melted := long;
    long := CoerceNumeric(long, "ANO");
    long := CoerceNumeric(long, Area);
    long := DropNa(long, ["ANO", Area]);
    var kept := long;
    assert kept == Kept(melted);
    var df := Table(ids + ["ANO", Area], long);
    RenamedRegion(df, crop, region);
    df := Rename(df, crop, "CULTIVO");
    df := Rename(df, "Departamento", "REGION");
    if "REGION" in df.columns {
      df := Table(df.columns, MapColumn(df.rows, "REGION", NormalizeText));
    }
    df := Table(WithColumn(df.columns, "TIPO_CULTIVO"), SetColumn(df.rows, "TIPO_CULTIVO", Str(cropType)));
    assert df.rows == CleanAll(kept, crop, region, cropType);
    r := df;
    CleanedSpec(t, years, crop, region, cropType);
  }

  /**
   * Every cleaned row has a numeric year and area and comes from one input
   * row and one year column; every (row, year) pair whose year and area are
   * numbers gives one.
   */
  predicate CleanedFrom(rows: seq<Row>, t: Table, years: seq<string>, crop: string, region: bool, cropType: string)
  {
    && (forall out :: out in rows ==> Get(out, "ANO").Num? && Get(out, Area).Num?)
    && (forall out :: out in rows ==>
          exists i, k :: 0 <= i < |t.rows| && 0 <= k < |years| && From(out, t.rows[i], years[k], crop, region, cropType))
    && (forall i, k ::
          && 0 <= i < |t.rows| && 0 <= k < |years|
          && ToNumeric(Str(years[k])).Num? && ToNumeric(Get(t.rows[i], years[k])).Num?
          ==> exists out :: out in rows && From(out, t.rows[i], years[k], crop, region, cropType))
  }

  /** The cleaned melt of a crop table is sound and complete with respect to its cells. */
  lemma CleanedSpec(t: Table, years: seq<string>, crop: string, region: bool, cropType: string)
    requires crop in CropColumnNames
    ensures CleanedFrom(CleanAll(Kept(Melt(t.rows, IdColumns(crop, region), years, Area)), crop, region, cropType),
                        t, years, crop, region, cropType)
  {
    var rows := CleanAll(Kept(Melt(t.rows, IdColumns(crop, region), years, Area)), crop, region, cropType);
    forall out | out in rows
      ensures Get(out, "ANO").Num? && Get(out, Area).Num?
      ensures exists i, k :: 0 <= i < |t.rows| && 0 <= k < |years| && From(out, t.rows[i], years[k], crop, region, cropType)
    {
      var i, k := CleanSound(t, years, crop, region, cropType, out);
      FromSome(out, t.rows, years, crop, region, cropType, i, k);
    }
    forall i, k | 0 <= i < |t.rows| && 0 <= k < |years|
      && ToNumeric(Str(years[k])).Num? && ToNumeric(Get(t.rows[i], years[k])).Num?
      ensures exists out :: out in rows && From(out, t.rows[i], years[k], crop, region, cropType)
    {
      var j := CleanComplete(t, years, crop, region, cropType, i, k);
      OutSome(rows, t.rows[i], years[k], crop, region, cropType, j);
    }
  }

  /** The grouping and summed columns of each aggregation are distinct names. */
  lemma SummaryNamesDistinct(region: bool)
    ensures NoDuplicates(CropKeyColumns(region) + [Area])
    ensures NoDuplicates(JoinKeyColumns(region) + ["VALOR_F"])
    ensures NoDuplicates(["CULTIVO", "TIPO_CULTIVO"] + ["VALOR_F", Area])
    ensures "VALOR_F" !in CropKeyColumns(region) + [Area] && "VALOR_F" !in JoinKeyColumns(region)
  {
    DistinctNames(CropKeyColumns(region) + [Area]);
    DistinctNames(JoinKeyColumns(region) + ["VALOR_F"]);
    DistinctNames(["CULTIVO", "TIPO_CULTIVO"] + ["VALOR_F", Area]);
  }

  // ---- combining with CO2 ----

  /** The keys both tables are summed and joined on: ANO, with REGION when the crops have it. */
  function JoinKeyColumns(region: bool): seq<string>
  {
    if region then ["ANO", "REGION"] else ["ANO"]
  }

  function CropKeyColumns(region: bool): seq<string>
  {
    JoinKeyColumns(region) + ["CULTIVO", "TIPO_CULTIVO"]
  }

  /** The merged columns: the crop keys, the hectare sum, the CO2 sum; no name repeats. */
  lemma MergedLayout(region: bool)
    ensures var cols := MergedColumns(CropKeyColumns(region) + [Area], JoinKeyColumns(region) + ["VALOR_F"], JoinKeyColumns(region), Suffixes("_x", "_y"));
      && cols == CropKeyColumns(region) + [Area, "VALOR_F"]
      && NoDuplicates(cols)
  {
    var on := JoinKeyColumns(region);
    var left := CropKeyColumns(region) + [Area];
    var right := on + ["VALOR_F"];
    NonKeyConcat(on, ["VALOR_F"], on);
    NonKeyExtremes(on, on);
    NonKeyExtremes(["VALOR_F"], on);
    assert NonKey(right, on) == ["VALOR_F"];
    SharedAreKeys(region);
    MergedDisjoint(left, right, on, Suffixes("_x", "_y"));
    assert left + ["VALOR_F"] == CropKeyColumns(region) + [Area, "VALOR_F"];
    MergedNamesDistinct(region);
  }

  /** The only columns both summaries have are the join keys. */
  lemma SharedAreKeys(region: bool)
    ensures var on := JoinKeyColumns(region);
      forall c :: c in CropKeyColumns(region) + [Area] && c in on + ["VALOR_F"] ==> c in on
  {
    var on := JoinKeyColumns(region);
    assert "VALOR_F" !in CropKeyColumns(region) + [Area];
  }

  lemma MergedNamesDistinct(region: bool)
    ensures NoDuplicates(CropKeyColumns(region) + [Area, "VALOR_F"])
  {
    DistinctNames(CropKeyColumns(region) + [Area, "VALOR_F"]);
  }

  /**
   * `merge_with_co2_data`: hectares summed per (keys, crop, crop type), CO2
   * summed per keys, then joined on the keys; a KeyError for a missing
   * grouping or summed column.
   */
  function MergeWithCo2(crops: Table, co2: Table): (r: Result<Table>)
    ensures var region := "REGION" in crops.columns;
      r.Err? <==> !HasAll(crops, CropKeyColumns(region) + [Area]) || !HasAll(co2, JoinKeyColumns(region) + ["VALOR_F"])
    ensures r.Err? ==> r.error.KeyError?
    ensures r.Ok? ==> r.value.columns == CropKeyColumns("REGION" in crops.columns) + [Area, "VALOR_F"]
  {
    var region := "REGION" in crops.columns;
    var on := JoinKeyColumns(region);
    match GroupSums(crops, CropKeyColumns(region), [Area])
    case Err(e) => Err(e)
    case Ok(cropSummary) =>
      match GroupSums(co2, on, ["VALOR_F"])
      case Err(e) => Err(e)
      case Ok(co2Summary) =>
        MergedLayout(region);
        Ok(InnerJoin(cropSummary, co2Summary, on, Suffixes("_x", "_y")))
  }

  /** A merged row is the combination of a crop summary row and a CO2 summary row with the same key. */
  lemma MergedPair(crops: Table, co2: Table, x: Row) returns (a: Row, b: Row)
    requires MergeWithCo2(crops, co2).Ok? && x in MergeWithCo2(crops, co2).value.rows
    ensures var region := "REGION" in crops.columns; var on := JoinKeyColumns(region);
      && a in GroupSums(crops, CropKeyColumns(region), [Area]).value.rows
      && b in GroupSums(co2, on, ["VALOR_F"]).value.rows
      && KeyOf(a, on) == KeyOf(b, on) && KeyOf(x, on) == KeyOf(a, on)
      && Get(x, "VALOR_F") == Get(b, "VALOR_F")
  {
    var region := "REGION" in crops.columns;
    var on := JoinKeyColumns(region);
    var cs := GroupSums(crops, CropKeyColumns(region), [Area]).value;
    var co := GroupSums(co2, on, ["VALOR_F"]).value;
    var sfx := Suffixes("_x", "_y");
    MergedLayout(region);
    a, b := JoinRowSource(cs.rows, co.rows, cs.columns, co.columns, on, sfx, x);
    CombineKeys(a, b, cs.columns, co.columns, on, sfx);
    SummaryNamesDistinct(region);
    assert "VALOR_F" in co.columns by { assert co.columns[|on|] == "VALOR_F"; }
    CombineRight(a, b, cs.columns, co.columns, on, sfx, "VALOR_F");
  }

  /**
   * Every merged row's key is the key of some crop row `y` and of some CO2
   * row `z`, and its VALOR_F is the CO2 total over exactly the CO2 rows with
   * that key.
   */
  lemma MergeKeysInBoth(crops: Table, co2: Table, x: Row) returns (y: Row, z: Row)
    requires MergeWithCo2(crops, co2).Ok? && x in MergeWithCo2(crops, co2).value.rows
    ensures var on := JoinKeyColumns("REGION" in crops.columns);
      && y in crops.rows && KeyOf(y, on) == KeyOf(x, on)
      && z in co2.rows && KeyOf(z, on) == KeyOf(x, on)
      && Get(x, "VALOR_F") == Num(Sum(Values(Members(co2.rows, on, KeyOf(x, on)), "VALOR_F")))
  {
    var region := "REGION" in crops.columns;
    var on := JoinKeyColumns(region);
    var keys := CropKeyColumns(region);
    var cs := GroupSums(crops, keys, [Area]).value;
    var co := GroupSums(co2, on, ["VALOR_F"]).value;
    var a, b := MergedPair(crops, co2, x);
    SummaryNamesDistinct(region);
    var ia := IndexOf(a, cs.rows);
    y := GroupSumsSingle(crops, keys, Area, ia);
    KeyOfPrefix(y, a, keys, |on|);
    assert keys[..|on|] == on;
    var ib := IndexOf(b, co.rows);
    z := GroupSumsSingle(co2, on, "VALOR_F", ib);
  }

  /**
   * Every merged row's (keys, crop, crop type) is that of some crop row, and
   * its hectares are the total over exactly the crop rows with that key.
   */
  lemma MergedHectares(crops: Table, co2: Table, x: Row) returns (y: Row)
    requires MergeWithCo2(crops, co2).Ok? && x in MergeWithCo2(crops, co2).value.rows
    ensures var keys := CropKeyColumns("REGION" in crops.columns);
      && y in crops.rows && KeyOf(y, keys) == KeyOf(x, keys)
      && Get(x, Area) == Num(Sum(Values(Members(crops.rows, keys, KeyOf(x, keys)), Area)))
  {
    var region := "REGION" in crops.columns;
    var keys := CropKeyColumns(region);
    SummaryNamesDistinct(region);
    MergedLayout(region);
    assert keys[..|JoinKeyColumns(region)|] == JoinKeyColumns(region);
    y := SummedJoinLeft(crops, keys, [Area], co2, JoinKeyColumns(region), "VALOR_F", Suffixes("_x", "_y"), x, 0);
  }

  /**
   * Every crop row with a complete key that shares its year (and region) with
   * some CO2 row reaches the merge: a merged row carries its key.
   */
  lemma MergeComplete(crops: Table, co2: Table, y: Row, z: Row) returns (x: Row)
    requires MergeWithCo2(crops, co2).Ok?
    requires var region := "REGION" in crops.columns;
      && y in crops.rows && NotNull(y, CropKeyColumns(region))
      && z in co2.rows && KeyOf(z, JoinKeyColumns(region)) == KeyOf(y, JoinKeyColumns(region))
    ensures x in MergeWithCo2(crops, co2).value.rows
    ensures KeyOf(x, CropKeyColumns("REGION" in crops.columns)) == KeyOf(y, CropKeyColumns("REGION" in crops.columns))
  {
    var region := "REGION" in crops.columns;
    var keys := CropKeyColumns(region);
    SummaryNamesDistinct(region);
    MergedLayout(region);
    assert keys[..|JoinKeyColumns(region)|] == JoinKeyColumns(region);
    x := SummedJoinComplete(crops, keys, [Area], co2, JoinKeyColumns(region), "VALOR_F", Suffixes("_x", "_y"), y, z);
  }

  // ---- largest emitters ----

  const TopCount := 10

  datatype CropEmissions = CropEmissions(totals: Table, topTotal: seq<Row>)

  /**
   * `analyze_top_polluting_crops`: CO2 and hectares summed per (crop, crop
   * type), and the n groups with the largest CO2 total, largest first.
   */
  function TopPollutingCrops(merged: Table, n: int): (r: Result<CropEmissions>)
    ensures r.Err? <==> !HasAll(merged, ["CULTIVO", "TIPO_CULTIVO", "VALOR_F", Area])
    ensures r.Ok? ==> r.value.totals.columns == ["CULTIVO", "TIPO_CULTIVO", "VALOR_F", Area]
    ensures r.Ok? ==> |r.value.topTotal| <= |r.value.totals.rows| && (n <= 0 ==> r.value.topTotal == [])
    ensures r.Ok? ==> n > 0 && n <= |r.value.totals.rows| ==> |r.value.topTotal| == n
    ensures r.Ok? && n > 0 ==>
      |r.value.topTotal| == if n < |r.value.totals.rows| then n else |r.value.totals.rows|
    ensures r.Ok? ==> multiset(r.value.topTotal) <= multiset(r.value.totals.rows)
    ensures r.Ok? ==> NonIncreasing(r.value.topTotal, ByColumn("VALOR_F"))
    ensures r.Ok? ==> forall x, y :: x in multiset(r.value.totals.rows) - multiset(r.value.topTotal) && y in r.value.topTotal ==>
      Number(Get(x, "VALOR_F")) <= Number(Get(y, "VALOR_F"))
  {
    assert ["CULTIVO", "TIPO_CULTIVO"] + ["VALOR_F", Area] == ["CULTIVO", "TIPO_CULTIVO", "VALOR_F", Area];
    match GroupSums(merged, ["CULTIVO", "TIPO_CULTIVO"], ["VALOR_F", Area])
    case Err(e) => Err(e)
    case Ok(totals) => Ok(CropEmissions(totals, Largest(totals.rows, n, "VALOR_F")))
  }

  /** The totals ranked are the per-crop CO2 sums over the merged rows; `y` is a merged row of that crop. */
  lemma TopTotalsAreSums(merged: Table, n: int, x: Row) returns (y: Row)
    requires TopPollutingCrops(merged, n).Ok? && x in TopPollutingCrops(merged, n).value.topTotal
    ensures var k := KeyOf(x, ["CULTIVO", "TIPO_CULTIVO"]);
      && y in merged.rows && KeyOf(y, ["CULTIVO", "TIPO_CULTIVO"]) == k
      && Get(x, "VALOR_F") == Num(Sum(Values(Members(merged.rows, ["CULTIVO", "TIPO_CULTIVO"], k), "VALOR_F")))
  {
    var i := TopIndex(merged, n, x);
    y := CropTotal(merged, i);
  }

  /** An element of a sub-multiset occurs at some position of the larger sequence. */
  lemma IndexInSuper<T>(x: T, a: seq<T>, b: seq<T>) returns (i: nat)
    requires x in a && multiset(a) <= multiset(b)
    ensures i < |b| && b[i] == x
  {
    assert x in multiset(a);
    assert x in multiset(b);
    i :| 0 <= i < |b| && b[i] == x;
  }

  /** A ranked row is one of the totals. */
  lemma TopIndex(merged: Table, n: int, x: Row) returns (i: nat)
    requires TopPollutingCrops(merged, n).Ok? && x in TopPollutingCrops(merged, n).value.topTotal
    ensures GroupSums(merged, ["CULTIVO", "TIPO_CULTIVO"], ["VALOR_F", Area]).Ok?
    ensures var totals := GroupSums(merged, ["CULTIVO", "TIPO_CULTIVO"], ["VALOR_F", Area]).value.rows;
      i < |totals| && totals[i] == x
  {
    var g := GroupSums(merged, ["CULTIVO", "TIPO_CULTIVO"], ["VALOR_F", Area]);
    var e := TopPollutingCrops(merged, n).value;
    assert g.Ok? && e.totals == g.value;
    i := IndexInSuper(x, e.topTotal, g.value.rows);
  }

  /** A per-crop total: its crop occurs among the merged rows and its VALOR_F is that crop's sum. */
  lemma CropTotal(merged: Table, i: nat) returns (y: Row)
    requires GroupSums(merged, ["CULTIVO", "TIPO_CULTIVO"], ["VALOR_F", Area]).Ok?
    requires i < |GroupSums(merged, ["CULTIVO", "TIPO_CULTIVO"], ["VALOR_F", Area]).value.rows|
    ensures var x := GroupSums(merged, ["CULTIVO", "TIPO_CULTIVO"], ["VALOR_F", Area]).value.rows[i];
      var k := KeyOf(x, ["CULTIVO", "TIPO_CULTIVO"]);
      && y in merged.rows && KeyOf(y, ["CULTIVO", "TIPO_CULTIVO"]) == k
      && Get(x, "VALOR_F") == Num(Sum(Values(Members(merged.rows, ["CULTIVO", "TIPO_CULTIVO"], k), "VALOR_F")))
  {
    var keys := ["CULTIVO", "TIPO_CULTIVO"];
    var cols := ["VALOR_F", Area];
    var x := GroupSums(merged, keys, cols).value.rows[i];
    SummaryNamesDistinct(false);
    GroupSumsRow(merged, keys, cols, i);
    y :| y in merged.rows && KeyOf(y, keys) == KeyOf(x, keys);
    assert cols[0] == "VALOR_F";
  }
}
