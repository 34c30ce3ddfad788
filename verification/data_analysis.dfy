/**
 * CO2DataAnalyzer: holds its own copy of the emissions table, coerces ANO and
 * VALOR_F to numbers when it is built, and answers group-by queries over it.
 * Each query drops the rows missing a needed value, groups the rest by key in
 * ascending key order and aggregates VALOR_F per group; a query whose columns
 * are not all present answers [].
 */
module DataAnalysis {
  import opened Frame
  import opened Order
  import opened Grouping
  import opened Aggregate
  import opened Sorting
  import opened Preprocessing
  import opened Distinct

  const Metric := "VALOR_F"

  class CO2DataAnalyzer {
    var df: Table

    /** `self.df = df.copy()`: the analyzer keeps a table of its own. */
    constructor (source: Table)
      ensures df == source
    {
      df := source;
    }

    /**
     * The two column coercions, overwriting the columns of `df` one after the
     * other.  When ANO fails, `df` is untouched; when VALOR_F fails, `df`
     * keeps the ANO column already coerced.
     */
    method PreprocessData() returns (err: Option<Error>)
      modifies this
      ensures Preprocess(old(df)).Ok? ==> err == None && df == Preprocess(old(df)).value
      ensures Preprocess(old(df)).Err? ==> err == Some(Preprocess(old(df)).error)
      ensures CoerceIfPresent(old(df), "ANO", CommaToPoint).Err? ==> df == old(df)
      ensures var year := CoerceIfPresent(old(df), "ANO", CommaToPoint);
        year.Ok? && Preprocess(old(df)).Err? ==> df == Table(old(df).columns, year.value)
    {
      if "ANO" in df.columns {
        var year := CoerceColumn(df.rows, "ANO", CommaToPoint);
        if year.Err? {
          return Some(year.error);
        }
        df := df.(rows := year.value);
      }
      if Metric in df.columns {
        var value := CoerceColumn(df.rows, Metric, DropCommas);
        if value.Err? {
          return Some(value.error);
        }
        df := df.(rows := value.value);
      }
      return None;
    }
  }

  /**
   * `CO2DataAnalyzer(source)`: a new analyzer over a coerced copy of `source`,
   * or the error the coercion raises.  The caller's table is a value and is
   * never changed.
   */
  method NewAnalyzer(source: Table) returns (r: Result<CO2DataAnalyzer>)
    ensures r.Ok? <==> Preprocess(source).Ok?
    ensures r.Ok? ==> fresh(r.value) && r.value.df == Preprocess(source).value && Coerced(r.value.df)
    ensures r.Err? ==> r.error == Preprocess(source).error
  {
    var a := new CO2DataAnalyzer(source);
    var err := a.PreprocessData();
    if err.Some? {
      return Err(err.value);
    }
    return Ok(a);
  }

  // ---- groups whose VALOR_F cells are all numbers ----

  /** Every row holds a number in VALOR_F. */
  predicate Measured(rows: seq<Row>)
  {
    forall r :: r in rows ==> Get(r, Metric).Num?
  }

  /** The rows of a coerced table that have no missing cell in `cols`, which include VALOR_F, are measured. */
  lemma KeptMeasured(df: Table, cols: seq<string>)
    requires Coerced(df) && Metric in df.columns && Metric in cols
    ensures Measured(DropNa(df.rows, cols))
  {
    var j :| 0 <= j < |cols| && cols[j] == Metric;
    forall r | r in DropNa(df.rows, cols) ensures Get(r, Metric).Num? {
      assert Get(r, cols[j]) != Missing;
    }
  }

  /** In a groupby of measured rows, each group has one VALOR_F value per row, and at least one. */
  lemma GroupMeasured(rows: seq<Row>, cols: seq<string>, i: nat)
    requires Measured(rows) && i < |GroupRows(rows, cols)|
    ensures var g := GroupRows(rows, cols)[i];
      && |Values(g.members, Metric)| == |g.members| > 0
      && g.members == Members(rows, cols, g.key)
      && |g.key| == |cols|
  {
    var g := GroupRows(rows, cols)[i];
    GroupIsMembers(rows, cols, i);
    ValuesAllPresent(g.members, Metric);
    assert g.members[0] in g.members;
  }

  predicate Full(gs: seq<Group>)
  {
    forall i :: 0 <= i < |gs| ==> |Values(gs[i].members, Metric)| == |gs[i].members| > 0
  }

  lemma GroupsFull(rows: seq<Row>, cols: seq<string>)
    requires Measured(rows)
    ensures Full(GroupRows(rows, cols))
  {
    forall i | 0 <= i < |GroupRows(rows, cols)|
      ensures |Values(GroupRows(rows, cols)[i].members, Metric)| == |GroupRows(rows, cols)[i].members| > 0
    {
      GroupMeasured(rows, cols, i);
    }
  }

  /** The rows of a measured groupby add up to all rows whose key is complete. */
  lemma MeasuredTotal(rows: seq<Row>, cols: seq<string>)
    requires forall r :: r in rows ==> NotNull(r, cols)
    ensures Total(GroupRows(rows, cols)) == |rows|
  {
    CompleteRowsAll(rows, cols);
  }

  // ---- count / min / max per group ----

  /** One output record of a stats query: the group key with count, min and max of VALOR_F. */
  datatype Stats = Stats(key: Key, count: nat, min: real, max: real)

  function Summarize(g: Group): Stats
    requires |Values(g.members, Metric)| > 0
  {
    var vs := Values(g.members, Metric);
    Stats(g.key, |vs|, Min(vs), Max(vs))
  }

  function Summaries(gs: seq<Group>): (r: seq<Stats>)
    requires Full(gs)
    ensures |r| == |gs|
    ensures forall i :: 0 <= i < |gs| ==> r[i] == Summarize(gs[i])
  {
    if gs == [] then []
    else [Summarize(gs[0])] + Summaries(gs[1..])
  }

  function SumCounts(ss: seq<Stats>): nat
  {
    if ss == [] then 0 else ss[0].count + SumCounts(ss[1..])
  }

  lemma {:induction false} SummariesCount(gs: seq<Group>)
    requires Full(gs)
    ensures SumCounts(Summaries(gs)) == Total(gs)
    decreases |gs|
  {
    if gs != [] {
      assert Full(gs[1..]) by {
        forall i | 0 <= i < |gs[1..]|
          ensures |Values(gs[1..][i].members, Metric)| == |gs[1..][i].members| > 0
        {
          assert gs[1..][i] == gs[i + 1];
        }
      }
      SummariesCount(gs[1..]);
      assert Summaries(gs)[1..] == Summaries(gs[1..]);
    }
  }

  /** The rows a stats query keeps: those with no missing key cell and a VALOR_F value. */
  function Kept(df: Table, keys: seq<string>): seq<Row>
  {
    DropNa(df.rows, keys + [Metric])
  }

  lemma KeptComplete(df: Table, keys: seq<string>)
    ensures forall r :: r in Kept(df, keys) ==> NotNull(r, keys)
  {
    forall r | r in Kept(df, keys) ensures NotNull(r, keys) {
      assert forall i :: 0 <= i < |keys| ==> (keys + [Metric])[i] == keys[i];
    }
  }

  /**
   * The groupby → count/min/max pipeline shared by the stats queries: [] when
   * a key column or VALOR_F is absent; otherwise one record per distinct key of
   * the kept rows, keys strictly ascending, each with a complete key, a
   * positive count and min <= max.
   */
  function StatsBy(df: Table, keys: seq<string>): (r: seq<Stats>)
    requires Coerced(df)
    ensures !HasAll(df, keys) || Metric !in df.columns ==> r == []
    ensures forall i, j :: 0 <= i < j < |r| ==> KeyLess(r[i].key, r[j].key)
    ensures forall i :: 0 <= i < |r| ==>
      |r[i].key| == |keys| && Complete(r[i].key) && r[i].count >= 1 && r[i].min <= r[i].max
  {
    if !HasAll(df, keys) || Metric !in df.columns then []
    else
      var rows := Kept(df, keys);
      KeptMeasured(df, keys + [Metric]);
      var gs := GroupRows(rows, keys);
      GroupsFull(rows, keys);
      forall i | 0 <= i < |gs| ensures |gs[i].key| == |keys| && Complete(gs[i].key) {
        GroupMeasured(rows, keys, i);
      }
      Summaries(gs)
  }

  /**
   * Each stats record summarises exactly the kept rows with its key: the count
   * is their number, and min and max are values of theirs bounding all the others.
   */
  lemma StatsGroup(df: Table, keys: seq<string>, i: nat)
    requires Coerced(df) && i < |StatsBy(df, keys)|
    ensures var s := StatsBy(df, keys)[i];
      var g := Members(Kept(df, keys), keys, s.key);
      && s.count == |g|
      && s.min in Values(g, Metric) && s.max in Values(g, Metric)
      && forall v :: v in Values(g, Metric) ==> s.min <= v <= s.max
  {
    var rows := Kept(df, keys);
    KeptMeasured(df, keys + [Metric]);
    GroupMeasured(rows, keys, i);
  }

  /** The group counts add up to the number of kept rows: no kept row is lost or counted twice. */
  lemma StatsCountsAddUp(df: Table, keys: seq<string>)
    requires Coerced(df) && HasAll(df, keys) && Metric in df.columns
    ensures SumCounts(StatsBy(df, keys)) == |Kept(df, keys)|
  {
    var rows := Kept(df, keys);
    KeptMeasured(df, keys + [Metric]);
    GroupsFull(rows, keys);
    SummariesCount(GroupRows(rows, keys));
    KeptComplete(df, keys);
    MeasuredTotal(rows, keys);
  }

  /** Every row that has all key cells and a VALOR_F value is summarised under its own key. */
  lemma StatsCoverKeptRows(df: Table, keys: seq<string>, row: Row)
    requires Coerced(df) && HasAll(df, keys) && Metric in df.columns
    requires row in df.rows && NotNull(row, keys + [Metric])
    ensures exists i :: 0 <= i < |StatsBy(df, keys)| && StatsBy(df, keys)[i].key == KeyOf(row, keys)
  {
    var rows := Kept(df, keys);
    assert row in rows;
    KeptComplete(df, keys);
    CompleteKeyOf(row, keys);
    RowHasGroup(rows, keys, row);
    var gs := GroupRows(rows, keys);
    KeptMeasured(df, keys + [Metric]);
    GroupsFull(rows, keys);
    assert StatsBy(df, keys) == Summaries(gs);
    var i :| 0 <= i < |gs| && gs[i].key == KeyOf(row, keys);
    assert StatsBy(df, keys)[i].key == gs[i].key;
  }

  /** A stats query answers [] exactly when a column is absent or no row has all of its values. */
  lemma StatsEmpty(df: Table, keys: seq<string>)
    requires Coerced(df)
    ensures StatsBy(df, keys) == [] <==> !HasAll(df, keys) || Metric !in df.columns || Kept(df, keys) == []
  {
    if HasAll(df, keys) && Metric in df.columns && Kept(df, keys) != [] {
      var row := Kept(df, keys)[0];
      assert row in Kept(df, keys);
      StatsCoverKeptRows(df, keys, row);
    }
  }

  /** A one-column key compares as its cell. */
  lemma SingleKeys(r: seq<Stats>)
    requires forall i :: 0 <= i < |r| ==> |r[i].key| == 1
    requires forall i, j :: 0 <= i < j < |r| ==> KeyLess(r[i].key, r[j].key)
    ensures forall i, j :: 0 <= i < j < |r| ==> CellLess(r[i].key[0], r[j].key[0])
  {
    forall i, j | 0 <= i < j < |r| ensures CellLess(r[i].key[0], r[j].key[0]) {
      assert r[i].key == [r[i].key[0]] && r[j].key == [r[j].key[0]];
      SingletonKeyLess(r[i].key[0], r[j].key[0]);
    }
  }

  /** `get_stats_by_region`: one record per region, regions strictly ascending. */
  function StatsByRegion(df: Table): (r: seq<Stats>)
    requires Coerced(df)
    ensures "REGION" !in df.columns || Metric !in df.columns ==> r == []
    ensures forall i :: 0 <= i < |r| ==> |r[i].key| == 1 && r[i].key[0] != Missing
    ensures forall i, j :: 0 <= i < j < |r| ==> CellLess(r[i].key[0], r[j].key[0])
  {
    var keys := ["REGION"];
    assert HasAll(df, keys) ==> keys[0] in df.columns;
    var r := StatsBy(df, keys);
    SingleKeys(r);
    r
  }

  /** `get_stats_by_category`: one record per category, categories strictly ascending. */
  function StatsByCategory(df: Table): (r: seq<Stats>)
    requires Coerced(df)
    ensures "CATEGORIA" !in df.columns || Metric !in df.columns ==> r == []
    ensures forall i :: 0 <= i < |r| ==> |r[i].key| == 1 && r[i].key[0] != Missing
    ensures forall i, j :: 0 <= i < j < |r| ==> CellLess(r[i].key[0], r[j].key[0])
  {
    var keys := ["CATEGORIA"];
    assert HasAll(df, keys) ==> keys[0] in df.columns;
    var r := StatsBy(df, keys);
    SingleKeys(r);
    r
  }

  /** `get_stats_by_region_category`: one record per (region, category) pair present. */
  function StatsByRegionCategory(df: Table): (r: seq<Stats>)
    requires Coerced(df)
    ensures "REGION" !in df.columns || "CATEGORIA" !in df.columns || Metric !in df.columns ==> r == []
    ensures forall i :: 0 <= i < |r| ==> |r[i].key| == 2 && r[i].key[0] != Missing && r[i].key[1] != Missing
  {
    var keys := ["REGION", "CATEGORIA"];
    assert HasAll(df, keys) ==> keys[0] in df.columns && keys[1] in df.columns;
    StatsBy(df, keys)
  }

  // ---- time series ----

  /** One record of the time series: a year key and the number of VALOR_F values in that year. */
  datatype Tally = Tally(key: Key, count: nat)

  /** `if region and 'REGION' in df.columns`: a non-empty region filters only when the column exists. */
  predicate Filters(df: Table, region: Option<string>)
  {
    region.Some? && region.value != "" && "REGION" in df.columns
  }

  function OfRegion(rows: seq<Row>, region: string): (r: seq<Row>)
    ensures forall x :: x in r <==> x in rows && Get(x, "REGION") == Str(region)
  {
    if rows == [] then []
    else (if Get(rows[0], "REGION") == Str(region) then [rows[0]] else []) + OfRegion(rows[1..], region)
  }

  /** The rows the time series counts: year and value present, and of the region when it filters. */
  function SeriesRows(df: Table, region: Option<string>): (r: seq<Row>)
    ensures forall x :: x in r <==>
      && x in df.rows && NotNull(x, ["ANO", Metric])
      && (Filters(df, region) ==> Get(x, "REGION") == Str(region.value))
  {
    var kept := DropNa(df.rows, ["ANO", Metric]);
    if Filters(df, region) then OfRegion(kept, region.value) else kept
  }

  function Tallies(gs: seq<Group>): (r: seq<Tally>)
    requires Full(gs)
    ensures |r| == |gs|
    ensures forall i :: 0 <= i < |gs| ==> r[i] == Tally(gs[i].key, |Values(gs[i].members, Metric)|)
  {
    if gs == [] then []
    else [Tally(gs[0].key, |Values(gs[0].members, Metric)|)] + Tallies(gs[1..])
  }

  /**
   * `get_time_series_by_region`: [] when ANO or VALOR_F is absent; otherwise
   * one record per distinct year of the counted rows, years strictly
   * ascending, each counting exactly the counted rows of that year.
   */
  function TimeSeriesByRegion(df: Table, region: Option<string>): (r: seq<Tally>)
    requires Coerced(df)
    ensures "ANO" !in df.columns || Metric !in df.columns ==> r == []
    ensures forall i, j :: 0 <= i < j < |r| ==> KeyLess(r[i].key, r[j].key)
    ensures forall i :: 0 <= i < |r| ==>
      1 <= r[i].count == |Members(SeriesRows(df, region), ["ANO"], r[i].key)|
  {
    if "ANO" !in df.columns || Metric !in df.columns then []
    else
      var rows := SeriesRows(df, region);
      assert Measured(rows) by {
        forall x | x in rows ensures Get(x, Metric).Num? {
          assert ["ANO", Metric][1] == Metric;
        }
      }
      var gs := GroupRows(rows, ["ANO"]);
      GroupsFull(rows, ["ANO"]);
      forall i | 0 <= i < |gs| ensures gs[i].members == Members(rows, ["ANO"], gs[i].key) {
        GroupIsMembers(rows, ["ANO"], i);
      }
      Tallies(gs)
  }

  function SumTallies(ts: seq<Tally>): nat
  {
    if ts == [] then 0 else ts[0].count + SumTallies(ts[1..])
  }

  lemma {:induction false} TalliesCount(gs: seq<Group>)
    requires Full(gs)
    ensures SumTallies(Tallies(gs)) == Total(gs)
    decreases |gs|
  {
    if gs != [] {
      assert Full(gs[1..]) by {
        forall i | 0 <= i < |gs[1..]|
          ensures |Values(gs[1..][i].members, Metric)| == |gs[1..][i].members| > 0
        {
          assert gs[1..][i] == gs[i + 1];
        }
      }
      TalliesCount(gs[1..]);
      assert Tallies(gs)[1..] == Tallies(gs[1..]);
    }
  }

  /** The yearly counts add up to the number of counted rows (all of them, or those of the region). */
  lemma TimeSeriesCountsAddUp(df: Table, region: Option<string>)
    requires Coerced(df) && "ANO" in df.columns && Metric in df.columns
    ensures SumTallies(TimeSeriesByRegion(df, region)) == |SeriesRows(df, region)|
  {
    var rows := SeriesRows(df, region);
    assert Measured(rows) by {
      forall x | x in rows ensures Get(x, Metric).Num? {
        assert ["ANO", Metric][1] == Metric;
      }
    }
    GroupsFull(rows, ["ANO"]);
    TalliesCount(GroupRows(rows, ["ANO"]));
    forall x | x in rows ensures NotNull(x, ["ANO"]) {
      assert ["ANO", Metric][0] == "ANO";
    }
    MeasuredTotal(rows, ["ANO"]);
  }

  // ---- top emitters ----

  /** One record of the emitter table: the key, the total of its VALOR_F values and their count. */
  datatype Emitter = Emitter(key: Key, total: real, count: nat)

  function Emitters(gs: seq<Group>): (r: seq<Emitter>)
    requires Full(gs)
    ensures |r| == |gs|
    ensures forall i :: 0 <= i < |gs| ==>
      r[i] == Emitter(gs[i].key, Sum(Values(gs[i].members, Metric)), |Values(gs[i].members, Metric)|)
  {
    if gs == [] then []
    else
      var vs := Values(gs[0].members, Metric);
      [Emitter(gs[0].key, Sum(vs), |vs|)] + Emitters(gs[1..])
  }

  function TotalOf(e: Emitter): real
  {
    e.total
  }

  /**
   * The aggregated table before sorting: one record per distinct value of `by`
   * among the rows with a `by` value and a VALOR_F value, ascending by key,
   * each holding the sum and count of that group's values.
   */
  function EmitterTable(df: Table, column: string): (r: seq<Emitter>)
    requires Coerced(df)
    ensures column !in df.columns || Metric !in df.columns ==> r == []
    ensures forall i, j :: 0 <= i < j < |r| ==> KeyLess(r[i].key, r[j].key)
    ensures forall i :: 0 <= i < |r| ==>
      var g := Members(Kept(df, [column]), [column], r[i].key);
      1 <= r[i].count == |g| && r[i].total == Sum(Values(g, Metric))
  {
    if column !in df.columns || Metric !in df.columns then []
    else
      var rows := Kept(df, [column]);
      KeptMeasured(df, [column] + [Metric]);
      var gs := GroupRows(rows, [column]);
      GroupsFull(rows, [column]);
      forall i | 0 <= i < |gs| ensures gs[i].members == Members(rows, [column], gs[i].key) {
        GroupIsMembers(rows, [column], i);
      }
      Emitters(gs)
  }

  /**
   * `get_top_emitters(n, by)`: the emitter table sorted by total, largest
   * first, cut to its first n records (`head(n)`, so a negative n drops the
   * last |n| records).
   */
  function TopEmitters(df: Table, n: int, column: string): (r: seq<Emitter>)
    requires Coerced(df)
    ensures column !in df.columns || Metric !in df.columns ==> r == []
    ensures n >= 0 ==> |r| <= n
    ensures |r| <= |EmitterTable(df, column)|
    ensures multiset(r) <= multiset(EmitterTable(df, column))
    ensures NonIncreasing(r, TotalOf)
  {
    SortedPrefix(EmitterTable(df, column), TotalOf, n);
    Head(SortDesc(EmitterTable(df, column), TotalOf), n)
  }

  /** The records left out of the top n have totals no larger than any record kept. */
  lemma TopEmittersLargest(df: Table, n: nat, column: string)
    requires Coerced(df)
    ensures var all := EmitterTable(df, column);
      var top := TopEmitters(df, n, column);
      && |top| == (if n < |all| then n else |all|)
      && forall x, y :: x in multiset(all) - multiset(top) && y in top ==> x.total <= y.total
  {
    TopLargest(EmitterTable(df, column), TotalOf, n);
  }

  // ---- available values ----

  /** What `sorted` raises when it has to compare text with a number. */
  const Unorderable := "'<' not supported between instances of 'str' and 'float'"

  /**
   * `sorted(df[col].dropna().unique())`: [] when `col` is absent; a TypeError
   * when the column mixes numbers and text; otherwise the distinct non-missing
   * values of `col`, strictly ascending, and exactly those.
   */
  function AvailableValues(df: Table, col: string): (r: Result<seq<Cell>>)
    ensures col !in df.columns ==> r == Ok([])
    ensures r.Err? <==> col in df.columns && Mixed(df.rows, col)
    ensures r.Err? ==> r.error.TypeError?
    ensures r.Ok? ==> forall i :: 0 <= i < |r.value| ==> r.value[i] != Missing
    ensures r.Ok? ==> forall i, j :: 0 <= i < j < |r.value| ==> CellLess(r.value[i], r.value[j])
    ensures r.Ok? && col in df.columns ==>
      forall v :: v in r.value <==> v != Missing && exists x :: x in df.rows && Get(x, col) == v
  {
    if col !in df.columns then Ok([])
    else if Mixed(df.rows, col) then Err(TypeError(Unorderable))
    else Ok(DistinctValues(df.rows, col))
  }
}
