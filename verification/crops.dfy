/**
 * The table steps the crop-analysis scripts share: recognising year columns,
 * reshaping a wide crop table (one column per year) into long form, coercing
 * cells to numbers, renaming and normalising columns, per-key sums, inner
 * joins of per-key sums, stacking two tables, and selecting the rows with the
 * largest totals.
 */
module Crops {
  import opened Frame
  import opened Text
  import opened Order
  import opened Grouping
  import opened Aggregate
  import opened Sorting
  import opened Join

  /** Names that differ in their first letter or their length are distinct; this settles short literal lists. */
  lemma DistinctNames(s: seq<string>)
    requires forall i :: 0 <= i < |s| ==> |s[i]| > 0
    requires forall i, j :: 0 <= i < j < |s| ==> s[i][0] != s[j][0] || |s[i]| != |s[j]|
    ensures NoDuplicates(s)
  {
  }

  // ---- year columns ----

  /** `int(col)` succeeds and the year lies strictly between 1900 and 2100. */
  predicate ParsesAsYear(c: string)
  {
    ParseInt(c).Some? && 1900 < ParseInt(c).value < 2100
  }

  /** `str(col).isdigit() and 1900 < int(col) < 2100` (`int` is reached only for all-digit names). */
  predicate DigitYear(c: string)
  {
    IsDigits(c) && 1900 < DigitsValue(c) < 2100
  }

  /** `col_str.isdigit() and len(col_str) == 4`, then 1900 < year < 2100. */
  predicate FourDigitYear(c: string)
  {
    IsDigits(c) && |c| == 4 && 1900 < DigitsValue(c) < 2100
  }

  /** The three year tests are nested: four digits, then any digits, then anything `int` accepts. */
  lemma YearTestsNested(c: string)
    ensures FourDigitYear(c) ==> DigitYear(c)
    ensures DigitYear(c) ==> ParsesAsYear(c)
  {
    if IsDigits(c) {
      DigitsParseInt(c);
    }
  }

  /** A witness that the four-digit test is met: "1990" spells 1990. */
  lemma DigitsOf1990()
    ensures FourDigitYear("1990")
  {
    assert DigitsValue("1") == 1 by { assert "1"[..0] == ""; }
    assert DigitsValue("19") == 19 by { assert "19"[..1] == "1"; }
    assert DigitsValue("199") == 199 by { assert "199"[..2] == "19"; }
    assert DigitsValue("1990") == 1990 by { assert "1990"[..3] == "199"; }
  }

  /** A leading zero does not change the value of a digit string. */
  lemma {:induction false} LeadingZero(d: string)
    requires forall i :: 0 <= i < |d| ==> IsDigit(d[i])
    ensures forall i :: 0 <= i < |"0" + d| ==> IsDigit(("0" + d)[i])
    ensures DigitsValue("0" + d) == DigitsValue(d)
    decreases |d|
  {
    var t := "0" + d;
    assert forall i :: 0 < i < |t| ==> t[i] == d[i - 1];
    if d == [] {
      assert t[..0] == "";
    } else {
      var init := d[..|d| - 1];
      assert t[..|t| - 1] == "0" + init;
      assert t[|t| - 1] == d[|d| - 1];
      LeadingZero(init);
    }
  }

  /**
   * The nesting is strict: a four-digit year name with a leading zero passes
   * the digit test but not the four-digit one.
   */
  lemma ZeroPaddedYear(d: string)
    requires FourDigitYear(d)
    ensures DigitYear("0" + d) && !FourDigitYear("0" + d)
  {
    LeadingZero(d);
    assert ("0" + d)[0] == '0';
  }

  /** `int("+" + d)` for a digit string `d` is the value of `d`. */
  lemma PlusDigitsParseInt(d: string)
    requires IsDigits(d)
    ensures ParseInt("+" + d) == Some(DigitsValue(d) as int)
  {
    var t := "+" + d;
    DigitChar(d[|d| - 1]);
    assert t[|t| - 1] == d[|d| - 1];
    assert StripLeft(t) == t;
    assert StripRight(t) == t;
    assert t[1..] == d;
    assert UnderscoredDigits(d);
    assert '_' !in d;
    RemoveCharAbsent(d, '_');
  }

  /** A signed year, such as "+1990", passes `int` but not the digit test. */
  lemma SignedYear(d: string)
    requires DigitYear(d)
    ensures ParsesAsYear("+" + d) && !DigitYear("+" + d)
  {
    PlusDigitsParseInt(d);
    assert !IsDigit(("+" + d)[0]);
  }

  lemma {:induction false} FilterAppend<T(!new)>(s: seq<T>, x: T, p: T -> bool)
    ensures Filter(s + [x], p) == Filter(s, p) + (if p(x) then [x] else [])
    decreases |s|
  {
    if s != [] {
      FilterAppend(s[1..], x, p);
      FilterAppendStep(s, x, p);
    } else {
      var sx := s + [x];
      assert sx == [x];
      assert sx[1..] == [];
    }
  }

  /** The step of `FilterAppend`: from the tail's equation to the whole sequence's. */
  lemma FilterAppendStep<T(!new)>(s: seq<T>, x: T, p: T -> bool)
    requires s != []
    requires Filter(s[1..] + [x], p) == Filter(s[1..], p) + (if p(x) then [x] else [])
    ensures Filter(s + [x], p) == Filter(s, p) + (if p(x) then [x] else [])
  {
    var sx := s + [x];
    var head, rest, last := if p(s[0]) then [s[0]] else [], Filter(s[1..], p), if p(x) then [x] else [];
    TailAppend(s, x);
    assert Filter(sx[1..], p) == rest + last;
    FilterCons(sx, p);
    assert Filter(sx, p) == head + (rest + last);
    FilterCons(s, p);
    ConcatAssoc(head, rest, last);
  }

  lemma TailAppend<T>(s: seq<T>, x: T)
    requires s != []
    ensures (s + [x])[0] == s[0] && (s + [x])[1..] == s[1..] + [x]
  {
  }

  lemma ConcatAssoc<T>(a: seq<T>, b: seq<T>, c: seq<T>)
    ensures a + (b + c) == (a + b) + c
  {
  }

  /** Filtering a non-empty sequence: its first element if it passes, then the filtered rest. */
  lemma FilterCons<T(!new)>(s: seq<T>, p: T -> bool)
    requires s != []
    ensures Filter(s, p) == (if p(s[0]) then [s[0]] else []) + Filter(s[1..], p)
  {
  }

  /** The loop over the columns that collects those passing `isYear`, in column order. */
  method YearColumns(cols: seq<string>, isYear: string -> bool) returns (years: seq<string>)
    ensures years == Filter(cols, isYear)
  {
    years := [];
    var i := 0;
    while i < |cols|
      invariant 0 <= i <= |cols|
      invariant years == Filter(cols[..i], isYear)
    {
      FilterPrefix(cols, i, isYear);
      if isYear(cols[i]) {
        years := years + [cols[i]];
      }
      i := i + 1;
    }
    assert cols[..i] == cols;
  }

  /** Filtering one more element of a prefix appends it exactly when it passes. */
  lemma FilterPrefix<T(!new)>(s: seq<T>, i: nat, p: T -> bool)
    requires i < |s|
    ensures Filter(s[..i + 1], p) == Filter(s[..i], p) + (if p(s[i]) then [s[i]] else [])
  {
    assert s[..i + 1] == s[..i] + [s[i]];
    FilterAppend(s[..i], s[i], p);
  }

  /** The first of `names` that is among `cols`, if any. */
  function FirstIn(names: seq<string>, cols: seq<string>): (r: Option<string>)
    ensures r.None? <==> forall k :: 0 <= k < |names| ==> names[k] !in cols
    ensures r.Some? ==> exists k ::
      && 0 <= k < |names| && names[k] == r.value && r.value in cols
      && forall j :: 0 <= j < k ==> names[j] !in cols
  {
    if names == [] then None
    else if names[0] in cols then Some(names[0])
    else
      var rest := FirstIn(names[1..], cols);
      if rest.Some? then
        var k :|
          && 0 <= k < |names[1..]| && names[1..][k] == rest.value && rest.value in cols
          && forall j :: 0 <= j < k ==> names[1..][j] !in cols;
        assert forall j :: 0 <= j < k + 1 ==> names[j] !in cols by {
          forall j | 0 <= j < k + 1 ensures names[j] !in cols {
            if j > 0 { assert names[j] == names[1..][j - 1]; }
          }
        }
        rest
      else
        assert forall k :: 0 <= k < |names| ==> names[k] !in cols by {
          forall k | 0 <= k < |names| ensures names[k] !in cols {
            if k > 0 { assert names[k] == names[1..][k - 1]; }
          }
        }
        rest
  }

  // ---- wide to long ----

  /** The long-format row of input row `x` for year column `y`: the id cells, the year name as ANO, and the year's cell. */
  function MeltRow(x: Row, ids: seq<string>, y: string, value: string): (m: Row)
    ensures value in m && m[value] == Get(x, y)
    ensures value != "ANO" ==> "ANO" in m && m["ANO"] == Str(y)
    ensures forall c :: c in ids && c != "ANO" && c != value ==> c in m && m[c] == Get(x, c)
  {
    (map c | c in ids :: Get(x, c))["ANO" := Str(y)][value := Get(x, y)]
  }

  /**
   * `melt(id_vars=ids, value_vars=years, var_name='ANO', value_name=value)`
   * on the rows: year by year, every input row once.
   */
  function Melt(rows: seq<Row>, ids: seq<string>, years: seq<string>, value: string): seq<Row>
  {
    if years == [] then []
    else
      seq(|rows|, i requires 0 <= i < |rows| => MeltRow(rows[i], ids, years[0], value))
        + Melt(rows, ids, years[1..], value)
  }

  /** The long table has one row per (year column, input row) pair. */
  lemma {:induction false} MeltLength(rows: seq<Row>, ids: seq<string>, years: seq<string>, value: string)
    ensures |Melt(rows, ids, years, value)| == |years| * |rows|
    decreases |years|
  {
    if years != [] {
      MeltLength(rows, ids, years[1..], value);
      assert |years| * |rows| == |rows| + (|years| - 1) * |rows|;
    }
  }

  /** Every long row comes from one input row and one year column, and every such pair gives one. */
  lemma {:induction false} MeltMembership(rows: seq<Row>, ids: seq<string>, years: seq<string>, value: string, m: Row)
    ensures m in Melt(rows, ids, years, value) <==>
      exists i, k :: 0 <= i < |rows| && 0 <= k < |years| && m == MeltRow(rows[i], ids, years[k], value)
    decreases |years|
  {
    if years != [] {
      var head := seq(|rows|, i requires 0 <= i < |rows| => MeltRow(rows[i], ids, years[0], value));
      var rest := Melt(rows, ids, years[1..], value);
      assert Melt(rows, ids, years, value) == head + rest;
      MeltMembership(rows, ids, years[1..], value, m);
      if m in rest {
        var i, k :| 0 <= i < |rows| && 0 <= k < |years[1..]| && m == MeltRow(rows[i], ids, years[1..][k], value);
        assert years[1..][k] == years[k + 1];
      }
      if m in head {
        var i :| 0 <= i < |rows| && head[i] == m;
        assert m == MeltRow(rows[i], ids, years[0], value);
      }
      if exists i, k :: 0 <= i < |rows| && 0 <= k < |years| && m == MeltRow(rows[i], ids, years[k], value) {
        var i, k :| 0 <= i < |rows| && 0 <= k < |years| && m == MeltRow(rows[i], ids, years[k], value);
        if k == 0 {
          assert head[i] == m;
        } else {
          assert years[1..][k - 1] == years[k];
        }
      }
    }
  }

  /** `df.melt(...)`: a KeyError for an id column the table lacks; the columns are the ids, ANO and the value column. */
  function MeltTable(t: Table, ids: seq<string>, years: seq<string>, value: string): (r: Result<Table>)
    ensures r.Err? <==> !HasAll(t, ids)
    ensures r.Err? ==> r.error.KeyError? && r.error.column in ids && r.error.column !in t.columns
    ensures r.Ok? ==> r.value.columns == ids + ["ANO", value]
    ensures r.Ok? ==> |r.value.rows| == |years| * |t.rows|
  {
    match FirstAbsent(t, ids)
    case Some(c) => Err(KeyError(c))
    case None =>
      MeltLength(t.rows, ids, years, value);
      Ok(Table(ids + ["ANO", value], Melt(t.rows, ids, years, value)))
  }

  // ---- numeric coercion ----

  /** `pd.to_numeric(..., errors='coerce')` on one cell: text that does not parse becomes missing. */
  function ToNumeric(c: Cell): (r: Cell)
    ensures !r.Str?
    ensures !c.Str? ==> r == c
  {
    match c
    case Str(s) => (match ParseFloat(s) case Some(v) => v case None => Missing)
    case _ => c
  }

  /** The column `col` coerced in every row, nothing else changed. */
  function CoerceNumeric(rows: seq<Row>, col: string): (r: seq<Row>)
    ensures |r| == |rows|
    ensures forall i :: 0 <= i < |rows| ==> r[i] == rows[i][col := ToNumeric(Get(rows[i], col))]
  {
    seq(|rows|, i requires 0 <= i < |rows| => rows[i][col := ToNumeric(Get(rows[i], col))])
  }

  /** `pd.to_numeric(...)` without `errors`: the first text cell that does not parse raises. */
  function StrictNumeric(rows: seq<Row>, col: string): (r: Result<seq<Row>>)
    ensures r.Ok? <==> forall i :: 0 <= i < |rows| ==> !Get(rows[i], col).Str? || ParseFloat(Get(rows[i], col).s).Some?
    ensures r.Ok? ==> r.value == CoerceNumeric(rows, col)
  {
    if forall i :: 0 <= i < |rows| ==> !Get(rows[i], col).Str? || ParseFloat(Get(rows[i], col).s).Some? then
      Ok(CoerceNumeric(rows, col))
    else Err(ValueError("Unable to parse string"))
  }

  /** Every long row carries the name of one of the year columns under ANO. */
  lemma MeltYear(rows: seq<Row>, ids: seq<string>, years: seq<string>, value: string, m: Row)
    requires value != "ANO" && m in Melt(rows, ids, years, value)
    ensures exists k :: 0 <= k < |years| && Get(m, "ANO") == Str(years[k])
  {
    MeltMembership(rows, ids, years, value, m);
  }

  /** The strict conversion of a column holding only digit text succeeds, giving each text's value. */
  lemma StrictDigits(rows: seq<Row>, col: string)
    requires forall i :: 0 <= i < |rows| ==> Get(rows[i], col).Str? && IsDigits(Get(rows[i], col).s)
    ensures StrictNumeric(rows, col).Ok?
    ensures forall i :: 0 <= i < |rows| ==>
      IsDigits(Get(rows[i], col).s) && Get(StrictNumeric(rows, col).value[i], col) == Num(DigitsValue(Get(rows[i], col).s) as real)
  {
    forall i | 0 <= i < |rows| ensures ParseFloat(Get(rows[i], col).s) == Some(Num(DigitsValue(Get(rows[i], col).s) as real)) {
      ParseFloatDigits(Get(rows[i], col).s);
    }
  }

  /** Melted year names are all digits, so the strict conversion of ANO cannot fail and yields each year's value. */
  lemma YearsParse(rows: seq<Row>, ids: seq<string>, years: seq<string>, value: string)
    requires value != "ANO"
    requires forall k :: 0 <= k < |years| ==> IsDigits(years[k])
    ensures StrictNumeric(Melt(rows, ids, years, value), "ANO").Ok?
    ensures forall m :: m in StrictNumeric(Melt(rows, ids, years, value), "ANO").value ==>
      exists k :: 0 <= k < |years| && IsDigits(years[k]) && Get(m, "ANO") == Num(DigitsValue(years[k]) as real)
  {
    var long := Melt(rows, ids, years, value);
    forall i | 0 <= i < |long| ensures Get(long[i], "ANO").Str? && IsDigits(Get(long[i], "ANO").s) {
      MeltYear(rows, ids, years, value, long[i]);
    }
    StrictDigits(long, "ANO");
    var out := StrictNumeric(long, "ANO").value;
    forall m | m in out ensures exists k :: 0 <= k < |years| && IsDigits(years[k]) && Get(m, "ANO") == Num(DigitsValue(years[k]) as real) {
      var i :| 0 <= i < |out| && out[i] == m;
      MeltYear(rows, ids, years, value, long[i]);
    }
  }

  /** `dropna(subset=[a, b])` keeps a row exactly when both cells are present. */
  lemma NotNullPair(d: Row, a: string, b: string)
    ensures NotNull(d, [a, b]) <==> Get(d, a) != Missing && Get(d, b) != Missing
  {
    assert [a, b][0] == a && [a, b][1] == b;
  }

  // ---- renaming and normalising ----

  /** One row renamed: the cell under `from`, if any, moves to `to`. */
  function RenameRow(x: Row, from: string, to: string): (y: Row)
    ensures from in x ==> to in y && y[to] == x[from]
    ensures from in x && from != to ==> from !in y
    ensures forall c :: c != from && c != to ==> (c in y <==> c in x) && Get(y, c) == Get(x, c)
    ensures from !in x ==> y == x
  {
    if from in x then (x - {from})[to := x[from]] else x
  }

  /** `df.rename(columns={from: to})`: the column list and every row. */
  function Rename(t: Table, from: string, to: string): (r: Table)
    ensures |r.columns| == |t.columns| && |r.rows| == |t.rows|
    ensures forall i :: 0 <= i < |t.columns| ==> r.columns[i] == if t.columns[i] == from then to else t.columns[i]
    ensures forall i :: 0 <= i < |t.rows| ==> Get(r.rows[i], to) == (if from in t.rows[i] then t.rows[i][from] else Get(t.rows[i], to))
    ensures forall i, c :: 0 <= i < |t.rows| && c != from && c != to ==> Get(r.rows[i], c) == Get(t.rows[i], c)
    ensures forall i :: 0 <= i < |t.rows| ==> r.rows[i] == RenameRow(t.rows[i], from, to)
  {
    Table(seq(|t.columns|, i requires 0 <= i < |t.columns| => if t.columns[i] == from then to else t.columns[i]),
          seq(|t.rows|, i requires 0 <= i < |t.rows| => RenameRow(t.rows[i], from, to)))
  }

  /** A renamed table keeps every other column, and has `to` where it had `from`. */
  lemma RenameColumns(t: Table, from: string, to: string, c: string)
    requires c in t.columns
    ensures c != from ==> c in Rename(t, from, to).columns
    ensures c == from ==> to in Rename(t, from, to).columns
  {
    var i :| 0 <= i < |t.columns| && t.columns[i] == c;
    assert Rename(t, from, to).columns[i] == if c == from then to else c;
  }

  /** `.str.upper().str.strip()` on one cell: text is normalised, anything else becomes missing. */
  function NormalizeText(c: Cell): (r: Cell)
    ensures r.Missing? || r.Str?
  {
    match c
    case Str(s) => Str(Strip(Upper(s)))
    case _ => Missing
  }

  /** `.astype(str).str.upper().str.strip()`: every cell rendered as text first, so every result is text. */
  function NormalizeAny(c: Cell): (r: Cell)
    ensures r.Str?
  {
    Str(Strip(Upper(CellText(c))))
  }

  /** Normalising a normalised cell changes nothing. */
  lemma NormalizeTextIdempotent(c: Cell)
    ensures NormalizeText(NormalizeText(c)) == NormalizeText(c)
  {
    match c
    case Str(s) =>
      var n := Strip(Upper(s));
      NormalizeIdempotent(s);
      assert NormalizeText(Str(n)) == Str(Strip(Upper(n)));
    case _ =>
  }

  lemma NormalizeAnyIdempotent(c: Cell)
    ensures NormalizeAny(NormalizeAny(c)) == NormalizeAny(c)
  {
    NormalizeIdempotent(CellText(c));
  }

  /** The column `col` of every row passed through `f`. */
  function MapColumn(rows: seq<Row>, col: string, f: Cell -> Cell): (r: seq<Row>)
    ensures |r| == |rows|
    ensures forall i :: 0 <= i < |rows| ==> r[i] == rows[i][col := f(Get(rows[i], col))]
  {
    seq(|rows|, i requires 0 <= i < |rows| => rows[i][col := f(Get(rows[i], col))])
  }

  // ---- stacking ----

  /** `pd.concat([a, b], ignore_index=True)`: the rows of `a` then of `b`; the columns of `a`, then those only `b` has. */
  function Concat(a: Table, b: Table): (r: Table)
    ensures r.rows == a.rows + b.rows
    ensures forall c :: c in r.columns <==> c in a.columns || c in b.columns
  {
    Table(a.columns + Filter(b.columns, c => c !in a.columns), a.rows + b.rows)
  }

  /** `df.empty`: no rows or no columns. */
  predicate Empty(t: Table)
  {
    t.rows == [] || t.columns == []
  }

  // ---- per-key sums ----

  /** The sums of the columns `cols` over a group's rows (missing cells skipped). */
  function SumsOf(members: seq<Row>, cols: seq<string>): (vs: seq<Cell>)
    ensures |vs| == |cols|
    ensures forall j :: 0 <= j < |cols| ==> vs[j] == Num(Sum(Values(members, cols[j])))
  {
    seq(|cols|, j requires 0 <= j < |cols| => Num(Sum(Values(members, cols[j]))))
  }

  /** One output row per group: its key cells under `keys`, its sums under `cols`. */
  function SumRows(gs: seq<Group>, keys: seq<string>, cols: seq<string>): (rs: seq<Row>)
    requires forall i :: 0 <= i < |gs| ==> |gs[i].key| == |keys|
    ensures |rs| == |gs|
    ensures forall i :: 0 <= i < |gs| ==> rs[i] == Put(map[], keys + cols, gs[i].key + SumsOf(gs[i].members, cols))
  {
    seq(|gs|, i requires 0 <= i < |gs| => Put(map[], keys + cols, gs[i].key + SumsOf(gs[i].members, cols)))
  }

  /**
   * `df.groupby(keys)[cols].sum().reset_index()` (also `.agg` with 'sum' for
   * each column): a KeyError for the first grouping or summed column the table
   * lacks; otherwise one row per group, in ascending key order.
   */
  function GroupSums(t: Table, keys: seq<string>, cols: seq<string>): (r: Result<Table>)
    ensures r.Err? <==> !HasAll(t, keys + cols)
    ensures r.Err? ==> r.error.KeyError? && r.error.column in keys + cols && r.error.column !in t.columns
    ensures r.Ok? ==> r.value.columns == keys + cols && |r.value.rows| == |GroupRows(t.rows, keys)|
  {
    match FirstAbsent(t, keys + cols)
    case Some(c) => Err(KeyError(c))
    case None =>
      KeyLengths(t.rows, keys);
      Ok(Table(keys + cols, SumRows(GroupRows(t.rows, keys), keys, cols)))
  }

  /**
   * Each output row holds its group's key, complete and taken by some input
   * row, and under each summed column the sum over exactly the input rows
   * with that key.
   */
  lemma GroupSumsRow(t: Table, keys: seq<string>, cols: seq<string>, i: nat)
    requires GroupSums(t, keys, cols).Ok? && NoDuplicates(keys + cols)
    requires i < |GroupSums(t, keys, cols).value.rows|
    ensures var x := GroupSums(t, keys, cols).value.rows[i]; var k := KeyOf(x, keys);
      && k == GroupRows(t.rows, keys)[i].key
      && Complete(k)
      && (exists y :: y in t.rows && KeyOf(y, keys) == k)
      && forall j :: 0 <= j < |cols| ==> Get(x, cols[j]) == Num(Sum(Values(Members(t.rows, keys, k), cols[j])))
  {
    var gs := GroupRows(t.rows, keys);
    KeyLengths(t.rows, keys);
    GroupIsMembers(t.rows, keys, i);
    var g := gs[i];
    assert GroupSums(t, keys, cols).value.rows[i] == Put(map[], keys + cols, g.key + SumsOf(g.members, cols));
    PutCells(g.key, SumsOf(g.members, cols), keys, cols);
    assert g.members[0] in g.members;
  }

  /** A row built from a key and sums holds the key under the key columns and each sum under its column. */
  lemma PutCells(key: Key, sums: seq<Cell>, keys: seq<string>, cols: seq<string>)
    requires |key| == |keys| && |sums| == |cols| && NoDuplicates(keys + cols)
    ensures var x := Put(map[], keys + cols, key + sums);
      && KeyOf(x, keys) == key
      && forall j :: 0 <= j < |cols| ==> Get(x, cols[j]) == sums[j]
  {
    var names := keys + cols;
    var vals := key + sums;
    var x := Put(map[], names, vals);
    forall p | 0 <= p < |names| ensures Get(x, names[p]) == vals[p] {
      PutLookup(map[], names, vals, p);
    }
    assert forall p :: 0 <= p < |keys| ==> names[p] == keys[p] && vals[p] == key[p];
    forall j | 0 <= j < |cols| ensures Get(x, cols[j]) == sums[j] {
      assert names[|keys| + j] == cols[j] && vals[|keys| + j] == sums[j];
    }
  }

  /** The output keys are strictly ascending, hence distinct. */
  lemma GroupSumsAscending(t: Table, keys: seq<string>, cols: seq<string>, i: nat, j: nat)
    requires GroupSums(t, keys, cols).Ok? && NoDuplicates(keys + cols)
    requires i < j < |GroupSums(t, keys, cols).value.rows|
    ensures var rs := GroupSums(t, keys, cols).value.rows; KeyLess(KeyOf(rs[i], keys), KeyOf(rs[j], keys))
  {
    GroupSumsRow(t, keys, cols, i);
    GroupSumsRow(t, keys, cols, j);
  }

  /** Every input row with a complete key is summed into the output row of its key. */
  lemma GroupSumsCover(t: Table, keys: seq<string>, cols: seq<string>, y: Row)
    requires GroupSums(t, keys, cols).Ok? && NoDuplicates(keys + cols)
    requires y in t.rows && NotNull(y, keys)
    ensures exists i ::
      && 0 <= i < |GroupSums(t, keys, cols).value.rows|
      && KeyOf(GroupSums(t, keys, cols).value.rows[i], keys) == KeyOf(y, keys)
  {
    CompleteKeyOf(y, keys);
    RowHasGroup(t.rows, keys, y);
    var i :| 0 <= i < |GroupRows(t.rows, keys)| && GroupRows(t.rows, keys)[i].key == KeyOf(y, keys);
    GroupSumsRow(t, keys, cols, i);
  }

  /** A single summed column: the row's key comes from some input row `z`, and its cell is the group's sum. */
  lemma GroupSumsSingle(t: Table, keys: seq<string>, col: string, i: nat) returns (z: Row)
    requires GroupSums(t, keys, [col]).Ok? && NoDuplicates(keys + [col])
    requires i < |GroupSums(t, keys, [col]).value.rows|
    ensures var x := GroupSums(t, keys, [col]).value.rows[i];
      && z in t.rows && KeyOf(z, keys) == KeyOf(x, keys)
      && Get(x, col) == Num(Sum(Values(Members(t.rows, keys, KeyOf(x, keys)), col)))
  {
    GroupSumsRow(t, keys, [col], i);
    var x := GroupSums(t, keys, [col]).value.rows[i];
    z :| z in t.rows && KeyOf(z, keys) == KeyOf(x, keys);
    assert [col][0] == col;
  }

  /** Rows that agree on some key columns agree on any prefix of them. */
  lemma KeyOfPrefix(x: Row, y: Row, keys: seq<string>, n: nat)
    requires n <= |keys| && KeyOf(x, keys) == KeyOf(y, keys)
    ensures KeyOf(x, keys[..n]) == KeyOf(y, keys[..n])
  {
    forall p | 0 <= p < n ensures KeyOf(x, keys[..n])[p] == KeyOf(y, keys[..n])[p] {
      assert KeyOf(x, keys)[p] == KeyOf(y, keys)[p];
    }
  }

  // ---- summed joins ----

  /**
   * A row of the inner join, on the key prefix `on`, of the per-key sums of
   * `left` with the per-key sums of the column `col` of `right`: its key is
   * the key of some row `y` of `left` and of some row `z` of `right`, and its
   * `col` cell is the sum over exactly the rows of `right` with that key.
   */
  lemma SummedJoinRow(left: Table, keys: seq<string>, cols: seq<string>, right: Table, on: seq<string>, col: string,
                      sfx: Suffixes, x: Row) returns (y: Row, z: Row)
    requires GroupSums(left, keys, cols).Ok? && GroupSums(right, on, [col]).Ok?
    requires NoDuplicates(keys + cols) && NoDuplicates(on + [col])
    requires |on| <= |keys| && keys[..|on|] == on && col !in keys + cols
    requires NoDuplicates(MergedColumns(keys + cols, on + [col], on, sfx))
    requires x in InnerJoin(GroupSums(left, keys, cols).value, GroupSums(right, on, [col]).value, on, sfx).rows
    ensures y in left.rows && KeyOf(y, on) == KeyOf(x, on)
    ensures z in right.rows && KeyOf(z, on) == KeyOf(x, on)
    ensures Get(x, col) == Num(Sum(Values(Members(right.rows, on, KeyOf(x, on)), col)))
  {
    var ls := GroupSums(left, keys, cols).value;
    var rs := GroupSums(right, on, [col]).value;
    var a, b := JoinedPair(ls, rs, on, col, sfx, x);
    var ia :| 0 <= ia < |ls.rows| && ls.rows[ia] == a;
    GroupSumsRow(left, keys, cols, ia);
    y :| y in left.rows && KeyOf(y, keys) == KeyOf(a, keys);
    KeyOfPrefix(y, a, keys, |on|);
    var ib :| 0 <= ib < |rs.rows| && rs.rows[ib] == b;
    z := GroupSumsSingle(right, on, col, ib);
  }

  /**
   * The left summary columns of a joined row: its key over `keys` is the key
   * of some left row, and each summed column holds that key's sum over the
   * left rows.
   */
  lemma SummedJoinLeft(left: Table, keys: seq<string>, cols: seq<string>, right: Table, on: seq<string>, col: string,
                       sfx: Suffixes, x: Row, j: nat) returns (y: Row)
    requires GroupSums(left, keys, cols).Ok? && GroupSums(right, on, [col]).Ok?
    requires NoDuplicates(keys + cols) && NoDuplicates(on + [col])
    requires |on| <= |keys| && keys[..|on|] == on && col !in keys + cols
    requires NoDuplicates(MergedColumns(keys + cols, on + [col], on, sfx))
    requires x in InnerJoin(GroupSums(left, keys, cols).value, GroupSums(right, on, [col]).value, on, sfx).rows
    requires j < |cols|
    ensures y in left.rows && KeyOf(y, keys) == KeyOf(x, keys)
    ensures Get(x, cols[j]) == Num(Sum(Values(Members(left.rows, keys, KeyOf(x, keys)), cols[j])))
  {
    var ls := GroupSums(left, keys, cols).value;
    var rs := GroupSums(right, on, [col]).value;
    var a, b := JoinRowSource(ls.rows, rs.rows, ls.columns, rs.columns, on, sfx, x);
    KeptNames(keys, cols, on, col);
    CombineLeftKey(a, b, ls.columns, rs.columns, on, sfx, keys);
    CombineLeft(a, b, ls.columns, rs.columns, on, sfx, cols[j]);
    var ia :| 0 <= ia < |ls.rows| && ls.rows[ia] == a;
    GroupSumsRow(left, keys, cols, ia);
    y :| y in left.rows && KeyOf(y, keys) == KeyOf(a, keys);
  }

  /** The left summary columns keep their names in the join: keys are join keys or absent on the right. */
  lemma KeptNames(keys: seq<string>, cols: seq<string>, on: seq<string>, col: string)
    requires NoDuplicates(keys + cols)
    requires |on| <= |keys| && keys[..|on|] == on && col !in keys + cols
    ensures forall k :: 0 <= k < |keys| ==> keys[k] in keys + cols && (keys[k] in on || keys[k] !in on + [col])
    ensures forall j :: 0 <= j < |cols| ==> cols[j] in keys + cols && cols[j] !in on + [col]
  {
    forall j | 0 <= j < |cols| ensures cols[j] in keys + cols && cols[j] !in on + [col] {
      assert (keys + cols)[|keys| + j] == cols[j];
      forall p | 0 <= p < |on| ensures on[p] != cols[j] {
        assert on[p] == keys[p] == (keys + cols)[p];
      }
    }
    forall k | 0 <= k < |keys| ensures keys[k] in keys + cols {
      assert (keys + cols)[k] == keys[k];
    }
  }

  /**
   * Every left row with a complete key and every right row with the same
   * join key meet in the join: some joined row has the left row's key.
   */
  lemma SummedJoinComplete(left: Table, keys: seq<string>, cols: seq<string>, right: Table, on: seq<string>, col: string,
                           sfx: Suffixes, y: Row, z: Row) returns (x: Row)
    requires GroupSums(left, keys, cols).Ok? && GroupSums(right, on, [col]).Ok?
    requires NoDuplicates(keys + cols) && NoDuplicates(on + [col])
    requires |on| <= |keys| && keys[..|on|] == on && col !in keys + cols
    requires NoDuplicates(MergedColumns(keys + cols, on + [col], on, sfx))
    requires y in left.rows && NotNull(y, keys) && z in right.rows && KeyOf(z, on) == KeyOf(y, on)
    ensures x in InnerJoin(GroupSums(left, keys, cols).value, GroupSums(right, on, [col]).value, on, sfx).rows
    ensures KeyOf(x, keys) == KeyOf(y, keys)
  {
    var ls := GroupSums(left, keys, cols).value;
    var rs := GroupSums(right, on, [col]).value;
    GroupSumsCover(left, keys, cols, y);
    var i :| 0 <= i < |ls.rows| && KeyOf(ls.rows[i], keys) == KeyOf(y, keys);
    var a := ls.rows[i];
    KeyOfPrefix(a, y, keys, |on|);
    NotNullOn(y, z, keys, on);
    GroupSumsCover(right, on, [col], z);
    var i2 :| 0 <= i2 < |rs.rows| && KeyOf(rs.rows[i2], on) == KeyOf(z, on);
    var b := rs.rows[i2];
    JoinRowPresent(ls.rows, rs.rows, ls.columns, rs.columns, on, sfx, a, b);
    x := Combine(a, b, ls.columns, rs.columns, on, sfx);
    KeptNames(keys, cols, on, col);
    CombineLeftKey(a, b, ls.columns, rs.columns, on, sfx, keys);
  }

  /** A right row with the join key of a left row whose key is complete has a complete join key. */
  lemma NotNullOn(y: Row, z: Row, keys: seq<string>, on: seq<string>)
    requires NotNull(y, keys) && |on| <= |keys| && keys[..|on|] == on && KeyOf(z, on) == KeyOf(y, on)
    ensures NotNull(z, on)
  {
    forall p | 0 <= p < |on| ensures Get(z, on[p]) != Missing {
      assert KeyOf(z, on)[p] == KeyOf(y, on)[p];
      assert on[p] == keys[p];
    }
  }

  /** The pair of summary rows a joined row combines; it takes its key from the left and `col` from the right. */
  lemma JoinedPair(ls: Table, rs: Table, on: seq<string>, col: string, sfx: Suffixes, x: Row) returns (a: Row, b: Row)
    requires |on| <= |ls.columns| && ls.columns[..|on|] == on
    requires rs.columns == on + [col] && col !in ls.columns
    requires NoDuplicates(MergedColumns(ls.columns, rs.columns, on, sfx))
    requires x in InnerJoin(ls, rs, on, sfx).rows
    ensures a in ls.rows && b in rs.rows
    ensures KeyOf(a, on) == KeyOf(b, on) && KeyOf(x, on) == KeyOf(a, on)
    ensures Get(x, col) == Get(b, col)
  {
    JoinMembership(ls.rows, rs.rows, ls.columns, rs.columns, on, sfx, x);
    a, b :| a in ls.rows && b in rs.rows && KeyOf(a, on) == KeyOf(b, on) && x == Combine(a, b, ls.columns, rs.columns, on, sfx);
    assert forall c :: c in on ==> c in ls.columns by {
      forall c | c in on ensures c in ls.columns {
        var p :| 0 <= p < |on| && on[p] == c;
        assert ls.columns[p] == c;
      }
    }
    CombineKeys(a, b, ls.columns, rs.columns, on, sfx);
    assert rs.columns[|on|] == col;
    CombineRight(a, b, ls.columns, rs.columns, on, sfx, col);
  }

  // ---- largest totals ----

  /** The number in a cell; a sum cell always holds one. */
  function Number(c: Cell): real
  {
    if c.Num? then c.x else 0.0
  }

  function ByColumn(col: string): Row -> real
  {
    x => Number(Get(x, col))
  }

  /**
   * `df.nlargest(n, col)` (keep='first'): no rows for n <= 0; otherwise the
   * min(n, |rows|) rows with the largest `col`, largest first, ties in row
   * order; every row left out has a value no larger than any row kept.
   */
  function Largest(rows: seq<Row>, n: int, col: string): (r: seq<Row>)
    ensures n <= 0 ==> r == []
    ensures n > 0 ==> |r| == if n < |rows| then n else |rows|
    ensures multiset(r) <= multiset(rows)
    ensures NonIncreasing(r, ByColumn(col))
    ensures forall x, y :: x in multiset(rows) - multiset(r) && y in r ==> Number(Get(x, col)) <= Number(Get(y, col))
  {
    if n <= 0 then []
    else
      TopLargest(rows, ByColumn(col), n);
      Head(SortDesc(rows, ByColumn(col)), n)
  }

  /**
   * Ties are kept in row order (keep='first'): the kept rows with any one
   * value are, in order, the first rows of `rows` with that value.
   */
  lemma LargestStable(rows: seq<Row>, n: int, col: string, v: real)
    ensures Filter(Largest(rows, n, col), Tied(ByColumn(col), v)) <= Filter(rows, Tied(ByColumn(col), v))
  {
    if n > 0 {
      var sorted := SortDesc(rows, ByColumn(col));
      SortDescStable(rows, ByColumn(col), v);
      var k := if n < |rows| then n else |rows|;
      assert Largest(rows, n, col) == sorted[..k];
      FilterTake(sorted, k, Tied(ByColumn(col), v));
    }
  }
}
