/**
 * `pd.merge(left, right, on=keys, how='inner')`: one output row for every
 * pair of a left row and a right row whose key cells agree, taken left row by
 * left row.  The key columns appear once; a non-key column both sides have
 * is kept twice, renamed with the left and right suffixes.
 */
module Join {
  import opened Frame
  import opened Grouping

  datatype Suffixes = Suffixes(left: string, right: string)

  /** The right columns that are not join keys, in their order. */
  function NonKey(cs: seq<string>, on: seq<string>): (r: seq<string>)
    ensures forall c :: c in r <==> c in cs && c !in on
  {
    if cs == [] then []
    else (if cs[0] in on then [] else [cs[0]]) + NonKey(cs[1..], on)
  }

  lemma {:induction false} NonKeyConcat(a: seq<string>, b: seq<string>, on: seq<string>)
    ensures NonKey(a + b, on) == NonKey(a, on) + NonKey(b, on)
    decreases |a|
  {
    if a != [] {
      assert (a + b)[0] == a[0] && (a + b)[1..] == a[1..] + b;
      NonKeyConcat(a[1..], b, on);
    } else {
      assert a + b == b;
    }
  }

  /** Right columns that are all keys leave nothing; right columns that are no keys are kept as they are. */
  lemma {:induction false} NonKeyExtremes(cs: seq<string>, on: seq<string>)
    ensures (forall c :: c in cs ==> c in on) ==> NonKey(cs, on) == []
    ensures (forall c :: c in cs ==> c !in on) ==> NonKey(cs, on) == cs
    decreases |cs|
  {
    if cs != [] {
      assert forall c :: c in cs[1..] ==> c in cs;
      NonKeyExtremes(cs[1..], on);
      assert cs == [cs[0]] + cs[1..];
    }
  }

  /** When the two sides share only key columns, nothing is renamed. */
  lemma MergedDisjoint(left: seq<string>, right: seq<string>, on: seq<string>, sfx: Suffixes)
    requires forall c :: c in left && c in right ==> c in on
    ensures MergedColumns(left, right, on, sfx) == left + NonKey(right, on)
  {
    var rk := NonKey(right, on);
    var m := MergedColumns(left, right, on, sfx);
    forall i | 0 <= i < |m| ensures m[i] == (left + rk)[i] {
      if i < |left| {
        assert m[i] == LeftName(left[i], on, right, sfx);
        assert left[i] in left;
      } else {
        assert m[i] == RightName(rk[i - |left|], left, sfx);
        assert rk[i - |left|] in rk;
      }
    }
  }

  /** Joining on `on` with a right side made of the keys and one column `col` the left lacks appends `col`. */
  lemma MergedAddsColumn(left: seq<string>, on: seq<string>, col: string, sfx: Suffixes)
    requires col !in left && col !in on
    ensures MergedColumns(left, on + [col], on, sfx) == left + [col]
  {
    NonKeyConcat(on, [col], on);
    NonKeyExtremes(on, on);
    NonKeyExtremes([col], on);
    assert NonKey(on + [col], on) == [col];
    MergedDisjoint(left, on + [col], on, sfx);
  }

  function LeftName(c: string, on: seq<string>, right: seq<string>, sfx: Suffixes): string
  {
    if c !in on && c in right then c + sfx.left else c
  }

  function RightName(c: string, left: seq<string>, sfx: Suffixes): string
  {
    if c in left then c + sfx.right else c
  }

  /** The merged column list: the left columns, then the right non-key columns, clashing names suffixed. */
  function MergedColumns(left: seq<string>, right: seq<string>, on: seq<string>, sfx: Suffixes): (r: seq<string>)
    ensures |r| == |left| + |NonKey(right, on)|
  {
    var rk := NonKey(right, on);
    seq(|left|, i requires 0 <= i < |left| => LeftName(left[i], on, right, sfx))
      + seq(|rk|, j requires 0 <= j < |rk| => RightName(rk[j], left, sfx))
  }

  /** The merged cells of a left row `a` and a right row `b`, column by column. */
  function MergedValues(a: Row, b: Row, left: seq<string>, right: seq<string>, on: seq<string>): (v: seq<Cell>)
    ensures |v| == |left| + |NonKey(right, on)|
  {
    var rk := NonKey(right, on);
    seq(|left|, i requires 0 <= i < |left| => Get(a, left[i]))
      + seq(|rk|, j requires 0 <= j < |rk| => Get(b, rk[j]))
  }

  /** Assigns `vals[i]` to `names[i]` in order; a later name overwrites an earlier equal one. */
  function Put(m: Row, names: seq<string>, vals: seq<Cell>): Row
    requires |names| == |vals|
    decreases |names|
  {
    if names == [] then m else Put(m[names[0] := vals[0]], names[1..], vals[1..])
  }

  lemma {:induction false} PutLookup(m: Row, names: seq<string>, vals: seq<Cell>, i: nat)
    requires |names| == |vals| && i < |names| && NoDuplicates(names)
    ensures names[i] in Put(m, names, vals) && Put(m, names, vals)[names[i]] == vals[i]
    decreases |names|
  {
    if i > 0 {
      assert NoDuplicates(names[1..]) by {
        forall p, q | 0 <= p < q < |names[1..]| ensures names[1..][p] != names[1..][q] {
          assert names[1..][p] == names[p + 1] && names[1..][q] == names[q + 1];
        }
      }
      PutLookup(m[names[0] := vals[0]], names[1..], vals[1..], i - 1);
    } else {
      PutKeeps(m[names[0] := vals[0]], names[1..], vals[1..], names[0]);
    }
  }

  lemma {:induction false} PutKeeps(m: Row, names: seq<string>, vals: seq<Cell>, c: string)
    requires |names| == |vals| && c !in names && c in m
    ensures c in Put(m, names, vals) && Put(m, names, vals)[c] == m[c]
    decreases |names|
  {
    if names != [] {
      PutKeeps(m[names[0] := vals[0]], names[1..], vals[1..], c);
    }
  }

  /** The merged row of a matching pair. */
  function Combine(a: Row, b: Row, left: seq<string>, right: seq<string>, on: seq<string>, sfx: Suffixes): Row
  {
    Put(map[], MergedColumns(left, right, on, sfx), MergedValues(a, b, left, right, on))
  }

  /** The right rows whose key cells equal those of `a`, in their order. */
  function Matching(a: Row, rs: seq<Row>, on: seq<string>): (m: seq<Row>)
    ensures |m| <= |rs|
    ensures forall b :: b in m <==> b in rs && KeyOf(b, on) == KeyOf(a, on)
  {
    if rs == [] then []
    else (if KeyOf(rs[0], on) == KeyOf(a, on) then [rs[0]] else []) + Matching(a, rs[1..], on)
  }

  /** No right row shares the key of `a`: nothing matches. */
  lemma {:induction false} MatchingEmpty(a: Row, rs: seq<Row>, on: seq<string>)
    requires forall b :: b in rs ==> KeyOf(b, on) != KeyOf(a, on)
    ensures Matching(a, rs, on) == []
    decreases |rs|
  {
    if rs != [] {
      assert rs[0] in rs;
      assert forall b :: b in rs[1..] ==> b in rs;
      MatchingEmpty(a, rs[1..], on);
    }
  }

  /** The number of matching (left, right) pairs. */
  function MatchCount(ls: seq<Row>, rs: seq<Row>, on: seq<string>): nat
  {
    if ls == [] then 0 else |Matching(ls[0], rs, on)| + MatchCount(ls[1..], rs, on)
  }

  function JoinRows(ls: seq<Row>, rs: seq<Row>, left: seq<string>, right: seq<string>, on: seq<string>, sfx: Suffixes): (out: seq<Row>)
    ensures |out| == MatchCount(ls, rs, on)
  {
    if ls == [] then []
    else
      var ms := Matching(ls[0], rs, on);
      seq(|ms|, j requires 0 <= j < |ms| => Combine(ls[0], ms[j], left, right, on, sfx))
        + JoinRows(ls[1..], rs, left, right, on, sfx)
  }

  /** The inner join of two tables on the key columns `on`. */
  function InnerJoin(l: Table, r: Table, on: seq<string>, sfx: Suffixes): (t: Table)
    ensures |t.rows| == MatchCount(l.rows, r.rows, on)
    ensures t.columns == MergedColumns(l.columns, r.columns, on, sfx)
  {
    Table(MergedColumns(l.columns, r.columns, on, sfx), JoinRows(l.rows, r.rows, l.columns, r.columns, on, sfx))
  }

  /** When no left key equals any right key, the join has no rows. */
  lemma {:induction false} NoMatches(ls: seq<Row>, rs: seq<Row>, left: seq<string>, right: seq<string>, on: seq<string>, sfx: Suffixes)
    requires forall a, b :: a in ls && b in rs ==> KeyOf(a, on) != KeyOf(b, on)
    ensures JoinRows(ls, rs, left, right, on, sfx) == []
    decreases |ls|
  {
    if ls != [] {
      assert ls[0] in ls;
      MatchingEmpty(ls[0], rs, on);
      assert forall a :: a in ls[1..] ==> a in ls;
      NoMatches(ls[1..], rs, left, right, on, sfx);
    }
  }

  /** Every output row is the merged row of a left and a right row whose keys agree. */
  lemma {:induction false} JoinRowSource(ls: seq<Row>, rs: seq<Row>, left: seq<string>, right: seq<string>,
                                          on: seq<string>, sfx: Suffixes, x: Row) returns (a: Row, b: Row)
    requires x in JoinRows(ls, rs, left, right, on, sfx)
    ensures a in ls && b in rs && KeyOf(a, on) == KeyOf(b, on) && x == Combine(a, b, left, right, on, sfx)
    decreases |ls|
  {
    var ms := Matching(ls[0], rs, on);
    var head := seq(|ms|, j requires 0 <= j < |ms| => Combine(ls[0], ms[j], left, right, on, sfx));
    var tail := JoinRows(ls[1..], rs, left, right, on, sfx);
    assert JoinRows(ls, rs, left, right, on, sfx) == head + tail;
    if x in head {
      var j :| 0 <= j < |ms| && head[j] == x;
      assert ms[j] in ms;
      a, b := ls[0], ms[j];
    } else {
      a, b := JoinRowSource(ls[1..], rs, left, right, on, sfx, x);
      assert a in ls;
    }
  }

  /** Every left and right row whose keys agree contribute their merged row. */
  lemma {:induction false} JoinRowPresent(ls: seq<Row>, rs: seq<Row>, left: seq<string>, right: seq<string>,
                                           on: seq<string>, sfx: Suffixes, a: Row, b: Row)
    requires a in ls && b in rs && KeyOf(a, on) == KeyOf(b, on)
    ensures Combine(a, b, left, right, on, sfx) in JoinRows(ls, rs, left, right, on, sfx)
    decreases |ls|
  {
    var ms := Matching(ls[0], rs, on);
    var head := seq(|ms|, j requires 0 <= j < |ms| => Combine(ls[0], ms[j], left, right, on, sfx));
    var tail := JoinRows(ls[1..], rs, left, right, on, sfx);
    assert JoinRows(ls, rs, left, right, on, sfx) == head + tail;
    if a == ls[0] {
      assert b in ms;
      var j :| 0 <= j < |ms| && ms[j] == b;
      assert head[j] == Combine(a, b, left, right, on, sfx);
    } else {
      assert a in ls[1..];
      JoinRowPresent(ls[1..], rs, left, right, on, sfx, a, b);
    }
  }

  /** The output rows are exactly the merged rows of the pairs whose keys agree. */
  lemma JoinMembership(ls: seq<Row>, rs: seq<Row>, left: seq<string>, right: seq<string>,
                       on: seq<string>, sfx: Suffixes, x: Row)
    ensures x in JoinRows(ls, rs, left, right, on, sfx) <==>
      exists a, b :: a in ls && b in rs && KeyOf(a, on) == KeyOf(b, on) && x == Combine(a, b, left, right, on, sfx)
  {
    if x in JoinRows(ls, rs, left, right, on, sfx) {
      var a, b := JoinRowSource(ls, rs, left, right, on, sfx, x);
    }
    if exists a, b :: a in ls && b in rs && KeyOf(a, on) == KeyOf(b, on) && x == Combine(a, b, left, right, on, sfx) {
      var a, b :| a in ls && b in rs && KeyOf(a, on) == KeyOf(b, on) && x == Combine(a, b, left, right, on, sfx);
      JoinRowPresent(ls, rs, left, right, on, sfx, a, b);
    }
  }

  /**
   * When the merged column names do not clash, a merged row holds the left
   * row's cells under the key columns.
   */
  lemma CombineKeys(a: Row, b: Row, left: seq<string>, right: seq<string>, on: seq<string>, sfx: Suffixes)
    requires forall c :: c in on ==> c in left
    requires NoDuplicates(MergedColumns(left, right, on, sfx))
    ensures KeyOf(Combine(a, b, left, right, on, sfx), on) == KeyOf(a, on)
  {
    var names := MergedColumns(left, right, on, sfx);
    var vals := MergedValues(a, b, left, right, on);
    forall k | 0 <= k < |on| ensures Get(Combine(a, b, left, right, on, sfx), on[k]) == Get(a, on[k]) {
      assert on[k] in left;
      var i :| 0 <= i < |left| && left[i] == on[k];
      assert names[i] == on[k] && vals[i] == Get(a, on[k]);
      PutLookup(map[], names, vals, i);
    }
  }

  /** A right column that is no key and not a left column keeps its name, and the merged row holds the right row's cell there. */
  lemma CombineRight(a: Row, b: Row, left: seq<string>, right: seq<string>, on: seq<string>, sfx: Suffixes, c: string)
    requires NoDuplicates(MergedColumns(left, right, on, sfx))
    requires c in right && c !in on && c !in left
    ensures Get(Combine(a, b, left, right, on, sfx), c) == Get(b, c)
  {
    var rk := NonKey(right, on);
    var names := MergedColumns(left, right, on, sfx);
    var vals := MergedValues(a, b, left, right, on);
    assert c in rk;
    var j :| 0 <= j < |rk| && rk[j] == c;
    assert names[|left| + j] == RightName(rk[j], left, sfx) == c;
    assert vals[|left| + j] == Get(b, c);
    PutLookup(map[], names, vals, |left| + j);
  }

  /** A left column that keeps its name (a key, or a name the right side lacks) holds the left row's cell. */
  lemma CombineLeft(a: Row, b: Row, left: seq<string>, right: seq<string>, on: seq<string>, sfx: Suffixes, c: string)
    requires NoDuplicates(MergedColumns(left, right, on, sfx))
    requires c in left && (c in on || c !in right)
    ensures Get(Combine(a, b, left, right, on, sfx), c) == Get(a, c)
  {
    var names := MergedColumns(left, right, on, sfx);
    var vals := MergedValues(a, b, left, right, on);
    var i :| 0 <= i < |left| && left[i] == c;
    assert names[i] == LeftName(c, on, right, sfx) == c;
    assert vals[i] == Get(a, c);
    PutLookup(map[], names, vals, i);
  }

  /** Over left columns that keep their names, a merged row has the left row's key. */
  lemma CombineLeftKey(a: Row, b: Row, left: seq<string>, right: seq<string>, on: seq<string>, sfx: Suffixes, ks: seq<string>)
    requires NoDuplicates(MergedColumns(left, right, on, sfx))
    requires forall k :: 0 <= k < |ks| ==> ks[k] in left && (ks[k] in on || ks[k] !in right)
    ensures KeyOf(Combine(a, b, left, right, on, sfx), ks) == KeyOf(a, ks)
  {
    forall k | 0 <= k < |ks| ensures KeyOf(Combine(a, b, left, right, on, sfx), ks)[k] == KeyOf(a, ks)[k] {
      CombineLeft(a, b, left, right, on, sfx, ks[k]);
    }
  }

  /** The join of a concatenation of left rows is the concatenation of their joins: the output is left-major. */
  lemma {:induction false} JoinRowsAppend(ls1: seq<Row>, ls2: seq<Row>, rs: seq<Row>, left: seq<string>, right: seq<string>,
                                           on: seq<string>, sfx: Suffixes)
    ensures JoinRows(ls1 + ls2, rs, left, right, on, sfx)
            == JoinRows(ls1, rs, left, right, on, sfx) + JoinRows(ls2, rs, left, right, on, sfx)
    decreases |ls1|
  {
    if ls1 == [] {
      assert ls1 + ls2 == ls2;
    } else {
      var ls := ls1 + ls2;
      assert ls[0] == ls1[0] && ls[1..] == ls1[1..] + ls2;
      JoinRowsAppend(ls1[1..], ls2, rs, left, right, on, sfx);
      var ms := Matching(ls1[0], rs, on);
      var head := seq(|ms|, j requires 0 <= j < |ms| => Combine(ls1[0], ms[j], left, right, on, sfx));
      var t1, t2 := JoinRows(ls1[1..], rs, left, right, on, sfx), JoinRows(ls2, rs, left, right, on, sfx);
      assert JoinRows(ls, rs, left, right, on, sfx) == head + (t1 + t2);
      assert head + (t1 + t2) == (head + t1) + t2;
    }
  }

  /** One left row joins to its matching right rows, in their order. */
  lemma JoinOne(a: Row, rs: seq<Row>, left: seq<string>, right: seq<string>, on: seq<string>, sfx: Suffixes)
    ensures var out := JoinRows([a], rs, left, right, on, sfx); var ms := Matching(a, rs, on);
      && |out| == |ms|
      && forall j :: 0 <= j < |ms| ==> out[j] == Combine(a, ms[j], left, right, on, sfx)
  {
    assert [a][1..] == [];
  }

  /** `a` matches each right row with its key as often as that row occurs, and no other. */
  lemma {:induction false} MatchingMultiplicity(a: Row, rs: seq<Row>, on: seq<string>, b: Row)
    ensures multiset(Matching(a, rs, on))[b] == if KeyOf(b, on) == KeyOf(a, on) then multiset(rs)[b] else 0
    decreases |rs|
  {
    if rs != [] {
      MatchingMultiplicity(a, rs[1..], on, b);
      assert rs == [rs[0]] + rs[1..];
      assert multiset(rs) == multiset([rs[0]]) + multiset(rs[1..]);
    }
  }

  /** Every output key tuple occurs among the left keys and among the right keys. */
  lemma JoinKeys(ls: seq<Row>, rs: seq<Row>, left: seq<string>, right: seq<string>, on: seq<string>, sfx: Suffixes, x: Row)
    requires forall c :: c in on ==> c in left
    requires NoDuplicates(MergedColumns(left, right, on, sfx))
    requires x in JoinRows(ls, rs, left, right, on, sfx)
    ensures exists a :: a in ls && KeyOf(a, on) == KeyOf(x, on)
    ensures exists b :: b in rs && KeyOf(b, on) == KeyOf(x, on)
  {
    JoinMembership(ls, rs, left, right, on, sfx, x);
    var a, b :| a in ls && b in rs && KeyOf(a, on) == KeyOf(b, on) && x == Combine(a, b, left, right, on, sfx);
    CombineKeys(a, b, left, right, on, sfx);
  }
}
