/**
 * `df.groupby(cols)` with pandas' defaults (sort=True, dropna=True): the rows
 * whose key cells are all present are partitioned by key, and the groups come
 * out in ascending key order, one per distinct key, each holding its rows in
 * their original order.  Every aggregation of the modelled code is a function
 * of a group's rows.
 */
module Grouping {
  import opened Frame
  import opened Order

  /** The tuple of cells of `r` in the grouping columns `cols`. */
  function KeyOf(r: Row, cols: seq<string>): (k: Key)
    ensures |k| == |cols|
    ensures forall i :: 0 <= i < |cols| ==> k[i] == Get(r, cols[i])
  {
    seq(|cols|, i requires 0 <= i < |cols| => Get(r, cols[i]))
  }

  /** A key with no missing cell; groupby(dropna=True) drops rows whose key is not complete. */
  predicate Complete(k: Key)
  {
    forall i :: 0 <= i < |k| ==> k[i] != Missing
  }

  lemma CompleteKeyOf(r: Row, cols: seq<string>)
    ensures Complete(KeyOf(r, cols)) <==> NotNull(r, cols)
  {
  }

  datatype Group = Group(key: Key, members: seq<Row>)

  /** The specification of one group: the rows whose key is `k`, in row order. */
  function Members(rows: seq<Row>, cols: seq<string>, k: Key): (m: seq<Row>)
    ensures |m| <= |rows|
    ensures forall r :: r in m ==> r in rows && KeyOf(r, cols) == k
  {
    if rows == [] then []
    else
      var last := rows[|rows| - 1];
      Members(rows[..|rows| - 1], cols, k) + (if KeyOf(last, cols) == k then [last] else [])
  }

  /** The rows that survive groupby's dropna: those whose key is complete. */
  function CompleteRows(rows: seq<Row>, cols: seq<string>): seq<Row>
  {
    if rows == [] then []
    else
      var last := rows[|rows| - 1];
      CompleteRows(rows[..|rows| - 1], cols) + (if Complete(KeyOf(last, cols)) then [last] else [])
  }

  /** Group keys strictly ascending: sorted, and so no key twice. */
  predicate Ascending(gs: seq<Group>)
  {
    forall i, j :: 0 <= i < j < |gs| ==> KeyLess(gs[i].key, gs[j].key)
  }

  predicate Above(b: Key, gs: seq<Group>)
  {
    forall i :: 0 <= i < |gs| ==> KeyLess(b, gs[i].key)
  }

  predicate WellFormed(gs: seq<Group>)
  {
    forall i :: 0 <= i < |gs| ==> Complete(gs[i].key) && |gs[i].members| > 0
  }

  /** The rows of the group with key `k`, or none when there is no such group. */
  function Lookup(gs: seq<Group>, k: Key): seq<Row>
  {
    if gs == [] then []
    else if gs[0].key == k then gs[0].members
    else Lookup(gs[1..], k)
  }

  /** The number of rows over all groups. */
  function Total(gs: seq<Group>): nat
  {
    if gs == [] then 0 else |gs[0].members| + Total(gs[1..])
  }

  /** Adds row `r` with key `k` to its group, creating the group at its sorted place. */
  function Insert(gs: seq<Group>, k: Key, r: Row): seq<Group>
  {
    if gs == [] then [Group(k, [r])]
    else if gs[0].key == k then [Group(k, gs[0].members + [r])] + gs[1..]
    else if KeyLess(k, gs[0].key) then [Group(k, [r])] + gs
    else [gs[0]] + Insert(gs[1..], k, r)
  }

  lemma AscendingCons(g: Group, rest: seq<Group>)
    requires Above(g.key, rest) && Ascending(rest)
    ensures Ascending([g] + rest)
  {
    var s := [g] + rest;
    forall i, j | 0 <= i < j < |s| ensures KeyLess(s[i].key, s[j].key) {
      if i > 0 { assert s[i] == rest[i - 1] && s[j] == rest[j - 1]; }
    }
  }

  lemma {:induction false} LookupAbsent(gs: seq<Group>, k: Key)
    requires forall i :: 0 <= i < |gs| ==> gs[i].key != k
    ensures Lookup(gs, k) == []
    decreases |gs|
  {
    if gs != [] {
      assert forall i :: 0 <= i < |gs[1..]| ==> gs[1..][i] == gs[i + 1];
      LookupAbsent(gs[1..], k);
    }
  }

  /** In an ascending sequence the lookup of a group's key finds that group. */
  lemma {:induction false} LookupAt(gs: seq<Group>, i: nat)
    requires Ascending(gs) && i < |gs|
    ensures Lookup(gs, gs[i].key) == gs[i].members
    decreases i
  {
    if i > 0 {
      KeyLessAsymmetric(gs[0].key, gs[i].key);
      assert gs[1..][i - 1] == gs[i];
      LookupAt(gs[1..], i - 1);
    }
  }

  /** In a well-formed sequence a key has rows iff it is the key of a group. */
  lemma {:induction false} LookupNonEmpty(gs: seq<Group>, k: Key)
    requires WellFormed(gs) && Lookup(gs, k) != []
    ensures exists i :: 0 <= i < |gs| && gs[i].key == k
    decreases |gs|
  {
    if gs[0].key != k {
      LookupNonEmpty(gs[1..], k);
      var i :| 0 <= i < |gs[1..]| && gs[1..][i].key == k;
      assert gs[i + 1].key == k;
    }
  }

  lemma {:induction false} AscendingTail(gs: seq<Group>)
    requires Ascending(gs) && gs != []
    ensures Ascending(gs[1..]) && Above(gs[0].key, gs[1..])
  {
    forall i, j | 0 <= i < j < |gs[1..]| ensures KeyLess(gs[1..][i].key, gs[1..][j].key) {
      assert gs[1..][i] == gs[i + 1] && gs[1..][j] == gs[j + 1];
    }
    forall i | 0 <= i < |gs[1..]| ensures KeyLess(gs[0].key, gs[1..][i].key) {
      assert gs[1..][i] == gs[i + 1];
    }
  }

  lemma AboveTail(b: Key, gs: seq<Group>)
    requires Above(b, gs) && gs != []
    ensures Above(b, gs[1..])
  {
    forall i | 0 <= i < |gs[1..]| ensures KeyLess(b, gs[1..][i].key) {
      assert gs[1..][i] == gs[i + 1];
    }
  }

  lemma AboveCons(b: Key, g: Group, rest: seq<Group>)
    requires KeyLess(b, g.key) && Above(b, rest)
    ensures Above(b, [g] + rest)
  {
    forall i | 0 <= i < |[g] + rest| ensures KeyLess(b, ([g] + rest)[i].key) {
      if i > 0 { assert ([g] + rest)[i] == rest[i - 1]; }
    }
  }

  /** Inserting keeps the keys ascending, and keeps a lower bound below every key. */
  lemma {:induction false} InsertOrder(gs: seq<Group>, k: Key, r: Row, b: Key)
    requires Ascending(gs)
    ensures Ascending(Insert(gs, k, r))
    ensures Above(b, gs) && KeyLess(b, k) ==> Above(b, Insert(gs, k, r))
    decreases |gs|
  {
    var res := Insert(gs, k, r);
    if gs == [] {
    } else if gs[0].key == k {
      assert Ascending(res) by {
        forall i, j | 0 <= i < j < |res| ensures KeyLess(res[i].key, res[j].key) {
          assert res[i].key == gs[i].key && res[j].key == gs[j].key;
        }
      }
    } else if KeyLess(k, gs[0].key) {
      assert Above(k, gs) by {
        forall i | 0 <= i < |gs| ensures KeyLess(k, gs[i].key) {
          if i > 0 { KeyLessTransitive(k, gs[0].key, gs[i].key); }
        }
      }
      AscendingCons(Group(k, [r]), gs);
      if Above(b, gs) && KeyLess(b, k) { AboveCons(b, Group(k, [r]), gs); }
    } else {
      KeyLessTotal(k, gs[0].key);
      var rest := Insert(gs[1..], k, r);
      AscendingTail(gs);
      InsertOrder(gs[1..], k, r, gs[0].key);
      AscendingCons(gs[0], rest);
      if Above(b, gs) && KeyLess(b, k) {
        AboveTail(b, gs);
        InsertOrder(gs[1..], k, r, b);
        AboveCons(b, gs[0], rest);
      }
    }
  }

  /** Inserting adds `r` at the end of the group of `k` and changes no other group. */
  lemma {:induction false} InsertLookup(gs: seq<Group>, k: Key, r: Row, x: Key)
    requires Ascending(gs)
    ensures Lookup(Insert(gs, k, r), x) == if x == k then Lookup(gs, k) + [r] else Lookup(gs, x)
    decreases |gs|
  {
    var res := Insert(gs, k, r);
    if gs == [] {
    } else if gs[0].key == k {
      assert res[1..] == gs[1..];
    } else if KeyLess(k, gs[0].key) {
      forall i | 0 <= i < |gs| ensures gs[i].key != k {
        if i > 0 { KeyLessTransitive(k, gs[0].key, gs[i].key); }
        KeyLessAsymmetric(k, gs[i].key);
      }
      LookupAbsent(gs, k);
      assert res[1..] == gs;
    } else {
      KeyLessTotal(k, gs[0].key);
      KeyLessAsymmetric(gs[0].key, k);
      AscendingTail(gs);
      InsertLookup(gs[1..], k, r, x);
      assert res[1..] == Insert(gs[1..], k, r);
    }
  }

  lemma {:induction false} InsertWellFormed(gs: seq<Group>, k: Key, r: Row)
    requires WellFormed(gs) && Complete(k)
    ensures WellFormed(Insert(gs, k, r))
    decreases |gs|
  {
    var res := Insert(gs, k, r);
    if gs != [] && gs[0].key != k && !KeyLess(k, gs[0].key) {
      var rest := Insert(gs[1..], k, r);
      assert WellFormed(gs[1..]) by {
        forall i | 0 <= i < |gs[1..]| ensures Complete(gs[1..][i].key) && |gs[1..][i].members| > 0 {
          assert gs[1..][i] == gs[i + 1];
        }
      }
      InsertWellFormed(gs[1..], k, r);
      forall i | 0 <= i < |res| ensures Complete(res[i].key) && |res[i].members| > 0 {
        if i > 0 { assert res[i] == rest[i - 1]; }
      }
    } else if gs != [] && gs[0].key == k {
      forall i | 0 <= i < |res| ensures Complete(res[i].key) && |res[i].members| > 0 {
        if i > 0 { assert res[i] == gs[i]; }
      }
    } else if gs != [] {
      forall i | 0 <= i < |res| ensures Complete(res[i].key) && |res[i].members| > 0 {
        if i > 0 { assert res[i] == gs[i - 1]; }
      }
    }
  }

  lemma {:induction false} InsertTotal(gs: seq<Group>, k: Key, r: Row)
    ensures Total(Insert(gs, k, r)) == Total(gs) + 1
    decreases |gs|
  {
    if gs != [] && gs[0].key != k && !KeyLess(k, gs[0].key) {
      InsertTotal(gs[1..], k, r);
      assert ([gs[0]] + Insert(gs[1..], k, r))[1..] == Insert(gs[1..], k, r);
    } else if gs != [] && gs[0].key == k {
      assert ([Group(k, gs[0].members + [r])] + gs[1..])[1..] == gs[1..];
    } else if gs != [] {
      assert ([Group(k, [r])] + gs)[1..] == gs;
    }
  }

  lemma InsertFacts(gs: seq<Group>, k: Key, r: Row)
    requires Ascending(gs)
    ensures Ascending(Insert(gs, k, r))
    ensures forall x :: Lookup(Insert(gs, k, r), x) == if x == k then Lookup(gs, k) + [r] else Lookup(gs, x)
    ensures WellFormed(gs) && Complete(k) ==> WellFormed(Insert(gs, k, r))
    ensures Total(Insert(gs, k, r)) == Total(gs) + 1
  {
    InsertOrder(gs, k, r, k);
    forall x ensures Lookup(Insert(gs, k, r), x) == if x == k then Lookup(gs, k) + [r] else Lookup(gs, x) {
      InsertLookup(gs, k, r, x);
    }
    if WellFormed(gs) && Complete(k) { InsertWellFormed(gs, k, r); }
    InsertTotal(gs, k, r);
  }

  /**
   * What a groupby result is for `rows`: keys strictly ascending, every group
   * non-empty with a complete key, and the group of every key holds exactly
   * the rows with that key (no group, i.e. no rows, for an incomplete key).
   */
  ghost predicate Represents(gs: seq<Group>, rows: seq<Row>, cols: seq<string>)
  {
    && Ascending(gs)
    && WellFormed(gs)
    && forall k :: Lookup(gs, k) == if Complete(k) then Members(rows, cols, k) else []
  }

  /** `rows.groupby(cols)`: the groups, ascending by key, holding every row with a complete key once. */
  function GroupRows(rows: seq<Row>, cols: seq<string>): (gs: seq<Group>)
    ensures Represents(gs, rows, cols)
    ensures Total(gs) == |CompleteRows(rows, cols)|
  {
    if rows == [] then []
    else
      var prefix := rows[..|rows| - 1];
      var last := rows[|rows| - 1];
      var gs0 := GroupRows(prefix, cols);
      var k := KeyOf(last, cols);
      if Complete(k) then
        InsertFacts(gs0, k, last);
        Insert(gs0, k, last)
      else
        gs0
  }

  /** Each group holds exactly the rows with its key, and that key is complete. */
  lemma GroupIsMembers(rows: seq<Row>, cols: seq<string>, i: nat)
    requires i < |GroupRows(rows, cols)|
    ensures var g := GroupRows(rows, cols)[i];
      Complete(g.key) && g.members == Members(rows, cols, g.key) && |g.members| > 0
  {
    var gs := GroupRows(rows, cols);
    LookupAt(gs, i);
  }

  /** Every group key has one cell per grouping column. */
  lemma KeyLengths(rows: seq<Row>, cols: seq<string>)
    ensures forall i :: 0 <= i < |GroupRows(rows, cols)| ==> |GroupRows(rows, cols)[i].key| == |cols|
  {
    var gs := GroupRows(rows, cols);
    forall i | 0 <= i < |gs| ensures |gs[i].key| == |cols| {
      GroupIsMembers(rows, cols, i);
      assert gs[i].members[0] in gs[i].members;
    }
  }

  /** Every row whose key is complete lands in a group: no complete row is lost. */
  lemma {:induction false} RowHasGroup(rows: seq<Row>, cols: seq<string>, r: Row)
    requires r in rows && Complete(KeyOf(r, cols))
    ensures exists i :: 0 <= i < |GroupRows(rows, cols)| && GroupRows(rows, cols)[i].key == KeyOf(r, cols)
  {
    var gs := GroupRows(rows, cols);
    var k := KeyOf(r, cols);
    MemberOfOwnKey(rows, cols, r);
    assert Lookup(gs, k) != [];
    LookupNonEmpty(gs, k);
  }

  lemma {:induction false} MemberOfOwnKey(rows: seq<Row>, cols: seq<string>, r: Row)
    requires r in rows
    ensures r in Members(rows, cols, KeyOf(r, cols))
    decreases |rows|
  {
    var n := |rows|;
    if rows[n - 1] != r {
      assert r in rows[..n - 1] by {
        var j :| 0 <= j < n && rows[j] == r;
        assert rows[..n - 1][j] == r;
      }
      MemberOfOwnKey(rows[..n - 1], cols, r);
    }
  }

  /** The keys of a groupby result are distinct. */
  lemma GroupKeysDistinct(gs: seq<Group>, i: nat, j: nat)
    requires Ascending(gs) && i < j < |gs|
    ensures gs[i].key != gs[j].key
  {
    KeyLessAsymmetric(gs[i].key, gs[j].key);
  }

  /** If every row already has a complete key, the groups account for all of them. */
  lemma {:induction false} CompleteRowsAll(rows: seq<Row>, cols: seq<string>)
    requires forall r :: r in rows ==> NotNull(r, cols)
    ensures CompleteRows(rows, cols) == rows
    decreases |rows|
  {
    if rows != [] {
      var n := |rows|;
      assert rows[n - 1] in rows;
      CompleteKeyOf(rows[n - 1], cols);
      forall r | r in rows[..n - 1] ensures NotNull(r, cols) {
        assert r in rows;
      }
      CompleteRowsAll(rows[..n - 1], cols);
      assert rows[..n - 1] + [rows[n - 1]] == rows;
    }
  }
}
