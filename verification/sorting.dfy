/**
 * Sorting by a numeric key, largest first, keeping equal keys in their
 * original order: Python's `list.sort(key=..., reverse=True)` and `sorted`,
 * and pandas' `nlargest(n, col)` (keep='first').  Followed by a head(n), it
 * selects the n rows with the largest keys.
 */
module Sorting {
  import opened Frame

  predicate NonIncreasing<T>(s: seq<T>, key: T -> real)
  {
    forall i, j :: 0 <= i < j < |s| ==> key(s[i]) >= key(s[j])
  }

  /** Puts `x` before the first element whose key is not larger than its own. */
  function InsertDesc<T>(x: T, s: seq<T>, key: T -> real): seq<T>
  {
    if s == [] then [x]
    else if key(x) >= key(s[0]) then [x] + s
    else [s[0]] + InsertDesc(x, s[1..], key)
  }

  lemma {:induction false} InsertDescPermutes<T>(x: T, s: seq<T>, key: T -> real)
    ensures multiset(InsertDesc(x, s, key)) == multiset(s) + multiset{x}
    decreases |s|
  {
    if s != [] && key(x) < key(s[0]) {
      InsertDescPermutes(x, s[1..], key);
      assert s == [s[0]] + s[1..];
    }
  }

  /** A bound on the keys of `s` and of `x` bounds the keys after inserting `x`. */
  lemma {:induction false} InsertDescBound<T>(x: T, s: seq<T>, key: T -> real, b: real)
    requires key(x) <= b
    requires forall i :: 0 <= i < |s| ==> key(s[i]) <= b
    ensures forall i :: 0 <= i < |InsertDesc(x, s, key)| ==> key(InsertDesc(x, s, key)[i]) <= b
    decreases |s|
  {
    if s != [] && key(x) < key(s[0]) {
      InsertDescBound(x, s[1..], key, b);
    }
  }

  lemma {:induction false} InsertDescSorted<T>(x: T, s: seq<T>, key: T -> real)
    requires NonIncreasing(s, key)
    ensures NonIncreasing(InsertDesc(x, s, key), key)
    decreases |s|
  {
    var r := InsertDesc(x, s, key);
    if s == [] {
    } else if key(x) >= key(s[0]) {
      forall i, j | 0 <= i < j < |r| ensures key(r[i]) >= key(r[j]) {
        if i > 0 { assert r[i] == s[i - 1]; }
        assert r[j] == s[j - 1];
      }
    } else {
      var tail := s[1..];
      assert NonIncreasing(tail, key) by {
        forall i, j | 0 <= i < j < |tail| ensures key(tail[i]) >= key(tail[j]) {
          assert tail[i] == s[i + 1] && tail[j] == s[j + 1];
        }
      }
      InsertDescSorted(x, tail, key);
      var t := InsertDesc(x, tail, key);
      assert forall i :: 0 <= i < |tail| ==> key(tail[i]) <= key(s[0]) by {
        forall i | 0 <= i < |tail| ensures key(tail[i]) <= key(s[0]) {
          assert tail[i] == s[i + 1];
        }
      }
      InsertDescBound(x, tail, key, key(s[0]));
      assert r == [s[0]] + t;
      forall i, j | 0 <= i < j < |r| ensures key(r[i]) >= key(r[j]) {
        assert r[j] == t[j - 1];
        if i > 0 { assert r[i] == t[i - 1]; }
      }
    }
  }

  lemma ConsMultiset<T>(s: seq<T>)
    requires s != []
    ensures multiset(s) == multiset(s[1..]) + multiset{s[0]}
  {
    assert s == [s[0]] + s[1..];
  }

  /** Stable descending sort: a permutation of `s` whose keys never increase. */
  function SortDesc<T>(s: seq<T>, key: T -> real): (r: seq<T>)
    ensures |r| == |s|
    ensures multiset(r) == multiset(s)
    ensures NonIncreasing(r, key)
  {
    if s == [] then []
    else
      var rest := SortDesc(s[1..], key);
      InsertDescPermutes(s[0], rest, key);
      InsertDescSorted(s[0], rest, key);
      ConsMultiset(s);
      InsertDesc(s[0], rest, key)
  }

  /** Any prefix of a sorted sequence (`head(n)` for any n) is drawn from `s` and still sorted. */
  lemma SortedPrefix<T>(s: seq<T>, key: T -> real, n: int)
    ensures var top := Head(SortDesc(s, key), n);
      multiset(top) <= multiset(s) && NonIncreasing(top, key)
  {
    var r := SortDesc(s, key);
    var top := Head(r, n);
    assert r == top + r[|top|..];
    assert multiset(r) == multiset(top) + multiset(r[|top|..]);
    forall i, j | 0 <= i < j < |top| ensures key(top[i]) >= key(top[j]) {
      assert top[i] == r[i] && top[j] == r[j];
    }
  }

  /**
   * The first n elements of the sorted sequence are the n largest: each is
   * drawn from `s`, and everything left out has a key no larger than any
   * selected key.
   */
  lemma TopLargest<T>(s: seq<T>, key: T -> real, n: nat)
    ensures var top := Head(SortDesc(s, key), n);
      && |top| == (if n < |s| then n else |s|)
      && multiset(top) <= multiset(s)
      && NonIncreasing(top, key)
      && forall x, y :: x in multiset(s) - multiset(top) && y in top ==> key(x) <= key(y)
  {
    var r := SortDesc(s, key);
    var k := if n < |s| then n else |s|;
    SortedPrefix(s, key, n);
    assert Head(r, n) == r[..k];
    SplitBound(r, k, key);
  }

  /**
   * In a sorted sequence, what is left after taking the first k elements has
   * keys no larger than any of them.
   */
  lemma SplitBound<T>(r: seq<T>, k: nat, key: T -> real)
    requires k <= |r| && NonIncreasing(r, key)
    ensures forall x, y :: x in multiset(r) - multiset(r[..k]) && y in r[..k] ==> key(x) <= key(y)
  {
    var top, rest := r[..k], r[k..];
    assert r == top + rest;
    assert multiset(r) - multiset(top) == multiset(rest);
    forall x, y | x in multiset(rest) && y in top ensures key(x) <= key(y) {
      var i :| 0 <= i < |rest| && rest[i] == x;
      var j :| 0 <= j < k && top[j] == y;
      assert r[k + i] == x && r[j] == y;
    }
  }

  /** `[x for x in s if p(x)]`: the elements satisfying `p`, in their order. */
  function Filter<T(!new)>(s: seq<T>, p: T -> bool): (r: seq<T>)
    ensures |r| <= |s|
    ensures forall x :: x in r <==> x in s && p(x)
    ensures multiset(r) <= multiset(s)
  {
    if s == [] then []
    else
      var rest := Filter(s[1..], p);
      assert s == [s[0]] + s[1..];
      (if p(s[0]) then [s[0]] else []) + rest
  }

  /** When every element satisfies `p`, nothing is dropped. */
  lemma {:induction false} FilterAll<T(!new)>(s: seq<T>, p: T -> bool)
    requires forall x :: x in s ==> p(x)
    ensures Filter(s, p) == s
    decreases |s|
  {
    if s != [] {
      assert forall x :: x in s[1..] ==> x in s;
      FilterAll(s[1..], p);
      assert s == [s[0]] + s[1..];
    }
  }

  /** Keeping some elements of a sorted sequence leaves it sorted. */
  lemma {:induction false} FilterNonIncreasing<T(!new)>(s: seq<T>, p: T -> bool, key: T -> real)
    requires NonIncreasing(s, key)
    ensures NonIncreasing(Filter(s, p), key)
    decreases |s|
  {
    if s != [] {
      var tail := s[1..];
      assert NonIncreasing(tail, key) by {
        forall i, j | 0 <= i < j < |tail| ensures key(tail[i]) >= key(tail[j]) {
          assert tail[i] == s[i + 1] && tail[j] == s[j + 1];
        }
      }
      FilterNonIncreasing(tail, p, key);
      var rest := Filter(tail, p);
      var r := Filter(s, p);
      if p(s[0]) {
        forall i, j | 0 <= i < j < |r| ensures key(r[i]) >= key(r[j]) {
          assert r[j] == rest[j - 1];
          assert rest[j - 1] in tail;
          var k :| 0 <= k < |tail| && tail[k] == rest[j - 1];
          assert tail[k] == s[k + 1];
          if i > 0 { assert r[i] == rest[i - 1]; }
        }
      }
    }
  }
  // ---- stability ----

  /** The elements whose key is `v`: one group of ties. */
  function Tied<T>(key: T -> real, v: real): T -> bool
  {
    x => key(x) == v
  }

  /** Filtering `[h] + t`: `h` if it passes, then the filtered `t`. */
  lemma FilterPrepend<T(!new)>(h: T, t: seq<T>, p: T -> bool)
    ensures Filter([h] + t, p) == (if p(h) then [h] else []) + Filter(t, p)
  {
    var r := [h] + t;
    assert r[0] == h && r[1..] == t;
  }

  /** Two sequences of which one is empty commute in front of a third. */
  lemma SwapEmpty<T>(a: seq<T>, b: seq<T>, c: seq<T>)
    requires a == [] || b == []
    ensures a + (b + c) == b + (a + c)
  {
  }

  /** Inserting `x` leaves every group of ties in order, with `x` ahead of its equals. */
  lemma {:induction false} InsertDescTies<T(!new)>(x: T, s: seq<T>, key: T -> real, v: real)
    ensures Filter(InsertDesc(x, s, key), Tied(key, v)) == (if key(x) == v then [x] else []) + Filter(s, Tied(key, v))
    decreases |s|
  {
    var p := Tied(key, v);
    if s == [] {
      assert InsertDesc(x, s, key) == [x] + [];
      FilterPrepend(x, [], p);
    } else {
      assert s == [s[0]] + s[1..];
      FilterPrepend(s[0], s[1..], p);
      if key(x) >= key(s[0]) {
        assert InsertDesc(x, s, key) == [x] + s;
        FilterPrepend(x, s, p);
      } else {
        var t := InsertDesc(x, s[1..], key);
        InsertDescTies(x, s[1..], key, v);
        assert InsertDesc(x, s, key) == [s[0]] + t;
        FilterPrepend(s[0], t, p);
        var hx, h0, rest := if p(x) then [x] else [], if p(s[0]) then [s[0]] else [], Filter(s[1..], p);
        assert Filter(t, p) == hx + rest;
        assert Filter(s, p) == h0 + rest;
        SwapEmpty(h0, hx, rest);
      }
    }
  }

  /** `SortDesc` is stable: each group of equal keys keeps the order it had in `s`. */
  lemma {:induction false} SortDescStable<T(!new)>(s: seq<T>, key: T -> real, v: real)
    ensures Filter(SortDesc(s, key), Tied(key, v)) == Filter(s, Tied(key, v))
    decreases |s|
  {
    if s != [] {
      SortDescStable(s[1..], key, v);
      InsertDescTies(s[0], SortDesc(s[1..], key), key, v);
    }
  }

  /** Filtering a prefix gives a prefix of the filtered whole. */
  lemma {:induction false} FilterTake<T(!new)>(s: seq<T>, k: nat, p: T -> bool)
    requires k <= |s|
    ensures Filter(s[..k], p) <= Filter(s, p)
    decreases |s|
  {
    if k > 0 {
      var t := s[..k];
      assert t[0] == s[0] && t[1..] == s[1..][..k - 1];
      FilterTake(s[1..], k - 1, p);
      var h := if p(s[0]) then [s[0]] else [];
      assert Filter(t, p) == h + Filter(s[1..][..k - 1], p);
      assert Filter(s, p) == h + Filter(s[1..], p);
    }
  }

  // ---- counting ----

  /** The number of elements of `s` satisfying `p`. */
  function Count<T>(s: seq<T>, p: T -> bool): nat
  {
    if s == [] then 0 else (if p(s[0]) then 1 else 0) + Count(s[1..], p)
  }

  lemma {:induction false} CountBound<T>(s: seq<T>, p: T -> bool)
    ensures Count(s, p) <= |s|
    decreases |s|
  {
    if s != [] {
      CountBound(s[1..], p);
    }
  }

  lemma {:induction false} CountAppend<T>(a: seq<T>, b: seq<T>, p: T -> bool)
    ensures Count(a + b, p) == Count(a, p) + Count(b, p)
    decreases |a|
  {
    if a == [] {
      assert a + b == b;
    } else {
      CountAppend(a[1..], b, p);
      assert (a + b)[0] == a[0] && (a + b)[1..] == a[1..] + b;
    }
  }

  /** The elements whose key exceeds `v`. */
  function KeyAbove<T>(key: T -> real, v: real): T -> bool
  {
    x => key(x) > v
  }

  /** No element satisfies `p`: the count is zero. */
  lemma {:induction false} CountNone<T>(s: seq<T>, p: T -> bool)
    requires forall i :: 0 <= i < |s| ==> !p(s[i])
    ensures Count(s, p) == 0
    decreases |s|
  {
    if s != [] {
      assert forall i :: 0 <= i < |s[1..]| ==> s[1..][i] == s[i + 1];
      CountNone(s[1..], p);
    }
  }

  /** The count depends only on the elements, not on their order. */
  lemma {:induction false} CountPermutation<T>(a: seq<T>, b: seq<T>, p: T -> bool)
    requires multiset(a) == multiset(b)
    ensures Count(a, p) == Count(b, p)
    decreases |a|
  {
    if a == [] {
      assert |b| == |multiset(b)| == 0;
    } else {
      assert a[0] in multiset(b);
      var j :| 0 <= j < |b| && b[j] == a[0];
      var before, after := b[..j], b[j + 1..];
      assert b == before + [b[j]] + after;
      assert multiset(b) == multiset(before) + multiset{b[j]} + multiset(after);
      ConsMultiset(a);
      assert multiset(before + after) == multiset(before) + multiset(after);
      forall z ensures multiset(a[1..])[z] == multiset(before + after)[z] {
        assert multiset(a)[z] == multiset(b)[z];
      }
      assert multiset(a[1..]) == multiset(before + after);
      CountPermutation(a[1..], before + after, p);
      CountAppend(before + [b[j]], after, p);
      CountAppend(before, [b[j]], p);
      CountAppend(before, after, p);
      assert [b[j]][1..] == [];
    }
  }

  /**
   * An element among the first n of the descending sort has fewer than n
   * elements of `s` with a strictly larger key.
   */
  lemma FewAbove<T>(s: seq<T>, key: T -> real, n: nat, x: T)
    requires x in Head(SortDesc(s, key), n)
    ensures Count(s, KeyAbove(key, key(x))) < n
  {
    var sorted := SortDesc(s, key);
    var top := Head(sorted, n);
    var k :| 0 <= k < |top| && top[k] == x;
    assert sorted[k] == x;
    var p := KeyAbove(key, key(x));
    assert sorted == sorted[..k] + sorted[k..];
    CountAppend(sorted[..k], sorted[k..], p);
    CountBound(sorted[..k], p);
    forall i | 0 <= i < |sorted[k..]| ensures !p(sorted[k..][i]) {
      assert sorted[k..][i] == sorted[k + i];
    }
    CountNone(sorted[k..], p);
    CountPermutation(sorted, s, p);
  }
}
