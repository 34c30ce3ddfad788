/**
 * The order pandas sorts group keys and unique values in: numbers by value,
 * text by code point with a proper prefix first, and tuples of cells
 * lexicographically (the order of a multi-column groupby).  A missing cell
 * sorts first; numbers sort before text, as in the sort pandas applies to
 * group keys (Python's own `sorted` raises on such a mix instead).
 */
module Order {
  import opened Frame

  predicate StrLess(a: string, b: string)
    decreases |a|
  {
    if |a| == 0 then |b| > 0
    else if |b| == 0 then false
    else a[0] < b[0] || (a[0] == b[0] && StrLess(a[1..], b[1..]))
  }

  predicate CellLess(a: Cell, b: Cell)
  {
    match a
    case Missing => !b.Missing?
    case Num(x) => (b.Num? && x < b.x) || b.Str?
    case Str(s) => b.Str? && StrLess(s, b.s)
  }

  type Key = seq<Cell>

  predicate KeyLess(a: Key, b: Key)
    decreases |a|
  {
    if |a| == 0 then |b| > 0
    else if |b| == 0 then false
    else CellLess(a[0], b[0]) || (a[0] == b[0] && KeyLess(a[1..], b[1..]))
  }

  lemma {:induction false} StrLessIrreflexive(a: string)
    ensures !StrLess(a, a)
    decreases |a|
  {
    if |a| > 0 { StrLessIrreflexive(a[1..]); }
  }

  lemma {:induction false} StrLessTransitive(a: string, b: string, c: string)
    requires StrLess(a, b) && StrLess(b, c)
    ensures StrLess(a, c)
    decreases |a|
  {
    if |a| > 0 && |b| > 0 && |c| > 0 && a[0] == b[0] && b[0] == c[0] {
      StrLessTransitive(a[1..], b[1..], c[1..]);
    }
  }

  lemma {:induction false} StrLessTotal(a: string, b: string)
    requires a != b
    ensures StrLess(a, b) || StrLess(b, a)
    decreases |a|
  {
    if |a| > 0 && |b| > 0 && a[0] == b[0] {
      assert a == [a[0]] + a[1..] && b == [b[0]] + b[1..];
      StrLessTotal(a[1..], b[1..]);
    }
  }

  lemma CellLessIrreflexive(a: Cell)
    ensures !CellLess(a, a)
  {
    if a.Str? { StrLessIrreflexive(a.s); }
  }

  lemma CellLessTransitive(a: Cell, b: Cell, c: Cell)
    requires CellLess(a, b) && CellLess(b, c)
    ensures CellLess(a, c)
  {
    if a.Str? && b.Str? && c.Str? { StrLessTransitive(a.s, b.s, c.s); }
  }

  lemma CellLessTotal(a: Cell, b: Cell)
    requires a != b
    ensures CellLess(a, b) || CellLess(b, a)
  {
    if a.Str? && b.Str? { StrLessTotal(a.s, b.s); }
  }

  lemma {:induction false} KeyLessIrreflexive(a: Key)
    ensures !KeyLess(a, a)
    decreases |a|
  {
    if |a| > 0 {
      CellLessIrreflexive(a[0]);
      KeyLessIrreflexive(a[1..]);
    }
  }

  lemma {:induction false} KeyLessTransitive(a: Key, b: Key, c: Key)
    requires KeyLess(a, b) && KeyLess(b, c)
    ensures KeyLess(a, c)
    decreases |a|
  {
    if |a| > 0 && |b| > 0 && |c| > 0 {
      if CellLess(a[0], b[0]) && CellLess(b[0], c[0]) {
        CellLessTransitive(a[0], b[0], c[0]);
      } else if a[0] == b[0] && b[0] == c[0] {
        KeyLessTransitive(a[1..], b[1..], c[1..]);
      }
    }
  }

  lemma {:induction false} KeyLessTotal(a: Key, b: Key)
    requires a != b
    ensures KeyLess(a, b) || KeyLess(b, a)
    decreases |a|
  {
    if |a| > 0 && |b| > 0 {
      if a[0] == b[0] {
        assert a == [a[0]] + a[1..] && b == [b[0]] + b[1..];
        KeyLessTotal(a[1..], b[1..]);
      } else {
        CellLessTotal(a[0], b[0]);
      }
    }
  }

  lemma KeyLessAsymmetric(a: Key, b: Key)
    requires KeyLess(a, b)
    ensures !KeyLess(b, a) && a != b
  {
    KeyLessIrreflexive(a);
    if KeyLess(b, a) { KeyLessTransitive(a, b, a); }
  }

  /** A one-column key orders exactly as its cell does. */
  lemma SingletonKeyLess(a: Cell, b: Cell)
    ensures KeyLess([a], [b]) <==> CellLess(a, b)
  {
    assert [a][1..] == [] && [b][1..] == [];
  }
}
