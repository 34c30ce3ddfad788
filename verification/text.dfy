/**
 * The string operations the cleaning code applies to cells and column names:
 * `str.upper`, `str.lower`, `str.strip`, `in` on strings, `str.replace`,
 * `str.isdigit`, and the two parsers `int(text)` and `float(text)` (the latter
 * also standing for `pd.to_numeric`).  Whitespace is Python's full set;
 * case mapping covers the Latin-1 letters, where it maps one character to one.
 */
module Text {
  import opened Frame

  /** `c.isspace()`: the characters `str.strip()` removes. */
  predicate IsSpace(c: char)
  {
    || c == ' ' || ('\t' <= c <= '\r') || ('\U{1C}' <= c <= '\U{1F}')
    || c == '\U{85}' || c == '\U{A0}' || c == '\U{1680}' || ('\U{2000}' <= c <= '\U{200A}')
    || c == '\U{2028}' || c == '\U{2029}' || c == '\U{202F}' || c == '\U{205F}' || c == '\U{3000}'
  }

  predicate IsDigit(c: char)
  {
    '0' <= c <= '9'
  }

  /**
   * The capital of a letter: ASCII and Latin-1 small letters move down by 32
   * (á to Á, ñ to Ñ), ÿ and µ map outside Latin-1; anything else is kept.
   */
  function UpperChar(c: char): char
  {
    if 'a' <= c <= 'z' || ('\U{E0}' <= c <= '\U{FE}' && c != '\U{F7}') then (c as int - 32) as char
    else if c == '\U{FF}' then '\U{178}'
    else if c == '\U{B5}' then '\U{39C}'
    else c
  }

  /** The small letter of an ASCII or Latin-1 capital; anything else is kept. */
  function LowerChar(c: char): char
  {
    if 'A' <= c <= 'Z' || ('\U{C0}' <= c <= '\U{DE}' && c != '\U{D7}') then (c as int + 32) as char else c
  }

  /** `s.upper()`: every lower-case letter replaced by its capital, nothing else changed. */
  function Upper(s: string): (r: string)
    ensures |r| == |s|
    ensures forall i :: 0 <= i < |s| ==> r[i] == UpperChar(s[i])
  {
    seq(|s|, i requires 0 <= i < |s| => UpperChar(s[i]))
  }

  /** `s.lower()`. */
  function Lower(s: string): (r: string)
    ensures |r| == |s|
    ensures forall i :: 0 <= i < |s| ==> r[i] == LowerChar(s[i])
  {
    seq(|s|, i requires 0 <= i < |s| => LowerChar(s[i]))
  }

  function StripLeft(s: string): (r: string)
    ensures |r| <= |s| && r == s[|s| - |r|..]
    ensures r != [] ==> !IsSpace(r[0])
    ensures forall i :: 0 <= i < |s| - |r| ==> IsSpace(s[i])
  {
    if s != [] && IsSpace(s[0]) then StripLeft(s[1..]) else s
  }

  function StripRight(s: string): (r: string)
    ensures r <= s
    ensures r != [] ==> !IsSpace(r[|r| - 1])
    ensures forall i :: |r| <= i < |s| ==> IsSpace(s[i])
  {
    if s != [] && IsSpace(s[|s| - 1]) then StripRight(s[..|s| - 1]) else s
  }

  /** `s.strip()`: the text without leading and trailing whitespace. */
  function Strip(s: string): (r: string)
    ensures r != [] ==> !IsSpace(r[0]) && !IsSpace(r[|r| - 1])
  {
    StripRight(StripLeft(s))
  }

  /** `sub in s`. */
  predicate Contains(s: string, sub: string)
    decreases |s|
  {
    if |s| < |sub| then false
    else s[..|sub|] == sub || Contains(s[1..], sub)
  }

  /** `s.replace(a, b)` for single characters. */
  function ReplaceChar(s: string, a: char, b: char): (r: string)
    ensures |r| == |s|
    ensures forall i :: 0 <= i < |s| ==> r[i] == if s[i] == a then b else s[i]
  {
    seq(|s|, i requires 0 <= i < |s| => if s[i] == a then b else s[i])
  }

  /** `s.replace(a, '')`. */
  function RemoveChar(s: string, a: char): (r: string)
    ensures a !in r
    ensures forall c :: c in r <==> c in s && c != a
  {
    if s == [] then []
    else (if s[0] == a then [] else [s[0]]) + RemoveChar(s[1..], a)
  }

  /** `s.isdigit()` (ASCII digits): non-empty and digits only. */
  predicate IsDigits(s: string)
  {
    |s| > 0 && forall i :: 0 <= i < |s| ==> IsDigit(s[i])
  }

  /** The value of a string of decimal digits. */
  function DigitsValue(s: string): nat
    requires forall i :: 0 <= i < |s| ==> IsDigit(s[i])
    decreases |s|
  {
    if s == [] then 0
    else 10 * DigitsValue(s[..|s| - 1]) + DigitValue(s[|s| - 1])
  }

  function DigitValue(c: char): (d: nat)
    requires IsDigit(c)
    ensures d <= 9
  {
    c as int - '0' as int
  }

  function Pow10(n: nat): (p: nat)
    ensures p >= 1
  {
    if n == 0 then 1 else 10 * Pow10(n - 1)
  }

  /**
   * Digits in which single underscores may separate two digits, as in the
   * argument of `int("1_000")`.
   */
  predicate UnderscoredDigits(s: string)
  {
    && |s| > 0
    && IsDigit(s[0]) && IsDigit(s[|s| - 1])
    && (forall i :: 0 <= i < |s| ==> IsDigit(s[i]) || s[i] == '_')
    && (forall i :: 0 <= i < |s| - 1 && s[i] == '_' ==> s[i + 1] != '_')
  }

  /** `int(s)` on a string: surrounding whitespace, an optional sign, and (underscored) digits. */
  function ParseInt(s: string): (r: Option<int>)
  {
    var t := Strip(s);
    var signed := |t| > 0 && (t[0] == '+' || t[0] == '-');
    var body := if signed then t[1..] else t;
    if !UnderscoredDigits(body) then None
    else
      var digits := RemoveChar(body, '_');
      assert forall i :: 0 <= i < |digits| ==> digits[i] in digits;
      var v: int := DigitsValue(digits);
      Some(if signed && t[0] == '-' then -v else v)
  }

  /** Digits with at most one decimal point, and at least one digit. */
  predicate DecimalBody(s: string)
  {
    && (exists i :: 0 <= i < |s| && IsDigit(s[i]))
    && (forall i :: 0 <= i < |s| ==> IsDigit(s[i]) || s[i] == '.')
    && (forall i, j :: 0 <= i < j < |s| && s[i] == '.' ==> s[j] != '.')
  }

  function IndexOf(s: string, c: char): (i: nat)
    ensures i <= |s|
    ensures i < |s| ==> s[i] == c
    ensures forall j :: 0 <= j < i ==> s[j] != c
  {
    if s == [] then 0
    else if s[0] == c then 0
    else 1 + IndexOf(s[1..], c)
  }

  /** The value of a decimal body such as "12", "12.5", ".5" or "12.". */
  function DecimalValue(s: string): real
    requires DecimalBody(s)
  {
    var p := IndexOf(s, '.');
    var whole, frac := s[..p], if p < |s| then s[p + 1..] else [];
    assert forall i :: 0 <= i < |frac| ==> frac[i] == s[p + 1 + i];
    (DigitsValue(whole) as real) + Fraction(frac)
  }

  /** The value of the digits after a decimal point: "25" is 0.25. */
  function Fraction(digits: string): (v: real)
    requires forall i :: 0 <= i < |digits| ==> IsDigit(digits[i])
    ensures 0.0 <= v <= 1.0
  {
    if digits == [] then 0.0
    else ((DigitValue(digits[0]) as real) + Fraction(digits[1..])) / 10.0
  }

  /** The word nan in any mix of cases. */
  predicate IsNanWord(s: string)
  {
    |s| == 3 && LowerChar(s[0]) == 'n' && LowerChar(s[1]) == 'a' && LowerChar(s[2]) == 'n'
  }

  /** Where the exponent of a number starts: at the first `e` or `E`, or at the end. */
  function ExponentAt(s: string): (i: nat)
    ensures i <= |s|
    ensures i < |s| ==> s[i] == 'e' || s[i] == 'E'
    ensures forall j :: 0 <= j < i ==> s[j] != 'e' && s[j] != 'E'
  {
    if s == [] then 0
    else if s[0] == 'e' || s[0] == 'E' then 0
    else 1 + ExponentAt(s[1..])
  }

  /** An exponent: an optional sign and digits, as in "3", "+3" or "-3". */
  function Exponent(s: string): Option<int>
  {
    var signed := |s| > 0 && (s[0] == '+' || s[0] == '-');
    var digits := if signed then s[1..] else s;
    if !IsDigits(digits) then None
    else
      var v: int := DigitsValue(digits);
      Some(if signed && s[0] == '-' then -v else v)
  }

  /** `v` times ten to the power `e`. */
  function Scale(v: real, e: int): real
  {
    if e >= 0 then v * (Pow10(e) as real) else v / (Pow10(-e) as real)
  }

  /** The value of an unsigned number: a decimal body, optionally followed by `e` or `E` and an exponent. */
  function NumberValue(s: string): Option<real>
  {
    var k := ExponentAt(s);
    var mantissa := s[..k];
    if !DecimalBody(mantissa) then None
    else if k == |s| then Some(DecimalValue(mantissa))
    else
      match Exponent(s[k + 1..])
      case None => None
      case Some(e) => Some(Scale(DecimalValue(mantissa), e))
  }

  /**
   * `float(s)`: surrounding whitespace and an optional sign around either a
   * decimal number with an optional exponent or the word nan (in any case),
   * which reads back as a missing cell.  None stands for the ValueError float
   * raises on anything else.
   */
  function ParseFloat(s: string): (r: Option<Cell>)
    ensures r.Some? ==> !r.value.Str?
  {
    var t := Strip(s);
    var signed := |t| > 0 && (t[0] == '+' || t[0] == '-');
    var body := if signed then t[1..] else t;
    if IsNanWord(body) then Some(Missing)
    else
      match NumberValue(body)
      case None => None
      case Some(v) => Some(Num(if signed && t[0] == '-' then -v else v))
  }

  function IntText(n: nat): (s: string)
    ensures |s| > 0
    decreases n
  {
    var d := [(('0' as int) + n % 10) as char];
    if n < 10 then d else IntText(n / 10) + d
  }

  /** Up to `fuel` further decimal digits of a fraction 0 <= f < 1, stopping once it is used up. */
  function FracDigits(f: real, fuel: nat): string
    decreases fuel
  {
    if fuel == 0 || f <= 0.0 then []
    else
      var g := f * 10.0;
      var d := g.Floor;
      var digit := if d < 0 then 0 else if d > 9 then 9 else d;
      [(('0' as int) + digit) as char] + FracDigits(g - (digit as real), fuel - 1)
  }

  /**
   * `str(x)` for a float: the integer part, a point, and the fractional digits
   * ("2020.0", "0.25", "-1.5").
   */
  function NumText(x: real): string
    decreases if x < 0.0 then 1 else 0
  {
    if x < 0.0 then "-" + NumText(-x)
    else
      var whole := x.Floor;
      var frac := FracDigits(x - (whole as real), 17);
      IntText(whole) + "." + (if frac == [] then "0" else frac)
  }

  /** `str(cell)` as `astype(str)` renders it: a missing cell reads "nan". */
  function CellText(c: Cell): string
  {
    match c
    case Missing => "nan"
    case Num(x) => NumText(x)
    case Str(s) => s
  }

  // ---- properties ----

  lemma UpperIdempotent(s: string)
    ensures Upper(Upper(s)) == Upper(s)
  {
  }

  lemma {:induction false} StripLeftIdempotent(s: string)
    ensures StripLeft(StripLeft(s)) == StripLeft(s)
  {
  }

  lemma {:induction false} StripRightNoLeadingSpace(s: string)
    requires s != [] ==> !IsSpace(s[0])
    ensures StripLeft(StripRight(s)) == StripRight(s)
  {
    var r := StripRight(s);
    if r != [] { assert r[0] == s[0]; }
  }

  lemma {:induction false} StripRightIdempotent(s: string)
    ensures StripRight(StripRight(s)) == StripRight(s)
  {
  }

  /** Stripping twice is stripping once. */
  lemma StripIdempotent(s: string)
    ensures Strip(Strip(s)) == Strip(s)
  {
    var l := StripLeft(s);
    StripRightNoLeadingSpace(l);
    StripRightIdempotent(l);
  }

  /** Case mapping never turns a character into whitespace or back. */
  lemma UpperSpace(c: char)
    ensures IsSpace(UpperChar(c)) == IsSpace(c)
  {
  }

  lemma {:induction false} StripLeftUpper(s: string)
    ensures StripLeft(Upper(s)) == Upper(StripLeft(s))
    decreases |s|
  {
    if s != [] {
      UpperSpace(s[0]);
      assert Upper(s)[1..] == Upper(s[1..]);
      StripLeftUpper(s[1..]);
    }
  }

  lemma {:induction false} StripRightUpper(s: string)
    ensures StripRight(Upper(s)) == Upper(StripRight(s))
    decreases |s|
  {
    if s != [] {
      UpperSpace(s[|s| - 1]);
      assert Upper(s)[..|s| - 1] == Upper(s[..|s| - 1]);
      StripRightUpper(s[..|s| - 1]);
    }
  }

  /** Upper-casing commutes with stripping: letters are never whitespace. */
  lemma StripUpperCommute(s: string)
    ensures Strip(Upper(s)) == Upper(Strip(s))
  {
    StripLeftUpper(s);
    StripRightUpper(StripLeft(s));
  }

  /** `.str.upper().str.strip()` is idempotent: a normalised name normalises to itself. */
  lemma NormalizeIdempotent(s: string)
    ensures Strip(Upper(Strip(Upper(s)))) == Strip(Upper(s))
  {
    StripUpperCommute(Strip(Upper(s)));
    StripUpperCommute(s);
    UpperIdempotent(Strip(s));
    StripIdempotent(Upper(s));
  }

  /** An all-digit name is a valid `int()` argument with the value its digits spell. */
  lemma DigitsParseInt(s: string)
    requires IsDigits(s)
    ensures ParseInt(s) == Some(DigitsValue(s))
  {
    assert !IsSpace(s[0]) && !IsSpace(s[|s| - 1]);
    assert StripLeft(s) == s;
    assert StripRight(s) == s;
    assert Strip(s) == s;
    assert !(s[0] == '+' || s[0] == '-');
    assert UnderscoredDigits(s);
    assert '_' !in s;
    RemoveCharAbsent(s, '_');
  }

  lemma {:induction false} RemoveCharAbsent(s: string, a: char)
    requires a !in s
    ensures RemoveChar(s, a) == s
    decreases |s|
  {
    if s != [] {
      assert a !in s[1..] by { assert forall c :: c in s[1..] ==> c in s; }
      RemoveCharAbsent(s[1..], a);
      assert s == [s[0]] + s[1..];
    }
  }

  /** A digit is neither whitespace, a sign, a letter of nan nor an exponent mark. */
  lemma DigitChar(c: char)
    requires IsDigit(c)
    ensures !IsSpace(c) && c != '+' && c != '-' && c != 'e' && c != 'E' && LowerChar(c) == c
  {
  }

  /** Text with nothing to strip and no sign is parsed as it stands. */
  lemma ParseFloatPlain(s: string)
    requires s != [] && !IsSpace(s[0]) && !IsSpace(s[|s| - 1]) && s[0] != '+' && s[0] != '-'
    ensures IsNanWord(s) ==> ParseFloat(s) == Some(Missing)
    ensures !IsNanWord(s) && NumberValue(s).None? ==> ParseFloat(s) == None
    ensures !IsNanWord(s) && NumberValue(s).Some? ==> ParseFloat(s) == Some(Num(NumberValue(s).value))
  {
    assert StripLeft(s) == s;
    assert StripRight(s) == s;
  }

  /** Without an exponent mark, a number is its decimal body. */
  lemma NoExponent(s: string)
    requires forall i :: 0 <= i < |s| ==> s[i] != 'e' && s[i] != 'E'
    ensures NumberValue(s) == if DecimalBody(s) then Some(DecimalValue(s)) else None
  {
    assert ExponentAt(s) == |s|;
    assert s[..|s|] == s;
  }

  /** The text "nan" parses as a missing value. */
  lemma ParseNan()
    ensures ParseFloat("nan") == Some(Missing)
  {
    assert IsNanWord("nan");
    ParseFloatPlain("nan");
  }

  /** A digit string is a decimal body whose value is the number it spells. */
  lemma DigitsDecimal(s: string)
    requires IsDigits(s)
    ensures DecimalBody(s) && DecimalValue(s) == DigitsValue(s) as real
  {
    assert exists i :: 0 <= i < |s| && IsDigit(s[i]) by { assert IsDigit(s[0]); }
    assert IndexOf(s, '.') == |s|;
    assert s[..|s|] == s;
  }

  /** `float` of a plain digit string is the number the digits spell. */
  lemma ParseFloatDigits(s: string)
    requires IsDigits(s)
    ensures ParseFloat(s) == Some(Num(DigitsValue(s) as real))
  {
    DigitChar(s[0]);
    DigitChar(s[|s| - 1]);
    assert !IsNanWord(s);
    forall i | 0 <= i < |s| ensures s[i] != 'e' && s[i] != 'E' {
      DigitChar(s[i]);
    }
    NoExponent(s);
    DigitsDecimal(s);
    ParseFloatPlain(s);
  }

  /** `float("<w>e<d>")` for digit strings w and d is w times ten to the power d, as in "1e3" for 1000. */
  lemma ParseFloatExponent(w: string, d: string)
    requires IsDigits(w) && IsDigits(d)
    ensures ParseFloat(w + "e" + d) == Some(Num((DigitsValue(w) * Pow10(DigitsValue(d))) as real))
  {
    var s := w + "e" + d;
    assert s[0] == w[0] && s[|s| - 1] == d[|d| - 1];
    DigitChar(w[0]);
    DigitChar(d[|d| - 1]);
    assert !IsNanWord(s);
    ExponentNumber(w, d);
    ParseFloatPlain(s);
    assert ParseFloat(s) == Some(Num(Scale(DigitsValue(w) as real, DigitsValue(d))));
    ScaleDigits(DigitsValue(w), DigitsValue(d));
  }

  lemma ScaleDigits(a: nat, e: nat)
    ensures Scale(a as real, e) == (a * Pow10(e)) as real
  {
  }

  lemma ExponentNumber(w: string, d: string)
    requires IsDigits(w) && IsDigits(d)
    ensures NumberValue(w + "e" + d) == Some(Scale(DigitsValue(w) as real, DigitsValue(d)))
  {
    var s := w + "e" + d;
    forall i | 0 <= i < |w| ensures s[i] != 'e' && s[i] != 'E' {
      DigitChar(w[i]);
    }
    assert s[|w|] == 'e';
    assert ExponentAt(s) == |w|;
    assert s[..|w|] == w && s[|w| + 1..] == d;
    DigitsDecimal(w);
    DigitChar(d[0]);
    assert Exponent(d) == Some(DigitsValue(d) as int);
  }

  lemma PointedDecimal(w: string, f: string)
    requires IsDigits(w) && IsDigits(f)
    ensures var s := w + "." + f;
      DecimalBody(s) && IndexOf(s, '.') == |w| && s[..|w|] == w && s[|w| + 1..] == f
  {
    var s := w + "." + f;
    assert s[|w|] == '.';
    assert forall i :: 0 <= i < |w| ==> s[i] == w[i];
    assert forall i :: |w| < i < |s| ==> s[i] == f[i - |w| - 1];
    assert IsDigit(s[0]);
    forall i, j | 0 <= i < j < |s| && s[i] == '.' ensures s[j] != '.' {
      assert i == |w|;
    }
    var p := IndexOf(s, '.');
    assert p == |w|;
  }

  lemma DecimalValuePointed(w: string, f: string)
    requires IsDigits(w) && IsDigits(f)
    ensures DecimalBody(w + "." + f)
    ensures DecimalValue(w + "." + f) == (DigitsValue(w) as real) + Fraction(f)
  {
    PointedDecimal(w, f);
  }

  /** `float` of "w.f" for digit strings w and f is w plus the fraction the digits f spell. */
  lemma ParseFloatDecimal(s: string, w: string, f: string)
    requires IsDigits(w) && IsDigits(f) && s == w + "." + f
    ensures DecimalBody(s)
    ensures ParseFloat(s) == Some(Num(DecimalValue(s)))
    ensures DecimalValue(s) == (DigitsValue(w) as real) + Fraction(f)
  {
    assert s[0] == w[0] && s[|s| - 1] == f[|f| - 1];
    DigitChar(w[0]);
    DigitChar(f[|f| - 1]);
    assert !IsNanWord(s);
    DecimalValuePointed(w, f);
    forall i | 0 <= i < |s| ensures s[i] != 'e' && s[i] != 'E' {
      if i < |w| { DigitChar(w[i]); }
      else if i > |w| { assert s[i] == f[i - |w| - 1]; DigitChar(f[i - |w| - 1]); }
    }
    NoExponent(s);
    ParseFloatPlain(s);
  }

}
