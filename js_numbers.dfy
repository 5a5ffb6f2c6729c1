/**
 * The JavaScript number conversions the tracker relies on, stated on exact reals:
 * division that can yield NaN or an infinity, `Number.prototype.toFixed`,
 * `Number.prototype.toString` and the global `parseFloat`.
 * IEEE-754 rounding is not modelled: every finite value is an exact `real`.
 */
module JsNumbers {
  import opened Wrappers

  /** A JavaScript number as the tracker's arithmetic can produce it. */
  datatype Num = Finite(value: real) | PosInfinity | NegInfinity | NaN

  /** `a / b`: a zero divisor gives an infinity signed like `a`, or NaN for `0 / 0`. */
  function Div(a: real, b: real): (q: Num)
    ensures q.Finite? <==> b != 0.0
    ensures q.Finite? ==> q.value * b == a
    ensures q == PosInfinity <==> b == 0.0 && a > 0.0
    ensures q == NegInfinity <==> b == 0.0 && a < 0.0
    ensures q == NaN <==> b == 0.0 && a == 0.0
  {
    if b != 0.0 then Finite(a / b)
    else if a > 0.0 then PosInfinity
    else if a < 0.0 then NegInfinity
    else NaN
  }

  /** `n * k` for a finite positive factor `k`: infinities and NaN are kept. */
  function Scale(n: Num, k: real): Num
    requires k > 0.0
  {
    match n
    case Finite(v) => Finite(v * k)
    case _ => n
  }

  /** `n <= t` for a finite `t`: every comparison with NaN is false. */
  predicate AtMost(n: Num, t: real)
  {
    match n
    case Finite(v) => v <= t
    case NegInfinity => true
    case PosInfinity => false
    case NaN => false
  }

  /** JavaScript truthiness of a number: 0 and NaN are falsy, everything else is truthy. */
  predicate Truthy(n: Num)
  {
    n != NaN && n != Finite(0.0)
  }

  lemma DivByNonZero(a: real, b: real)
    requires b != 0.0
    ensures Div(a, b) == Finite(a / b)
  {
  }

  // ---------------------------------------------------------------------------
  // Powers of ten

  function Pow10(e: nat): (p: nat)
    ensures p >= 1
  {
    if e == 0 then 1 else 10 * Pow10(e - 1)
  }

  /** 10 raised to an integer exponent, as a real. */
  function Scale10(e: int): (p: real)
    ensures p > 0.0
  {
    if e >= 0 then Pow10(e) as real else 1.0 / (Pow10(-e) as real)
  }

  // ---------------------------------------------------------------------------
  // Decimal digit strings

  predicate IsDigit(c: char)
  {
    '0' <= c <= '9'
  }

  predicate AllDigits(s: string)
  {
    forall i :: 0 <= i < |s| ==> IsDigit(s[i])
  }

  function DigitChar(d: nat): (c: char)
    requires d < 10
    ensures IsDigit(c)
  {
    ('0' as int + d) as char
  }

  function DigitValue(c: char): (d: nat)
    requires IsDigit(c)
    ensures d < 10
  {
    c as int - '0' as int
  }

  /** The decimal numeral of `n`, without leading zeros ("0" for zero). */
  function DigitsOf(n: nat): (s: string)
    ensures |s| >= 1 && AllDigits(s)
    decreases n
  {
    if n < 10 then [DigitChar(n)] else DigitsOf(n / 10) + [DigitChar(n % 10)]
  }

  /** The value of a string of decimal digits, read most significant digit first. */
  function ParseDigits(s: string): nat
    requires AllDigits(s)
  {
    if s == [] then 0 else ParseDigits(s[..|s| - 1]) * 10 + DigitValue(s[|s| - 1])
  }

  function Zeros(k: nat): (s: string)
    ensures |s| == k && AllDigits(s)
  {
    if k == 0 then [] else Zeros(k - 1) + ['0']
  }

  /** Reading back a numeral gives the number it was written from. */
  lemma {:induction false} ParseDigitsOf(n: nat)
    ensures ParseDigits(DigitsOf(n)) == n
  {
    if n >= 10 {
      var s := DigitsOf(n);
      assert s[..|s| - 1] == DigitsOf(n / 10);
      ParseDigitsOf(n / 10);
    }
  }

  /** Appending digits shifts the value of the prefix by a power of ten. */
  lemma {:induction false} ParseDigitsConcat(p: string, q: string)
    requires AllDigits(p) && AllDigits(q)
    ensures AllDigits(p + q)
    ensures ParseDigits(p + q) == ParseDigits(p) * Pow10(|q|) + ParseDigits(q)
  {
    if q == [] {
      assert p + q == p;
    } else {
      var q' := q[..|q| - 1];
      ParseDigitsConcat(p, q');
      assert (p + q)[..|p + q| - 1] == p + q';
      assert (p + q)[|p + q| - 1] == q[|q| - 1];
      ShiftByDigit(ParseDigits(p), Pow10(|q'|), ParseDigits(q'), DigitValue(q[|q| - 1]));
    }
  }

  lemma ShiftByDigit(a: int, b: int, c: int, d: int)
    ensures (a * b + c) * 10 + d == a * (10 * b) + (c * 10 + d)
  {
  }

  lemma {:induction false} ParseZeros(k: nat)
    ensures ParseDigits(Zeros(k)) == 0
  {
    if k > 0 {
      assert Zeros(k)[..k - 1] == Zeros(k - 1);
      ParseZeros(k - 1);
    }
  }

  /** Leading zeros do not change the value of a numeral. */
  lemma LeadingZerosIgnored(k: nat, s: string)
    requires AllDigits(s)
    ensures AllDigits(Zeros(k) + s) && ParseDigits(Zeros(k) + s) == ParseDigits(s)
  {
    ParseDigitsConcat(Zeros(k), s);
    ParseZeros(k);
  }

  // ---------------------------------------------------------------------------
  // Number.prototype.toFixed (ECMA-262, section 21.1.3.3)

  /** The integer closest to `y`, the larger of the two on a tie. */
  function RoundHalfUp(y: real): (n: int)
    ensures y - 0.5 < n as real <= y + 0.5
  {
    (y + 0.5).Floor
  }

  function Abs(x: real): (a: real)
    ensures a >= 0.0 && (a == x || a == -x)
  {
    if x < 0.0 then -x else x
  }

  /** The integer `n` that toFixed renders for `|x|` with `f` fraction digits. */
  function Magnitude(x: real, f: nat): nat
  {
    RoundHalfUp(Abs(x) * Pow10(f) as real)
  }

  /** The value that `x.toFixed(f)` denotes: `x` rounded to `f` decimals, half away from zero. */
  function Rounded(x: real, f: nat): real
  {
    var v := Magnitude(x, f) as real / Pow10(f) as real;
    if x < 0.0 then -v else v
  }

  predicate IsNumeralChar(c: char)
  {
    IsDigit(c) || c == '.' || c == '-'
  }

  predicate IsNumeralText(s: string)
  {
    forall i :: 0 <= i < |s| ==> IsNumeralChar(s[i])
  }

  /** The digits of `n / 10^f` with exactly `f` digits after the point. */
  function FixedDigits(n: nat, f: nat): (s: string)
    ensures |s| >= 1 && IsDigit(s[0]) && IsNumeralText(s)
  {
    var padded := Padded(n, f);
    if f == 0 then padded
    else
      var whole, fraction := padded[..|padded| - f], padded[|padded| - f..];
      assert AllDigits(whole) && AllDigits(fraction);
      var s := whole + "." + fraction;
      assert forall i :: 0 <= i < |s| ==> s[i] == '.' || IsDigit(s[i]);
      s
  }

  /** `x.toFixed(f)` for a finite `x` below 10^21 in magnitude. */
  function ToFixed(x: real, f: nat): (s: string)
    ensures |s| >= 1 && IsNumeralText(s)
    ensures s[0] == '-' <==> x < 0.0
  {
    (if x < 0.0 then "-" else "") + FixedDigits(Magnitude(x, f), f)
  }

  /** `n.toFixed(f)` for any JavaScript number. */
  function FormatFixed(n: Num, f: nat): string
  {
    match n
    case Finite(v) => ToFixed(v, f)
    case PosInfinity => "Infinity"
    case NegInfinity => "-Infinity"
    case NaN => "NaN"
  }

  // ---------------------------------------------------------------------------
  // Number.prototype.toString (ECMA-262, section 6.1.6.1.20), on exact reals

  /** The most fraction digits the exact rendering uses. */
  const MaxFractionDigits: nat := 20

  predicate IsWhole(y: real)
  {
    y == y.Floor as real
  }

  /** `x` needs at most `k` digits after the decimal point. */
  predicate HasDecimals(x: real, k: nat)
  {
    IsWhole(x * Pow10(k) as real)
  }

  function ShortestFixed(x: real, k: nat): string
    requires k <= MaxFractionDigits
    decreases MaxFractionDigits - k
  {
    if k == MaxFractionDigits || HasDecimals(x, k) then ToFixed(x, k)
    else ShortestFixed(x, k + 1)
  }

  /**
   * `x.toString()`: the shortest fixed-point rendering that denotes `x` exactly;
   * a whole number is written without a point.
   */
  function NumberToString(x: real): string
  {
    ShortestFixed(x, 0)
  }

  // ---------------------------------------------------------------------------
  // parseFloat (ECMA-262, section 19.2.4)

  /** The characters StrWhiteSpaceChar admits: white space and line terminators. */
  predicate IsStrWhiteSpace(c: char)
  {
    c == ' ' || c == '\t' || c == '\n' || c == '\r' || c == '\U{B}' || c == '\U{C}'
    || c == '\U{A0}' || c == '\U{1680}' || ('\U{2000}' <= c <= '\U{200A}')
    || c == '\U{2028}' || c == '\U{2029}' || c == '\U{202F}' || c == '\U{205F}'
    || c == '\U{3000}' || c == '\U{FEFF}'
  }

  function TrimStart(s: string): (t: string)
    ensures |t| <= |s|
  {
    if s != [] && IsStrWhiteSpace(s[0]) then TrimStart(s[1..]) else s
  }

  /** The longest prefix of `s` made of decimal digits. */
  function LeadingDigits(s: string): (d: string)
    ensures AllDigits(d) && |d| <= |s| && d == s[..|d|]
  {
    if s != [] && IsDigit(s[0]) then [s[0]] + LeadingDigits(s[1..]) else []
  }

  /** The value of an ExponentPart at the head of `s` (`e`, optional sign, digits); 0 when there is none. */
  function ExponentOf(s: string): int
  {
    if |s| >= 2 && (s[0] == 'e' || s[0] == 'E') then
      var signed := s[1..];
      var negative := signed[0] == '-';
      var digits := LeadingDigits(if signed[0] == '-' || signed[0] == '+' then signed[1..] else signed);
      if digits == [] then 0
      else if negative then -(ParseDigits(digits) as int)
      else ParseDigits(digits)
    else 0
  }

  /** The value of the digits `whole.fraction`. */
  function Mantissa(whole: string, fraction: string): real
    requires AllDigits(whole) && AllDigits(fraction)
  {
    ParseDigits(whole) as real + ParseDigits(fraction) as real / Pow10(|fraction|) as real
  }

  /** The longest prefix of `s` that is an unsigned decimal literal, read as a number. */
  function ParseUnsigned(s: string): Option<real>
  {
    var whole := LeadingDigits(s);
    var rest := s[|whole|..];
    var hasPoint := rest != [] && rest[0] == '.';
    var fraction := if hasPoint then LeadingDigits(rest[1..]) else [];
    if whole == [] && fraction == [] then None
    else
      var tail := if hasPoint then rest[1 + |fraction|..] else rest;
      Some(Mantissa(whole, fraction) * Scale10(ExponentOf(tail)))
  }

  /**
   * `parseFloat(s)`: skip leading white space, take an optional sign and the longest
   * decimal-literal prefix; `None` stands for NaN.
   */
  function ParseFloat(s: string): Option<real>
  {
    var t := TrimStart(s);
    var negative := t != [] && t[0] == '-';
    var body := if t != [] && (t[0] == '-' || t[0] == '+') then t[1..] else t;
    match ParseUnsigned(body)
    case None => None
    case Some(v) => Some(if negative then -v else v)
  }

  // ---------------------------------------------------------------------------
  // Round trips

  lemma LeadingDigitsOfDigits(s: string)
    requires AllDigits(s)
    ensures LeadingDigits(s) == s
  {
  }

  lemma {:induction false} LeadingDigitsStop(a: string, rest: string)
    requires AllDigits(a) && rest != [] && !IsDigit(rest[0])
    ensures LeadingDigits(a + rest) == a
  {
    if a != [] {
      assert (a + rest)[1..] == a[1..] + rest;
      LeadingDigitsStop(a[1..], rest);
    } else {
      assert a + rest == rest;
    }
  }

  lemma DigitIsNotSpace(c: char)
    requires IsDigit(c)
    ensures !IsStrWhiteSpace(c)
  {
  }

  /** A numeral without a point reads back as its digits' value. */
  lemma ParseUnsignedWhole(a: string)
    requires AllDigits(a) && a != []
    ensures ParseUnsigned(a) == Some(ParseDigits(a) as real)
  {
    LeadingDigitsOfDigits(a);
    assert a[|a|..] == [];
  }

  lemma NoExponent()
    ensures ExponentOf([]) == 0 && Scale10(0) == 1.0
  {
  }

  /** A numeral `a.b` reads back as `a + b / 10^|b|`. */
  lemma ParseUnsignedPointed(a: string, b: string)
    requires AllDigits(a) && AllDigits(b) && a != []
    ensures ParseUnsigned(a + "." + b) == Some(Mantissa(a, b))
  {
    var s := a + "." + b;
    assert s == a + ("." + b);
    LeadingDigitsStop(a, "." + b);
    var rest := s[|a|..];
    assert rest == "." + b;
    assert rest != [] && rest[0] == '.';
    LeadingDigitsOfDigits(b);
    assert rest[1..] == b;
    assert LeadingDigits(rest[1..]) == b;
    assert rest[1 + |b|..] == [];
    NoExponent();
  }

  /** Splitting a numeral before its last `f` digits and reading it back divides by 10^f. */
  lemma SplitReadBack(padded: string, f: nat, n: nat)
    requires AllDigits(padded) && 0 < f < |padded| && ParseDigits(padded) == n
    ensures ParseUnsigned(padded[..|padded| - f] + "." + padded[|padded| - f..])
         == Some(n as real / Pow10(f) as real)
  {
    var a := padded[..|padded| - f];
    var b := padded[|padded| - f..];
    assert a + b == padded;
    ParseDigitsConcat(a, b);
    ParseUnsignedPointed(a, b);
    PointShift(ParseDigits(a), ParseDigits(b), Pow10(f), n);
  }

  /** The numeral toFixed pads with leading zeros so that a digit precedes the point. */
  function Padded(n: nat, f: nat): (s: string)
    ensures AllDigits(s) && |s| >= f + 1 && ParseDigits(s) == n
  {
    var m := DigitsOf(n);
    ParseDigitsOf(n);
    if |m| <= f then
      LeadingZerosIgnored(f + 1 - |m|, m);
      Zeros(f + 1 - |m|) + m
    else m
  }

  /** Reading back a fixed-point rendering of `n` with `f` decimals gives `n / 10^f`. */
  lemma FixedDigitsReadBack(n: nat, f: nat)
    ensures ParseUnsigned(FixedDigits(n, f)) == Some(n as real / Pow10(f) as real)
  {
    var padded := Padded(n, f);
    if f == 0 {
      assert FixedDigits(n, f) == padded;
      ParseUnsignedWhole(padded);
    } else {
      assert FixedDigits(n, f) == padded[..|padded| - f] + "." + padded[|padded| - f..];
      SplitReadBack(padded, f, n);
    }
  }

  lemma PointShift(a: nat, b: nat, p: nat, n: nat)
    requires p > 0 && a * p + b == n
    ensures a as real + b as real / p as real == n as real / p as real
  {
    assert (a * p) as real == a as real * p as real;
  }

  /** What `x.toFixed(f)` writes, parseFloat reads back as `x` rounded to `f` decimals. */
  lemma ToFixedReadBack(x: real, f: nat)
    ensures ParseFloat(ToFixed(x, f)) == Some(Rounded(x, f))
  {
    var digits := FixedDigits(Magnitude(x, f), f);
    FixedDigitsReadBack(Magnitude(x, f), f);
    DigitIsNotSpace(digits[0]);
    if x < 0.0 {
      assert ToFixed(x, f) == "-" + digits;
      assert TrimStart("-" + digits) == "-" + digits;
      assert ("-" + digits)[1..] == digits;
    } else {
      assert ToFixed(x, f) == digits;
      assert TrimStart(digits) == digits;
    }
  }

  lemma QuotientNonNegative(u: real, p: real)
    requires u >= 0.0 && p > 0.0
    ensures u / p >= 0.0
  {
  }

  lemma QuotientPositive(u: real, p: real)
    requires u > 0.0 && p > 0.0
    ensures u / p > 0.0
  {
  }

  lemma DivideBounds(d: real, p: real)
    requires p > 0.0 && -0.5 < d <= 0.5
    ensures -0.5 / p < d / p <= 0.5 / p
  {
    QuotientNonNegative(0.5 - d, p);
    QuotientPositive(d + 0.5, p);
    assert 0.5 / p - d / p == (0.5 - d) / p;
    assert d / p - (-0.5) / p == (d + 0.5) / p;
  }

  lemma ScaledRoundingError(a: real, p: real, n: real)
    requires p > 0.0 && a * p - 0.5 < n <= a * p + 0.5
    ensures -0.5 / p < n / p - a <= 0.5 / p
  {
    var d := n - a * p;
    DivideBounds(d, p);
    assert n / p - a == d / p;
  }

  /** Giving the sign back to a magnitude keeps its distance from `|x|` as the distance from `x`. */
  lemma SignedError(x: real, q: real, r: real, h: real)
    requires r == (if x < 0.0 then -q else q)
    requires -h < q - Abs(x) <= h
    ensures -h <= r - x <= h
  {
  }

  /** Rounding a scaled magnitude to an integer and scaling back errs by at most half a step. */
  lemma ScaledSignedError(x: real, p: real, n: real, r: real)
    requires p > 0.0 && Abs(x) * p - 0.5 < n <= Abs(x) * p + 0.5
    requires r == (if x < 0.0 then -(n / p) else n / p)
    ensures -(0.5 / p) <= r - x <= 0.5 / p
  {
    ScaledRoundingError(Abs(x), p, n);
    SignedError(x, n / p, r, 0.5 / p);
  }

  /** Rounding to `f` decimals moves a value by at most half a unit in the last place. */
  lemma RoundedError(x: real, f: nat)
    ensures -(0.5 / Pow10(f) as real) <= Rounded(x, f) - x <= 0.5 / Pow10(f) as real
  {
    ScaledSignedError(x, Pow10(f) as real, Magnitude(x, f) as real, Rounded(x, f));
  }

  /** Rounding to eight decimals, a satoshi, moves a value by at most half a satoshi. */
  lemma SatoshiRounding(x: real)
    ensures -0.000000005 <= Rounded(x, 8) - x <= 0.000000005
  {
    assert Pow10(8) == 100000000;
    RoundedError(x, 8);
  }

  lemma WholeScaled(x: real, p: real) returns (m: int)
    requires p > 0.0 && IsWhole(x * p)
    ensures Abs(x) * p == m as real && m as real / p == Abs(x)
  {
    var k := (x * p).Floor;
    if x < 0.0 {
      m := -k;
      assert Abs(x) * p == -(x * p);
    } else {
      m := k;
    }
  }

  /** A value with a whole number of units in the last place is rendered exactly. */
  lemma RoundedWhole(x: real, f: nat)
    requires HasDecimals(x, f)
    ensures Rounded(x, f) == x
  {
    var m := WholeScaled(x, Pow10(f) as real);
    assert Magnitude(x, f) == m;
  }

  lemma {:induction false} ShortestFixedReadBack(x: real, k: nat)
    requires k <= MaxFractionDigits
    requires HasDecimals(x, MaxFractionDigits)
    ensures ParseFloat(ShortestFixed(x, k)) == Some(x)
    decreases MaxFractionDigits - k
  {
    if k == MaxFractionDigits {
      ToFixedReadBack(x, k);
      RoundedWhole(x, k);
    } else if HasDecimals(x, k) {
      ToFixedReadBack(x, k);
      RoundedWhole(x, k);
    } else {
      ShortestFixedReadBack(x, k + 1);
    }
  }

  /** `x.toString()` reads back exactly for any amount with at most twenty decimals. */
  lemma NumberToStringReadBack(x: real)
    requires HasDecimals(x, MaxFractionDigits)
    ensures ParseFloat(NumberToString(x)) == Some(x)
  {
    ShortestFixedReadBack(x, 0);
  }

  /** A natural number is rendered by toString as its plain numeral. */
  lemma NumberToStringNatural(n: nat)
    ensures NumberToString(n as real) == DigitsOf(n)
  {
    assert HasDecimals(n as real, 0);
    assert Magnitude(n as real, 0) == n;
    assert FixedDigits(n, 0) == DigitsOf(n);
  }

  lemma {:induction false} ShortestFixedIsNumeral(x: real, k: nat)
    requires k <= MaxFractionDigits
    ensures IsNumeralText(ShortestFixed(x, k))
    decreases MaxFractionDigits - k
  {
    if k < MaxFractionDigits && !HasDecimals(x, k) {
      ShortestFixedIsNumeral(x, k + 1);
    }
  }

  /** toString of a finite amount writes only digits, a point and a minus sign. */
  lemma NumberToStringIsNumeral(x: real)
    ensures IsNumeralText(NumberToString(x))
  {
    ShortestFixedIsNumeral(x, 0);
  }
}
