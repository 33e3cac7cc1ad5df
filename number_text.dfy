/**
 * Decimal text of host numbers, as Python's `str` gives it for `int` and for
 * `float` (pylox/interpreter.py:197, 202; pylox/ast_printer.py:22).
 *
 * Integers are exact. Floats are exact reals here: the text is the integral
 * part, a point, and the fractional digits until the remainder is zero,
 * truncated after MaxFractionDigits; an integral value gets the single
 * fractional digit "0" ("3.0"), as in Python.
 */
module NumberText {

  const MaxFractionDigits: nat := 17

  function Digit(d: nat): (c: char)
    requires d < 10
    ensures '0' <= c <= '9'
  {
    "0123456789"[d]
  }

  function DigitValue(c: char): nat
    requires '0' <= c <= '9'
  {
    (c as int - '0' as int) as nat
  }

  predicate AllDigits(s: string) {
    forall i | 0 <= i < |s| :: '0' <= s[i] <= '9'
  }

  /** The decimal digits of `n`, most significant first, without leading zeros. */
  function NatText(n: nat): (s: string)
    ensures |s| > 0 && AllDigits(s)
    ensures n >= 10 ==> s[0] != '0'
    ensures n < 10 <==> |s| == 1
  {
    if n < 10 then [Digit(n)] else NatText(n / 10) + [Digit(n % 10)]
  }

  /** Reads a string of decimal digits back as a number. */
  function DigitsValue(s: string): nat
    requires AllDigits(s)
  {
    if s == [] then 0 else 10 * DigitsValue(s[..|s| - 1]) + DigitValue(s[|s| - 1])
  }

  /** `str(n)` for a Python int. */
  function IntText(i: int): string {
    if i < 0 then "-" + NatText(-i) else NatText(i)
  }

  /** The fractional digits of `f` in [0, 1), at most `n` of them. */
  function FractionDigits(f: real, n: nat): (s: string)
    requires 0.0 <= f < 1.0
    ensures |s| <= n && AllDigits(s)
    ensures f == 0.0 ==> s == []
    ensures f != 0.0 && n > 0 ==> |s| > 0
    decreases n
  {
    if n == 0 || f == 0.0 then []
    else
      var d := (f * 10.0).Floor;
      [Digit(d as nat)] + FractionDigits(f * 10.0 - d as real, n - 1)
  }

  /** `str(x)` for a Python float, for non-negative `x`. */
  function UnsignedFloatText(x: real): string
    requires x >= 0.0
  {
    var whole := x.Floor;
    var fraction := FractionDigits(x - whole as real, MaxFractionDigits);
    NatText(whole as nat) + "." + (if fraction == [] then "0" else fraction)
  }

  function Magnitude(x: real): (y: real)
    ensures y >= 0.0
  {
    if x < 0.0 then -x else x
  }

  function Sign(x: real): string {
    if x < 0.0 then "-" else ""
  }

  /** `str(x)` for a Python float. */
  function FloatText(x: real): string {
    Sign(x) + UnsignedFloatText(Magnitude(x))
  }

  /** Whether a float has no fractional part. */
  predicate IsIntegral(x: real) {
    Magnitude(x) == Magnitude(x).Floor as real
  }

  /** The text of an integral float's value as an integer: sign and digits. */
  function WholeText(x: real): string {
    Sign(x) + NatText(Magnitude(x).Floor as nat)
  }

  /** Reading a digit back gives its value. */
  lemma DigitRoundTrip(d: nat)
    requires d < 10
    ensures DigitValue(Digit(d)) == d
  {
  }

  /** Reading the digits back gives the number: NatText is injective and exact. */
  lemma {:induction false} NatTextRoundTrip(n: nat)
    ensures DigitsValue(NatText(n)) == n
  {
    if n < 10 {
      DigitRoundTrip(n);
      assert NatText(n)[..0] == [];
    } else {
      var q, r := n / 10, n % 10;
      NatTextRoundTrip(q);
      DigitRoundTrip(r);
      var s := NatText(n);
      assert s == NatText(q) + [Digit(r)];
      assert s[..|s| - 1] == NatText(q);
      assert DigitsValue(s) == 10 * q + r;
    }
  }

  /** The text of an integral float is its whole-number text followed by ".0". */
  lemma IntegralFloatText(x: real)
    requires IsIntegral(x)
    ensures FloatText(x) == WholeText(x) + ".0"
  {
    var y := Magnitude(x);
    assert FractionDigits(y - y.Floor as real, MaxFractionDigits) == [];
  }

  /** Two or more fractional digits, or one that is not zero. */
  lemma FractionNotSingleZero(f: real, n: nat)
    requires 0.0 < f < 1.0 && n >= 2
    ensures var s := FractionDigits(f, n); |s| >= 2 || (|s| == 1 && s[0] != '0')
  {
    var d := (f * 10.0).Floor;
    var g := f * 10.0 - d as real;
    var rest := FractionDigits(g, n - 1);
    assert FractionDigits(f, n) == [Digit(d as nat)] + rest;
    if rest == [] {
      assert g == 0.0;
      assert d != 0;
    }
  }

  /**
   * The last two characters of `head + digits`, when `digits` are decimal
   * digits other than the single digit zero, are not a point and a zero.
   */
  lemma DigitsTail(head: string, digits: string)
    requires AllDigits(digits) && (|digits| >= 2 || (|digits| == 1 && digits[0] != '0'))
    requires |head| >= 1
    ensures var t := head + digits; t[|t| - 1] != '0' || t[|t| - 2] != '.'
  {
    var t := head + digits;
    if |digits| == 1 {
      assert t[|t| - 1] == digits[0];
    } else {
      assert t[|t| - 2] == digits[|digits| - 2];
    }
  }

  /** The unsigned text of a non-integral magnitude does not end in a point and a zero. */
  lemma UnsignedFractionalText(y: real)
    requires y >= 0.0 && y != y.Floor as real
    ensures var u := UnsignedFloatText(y); |u| >= 2 && (u[|u| - 1] != '0' || u[|u| - 2] != '.')
  {
    var f := y - y.Floor as real;
    var digits := FractionDigits(f, MaxFractionDigits);
    FractionNotSingleZero(f, MaxFractionDigits);
    var point := NatText(y.Floor as nat) + ".";
    assert UnsignedFloatText(y) == point + digits;
    DigitsTail(point, digits);
  }

  /**
   * The text of a non-integral float does not end in ".0": its fractional
   * digits are never the single digit zero.
   */
  lemma FractionalFloatText(x: real)
    requires !IsIntegral(x)
    ensures var t := FloatText(x); !(|t| >= 2 && t[|t| - 2..] == ".0")
  {
    var u := UnsignedFloatText(Magnitude(x));
    UnsignedFractionalText(Magnitude(x));
    var t := FloatText(x);
    assert t[|t| - 1] == u[|u| - 1] && t[|t| - 2] == u[|u| - 2];
    assert t[|t| - 2..][0] == t[|t| - 2] && t[|t| - 2..][1] == t[|t| - 1];
  }
}
