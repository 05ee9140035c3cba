/**
 * JavaScript's global parseFloat (section 19.2.4 of ECMA-262) over exact
 * reals: leading white space is skipped, then the longest prefix that is a
 * StrDecimalLiteral is read (an optional sign, then either `Infinity` or
 * digits with an optional fraction and an optional exponent); when there is
 * no such prefix the result is NaN. Rounding to the nearest double is not
 * modelled: a finite result is the exact decimal value of the prefix.
 */
module NumberParser {

  import opened Digits

  datatype Number = NaN | Finite(value: real) | Infinity(negative: bool)

  /** StrWhiteSpaceChar: WhiteSpace (including every Zs character) or LineTerminator. */
  predicate IsStrWhiteSpaceChar(c: char) {
    || c == '\t' || c == '\U{000B}' || c == '\U{000C}' || c == '\U{FEFF}'
    || c == '\n' || c == '\r' || c == '\U{2028}' || c == '\U{2029}'
    || c == ' ' || c == '\U{00A0}' || c == '\U{1680}' || ('\U{2000}' <= c <= '\U{200A}')
    || c == '\U{202F}' || c == '\U{205F}' || c == '\U{3000}'
  }

  function TrimStart(s: string): (t: string)
    ensures t == [] || !IsStrWhiteSpaceChar(t[0])
  {
    if |s| > 0 && IsStrWhiteSpaceChar(s[0]) then TrimStart(s[1..]) else s
  }

  /** m times 10 to the power e, for an exponent of either sign. */
  function Scaled(m: real, e: int): (r: real)
    requires m >= 0.0
    ensures r >= 0.0
    ensures e == 0 ==> r == m
  {
    if e >= 0 then m * Pow10(e) as real else m / Pow10(-e) as real
  }

  /** The value of `intDigits.fracDigits`. */
  function Mantissa(intDigits: string, fracDigits: string): (m: real)
    requires AllDigits(intDigits) && AllDigits(fracDigits)
    ensures m >= 0.0
  {
    DigitsValue(intDigits) as real + DigitsValue(fracDigits) as real / Pow10(|fracDigits|) as real
  }

  /**
   * The exponent that an ExponentPart at the front of r denotes: `e` or `E`,
   * an optional sign, at least one digit. Without one, 0 (nothing is read).
   */
  function ExponentValue(r: string): int {
    if |r| == 0 || (r[0] != 'e' && r[0] != 'E') then 0
    else
      var signed := r[1..];
      var hasSign := |signed| > 0 && (signed[0] == '+' || signed[0] == '-');
      var digits := if hasSign then signed[1..] else signed;
      var k := DigitPrefixLen(digits);
      if k == 0 then 0
      else if hasSign && signed[0] == '-' then -(DigitsValue(digits[..k]) as int)
      else DigitsValue(digits[..k])
  }

  /** The longest StrUnsignedDecimalLiteral at the front of u, or NaN. */
  function ParseUnsigned(u: string): (n: Number)
    ensures n.Finite? ==> n.value >= 0.0
    ensures n.Infinity? ==> !n.negative
  {
    if StartsWithInfinity(u) then Infinity(false) else ParseDigits(u)
  }

  predicate StartsWithInfinity(u: string) {
    |u| >= 8 && u[..8] == "Infinity"
  }

  /** Digits, then optionally `.` and digits (at least one digit in all), then an optional exponent. */
  function ParseDigits(u: string): (n: Number)
    ensures n.Finite? ==> n.value >= 0.0
    ensures !n.Infinity?
  {
    var i := DigitPrefixLen(u);
    ReadFraction(u[..i], u[i..])
  }

  /** After the integer digits: an optional `.` and the fraction digits that follow it. */
  function ReadFraction(intDigits: string, afterInt: string): (n: Number)
    requires AllDigits(intDigits)
    ensures n.Finite? ==> n.value >= 0.0
    ensures !n.Infinity?
  {
    if |afterInt| > 0 && afterInt[0] == '.' then
      var afterDot := afterInt[1..];
      var f := DigitPrefixLen(afterDot);
      ReadExponent(intDigits, afterDot[..f], afterDot[f..])
    else ReadExponent(intDigits, [], afterInt)
  }

  /** The mantissa needs at least one digit; an exponent after it scales it. */
  function ReadExponent(intDigits: string, fracDigits: string, rest: string): (n: Number)
    requires AllDigits(intDigits) && AllDigits(fracDigits)
    ensures n.Finite? ==> n.value >= 0.0
    ensures !n.Infinity?
  {
    if |intDigits| + |fracDigits| == 0 then NaN
    else Finite(Scaled(Mantissa(intDigits, fracDigits), ExponentValue(rest)))
  }

  function Negate(n: Number): Number {
    match n
    case NaN => NaN
    case Finite(v) => Finite(-v)
    case Infinity(neg) => Infinity(!neg)
  }

  /**
   * parseFloat: skip leading white space, take an optional sign, then read the
   * longest prefix that is a number; with nothing to read the result is NaN.
   */
  function ParseFloat(s: string): (r: Number)
    ensures TrimStart(s) == [] ==> r == NaN
    ensures var t := TrimStart(s); |t| > 0 && t[0] == '-' ==> !GreaterThan(r, 0.0)
  {
    var t := TrimStart(s);
    assert t == [] ==> ParseDigits(t) == NaN;
    if |t| > 0 && t[0] == '-' then Negate(ParseUnsigned(t[1..]))
    else if |t| > 0 && t[0] == '+' then ParseUnsigned(t[1..])
    else ParseUnsigned(t)
  }

  // JavaScript's relational operators on a parsed number against a finite bound.

  predicate IsNaN(n: Number) {
    n.NaN?
  }

  predicate GreaterThan(n: Number, bound: real) {
    match n
    case NaN => false
    case Finite(v) => v > bound
    case Infinity(neg) => !neg
  }

  predicate AtMost(n: Number, bound: real) {
    match n
    case NaN => false
    case Finite(v) => v <= bound
    case Infinity(neg) => neg
  }

  /** Digits at the front of u are read as the integer part, whatever follows them. */
  lemma ParseDigitsSplit(w: string, t: string)
    requires AllDigits(w) && |w| > 0
    requires t == [] || !IsDigit(t[0])
    ensures ParseUnsigned(w + t) == ReadFraction(w, t)
  {
    var u := w + t;
    assert !StartsWithInfinity(u) by {
      if |u| >= 8 { assert u[..8][0] == u[0] == w[0]; }
    }
    DigitPrefixOfConcat(w, t);
    assert u[..|w|] == w && u[|w|..] == t;
  }

  /** Without an ExponentPart after it, the mantissa is the value. */
  lemma ReadWithoutExponent(intDigits: string, fracDigits: string, rest: string)
    requires AllDigits(intDigits) && AllDigits(fracDigits) && |intDigits| > 0
    requires rest == [] || (rest[0] != 'e' && rest[0] != 'E')
    ensures ReadExponent(intDigits, fracDigits, rest) == Finite(Mantissa(intDigits, fracDigits))
  {
    assert ExponentValue(rest) == 0;
  }

  /** An integer written in digits, followed by anything that cannot continue a number. */
  lemma ParseUnsignedInteger(w: string, tail: string)
    requires AllDigits(w) && |w| > 0
    requires tail == [] || (!IsDigit(tail[0]) && tail[0] != '.' && tail[0] != 'e' && tail[0] != 'E')
    ensures ParseUnsigned(w + tail) == Finite(DigitsValue(w) as real)
  {
    ParseDigitsSplit(w, tail);
    assert ReadFraction(w, tail) == ReadExponent(w, [], tail) by {
      assert !(|tail| > 0 && tail[0] == '.');
    }
    ReadWithoutExponent(w, [], tail);
    MantissaWhole(w);
  }

  lemma MantissaWhole(w: string)
    requires AllDigits(w)
    ensures Mantissa(w, []) == DigitsValue(w) as real
  {
    assert DigitsValue([]) == 0 && Pow10(0) == 1;
  }

  /** A decimal `w.f` followed by anything that cannot continue a number. */
  lemma ParseUnsignedDecimal(w: string, f: string, tail: string)
    requires AllDigits(w) && AllDigits(f) && |w| > 0
    requires tail == [] || (!IsDigit(tail[0]) && tail[0] != 'e' && tail[0] != 'E')
    ensures ParseUnsigned(w + "." + f + tail) == Finite(Mantissa(w, f))
  {
    var afterDot := f + tail;
    assert w + "." + f + tail == w + ("." + afterDot);
    ParseDigitsSplit(w, "." + afterDot);
    assert ReadFraction(w, "." + afterDot) == ReadExponent(w, f, tail) by {
      assert ("." + afterDot)[1..] == afterDot;
      DigitPrefixOfConcat(f, tail);
      assert afterDot[..|f|] == f && afterDot[|f|..] == tail;
    }
    ReadWithoutExponent(w, f, tail);
  }

  /** Leading white space and a `+` sign do not change the value; `-` negates it. */
  lemma ParseFloatSign(ws: string, u: string)
    requires forall i :: 0 <= i < |ws| ==> IsStrWhiteSpaceChar(ws[i])
    ensures ParseFloat(ws + "-" + u) == Negate(ParseUnsigned(u))
    ensures ParseFloat(ws + "+" + u) == ParseUnsigned(u)
  {
    ParseFloatAfterSign(ws, '-', u);
    ParseFloatAfterSign(ws, '+', u);
  }

  lemma ParseFloatAfterSign(ws: string, sign: char, u: string)
    requires forall i :: 0 <= i < |ws| ==> IsStrWhiteSpaceChar(ws[i])
    requires sign == '-' || sign == '+'
    ensures ParseFloat(ws + [sign] + u) == if sign == '-' then Negate(ParseUnsigned(u)) else ParseUnsigned(u)
  {
    var t := [sign] + u;
    assert ws + [sign] + u == ws + t;
    TrimWhiteSpacePrefix(ws, t);
    assert t[1..] == u;
  }

  lemma {:induction false} TrimWhiteSpacePrefix(ws: string, t: string)
    requires forall i :: 0 <= i < |ws| ==> IsStrWhiteSpaceChar(ws[i])
    requires t == [] || !IsStrWhiteSpaceChar(t[0])
    ensures TrimStart(ws + t) == t
  {
    if ws == [] {
      assert ws + t == t;
    } else {
      assert (ws + t)[0] == ws[0];
      assert (ws + t)[1..] == ws[1..] + t;
      TrimWhiteSpacePrefix(ws[1..], t);
    }
  }

  /** With a digit in front there is no white space to skip and no sign. */
  lemma ParseFloatDigitFirst(s: string)
    requires |s| > 0 && IsDigit(s[0])
    ensures ParseFloat(s) == ParseUnsigned(s)
  {
    TrimWhiteSpacePrefix("", s);
    assert "" + s == s;
  }

  /** `w.f`, unsigned and without white space, reads as its exact value. */
  lemma ParseFloatWithFraction(w: string, f: string)
    requires AllDigits(w) && AllDigits(f) && |w| > 0
    ensures ParseFloat(w + "." + f) == Finite(Mantissa(w, f))
  {
    var s := w + "." + f;
    ParseUnsignedDecimal(w, f, "");
    assert s + "" == s;
    assert s[0] == w[0];
    ParseFloatDigitFirst(s);
  }

  /** A number written in digits, unsigned and without white space, reads as itself. */
  lemma ParseFloatNat(n: nat, tail: string)
    requires tail == [] || (!IsDigit(tail[0]) && tail[0] != '.' && tail[0] != 'e' && tail[0] != 'E')
    ensures ParseFloat(NatToString(n) + tail) == Finite(n as real)
  {
    var w := NatToString(n);
    assert (w + tail)[0] == w[0];
    ParseFloatDigitFirst(w + tail);
    ParseUnsignedInteger(w, tail);
    NatToStringRoundTrip(n);
  }

  /** k thousandths written with three decimals, as toFixed(3) writes them. */
  function FixedThousandths(k: nat): string {
    NatToString(k / 1000) + "." + ThreeDigits(k % 1000)
  }

  /** The three-decimal text reads back as exactly k / 1000. */
  lemma ParseFixedThousandths(k: nat)
    ensures ParseFloat(FixedThousandths(k)) == Finite(k as real / 1000.0)
  {
    ParseFloatWithFraction(NatToString(k / 1000), ThreeDigits(k % 1000));
    MantissaOfThousandths(k);
  }

  lemma MantissaOfThousandths(k: nat)
    ensures Mantissa(NatToString(k / 1000), ThreeDigits(k % 1000)) == k as real / 1000.0
  {
    NatToStringRoundTrip(k / 1000);
    ThreeDigitsValue(k % 1000);
    assert Pow10(3) == 1000;
    ThousandthsSplit(k);
  }

  lemma ThousandthsSplit(k: nat)
    ensures (k / 1000) as real + (k % 1000) as real / 1000.0 == k as real / 1000.0
  {
    assert k == 1000 * (k / 1000) + k % 1000;
  }
}
