/**
 * The part of java.math.BigDecimal the ledger relies on. A BigDecimal is an unscaled integer
 * and a scale, standing for unscaled × 10^-scale; amounts and balances are exact, so the model
 * keeps their values as `real` and only works with (unscaled, scale) pairs where the scale is
 * visible: rounding to a number of decimal places (`setScale` with HALF_UP), printing
 * (`toString`) and parsing (`new BigDecimal(String)`).
 */
module Decimal {
  import opened Wrappers
  import opened JavaInt

  /** 10^n. */
  function Pow10(n: nat): (r: nat)
    ensures r >= 1
  {
    if n == 0 then 1 else 10 * Pow10(n - 1)
  }

  lemma Pow10Add(a: nat, b: nat)
    ensures Pow10(a + b) == Pow10(a) * Pow10(b)
  {
    if a > 0 {
      Pow10Add(a - 1, b);
    }
  }

  /** A BigDecimal as Java holds it: an unscaled integer and a scale. */
  datatype Dec = Dec(unscaled: int, scale: int)

  /** The number a BigDecimal with this unscaled value and scale stands for. */
  function Value(unscaled: int, scale: int): real {
    if scale >= 0 then unscaled as real / Pow10(scale) as real
    else (unscaled * Pow10(-scale)) as real
  }

  lemma ValueNegate(unscaled: int, scale: int)
    ensures Value(-unscaled, scale) == -Value(unscaled, scale)
  {
  }

  /** `x.movePointRight(n)`: x × 10^n, for a shift in either direction. */
  function MovePointRight(x: real, n: int): real {
    if n >= 0 then x * Pow10(n) as real else x / Pow10(-n) as real
  }

  /** Rounding to an integer with RoundingMode.HALF_UP: a tie goes away from zero. */
  function RoundHalfUp(x: real): int {
    if x >= 0.0 then (x + 0.5).Floor else -((-x + 0.5).Floor)
  }

  /** An integer is a HALF_UP rounding of `x`: nearest to `x`, and on a tie the one farther from zero. */
  ghost predicate IsHalfUpRounding(x: real, r: int) {
    && x - 0.5 <= r as real <= x + 0.5
    && (r as real == x + 0.5 ==> x >= 0.0)
    && (r as real == x - 0.5 ==> x < 0.0)
  }

  /** RoundHalfUp meets the reference description of HALF_UP, and is the only integer that does. */
  lemma RoundHalfUpIsHalfUp(x: real, r: int)
    ensures IsHalfUpRounding(x, RoundHalfUp(x))
    ensures IsHalfUpRounding(x, r) ==> r == RoundHalfUp(x)
  {
    var h := RoundHalfUp(x);
    if x >= 0.0 {
      assert h as real <= x + 0.5 < h as real + 1.0;
    } else {
      assert -h as real <= -x + 0.5 < -h as real + 1.0;
    }
  }

  /** The unscaled value of `x.setScale(scale, RoundingMode.HALF_UP)`. */
  function SetScale(x: real, scale: int): int {
    RoundHalfUp(MovePointRight(x, scale))
  }

  lemma MovePointRightValue(u: int, scale: int)
    ensures MovePointRight(Value(u, scale), scale) == u as real
  {
    if scale < 0 {
      var n := Pow10(-scale);
      CastProduct(u, n);
      MulThenDivide(u as real, n as real);
    } else {
      DivideThenMul(u as real, Pow10(scale) as real);
    }
  }

  lemma CastProduct(a: int, b: int)
    ensures (a * b) as real == a as real * b as real
  {
  }

  lemma MulThenDivide(a: real, p: real)
    requires p != 0.0
    ensures (a * p) / p == a
  {
  }

  lemma DivideThenMul(a: real, p: real)
    requires p != 0.0
    ensures (a / p) * p == a
  {
  }

  /** Rescaling a value that already has at most `scale` decimals loses nothing. */
  lemma SetScaleExact(u: int, scale: int)
    ensures SetScale(Value(u, scale), scale) == u
  {
    MovePointRightValue(u, scale);
    RoundHalfUpIsHalfUp(u as real, u);
  }

  /** `x.toBigInteger().longValue()` after `movePointRight`: truncation toward zero. */
  function TruncateTowardZero(x: real): (r: int)
    ensures 0.0 <= x ==> 0 <= r && r as real <= x < r as real + 1.0
    ensures x < 0.0 ==> r <= 0 && r as real - 1.0 < x <= r as real
  {
    if x >= 0.0 then x.Floor else -((-x).Floor)
  }

  function Abs(n: int): nat {
    if n < 0 then -n else n
  }

  // ---------------------------------------------------------------------------------------------
  // Decimal digit strings

  predicate IsDigit(c: char) {
    '0' <= c <= '9'
  }

  predicate AllDigits(s: string) {
    forall i :: 0 <= i < |s| ==> IsDigit(s[i])
  }

  function DigitChar(d: nat): (c: char)
    requires d < 10
    ensures IsDigit(c)
  {
    ('0' as int + d) as char
  }

  /** The decimal digits of `n`, without leading zeros ("0" for zero). */
  function Digits(n: nat): (s: string)
    ensures 1 <= |s| && AllDigits(s)
    ensures n < 10 <==> |s| == 1
    ensures |s| > 1 ==> s[0] != '0'
  {
    if n < 10 then [DigitChar(n)] else Digits(n / 10) + [DigitChar(n % 10)]
  }

  /** The number a string of ASCII digits spells. */
  function DigitsValue(s: string): nat
    requires AllDigits(s)
  {
    if s == [] then 0 else 10 * DigitsValue(s[..|s| - 1]) + (s[|s| - 1] as int - '0' as int)
  }

  /** A string of `n` zeros. */
  function Zeros(n: nat): (s: string)
    ensures |s| == n && forall i :: 0 <= i < n ==> s[i] == '0'
    ensures AllDigits(s)
  {
    if n == 0 then [] else Zeros(n - 1) + "0"
  }

  lemma {:induction false} DigitsRoundTrip(n: nat)
    ensures DigitsValue(Digits(n)) == n
  {
    if n >= 10 {
      DigitsRoundTrip(n / 10);
      var s := Digits(n);
      assert s[..|s| - 1] == Digits(n / 10);
    }
  }

  lemma AllDigitsAppend(a: string, b: string)
    requires AllDigits(a) && AllDigits(b)
    ensures AllDigits(a + b)
  {
  }

  /** Reading the digits of a concatenation: the left part is shifted by the length of the right. */
  lemma {:induction false} DigitsValueAppend(a: string, b: string)
    requires AllDigits(a) && AllDigits(b)
    ensures AllDigits(a + b)
    ensures DigitsValue(a + b) == DigitsValue(a) * Pow10(|b|) + DigitsValue(b)
  {
    if b == [] {
      assert a + b == a;
    } else {
      var b' := b[..|b| - 1];
      DigitsValueAppend(a, b');
      var ab := a + b;
      assert ab[..|ab| - 1] == a + b';
      assert ab[|ab| - 1] == b[|b| - 1];
      var x, p, y := DigitsValue(a), Pow10(|b'|), DigitsValue(b');
      var d := b[|b| - 1] as int - '0' as int;
      assert DigitsValue(ab) == 10 * DigitsValue(a + b') + d;
      assert DigitsValue(b) == 10 * y + d;
      assert Pow10(|b|) == 10 * p;
      MulShift(x, p);
    }
  }

  lemma MulShift(x: int, p: int)
    ensures 10 * (x * p) == x * (10 * p)
  {
  }

  lemma {:induction false} ZerosValue(n: nat)
    ensures DigitsValue(Zeros(n)) == 0
  {
    if n > 0 {
      ZerosValue(n - 1);
      assert Zeros(n)[..n - 1] == Zeros(n - 1);
    }
  }

  /** At most k digits are needed exactly for numbers below 10^k. */
  lemma {:induction false} DigitsLength(n: nat, k: nat)
    requires k >= 1
    ensures |Digits(n)| <= k <==> n < Pow10(k)
  {
    if n >= 10 && k > 1 {
      DigitsLength(n / 10, k - 1);
      assert n / 10 < Pow10(k - 1) <==> n < 10 * Pow10(k - 1);
    }
  }

  // ---------------------------------------------------------------------------------------------
  // BigDecimal.toString()

  /** `Long.toString`: an optional minus sign and the digits. */
  function IntText(n: int): string {
    (if n < 0 then "-" else "") + Digits(Abs(n))
  }

  /**
   * What `toString` lays out, piece by piece: the sign ("-" or nothing), the digits before the
   * point, the point ("." or nothing), the digits after it, the exponent marker ("E" or nothing)
   * and the exponent's text; `exponent` is the number that text stands for (0 without one).
   */
  datatype Layout = Layout(sign: string, intDigits: string, point: string, fracDigits: string,
                           marker: string, exponentText: string, exponent: int)

  /** The adjusted exponent toString uses to choose between plain and scientific notation. */
  function Adjusted(unscaled: int, scale: int): int {
    |Digits(Abs(unscaled))| - 1 - scale
  }

  /**
   * The layout toString chooses: the digits alone when the scale is zero; plain notation when
   * the scale is positive and the adjusted exponent is at least -6, the point `scale` digits from
   * the right (a value below 1 is first padded with zeros, so that it reads "0." and
   * `scale - digits` zeros before the digits); otherwise scientific notation, one digit before
   * the point and the adjusted exponent after an 'E'.
   */
  function LayoutOf(unscaled: int, scale: int): Layout {
    var coeff := Digits(Abs(unscaled));
    var sign := if unscaled < 0 then "-" else "";
    if scale == 0 then Layout(sign, coeff, "", "", "", "", 0)
    else if scale > 0 && Adjusted(unscaled, scale) >= -6 then
      var padded := Pad(coeff, scale);
      Layout(sign, padded[..|padded| - scale], ".", padded[|padded| - scale..], "", "", 0)
    else
      var adjusted := Adjusted(unscaled, scale);
      Layout(sign, coeff[..1], if |coeff| > 1 then "." else "", coeff[1..],
             "E", ExponentText(adjusted), adjusted)
  }

  /** Digits padded with zeros in front until there is at least one more digit than `scale`. */
  function Pad(coeff: string, scale: nat): (padded: string)
    ensures |padded| > scale || |padded| == |coeff|
  {
    if scale >= |coeff| then Zeros(scale - |coeff| + 1) + coeff else coeff
  }

  /** Padding keeps the digits' value and leaves room for `scale` digits after the point. */
  lemma PadValue(coeff: string, scale: nat)
    requires AllDigits(coeff)
    ensures |Pad(coeff, scale)| > scale || scale < |coeff|
    ensures |Pad(coeff, scale)| >= scale
    ensures AllDigits(Pad(coeff, scale)) && DigitsValue(Pad(coeff, scale)) == DigitsValue(coeff)
  {
    if scale >= |coeff| {
      ZerosThenDigits(scale - |coeff| + 1, coeff);
    }
  }

  /** The characters of a layout: its sign, then its body. */
  function Render(l: Layout): string {
    l.sign + Body(l)
  }

  /** The mantissa, then the exponent part. */
  function Body(l: Layout): string {
    Mantissa(l) + (l.marker + l.exponentText)
  }

  function Mantissa(l: Layout): string {
    l.intDigits + l.point + l.fracDigits
  }

  /** What toString prints after the 'E': a plus sign for a positive exponent, then the number. */
  function ExponentText(x: int): string {
    (if x > 0 then "+" else "") + IntText(x)
  }

  /** `BigDecimal.toString()` of the value with this unscaled value and scale. */
  function ToText(unscaled: int, scale: int): string {
    Render(LayoutOf(unscaled, scale))
  }

  // ---------------------------------------------------------------------------------------------
  // new BigDecimal(String)

  /** The first position at or after `from` where `s` holds `c`, or |s| when there is none. */
  function IndexOf(s: string, c: char, from: nat): (i: nat)
    requires from <= |s|
    ensures from <= i <= |s|
    decreases |s| - from
  {
    if from == |s| then from else if s[from] == c then from else IndexOf(s, c, from + 1)
  }

  predicate IsExponentMarker(c: char) {
    c == 'e' || c == 'E'
  }

  /** The first position at or after `from` of an exponent marker ('e' or 'E'), or |s|. */
  function ExponentIndex(s: string, from: nat): (i: nat)
    requires from <= |s|
    ensures from <= i <= |s|
    decreases |s| - from
  {
    if from == |s| then from else if IsExponentMarker(s[from]) then from else ExponentIndex(s, from + 1)
  }

  /**
   * The exponent after the 'e': an optional sign and at least one digit, below 10^10 in
   * magnitude (more non-zero digits are refused) and within the range of an `int`.
   */
  function ParseExponent(t: string): Option<int> {
    var negative := |t| > 0 && t[0] == '-';
    var digits := if |t| > 0 && (t[0] == '-' || t[0] == '+') then t[1..] else t;
    if digits == [] || !AllDigits(digits) || DigitsValue(digits) >= 10_000_000_000 then None
    else
      var e: int := if negative then -(DigitsValue(digits) as int) else DigitsValue(digits);
      if IsInt32(e) then Some(e) else None
  }

  /**
   * `new BigDecimal(s)`, or None where it throws NumberFormatException: an optional sign, then
   * an unsigned number.
   */
  function Parse(s: string): Option<Dec> {
    if |s| > 0 && s[0] == '-' then
      match ParseUnsigned(s[1..])
      case Some(d) => Some(Dec(-d.unscaled, d.scale))
      case None => None
    else if |s| > 0 && s[0] == '+' then ParseUnsigned(s[1..])
    else ParseUnsigned(s)
  }

  /**
   * An unsigned number: a mantissa (digits with at most one decimal point), then optionally an
   * exponent marker and an exponent.
   */
  function ParseUnsigned(body: string): Option<Dec> {
    var e := ExponentIndex(body, 0);
    ParseMantissa(body[..e], if e < |body| then ParseExponent(body[e + 1..]) else Some(0))
  }

  /** The mantissa splits at its first decimal point into integer and fraction digits. */
  function ParseMantissa(mantissa: string, exponent: Option<int>): Option<Dec> {
    var dot := IndexOf(mantissa, '.', 0);
    ParseParts(mantissa[..dot], if dot < |mantissa| then mantissa[dot + 1..] else "", exponent)
  }

  /**
   * Integer and fraction digits with at least one digit between them and a readable exponent;
   * the resulting scale (fraction digits minus exponent) must fit in an `int`.
   */
  function ParseParts(intPart: string, fracPart: string, exponent: Option<int>): Option<Dec> {
    if !AllDigits(intPart) || !AllDigits(fracPart) || |intPart| + |fracPart| == 0 then None
    else if exponent.None? then None
    else
      var scale := |fracPart| - exponent.value;
      if exponent.value != 0 && !IsInt32(scale) then None
      else
        AllDigitsAppend(intPart, fracPart);
        Some(Dec(DigitsValue(intPart + fracPart), scale))
  }

  // ---------------------------------------------------------------------------------------------
  // Printing and parsing agree

  /**
   * Parsing what `toString` printed gives back the same unscaled value and scale, whenever the
   * scale and the adjusted exponent fit in an `int` (otherwise Java itself cannot read the text
   * back).
   */
  lemma ParseToText(u: int, scale: int)
    requires IsInt32(scale) && IsInt32(Adjusted(u, scale))
    ensures Parse(ToText(u, scale)) == Some(Dec(u, scale))
  {
    var l := LayoutOf(u, scale);
    LayoutWellFormed(u, scale);
    ParseRender(l);
    LayoutMeaning(u, scale);
  }

  /**
   * A layout Java reads back: a sign, digits before the point, a point only with digits after
   * it allowed, digits after it, and either no exponent or an 'E' with a readable exponent;
   * the scale it spells must fit in an `int`.
   */
  predicate WellFormed(l: Layout) {
    && (l.sign == "-" || l.sign == "")
    && AllDigits(l.intDigits) && |l.intDigits| > 0
    && (l.point == "." || (l.point == "" && l.fracDigits == ""))
    && AllDigits(l.fracDigits)
    && (|| (l.marker == "" && l.exponentText == "" && l.exponent == 0)
        || (l.marker == "E" && ParseExponent(l.exponentText) == Some(l.exponent)))
    && (l.exponent == 0 || IsInt32(|l.fracDigits| - l.exponent))
  }

  /** The unscaled value and scale a well-formed layout spells. */
  function Meaning(l: Layout): Dec
    requires WellFormed(l)
  {
    AllDigitsAppend(l.intDigits, l.fracDigits);
    var m := DigitsValue(l.intDigits + l.fracDigits);
    Dec(if l.sign == "-" then -(m as int) else m, |l.fracDigits| - l.exponent)
  }

  /** Every well-formed layout reads back as what it spells. */
  lemma ParseRender(l: Layout)
    requires WellFormed(l)
    ensures Parse(Render(l)) == Some(Meaning(l))
  {
    ParseBody(l);
    BodyStart(l);
    var d := Dec(DigitsValue(l.intDigits + l.fracDigits), |l.fracDigits| - l.exponent);
    ParseSigned(l.sign, Body(l), d);
    assert Parse(Render(l)) == Some(if l.sign == "-" then Dec(-d.unscaled, d.scale) else d);
    assert Meaning(l) == (if l.sign == "-" then Dec(-d.unscaled, d.scale) else d);
  }

  lemma BodyStart(l: Layout)
    requires |l.intDigits| > 0 && AllDigits(l.intDigits)
    ensures |Body(l)| > 0 && IsDigit(Body(l)[0])
  {
    assert Body(l)[0] == l.intDigits[0];
  }

  /** A sign in front of an unsigned number that starts with a digit. */
  lemma ParseSigned(sign: string, body: string, d: Dec)
    requires sign == "-" || sign == ""
    requires body != [] && IsDigit(body[0]) && ParseUnsigned(body) == Some(d)
    ensures Parse(sign + body) == Some(if sign == "-" then Dec(-d.unscaled, d.scale) else d)
  {
    if sign == "-" {
      ParseNegative(body, d);
    } else {
      AppendEmptyFront(body);
      ParseNoSign(body, d);
    }
  }

  lemma ParseNegative(body: string, d: Dec)
    requires ParseUnsigned(body) == Some(d)
    ensures Parse("-" + body) == Some(Dec(-d.unscaled, d.scale))
  {
    assert ("-" + body)[1..] == body;
  }

  lemma ParseNoSign(body: string, d: Dec)
    requires body != [] && IsDigit(body[0]) && ParseUnsigned(body) == Some(d)
    ensures Parse(body) == Some(d)
  {
  }

  /** The body of a well-formed layout reads back as its digits at scale (fraction - exponent). */
  lemma ParseBody(l: Layout)
    requires WellFormed(l)
    ensures AllDigits(l.intDigits + l.fracDigits)
    ensures ParseUnsigned(Body(l))
         == Some(Dec(DigitsValue(l.intDigits + l.fracDigits), |l.fracDigits| - l.exponent))
  {
    AllDigitsAppend(l.intDigits, l.fracDigits);
    var mantissa := Mantissa(l);
    ParseMantissaOf(l);
    if l.marker == "" {
      ParseUnsignedNoExponent(mantissa, l.marker + l.exponentText);
    } else {
      ParseUnsignedExponent(mantissa, l.exponentText);
    }
  }

  /** The mantissa of a well-formed layout has no exponent marker and splits at its point. */
  lemma ParseMantissaOf(l: Layout)
    requires AllDigits(l.intDigits) && |l.intDigits| > 0 && AllDigits(l.fracDigits)
    requires l.point == "." || (l.point == "" && l.fracDigits == "")
    requires l.exponent == 0 || IsInt32(|l.fracDigits| - l.exponent)
    ensures NoExponentMarker(Mantissa(l)) && AllDigits(l.intDigits + l.fracDigits)
    ensures ParseMantissa(Mantissa(l), Some(l.exponent))
         == Some(Dec(DigitsValue(l.intDigits + l.fracDigits), |l.fracDigits| - l.exponent))
  {
    AllDigitsAppend(l.intDigits, l.fracDigits);
    if l.point == "." {
      MantissaDotted(l);
    } else {
      MantissaPlain(l);
    }
    ParsePartsValue(l.intDigits, l.fracDigits, l.exponent);
  }

  lemma MantissaDotted(l: Layout)
    requires AllDigits(l.intDigits) && AllDigits(l.fracDigits) && l.point == "."
    ensures NoExponentMarker(Mantissa(l))
    ensures ParseMantissa(Mantissa(l), Some(l.exponent)) == ParseParts(l.intDigits, l.fracDigits, Some(l.exponent))
  {
    assert Mantissa(l) == l.intDigits + "." + l.fracDigits;
    NoMarkerDotted(l.intDigits, l.fracDigits);
    ParseMantissaDot(l.intDigits, l.fracDigits, Some(l.exponent));
  }

  lemma MantissaPlain(l: Layout)
    requires AllDigits(l.intDigits) && l.point == "" && l.fracDigits == ""
    ensures NoExponentMarker(Mantissa(l))
    ensures ParseMantissa(Mantissa(l), Some(l.exponent)) == ParseParts(l.intDigits, l.fracDigits, Some(l.exponent))
  {
    assert Mantissa(l) == l.intDigits by {
      AppendEmpty(l.intDigits);
      AppendEmpty(l.intDigits + "");
    }
    NoMarkerDigits(l.intDigits);
    ParseMantissaPlain(l.intDigits, Some(l.exponent));
  }

  /** The layout of any value Java can print and read back is well formed. */
  lemma LayoutWellFormed(u: int, scale: int)
    requires IsInt32(scale) && IsInt32(Adjusted(u, scale))
    ensures WellFormed(LayoutOf(u, scale))
  {
    if scale == 0 {
    } else if scale > 0 && Adjusted(u, scale) >= -6 {
      PlainLayoutWellFormed(u, scale);
    } else {
      ScientificLayoutWellFormed(u, scale);
    }
  }

  lemma PlainLayoutWellFormed(u: int, scale: int)
    requires IsInt32(scale) && scale > 0 && Adjusted(u, scale) >= -6
    ensures WellFormed(LayoutOf(u, scale))
  {
    PadValue(Digits(Abs(u)), scale);
  }

  lemma ScientificLayoutWellFormed(u: int, scale: int)
    requires IsInt32(scale) && IsInt32(Adjusted(u, scale)) && scale != 0 && (scale < 0 || Adjusted(u, scale) < -6)
    ensures WellFormed(LayoutOf(u, scale))
  {
    ParseExponentText(Adjusted(u, scale));
  }

  /** The layout spells exactly the unscaled value and scale it was made from. */
  lemma LayoutMeaning(u: int, scale: int)
    requires IsInt32(scale) && IsInt32(Adjusted(u, scale))
    ensures WellFormed(LayoutOf(u, scale)) && Meaning(LayoutOf(u, scale)) == Dec(u, scale)
  {
    LayoutWellFormed(u, scale);
    DigitsRoundTrip(Abs(u));
    if scale == 0 {
      WholeLayoutDigits(u);
    } else if Adjusted(u, scale) >= -6 && scale > 0 {
      PlainLayoutDigits(u, scale);
    } else {
      ScientificLayoutDigits(u, scale);
    }
  }

  lemma WholeLayoutDigits(u: int)
    ensures var l := LayoutOf(u, 0);
            && l.intDigits + l.fracDigits == Digits(Abs(u))
            && |l.fracDigits| - l.exponent == 0 && (l.sign == "-" <==> u < 0)
  {
    AppendEmpty(Digits(Abs(u)));
  }

  lemma PlainLayoutDigits(u: int, scale: int)
    requires scale > 0 && Adjusted(u, scale) >= -6
    ensures var l := LayoutOf(u, scale);
            && AllDigits(l.intDigits + l.fracDigits)
            && DigitsValue(l.intDigits + l.fracDigits) == DigitsValue(Digits(Abs(u)))
            && |l.fracDigits| - l.exponent == scale && (l.sign == "-" <==> u < 0)
  {
    var padded := Pad(Digits(Abs(u)), scale);
    PadValue(Digits(Abs(u)), scale);
    SplitJoin(padded, |padded| - scale);
  }

  lemma ScientificLayoutDigits(u: int, scale: int)
    requires scale != 0 && (scale < 0 || Adjusted(u, scale) < -6)
    ensures var l := LayoutOf(u, scale);
            && l.intDigits + l.fracDigits == Digits(Abs(u))
            && |l.fracDigits| - l.exponent == scale && (l.sign == "-" <==> u < 0)
  {
    SplitJoin(Digits(Abs(u)), 1);
  }

  /** Below 1, plain notation reads "0.", then `scale - digits` zeros, then the digits. */
  lemma LayoutBelowOne(u: int, scale: int)
    requires scale > 0 && Adjusted(u, scale) >= -6 && |Digits(Abs(u))| <= scale
    ensures LayoutOf(u, scale).intDigits == "0" && LayoutOf(u, scale).point == "."
    ensures LayoutOf(u, scale).fracDigits == Zeros(scale - |Digits(Abs(u))|) + Digits(Abs(u))
  {
    var coeff := Digits(Abs(u));
    var z := Zeros(scale - |coeff|);
    assert Zeros(scale - |coeff| + 1) == z + "0";
    var padded := Pad(coeff, scale);
    assert padded == "0" + (z + coeff);
    assert padded[..1] == "0";
    assert padded[1..] == z + coeff;
  }

  /** Zeros in front of digits do not change their value. */
  lemma ZerosThenDigits(k: nat, coeff: string)
    requires AllDigits(coeff)
    ensures AllDigits(Zeros(k) + coeff) && DigitsValue(Zeros(k) + coeff) == DigitsValue(coeff)
  {
    ZerosValue(k);
    DigitsValueAppend(Zeros(k), coeff);
  }

  lemma SplitJoin(s: string, k: nat)
    requires k <= |s|
    ensures s[..k] + s[k..] == s
  {
  }

  /** The exponent toString prints after 'E' reads back as itself. */
  lemma ParseExponentText(x: int)
    requires IsInt32(x)
    ensures ParseExponent(ExponentText(x)) == Some(x)
  {
    var d := Digits(Abs(x));
    DigitsRoundTrip(Abs(x));
    if x > 0 {
      assert ExponentText(x) == "+" + d;
      ParsePlusDigits(d);
    } else if x < 0 {
      assert ExponentText(x) == "-" + d;
      ParseMinusDigits(d);
    } else {
      assert ExponentText(x) == "" + d;
      assert d == "0";
    }
  }

  lemma ParsePlusDigits(d: string)
    requires AllDigits(d) && d != [] && DigitsValue(d) < TWO_31
    ensures ParseExponent("+" + d) == Some(DigitsValue(d))
  {
    assert ("+" + d)[1..] == d;
  }

  lemma ParseMinusDigits(d: string)
    requires AllDigits(d) && d != [] && DigitsValue(d) <= TWO_31
    ensures ParseExponent("-" + d) == Some(-(DigitsValue(d) as int))
  {
    assert ("-" + d)[1..] == d;
  }

  // Stage 1: where the exponent starts.

  predicate NoExponentMarker(s: string) {
    forall j :: 0 <= j < |s| ==> s[j] != 'e' && s[j] != 'E'
  }

  lemma NoMarkerDigits(s: string)
    requires AllDigits(s)
    ensures NoExponentMarker(s)
  {
    forall j | 0 <= j < |s|
      ensures s[j] != 'e' && s[j] != 'E'
    {
      assert IsDigit(s[j]);
    }
  }

  lemma NoMarkerDotted(ip: string, fp: string)
    requires AllDigits(ip) && AllDigits(fp)
    ensures NoExponentMarker(ip + "." + fp)
  {
    var s := ip + "." + fp;
    forall j | 0 <= j < |s|
      ensures s[j] != 'e' && s[j] != 'E'
    {
      assert s[j] == '.' || IsDigit(s[j]);
    }
  }

  /** The first exponent marker of `m + tail` opens `tail` when `m` has none. */
  lemma {:induction false} ExponentIndexAt(m: string, tail: string, from: nat)
    requires from <= |m| && NoExponentMarker(m)
    requires tail == [] || tail[0] == 'E'
    ensures ExponentIndex(m + tail, from) == |m|
    decreases |m| - from
  {
    var text := m + tail;
    if from < |m| {
      assert text[from] == m[from];
      ExponentIndexAt(m, tail, from + 1);
    } else if tail != [] {
      assert text[from] == tail[0];
    }
  }

  lemma ParseUnsignedWhole(mantissa: string)
    requires NoExponentMarker(mantissa)
    ensures ParseUnsigned(mantissa) == ParseMantissa(mantissa, Some(0))
  {
    ExponentIndexAt(mantissa, "", 0);
    assert mantissa + "" == mantissa;
  }

  lemma ParseUnsignedNoExponent(mantissa: string, tail: string)
    requires NoExponentMarker(mantissa) && tail == ""
    ensures ParseUnsigned(mantissa + tail) == ParseMantissa(mantissa, Some(0))
  {
    AppendEmpty(mantissa);
    ParseUnsignedWhole(mantissa);
  }

  lemma ParseUnsignedExponent(mantissa: string, t: string)
    requires NoExponentMarker(mantissa)
    ensures ParseUnsigned(mantissa + ("E" + t)) == ParseMantissa(mantissa, ParseExponent(t))
  {
    var text := mantissa + ("E" + t);
    ExponentIndexAt(mantissa, "E" + t, 0);
    assert text[..|mantissa|] == mantissa;
    assert text[|mantissa| + 1..] == t;
  }

  // Stage 2: where the fraction starts.

  /** The first point of `ip + rest` opens `rest` when `ip` is all digits. */
  lemma {:induction false} IndexOfAt(ip: string, rest: string, from: nat)
    requires from <= |ip| && AllDigits(ip)
    requires rest == [] || rest[0] == '.'
    ensures IndexOf(ip + rest, '.', from) == |ip|
    decreases |ip| - from
  {
    var text := ip + rest;
    if from < |ip| {
      assert text[from] == ip[from];
      IndexOfAt(ip, rest, from + 1);
    } else if rest != [] {
      assert text[from] == rest[0];
    }
  }

  /** A mantissa with a point splits into the digits before and after it. */
  lemma ParseMantissaDot(ip: string, fp: string, exponent: Option<int>)
    requires AllDigits(ip)
    ensures ParseMantissa(ip + "." + fp, exponent) == ParseParts(ip, fp, exponent)
  {
    var mantissa := ip + "." + fp;
    assert mantissa == ip + ("." + fp);
    IndexOfAt(ip, "." + fp, 0);
    assert mantissa[..|ip|] == ip;
    assert mantissa[|ip| + 1..] == fp;
  }

  /** A mantissa of digits alone is all integer part. */
  lemma ParseMantissaPlain(ip: string, exponent: Option<int>)
    requires AllDigits(ip)
    ensures ParseMantissa(ip, exponent) == ParseParts(ip, "", exponent)
  {
    IndexOfAt(ip, "", 0);
    assert ip + "" == ip;
    assert ip[..|ip|] == ip;
  }

  // Stage 3: the digits and the scale.

  lemma ParsePartsValue(ip: string, fp: string, exponent: int)
    requires AllDigits(ip) && AllDigits(fp) && |ip| > 0
    requires exponent == 0 || IsInt32(|fp| - exponent)
    ensures ParseParts(ip, fp, Some(exponent)) == Some(Dec(DigitsValue(ip + fp), |fp| - exponent))
  {
  }

  lemma AppendEmpty(s: string)
    ensures s + "" == s
  {
  }

  lemma AppendEmptyFront(s: string)
    ensures "" + s == s
  {
  }
}
