/** The static helpers around amounts: sign checks, reading an amount, and printing one. */
module EconomyUtil {
  import opened Wrappers
  import opened JavaInt
  import opened Decimal
  import opened Currencies

  /** `isPositiveAmount`: false for null, otherwise whether the amount is above zero. */
  predicate IsPositiveAmount(amount: Option<real>) {
    amount.Some? && amount.value > 0.0
  }

  /** `isNonNegativeAmount`: false for null, otherwise whether the amount is at least zero. */
  predicate IsNonNegativeAmount(amount: Option<real>) {
    amount.Some? && amount.value >= 0.0
  }

  lemma PositiveIsNonNegative(amount: Option<real>)
    ensures IsPositiveAmount(amount) ==> IsNonNegativeAmount(amount)
    ensures IsNonNegativeAmount(amount) <==> IsPositiveAmount(amount) || amount == Some(0.0)
  {
  }

  /** `parseAmount`: the decimal the text spells, or None where `new BigDecimal` rejects it. */
  function ParseAmount(text: string): Option<Dec> {
    Parse(text)
  }

  /** `isValidAmount`: whether `parseAmount` gives a value. */
  predicate IsValidAmount(text: string) {
    ParseAmount(text) != None
  }

  /**
   * Every text `BigDecimal.toString` prints is a valid amount and reads back as the same
   * unscaled value and scale.
   */
  lemma PrintedAmountIsValid(unscaled: int, scale: int)
    requires IsInt32(scale) && IsInt32(Adjusted(unscaled, scale))
    ensures IsValidAmount(ToText(unscaled, scale))
    ensures ParseAmount(ToText(unscaled, scale)) == Some(Dec(unscaled, scale))
  {
    ParseToText(unscaled, scale);
  }

  /** The empty text, a lone sign and a lone point are not amounts. */
  lemma MalformedAmounts()
    ensures !IsValidAmount("") && !IsValidAmount("-") && !IsValidAmount("+")
    ensures !IsValidAmount(".")
  {
    assert ExponentIndex("", 0) == 0;
    assert "-"[1..] == "" && "+"[1..] == "";
    assert ExponentIndex(".", 0) == 1;
    assert IndexOf(".", '.', 0) == 0;
  }

  /**
   * The rounding step of `formatDecimal`: null counts as zero, and the amount is rescaled to
   * `decimalPlaces` with HALF_UP. The result keeps exactly that many decimals and is the HALF_UP
   * rounding of the amount.
   */
  function RoundForDisplay(amount: Option<real>, decimalPlaces: int): (d: Dec)
    ensures d.scale == decimalPlaces
    ensures IsHalfUpRounding(MovePointRight(amount.GetOr(0.0), decimalPlaces), d.unscaled)
  {
    var x := MovePointRight(amount.GetOr(0.0), decimalPlaces);
    RoundHalfUpIsHalfUp(x, 0);
    Dec(SetScale(amount.GetOr(0.0), decimalPlaces), decimalPlaces)
  }

  /**
   * What `formatCurrency` produces: the currency's own `format` text, or, without a currency,
   * a two-decimal rounding that `NumberFormat` then prints with grouping separators.
   */
  datatype CurrencyText =
    | Formatted(text: Option<string>)
    | NumberFormatted(rounded: Dec)

  /** `formatCurrency`: without a currency, two decimals; otherwise `currency.format(amount)`. */
  function FormatCurrency(amount: Option<real>, currency: Option<Currency>): CurrencyText {
    match currency
    case None => NumberFormatted(RoundForDisplay(amount, 2))
    case Some(c) => Formatted(Format(c, amount))
  }

  /**
   * The fallback rounds a missing amount to 0.00; with a currency the result is that currency's
   * `format`, including for a missing amount.
   */
  lemma FormatCurrencyCases(amount: Option<real>, c: Currency)
    ensures FormatCurrency(None, None) == NumberFormatted(Dec(0, 2))
    ensures FormatCurrency(amount, Some(c)) == Formatted(Format(c, amount))
    ensures FormatCurrency(amount, None).rounded.scale == 2
  {
    assert SetScale(0.0, 2) == 0;
  }
}
