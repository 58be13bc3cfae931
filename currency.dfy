/**
 * A currency of the economy: an immutable record of its id, display data, amount bounds and
 * flags, how it prints an amount, and the builder that assembles one field by field.
 */
module Currencies {
  import opened Wrappers
  import opened JavaInt
  import opened Decimal

  /**
   * All fields are final in the source, so a currency is a value. Amounts are exact decimals,
   * kept as their numeric value.
   */
  datatype Currency = Currency(
    id: string,
    name: string,
    symbol: string,
    format: string,
    decimalPlaces: int,
    isDefault: bool,
    initialBalance: real,
    minBalance: real,
    maxBalance: real,
    interestRate: real,
    allowNegative: bool,
    isEnabled: bool)

  // ---------------------------------------------------------------------------------------------
  // Printing an amount

  /**
   * `String.format(template, args...)` for templates made of literal characters, `%s` (the next
   * argument's text) and `%%` (a percent sign). None stands for every other template: a missing
   * argument or another conversion, which this model does not interpret.
   */
  function FormatTemplate(template: string, args: seq<string>): Option<string> {
    if template == [] then Some("")
    else if template[0] != '%' then
      match FormatTemplate(template[1..], args)
      case Some(rest) => Some([template[0]] + rest)
      case None => None
    else if |template| >= 2 && template[1] == '%' then
      match FormatTemplate(template[2..], args)
      case Some(rest) => Some("%" + rest)
      case None => None
    else if |template| >= 2 && template[1] == 's' && args != [] then
      match FormatTemplate(template[2..], args[1..])
      case Some(rest) => Some(args[0] + rest)
      case None => None
    else None
  }

  /**
   * `Currency.format(amount)`: a missing amount counts as zero; the amount is rescaled to
   * `decimalPlaces` with HALF_UP rounding and the template is applied to the symbol and the
   * rescaled amount's text.
   */
  function Format(c: Currency, amount: Option<real>): Option<string> {
    var rounded := SetScale(amount.GetOr(0.0), c.decimalPlaces);
    FormatTemplate(c.format, [c.symbol, ToText(rounded, c.decimalPlaces)])
  }

  /** A template without a percent sign prints as itself, whatever the arguments. */
  lemma {:induction false} FormatTemplateLiteral(template: string, args: seq<string>)
    requires forall i :: 0 <= i < |template| ==> template[i] != '%'
    ensures FormatTemplate(template, args) == Some(template)
  {
    if template != [] {
      FormatTemplateLiteral(template[1..], args);
      assert [template[0]] + template[1..] == template;
    }
  }

  /** The default template "%s%s" prints the symbol and then the amount. */
  lemma FormatTemplateDefault(a: string, b: string)
    ensures FormatTemplate("%s%s", [a, b]) == Some(a + b)
  {
    assert FormatTemplate("", []) == Some("");
    assert "%s"[2..] == "" && [b][1..] == [];
    assert FormatTemplate("%s", [b]) == Some(b + "");
    assert b + "" == b;
    assert "%s%s"[2..] == "%s" && [a, b][1..] == [b];
  }

  /**
   * With the default template, `format` prints the symbol followed by a number that reads back
   * as exactly `decimalPlaces` decimals and is the HALF_UP rounding of the amount to them.
   */
  lemma FormatRoundsHalfUp(c: Currency, x: real)
    requires c.format == "%s%s" && IsInt32(c.decimalPlaces)
    requires IsInt32(Adjusted(SetScale(x, c.decimalPlaces), c.decimalPlaces))
    ensures exists text: string ::
      && Format(c, Some(x)) == Some(c.symbol + text)
      && Parse(text) == Some(Dec(SetScale(x, c.decimalPlaces), c.decimalPlaces))
      && IsHalfUpRounding(MovePointRight(x, c.decimalPlaces), SetScale(x, c.decimalPlaces))
  {
    var u := SetScale(x, c.decimalPlaces);
    var text := ToText(u, c.decimalPlaces);
    FormatTemplateDefault(c.symbol, text);
    ParseToText(u, c.decimalPlaces);
    RoundHalfUpIsHalfUp(MovePointRight(x, c.decimalPlaces), u);
  }

  /** `format(null)` prints what `format(0)` prints. */
  lemma FormatNullIsZero(c: Currency)
    ensures Format(c, None) == Format(c, Some(0.0))
  {
  }

  // ---------------------------------------------------------------------------------------------
  // Identity

  /**
   * `Currency.equals`: another currency is equal exactly when it has the same id; null is
   * never equal.
   */
  predicate Equals(c: Currency, other: Option<Currency>) {
    other.Some? && other.value.id == c.id
  }

  /** `Currency.hashCode`: `Objects.hash(id)`. */
  function HashCode(c: Currency): (h: int)
    ensures IsInt32(h)
  {
    Hash1(StringHash(c.id))
  }

  /**
   * Equality by id is an equivalence that ignores every other field, and equal currencies
   * have equal hash codes.
   */
  lemma EqualsById(a: Currency, b: Currency, c: Currency)
    ensures Equals(a, Some(a))
    ensures Equals(a, Some(b)) <==> Equals(b, Some(a))
    ensures Equals(a, Some(b)) && Equals(b, Some(c)) ==> Equals(a, Some(c))
    ensures Equals(a, Some(b)) ==> HashCode(a) == HashCode(b)
    ensures Equals(a, Some(a.(name := b.name, symbol := b.symbol, format := b.format,
                              decimalPlaces := b.decimalPlaces, isDefault := b.isDefault,
                              initialBalance := b.initialBalance, minBalance := b.minBalance,
                              maxBalance := b.maxBalance, interestRate := b.interestRate,
                              allowNegative := b.allowNegative, isEnabled := b.isEnabled)))
  {
  }

  // ---------------------------------------------------------------------------------------------
  // Builder

  /** `BigDecimal.valueOf(Double.MAX_VALUE)`, which reads "1.7976931348623157E308". */
  function MaxDouble(): (r: real)
    ensures r > 0.0
  {
    Value(17976931348623157, -292)
  }

  /**
   * `Currency.CurrencyBuilder`: every field starts at its default and each setter replaces one
   * field; `build` makes the currency. The default id is the text of a random UUID, which the
   * model takes as the constructor's argument.
   */
  class CurrencyBuilder {
    var id: string
    var name: string
    var symbol: string
    var format: string
    var decimalPlaces: int
    var isDefault: bool
    var initialBalance: real
    var minBalance: real
    var maxBalance: real
    var interestRate: real
    var allowNegative: bool
    var isEnabled: bool

    /** The currency the builder would build now. */
    function Current(): Currency
      reads this
    {
      Currency(id, name, symbol, format, decimalPlaces, isDefault, initialBalance, minBalance,
               maxBalance, interestRate, allowNegative, isEnabled)
    }

    constructor (randomId: string)
      ensures Current() == Currency(randomId, "Coins", "$", "%s%s", 2, false, 100.0, 0.0,
                                    MaxDouble(), 0.0, false, true)
    {
      id := randomId;
      name := "Coins";
      symbol := "$";
      format := "%s%s";
      decimalPlaces := 2;
      isDefault := false;
      initialBalance := 100.0;
      minBalance := 0.0;
      maxBalance := MaxDouble();
      interestRate := 0.0;
      allowNegative := false;
      isEnabled := true;
    }

    method Id(x: string) returns (self: CurrencyBuilder)
      modifies this
      ensures self == this && Current() == old(Current()).(id := x)
    {
      id := x;
      self := this;
    }

    method Name(x: string) returns (self: CurrencyBuilder)
      modifies this
      ensures self == this && Current() == old(Current()).(name := x)
    {
      name := x;
      self := this;
    }

    method Symbol(x: string) returns (self: CurrencyBuilder)
      modifies this
      ensures self == this && Current() == old(Current()).(symbol := x)
    {
      symbol := x;
      self := this;
    }

    method Format(x: string) returns (self: CurrencyBuilder)
      modifies this
      ensures self == this && Current() == old(Current()).(format := x)
    {
      format := x;
      self := this;
    }

    method DecimalPlaces(x: int) returns (self: CurrencyBuilder)
      modifies this
      ensures self == this && Current() == old(Current()).(decimalPlaces := x)
    {
      decimalPlaces := x;
      self := this;
    }

    method IsDefault(x: bool) returns (self: CurrencyBuilder)
      modifies this
      ensures self == this && Current() == old(Current()).(isDefault := x)
    {
      isDefault := x;
      self := this;
    }

    method InitialBalance(x: real) returns (self: CurrencyBuilder)
      modifies this
      ensures self == this && Current() == old(Current()).(initialBalance := x)
    {
      initialBalance := x;
      self := this;
    }

    method MinBalance(x: real) returns (self: CurrencyBuilder)
      modifies this
      ensures self == this && Current() == old(Current()).(minBalance := x)
    {
      minBalance := x;
      self := this;
    }

    method MaxBalance(x: real) returns (self: CurrencyBuilder)
      modifies this
      ensures self == this && Current() == old(Current()).(maxBalance := x)
    {
      maxBalance := x;
      self := this;
    }

    method InterestRate(x: real) returns (self: CurrencyBuilder)
      modifies this
      ensures self == this && Current() == old(Current()).(interestRate := x)
    {
      interestRate := x;
      self := this;
    }

    method AllowNegative(x: bool) returns (self: CurrencyBuilder)
      modifies this
      ensures self == this && Current() == old(Current()).(allowNegative := x)
    {
      allowNegative := x;
      self := this;
    }

    method IsEnabled(x: bool) returns (self: CurrencyBuilder)
      modifies this
      ensures self == this && Current() == old(Current()).(isEnabled := x)
    {
      isEnabled := x;
      self := this;
    }

    /** `build`: every builder field goes unchanged into the currency. */
    method Build() returns (c: Currency)
      ensures c.id == id && c.name == name && c.symbol == symbol && c.format == format
      ensures c.decimalPlaces == decimalPlaces && c.isDefault == isDefault
      ensures c.initialBalance == initialBalance && c.minBalance == minBalance
      ensures c.maxBalance == maxBalance && c.interestRate == interestRate
      ensures c.allowNegative == allowNegative && c.isEnabled == isEnabled
    {
      c := Currency(id, name, symbol, format, decimalPlaces, isDefault, initialBalance,
                    minBalance, maxBalance, interestRate, allowNegative, isEnabled);
    }
  }

  // ---------------------------------------------------------------------------------------------
  // What the tests expect

  /** A currency printing dollars with two decimals, as the formatting test builds it. */
  function TestCurrency(): Currency {
    Currency("test", "Test Currency", "$", "%s%s", 2, false, 100.0, 0.0, MaxDouble(), 0.0,
             false, true)
  }

  /** 10 prints "$10.00". */
  lemma FormatTen()
    ensures Format(TestCurrency(), Some(10.0)) == Some("$10.00")
  {
    FormatExample(10.0, 1000, "$10.00");
  }

  /** 10.5 prints "$10.50". */
  lemma FormatTenAndHalf()
    ensures Format(TestCurrency(), Some(10.5)) == Some("$10.50")
  {
    FormatExample(10.5, 1050, "$10.50");
  }

  /** 10.55 prints "$10.55": already at two decimals. */
  lemma FormatExactCents()
    ensures Format(TestCurrency(), Some(10.55)) == Some("$10.55")
  {
    FormatExample(10.55, 1055, "$10.55");
  }

  /** 10.555 prints "$10.56": the tie rounds up. */
  lemma FormatRoundsTieUp()
    ensures Format(TestCurrency(), Some(10.555)) == Some("$10.56")
  {
    FormatExample(10.555, 1056, "$10.56");
  }

  /**
   * An amount whose HALF_UP cents are the four digits of `u` prints as the symbol followed by
   * those digits with a point before the last two.
   */
  lemma FormatExample(x: real, u: int, text: string)
    requires 1000 <= u < 10000 && (u as real - 0.5) <= x * 100.0 < (u as real + 0.5)
    requires |text| == 6 && text[0] == '$' && text[3] == '.'
    requires text[1] == DigitChar(u / 1000) && text[2] == DigitChar(u / 100 % 10)
    requires text[4] == DigitChar(u / 10 % 10) && text[5] == DigitChar(u % 10)
    ensures Format(TestCurrency(), Some(x)) == Some(text)
  {
    FormatTestCurrency(x);
    CentsOf(x, u);
    FourDigitsText(u);
    DollarText(u, text);
  }

  /** The test currency prints "$" and then the amount rounded to two decimals. */
  lemma FormatTestCurrency(x: real)
    ensures Format(TestCurrency(), Some(x)) == Some("$" + ToText(SetScale(x, 2), 2))
  {
    FormatTemplateDefault("$", ToText(SetScale(x, 2), 2));
  }

  /** An amount within half a cent of `u` cents rounds to `u` cents. */
  lemma CentsOf(x: real, u: int)
    requires 0 < u && (u as real - 0.5) <= x * 100.0 < (u as real + 0.5)
    ensures SetScale(x, 2) == u
  {
    assert Pow10(2) == 100;
    var m := MovePointRight(x, 2);
    assert m == x * 100.0;
    assert m >= 0.0 && u as real <= m + 0.5 < u as real + 1.0;
    assert RoundHalfUp(m) == (m + 0.5).Floor;
  }

  /** "$" followed by the four digits of `u` with a point before the last two. */
  lemma DollarText(u: int, text: string)
    requires 1000 <= u < 10000
    requires |text| == 6 && text[0] == '$' && text[3] == '.'
    requires text[1] == DigitChar(u / 1000) && text[2] == DigitChar(u / 100 % 10)
    requires text[4] == DigitChar(u / 10 % 10) && text[5] == DigitChar(u % 10)
    ensures "$" + [DigitChar(u / 1000), DigitChar(u / 100 % 10), '.', DigitChar(u / 10 % 10),
                   DigitChar(u % 10)] == text
  {
  }

  /** The text of a four-digit unscaled value at scale 2. */
  lemma FourDigitsText(u: int)
    requires 1000 <= u < 10000
    ensures ToText(u, 2) == [DigitChar(u / 1000), DigitChar(u / 100 % 10), '.',
                             DigitChar(u / 10 % 10), DigitChar(u % 10)]
  {
    var d := Digits(u);
    assert d == [DigitChar(u / 1000), DigitChar(u / 100 % 10), DigitChar(u / 10 % 10),
                 DigitChar(u % 10)] by {
      assert u / 100 / 10 == u / 1000;
      assert u / 10 / 10 == u / 100;
      assert Digits(u / 1000) == [DigitChar(u / 1000)];
      assert Digits(u / 100) == [DigitChar(u / 1000), DigitChar(u / 100 % 10)];
      assert Digits(u / 10) == [DigitChar(u / 1000), DigitChar(u / 100 % 10), DigitChar(u / 10 % 10)];
    }
    assert Adjusted(u, 2) == 1;
    assert d[..2] + "." + d[2..] == ToText(u, 2);
  }
}
