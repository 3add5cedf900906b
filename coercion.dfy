/**
 * The scalar coercion layer: `to_decimal128` (money amounts, with a zero fallback) and the
 * optional-foreign-key rule for `user_id` and `voucher_id` (non-empty, numeric, then
 * `int(float(raw))`).
 */
module Coercion {
  import opened Wrappers
  import opened Numeric

  /**
   * A BSON Decimal128 value, (-1)^negative * coefficient * 10^exponent. As in Python's
   * `decimal`, the exponent is kept, so "1.0" and "1.00" are different values, and the sign
   * of zero is kept.
   */
  datatype Decimal = Decimal(negative: bool, coefficient: nat, exponent: int)

  /** `Decimal128("0.0")`, what every malformed amount becomes. */
  const ZeroFallback := Decimal(false, 0, -1)

  /**
   * `to_decimal128(value)`: the decimal written by the text, or `Decimal128("0.0")` when the
   * text is not a decimal literal.
   */
  function ToDecimal128(value: string): (d: Decimal)
    ensures ParseLiteral(value).None? ==> d == ZeroFallback
  {
    match ParseLiteral(value)
    case None => ZeroFallback
    case Some(l) => Decimal(l.sign == Minus, DigitsValue(l.whole + l.fraction), -|l.fraction|)
  }

  /**
   * The decimal of a literal: its sign is the literal's sign, its exponent counts the fraction
   * digits, and its coefficient is the whole part shifted by that many digits plus the fraction.
   */
  lemma ToDecimal128Value(value: string)
    requires ParseLiteral(value).Some?
    ensures var l, d := ParseLiteral(value).value, ToDecimal128(value);
      && d.negative == (l.sign == Minus)
      && d.exponent == -|l.fraction|
      && d.coefficient == Scaled(DigitsValue(l.whole), |l.fraction|) + DigitsValue(l.fraction)
  {
    var l := ParseLiteral(value).value;
    DigitsValueAppend(l.whole, l.fraction);
  }

  /**
   * The rule `int(float(raw)) if raw and not isna(to_numeric(raw, errors='coerce')) else None`:
   * absent when the value is missing, empty or not numeric; otherwise the number truncated
   * toward zero.
   */
  function OptionalId(raw: Option<string>): (r: Option<int>)
    ensures r.None? <==> raw.None? || raw.value == "" || ParseLiteral(raw.value).None?
  {
    match raw
    case None => None
    case Some(s) =>
      if s == "" then None
      else match ParseLiteral(s)
        case None => None
        case Some(l) => Some(TruncatedValue(l))
  }

  function Abs(n: int): nat {
    if n < 0 then -n else n
  }

  // ---------------------------------------------------------------------------------------
  // Lemmas

  /** The fallback is exactly the decimal the text "0.0" denotes. */
  lemma FallbackIsDecimalOfZeroText()
    ensures ToDecimal128("0.0") == ZeroFallback
  {
    var l := Literal(NoSign, "0", "0");
    RenderParses(l);
    assert Render(l) == "0.0";
    ToDecimal128Value("0.0");
  }

  /** A numeric text gives an id: its literal truncated toward zero. */
  lemma OptionalIdValue(s: string)
    requires ParseLiteral(s).Some?
    ensures OptionalId(Some(s)) == Some(TruncatedValue(ParseLiteral(s).value))
  {
  }

  lemma {:induction false} TruncationBelow(s: string)
    requires ParseLiteral(s).Some?
    ensures var n, d := OptionalId(Some(s)).value, ToDecimal128(s);
      d.exponent <= 0 && Scaled(Abs(n), -d.exponent) <= d.coefficient
  {
    var l := ParseLiteral(s).value;
    OptionalIdValue(s);
    ToDecimal128Value(s);
    assert Abs(TruncatedValue(l)) == DigitsValue(l.whole);
  }

  lemma {:induction false} TruncationAbove(s: string)
    requires ParseLiteral(s).Some?
    ensures var n, d := OptionalId(Some(s)).value, ToDecimal128(s);
      d.exponent <= 0 && d.coefficient < Scaled(Abs(n) + 1, -d.exponent)
  {
    var l := ParseLiteral(s).value;
    OptionalIdValue(s);
    ToDecimal128Value(s);
    assert Abs(TruncatedValue(l)) == DigitsValue(l.whole);
    ScaledSucc(DigitsValue(l.whole), |l.fraction|);
  }

  /**
   * An id is present exactly when the same text gives a real decimal (not the fallback
   * substitute), and then it is that decimal truncated toward zero: its magnitude is the whole
   * number of units in the decimal and its sign is the decimal's sign.
   */
  lemma {:induction false} OptionalIdTruncatesDecimal(s: string)
    ensures OptionalId(Some(s)).Some? <==> ParseLiteral(s).Some?
    ensures OptionalId(Some(s)).Some? ==>
      var n, d := OptionalId(Some(s)).value, ToDecimal128(s);
      && d.exponent <= 0
      && Scaled(Abs(n), -d.exponent) <= d.coefficient < Scaled(Abs(n) + 1, -d.exponent)
      && (n != 0 ==> (n < 0 <==> d.negative))
  {
    if ParseLiteral(s).Some? {
      TruncationBelow(s);
      TruncationAbove(s);
    }
  }

  /**
   * A text that Python's strict `int()` accepts gives the same number under the optional-id
   * rule, and its decimal has exponent 0 and that number's magnitude as coefficient.
   */
  lemma {:induction false} StrictIntAgrees(s: string)
    requires ParseInt(s).Some?
    ensures OptionalId(Some(s)) == ParseInt(s)
    ensures ToDecimal128(s).exponent == 0
    ensures ToDecimal128(s).coefficient == Abs(ParseInt(s).value)
  {
    var l := ParseLiteral(s).value;
    assert l.whole != [];
    ToDecimal128Value(s);
  }

  /** "104.0" is an id (the tolerance for float-looking id columns). */
  lemma OptionalIdOfFloatText()
    ensures OptionalId(Some("104.0")) == Some(104)
  {
    assert DigitsValue("104") == 104 by {
      assert "10"[..1] == "1" && "104"[..2] == "10";
    }
    IdOfLiteral(Literal(NoSign, "104", "0"), "104.0");
  }

  /** A negative id truncates toward zero, as `int(float("-3.7"))` does. */
  lemma OptionalIdOfNegativeText()
    ensures OptionalId(Some("-3.7")) == Some(-3)
  {
    assert DigitsValue("3") == 3 by { assert "3"[..0] == ""; }
    IdOfLiteral(Literal(Minus, "3", "7"), "-3.7");
  }

  /** Empty, absent and non-numeric ids are absent. */
  lemma OptionalIdOfNonNumericText()
    ensures OptionalId(Some("")) == None
    ensures OptionalId(Some("abc")) == None
    ensures OptionalId(None) == None
  {
    assert ParseLiteral("abc") == None by {
      assert Unsigned("abc") == "abc" && !IsDigit("abc"[0]);
    }
  }

  /** An amount as it appears in the data keeps its digits and its scale. */
  lemma ToDecimal128OfAmount()
    ensures ToDecimal128("10.00") == Decimal(false, 1000, -2)
  {
    assert DigitsValue("10") == 10 && DigitsValue("00") == 0 by {
      assert "10"[..1] == "1" && "00"[..1] == "0";
    }
    DecimalOfLiteral(Literal(NoSign, "10", "00"), "10.00");
  }

  /** The id of the text a literal renders to. */
  lemma IdOfLiteral(l: Literal, s: string)
    requires WellFormed(l) && Render(l) == s
    ensures OptionalId(Some(s)) == Some(TruncatedValue(l))
  {
    RenderParses(l);
    OptionalIdValue(s);
  }

  /** The decimal of the text a literal renders to. */
  lemma DecimalOfLiteral(l: Literal, s: string)
    requires WellFormed(l) && Render(l) == s
    ensures ToDecimal128(s) == Decimal(l.sign == Minus, Scaled(DigitsValue(l.whole), |l.fraction|) + DigitsValue(l.fraction), -|l.fraction|)
  {
    RenderParses(l);
    ToDecimal128Value(s);
  }

  /** Malformed amounts become the fallback. */
  lemma ToDecimal128OfMalformedText()
    ensures ToDecimal128("") == ZeroFallback
    ensures ToDecimal128("n/a") == ZeroFallback
  {
    assert ParseLiteral("n/a") == None by {
      assert Unsigned("n/a") == "n/a" && !IsDigit("n/a"[0]);
    }
  }

  /** Single-digit texts: the ids "5" and "2", and the amount "0" with exponent 0. */
  lemma SmallScalars()
    ensures ParseInt("5") == Some(5) && ParseInt("2") == Some(2)
    ensures ToDecimal128("0") == Decimal(false, 0, 0)
  {
    SingleDigitIds();
    ZeroAmount();
  }

  lemma SingleDigitIds()
    ensures ParseInt("5") == Some(5) && ParseInt("2") == Some(2)
  {
    SingleDigit('5');
    SingleDigit('2');
  }

  lemma ZeroAmount()
    ensures ToDecimal128("0") == Decimal(false, 0, 0)
  {
    SingleDigit('0');
    ToDecimal128Value("0");
  }

  /** A one-digit text is the literal of that digit alone. */
  lemma SingleDigit(c: char)
    requires IsDigit(c)
    ensures ParseLiteral([c]) == Some(Literal(NoSign, [c], ""))
    ensures ParseInt([c]) == Some(DigitValue(c))
  {
    var l := Literal(NoSign, [c], "");
    assert Render(l) == [c];
    RenderParses(l);
    assert [c][..0] == "";
  }
}
