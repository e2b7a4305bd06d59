/** Amounts of loyalty points in exact hundredths: the parser of withdrawal sums and
    the two printers. */
module Amounts {
  import opened Wrappers
  import opened Digits
  import opened Decimals
  import opened JsonNumber

  const MAX_SUM_INTEGER_DIGITS := 18

  /** No text reaches this length; below it every intermediate exponent fits 64 bits. */
  const TEXT_LIMIT := 100_000_000_000_000_000

  newtype int64 = x: int | -0x8000_0000_0000_0000 <= x < 0x8000_0000_0000_0000

  /** A nonnegative number of hundredths (the zero value has no big integer and counts as zero). */
  datatype Amount = Amount(hundredths: nat)

  datatype SumError = InvalidSum

  /** What a withdrawal sum must look like: an unsigned JSON number v with v > 0,
      v < 10^18 and 100 * v a whole number, which is then `h`. */
  ghost predicate SumText(text: string, h: int) {
    exists lit: Literal :: lit.WellFormed() && lit.Text() == text
                        && 0.0 < lit.Number() < TenTo(18) && h as real == 100.0 * lit.Number()
  }

  // ---------------------------------------------------------------- parsing

  method IsDigits(text: string) returns (ok: bool)
    ensures ok <==> text != "" && AllDigits(text)
  {
    if text == "" {
      return false;
    }
    var i := 0;
    while i < |text|
      invariant 0 <= i <= |text|
      invariant forall k | 0 <= k < i :: IsDigit(text[k])
    {
      if text[i] < '0' || text[i] > '9' {
        return false;
      }
      i := i + 1;
    }
    return true;
  }

  /** The value of at most 18 digits, which always fits 64 bits. */
  function ParseInt(text: string): (value: int64)
    requires AllDigits(text) && |text| <= MAX_SUM_INTEGER_DIGITS
    ensures value as int == Value(text) < Pow10(18) && value < 1_000_000_000_000_000_000
  {
    ValueBelow(text);
    Pow10Monotone(|text|, 18);
    Pow10Of18And20();
    Value(text) as int64
  }

  /** Reads a signed exponent; refuses malformed ones and those of magnitude 10^18 and more. */
  method ParseExponent(tail: string) returns (value: int64, ok: bool)
    ensures var digits := tail[|SignOf(tail)|..];
      && (ok <==> digits != "" && AllDigits(digits) && Value(digits) < Pow10(18))
      && (ok ==> value as int == Signed(SignOf(tail), digits))
  {
    var negative := false;
    var text := tail;
    if text != "" && text[0] == '+' {
      text := text[1..];
    } else if text != "" && text[0] == '-' {
      negative := true;
      text := text[1..];
    }
    assert text == tail[|SignOf(tail)|..] && (negative <==> SignOf(tail) == "-");
    var digits := IsDigits(text);
    if !digits {
      return 0, false;
    }
    var trimmed := TrimLeftZeros(text);
    TrimmedValue(text);
    if trimmed == "" {
      Pow10Monotone(0, 18);
      return 0, true;
    }
    if |trimmed| > MAX_SUM_INTEGER_DIGITS {
      LongIsHuge(trimmed);
      return 0, false;
    }
    var magnitude := ParseInt(trimmed);
    return if negative then -magnitude else magnitude, true;
  }

  lemma LongIsHuge(trimmed: string)
    requires AllDigits(trimmed) && |trimmed| > MAX_SUM_INTEGER_DIGITS && trimmed[0] != '0'
    ensures Value(trimmed) >= Pow10(18)
  {
    ValueAtLeast(trimmed);
    Pow10Monotone(18, |trimmed| - 1);
  }

  lemma TrimmedValue(text: string)
    requires AllDigits(text)
    ensures AllDigits(TrimLeftZeros(text)) && Value(TrimLeftZeros(text)) == Value(text)
  {
    var t := TrimLeftZeros(text);
    DigitsConcat(Zeros(|text| - |t|), t);
    ValueLeadingZeros(|text| - |t|, t);
  }

  /** The second half of parsing: the digits before and after the point, and the exponent, make up a sum or not. */
  method FromParts(integerPart: string, fractionPart: string, given: int64, ghost lit: Literal)
    returns (r: Result<Amount, SumError>)
    requires lit.WellFormed() && lit.whole == integerPart && lit.FractionDigits() == fractionPart
    requires lit.Power() == given as int - |fractionPart| && |integerPart| + |fractionPart| < TEXT_LIMIT
    requires -10 * TEXT_LIMIT < given as int < 10 * TEXT_LIMIT
    ensures r.Success? ==> SumOf(lit, r.value.hundredths)
    ensures r.Failure? ==> forall h :: !SumOf(lit, h)
  {
    var exponent := given - |fractionPart| as int64;
    var digits := TrimLeftZeros(integerPart + fractionPart);
    if digits == "" {
      ZeroIsNoSum(lit);
      return Failure(InvalidSum);
    }
    var significant := TrimRightZeros(digits);
    assert 0 <= |digits| - |significant| <= |digits| < TEXT_LIMIT;
    exponent := exponent + (|digits| - |significant|) as int64;
    if exponent < -2 || |significant| as int64 + exponent > MAX_SUM_INTEGER_DIGITS as int64 {
      DigitsOutside(lit, digits, significant, exponent as int);
      return Failure(InvalidSum);
    }
    var hundredths := significant + Zeros((exponent + 2) as int);
    DigitsInside(lit, digits, significant, exponent as int);
    return Success(Amount(Value(hundredths)));
  }

  /** Accepts exactly the texts of sums, and returns exactly their hundredths. */
  method ParseSum(text: string) returns (r: Result<Amount, SumError>)
    requires |text| < TEXT_LIMIT
    ensures r.Success? ==> SumText(text, r.value.hundredths)
    ensures r.Failure? ==> forall h :: !SumText(text, h)
  {
    var (mantissa, exponentText, hasExponent) := Cut(ToLower(text), 'e');
    var (integerPart, fractionPart, hasFraction) := Cut(mantissa, '.');
    var integerOk := IsDigits(integerPart);
    if !integerOk || (|integerPart| > 1 && integerPart[0] == '0') {
      NoOtherParts(text);
      return Failure(InvalidSum);
    }
    var fractionOk := IsDigits(fractionPart);
    if hasFraction && !fractionOk {
      NoOtherParts(text);
      return Failure(InvalidSum);
    }
    var exponent: int64 := 0;
    if hasExponent {
      var parsed, ok := ParseExponent(exponentText);
      if !ok {
        RefusedExponent(text);
        return Failure(InvalidSum);
      }
      Pow10Of18And20();
      exponent := parsed;
    }
    ghost var lit := SoleLiteral(text);
    assert |integerPart| + |fractionPart| < TEXT_LIMIT;
    r := FromParts(integerPart, fractionPart, exponent, lit);
  }

  // ---------------------------------------------------------------- why the parser is right

  /** Whether `h` is the sum written by `lit`. */
  ghost predicate SumOf(lit: Literal, h: int)
    requires lit.WellFormed()
  {
    0 < h < Pow10(20) && Denotes(lit.Digits(), lit.Power(), h)
  }

  lemma SumOfMeaning(lit: Literal, h: int)
    requires lit.WellFormed()
    ensures SumOf(lit, h) <==> 0.0 < lit.Number() < TenTo(18) && h as real == 100.0 * lit.Number()
  {
    DenotesMeansEqual(lit.Digits(), lit.Power(), h);
    ScaleUp(1, 18);
    Pow10Of18And20();
  }

  /** Once its literal is known, a text is a sum exactly when the literal is. */
  lemma OnlyThisLiteral(text: string, lit: Literal)
    requires lit.WellFormed() && lit.Text() == text
    ensures forall h :: SumText(text, h) <==> SumOf(lit, h)
  {
    forall h ensures SumText(text, h) <==> SumOf(lit, h) {
      SumOfMeaning(lit, h);
      forall other: Literal | other.WellFormed() && other.Text() == text
        ensures other.Digits() == lit.Digits() && other.Power() == lit.Power()
      {
        LiteralNumberUnique(other, lit);
      }
    }
  }

  /** A text whose parts do not have the shape of a number is no sum. */
  lemma NoOtherParts(text: string)
    requires var (mantissa, tail, hasExponent) := Cut(ToLower(text), 'e');
             var (whole, fraction, hasFraction) := Cut(mantissa, '.');
             || whole == "" || !AllDigits(whole) || (|whole| > 1 && whole[0] == '0')
             || (hasFraction && (fraction == "" || !AllDigits(fraction)))
             || (hasExponent && (tail[|SignOf(tail)|..] == "" || !AllDigits(tail[|SignOf(tail)|..])))
    ensures forall h :: !SumText(text, h)
  {
    forall lit: Literal | lit.WellFormed() && lit.Text() == text ensures false {
      LiteralParts(lit);
      if lit.exponent.Some? {
        TailParts(lit.exponent.value);
      }
    }
  }

  /** Parts of the right shape form a literal that decides whether the text is a sum. */
  lemma SoleLiteral(text: string) returns (lit: Literal)
    requires var (mantissa, tail, hasExponent) := Cut(ToLower(text), 'e');
             var (whole, fraction, hasFraction) := Cut(mantissa, '.');
             && whole != "" && AllDigits(whole) && (|whole| <= 1 || whole[0] != '0')
             && (hasFraction ==> fraction != "" && AllDigits(fraction))
             && (hasExponent ==> tail[|SignOf(tail)|..] != "" && AllDigits(tail[|SignOf(tail)|..]))
    ensures lit.WellFormed() && lit.Text() == text
    ensures var (mantissa, tail, hasExponent) := Cut(ToLower(text), 'e');
            var (whole, fraction, hasFraction) := Cut(mantissa, '.');
            && lit.whole == whole && lit.FractionDigits() == fraction
            && lit.exponent.Some? == hasExponent
            && (hasExponent ==> lit.exponent.value.sign == SignOf(tail))
            && (hasExponent ==> lit.exponent.value.digits == tail[|SignOf(tail)|..])
    ensures forall h :: SumText(text, h) <==> SumOf(lit, h)
  {
    var (mantissa, tail, hasExponent) := Cut(ToLower(text), 'e');
    var (whole, fraction, hasFraction) := Cut(mantissa, '.');
    lit := Literal(whole, if hasFraction then Some(fraction) else None,
                   if hasExponent then Some(Exponent('e', SignOf(tail), tail[|SignOf(tail)|..])) else None);
    assert lit.Mantissa() == mantissa && lit.Tail() == tail;
    lit := PartsDetermineText(text, lit);
    OnlyThisLiteral(text, lit);
  }

  lemma RefusedExponent(text: string)
    requires |text| < TEXT_LIMIT
    requires var (mantissa, tail, hasExponent) := Cut(ToLower(text), 'e');
             var (whole, fraction, hasFraction) := Cut(mantissa, '.');
             && hasExponent
             && whole != "" && AllDigits(whole) && (|whole| <= 1 || whole[0] != '0')
             && (hasFraction ==> fraction != "" && AllDigits(fraction))
             && var digits := tail[|SignOf(tail)|..];
                !(digits != "" && AllDigits(digits) && Value(digits) < Pow10(18))
    ensures forall h :: !SumText(text, h)
  {
    var tail := Cut(ToLower(text), 'e').1;
    var digits := tail[|SignOf(tail)|..];
    if digits != "" && AllDigits(digits) {
      var lit := SoleLiteral(text);
      HugeExponent(lit);
    } else {
      NoOtherParts(text);
    }
  }

  /** What the parser cuts off: zeros in front of all digits and behind them. */
  ghost predicate Trimmed(lit: Literal, digits: string, significant: string) {
    && digits == TrimLeftZeros(lit.whole + lit.FractionDigits())
    && significant == TrimRightZeros(digits)
    && digits != ""
  }

  /** The significant digits, without zeros at either end; `z` zeros were cut off at the right. */
  ghost predicate Significant(lit: Literal, significant: string, z: nat)
    requires lit.WellFormed()
  {
    && significant != "" && AllDigits(significant) && significant[0] != '0' && significant[|significant| - 1] != '0'
    && lit.Digits() == TimesTenTo(Value(significant), z)
  }

  lemma TrimmedShape(lit: Literal, digits: string, significant: string)
    requires lit.WellFormed() && Trimmed(lit, digits, significant)
    ensures Significant(lit, significant, |digits| - |significant|)
  {
    TrimmedValue(lit.whole + lit.FractionDigits());
    TrimmedEnd(digits, significant);
  }

  lemma TrimmedEnd(digits: string, significant: string)
    requires AllDigits(digits) && digits != "" && digits[0] != '0' && significant == TrimRightZeros(digits)
    ensures significant != "" && AllDigits(significant) && significant[0] != '0'
        && significant[|significant| - 1] != '0'
    ensures Value(digits) == TimesTenTo(Value(significant), |digits| - |significant|)
  {
    var z := |digits| - |significant|;
    DigitsConcat(significant, Zeros(z));
    ValueTrailingZeros(significant, z);
  }

  /** Too fine or too large: no number of hundredths below 10^20. */
  lemma OutsideHundredths(lit: Literal, significant: string, z: nat, e: int)
    requires lit.WellFormed() && Significant(lit, significant, z)
    requires e == lit.Power() + z && (e < -2 || |significant| + e > 18)
    ensures forall h :: !SumOf(lit, h)
  {
    NothingInRange(lit.Digits(), lit.Power(), significant, z, e);
  }

  lemma NothingInRange(n: int, p: int, significant: string, z: nat, e: int)
    requires significant != "" && AllDigits(significant) && significant[0] != '0'
        && significant[|significant| - 1] != '0'
    requires n == TimesTenTo(Value(significant), z) && e == p + z && (e < -2 || |significant| + e > 18)
    ensures forall h :: Denotes(n, p, h) ==> h >= Pow10(20)
  {
    forall h | Denotes(n, p, h) ensures h >= Pow10(20) {
      DenotesShift(Value(significant), p, z, h);
      OutOfRange(significant, e, h);
    }
  }

  lemma OutOfRange(significant: string, e: int, h: int)
    requires significant != "" && AllDigits(significant) && significant[0] != '0'
        && significant[|significant| - 1] != '0'
    requires e < -2 || |significant| + e > 18
    requires Denotes(Value(significant), e, h)
    ensures h >= Pow10(20)
  {
    ValueNotMultipleOfTen(significant);
    ValueAtLeast(significant);
    if e >= -2 {
      TimesTenToAdds(1, |significant| - 1, e + 2);
      TimesTenToOrder(Value(significant), Pow10(|significant| - 1), e + 2);
      Pow10Monotone(20, |significant| + e + 1);
    }
  }

  /** Neither too fine nor too large: at most 20 digits of hundredths. */
  lemma InsideHundredths(lit: Literal, significant: string, z: nat, e: int)
    requires lit.WellFormed() && Significant(lit, significant, z)
    requires e == lit.Power() + z && e >= -2 && |significant| + e <= 18
    ensures var hundredths := significant + Zeros(e + 2);
            AllDigits(hundredths) && |hundredths| <= 20 && SumOf(lit, Value(hundredths))
  {
    SumInRange(lit.Digits(), lit.Power(), significant, z, e);
  }

  lemma SumInRange(n: int, p: int, significant: string, z: nat, e: int)
    requires significant != "" && AllDigits(significant) && significant[0] != '0'
    requires n == TimesTenTo(Value(significant), z) && e == p + z && e >= -2 && |significant| + e <= 18
    ensures var hundredths := significant + Zeros(e + 2);
            AllDigits(hundredths) && 0 < Value(hundredths) < Pow10(20) && Denotes(n, p, Value(hundredths))
  {
    InRange(significant, e);
    DenotesShift(Value(significant), p, z, Value(significant + Zeros(e + 2)));
  }

  lemma InRange(significant: string, e: int)
    requires significant != "" && AllDigits(significant) && significant[0] != '0'
    requires e >= -2 && |significant| + e <= 18
    ensures var hundredths := significant + Zeros(e + 2);
            AllDigits(hundredths) && 0 < Value(hundredths) < Pow10(20)
                && Denotes(Value(significant), e, Value(hundredths))
  {
    ValueTrailingZeros(significant, e + 2);
    ValueAtLeast(significant);
    Pow10Monotone(0, |significant| - 1);
    TimesTenToOrder(0, Value(significant), e + 2);
    TimesTenToZero(e + 2);
    ValueBelow(significant + Zeros(e + 2));
    Pow10Monotone(|significant| + e + 2, 20);
  }

  lemma DigitsOutside(lit: Literal, digits: string, significant: string, e: int)
    requires lit.WellFormed() && Trimmed(lit, digits, significant)
    requires e == lit.Power() + |digits| - |significant| && (e < -2 || |significant| + e > 18)
    ensures forall h :: !SumOf(lit, h)
  {
    TrimmedShape(lit, digits, significant);
    OutsideHundredths(lit, significant, |digits| - |significant|, e);
  }

  lemma DigitsInside(lit: Literal, digits: string, significant: string, e: int)
    requires lit.WellFormed() && Trimmed(lit, digits, significant)
    requires e == lit.Power() + |digits| - |significant| && e >= -2 && |significant| + e <= 18
    ensures var hundredths := significant + Zeros(e + 2);
            AllDigits(hundredths) && |hundredths| <= 20 && SumOf(lit, Value(hundredths))
  {
    TrimmedShape(lit, digits, significant);
    InsideHundredths(lit, significant, |digits| - |significant|, e);
  }

  lemma ZeroIsNoSum(lit: Literal)
    requires lit.WellFormed() && TrimLeftZeros(lit.whole + lit.FractionDigits()) == ""
    ensures forall h :: !SumOf(lit, h)
  {
    TrimmedValue(lit.whole + lit.FractionDigits());
    forall h | SumOf(lit, h) ensures false {
      TimesTenToZero(Excess(lit.Power() + 2));
      TimesTenToZero(Excess(-(lit.Power() + 2)));
      TimesTenToOrder(0, h, Excess(-(lit.Power() + 2)));
    }
  }

  /** An exponent of 10^18 or more in magnitude puts every nonzero mantissa of admissible
      length out of range, and a zero mantissa is no sum either. */
  lemma HugeExponent(lit: Literal)
    requires lit.WellFormed() && |lit.Text()| < TEXT_LIMIT
    requires lit.exponent.Some? && Value(lit.exponent.value.digits) >= Pow10(18)
    ensures forall h :: !SumOf(lit, h)
  {
    Pow10Of18And20();
    var all := lit.whole + lit.FractionDigits();
    var digits := TrimLeftZeros(all);
    if digits == "" {
      ZeroIsNoSum(lit);
    } else {
      var significant := TrimRightZeros(digits);
      DigitsOutside(lit, digits, significant, lit.Power() + |digits| - |significant|);
    }
  }

  // ---------------------------------------------------------------- printing

  function TwoDigits(n: nat): (s: string)
    requires n < 100
  {
    if n < 10 then "0" + Decimal(n) else Decimal(n)
  }

  /** Units, a point, and two digits of hundredths. */
  function ToString(a: Amount): string {
    Decimal(a.hundredths / 100) + "." + TwoDigits(a.hundredths % 100)
  }

  function TrimSuffix(s: string, suffix: char): string {
    if s != "" && s[|s| - 1] == suffix then s[..|s| - 1] else s
  }

  /** The shortest form: without zeros at the end of the fraction, and without an empty fraction. */
  function Compact(a: Amount): string {
    TrimSuffix(TrimRightZeros(ToString(a)), '.')
  }

  /** `text` is a JSON number whose value is exactly the amount. */
  ghost predicate Writes(text: string, a: Amount) {
    exists lit: Literal :: lit.WellFormed() && lit.Text() == text && Denotes(lit.Digits(), lit.Power(), a.hundredths)
  }

  /** The same without an exponent and with this many digits after the point, which is there only for them. */
  ghost predicate WritesPlainly(text: string, a: Amount, places: nat) {
    exists lit: Literal :: lit.WellFormed() && lit.exponent.None? && |lit.FractionDigits()| == places
                        && lit.Text() == text && Denotes(lit.Digits(), lit.Power(), a.hundredths)
  }

  lemma TwoDigitsShape(n: nat)
    requires n < 100
    ensures var s := TwoDigits(n); |s| == 2 && AllDigits(s) && Digit(s[0]) == n / 10 && Digit(s[1]) == n % 10
  {
    if n >= 10 {
      assert Decimal(n / 10) == [(n / 10 + '0' as int) as char];
    }
  }

  lemma TwoMore(front: string, c: char, d: char)
    requires AllDigits(front) && IsDigit(c) && IsDigit(d)
    ensures Value(front + [c]) == 10 * Value(front) + Digit(c)
    ensures Value(front + [c, d]) == 100 * Value(front) + 10 * Digit(c) + Digit(d)
  {
    assert (front + [c])[..|front|] == front;
    assert (front + [c, d])[..|front| + 1] == front + [c];
  }

  /** Both printed forms are JSON numbers with exactly the amount's value and without an exponent; one
      has two digits after the point, the other as few as possible. */
  lemma PrintedFormsWriteAmount(a: Amount)
    ensures Writes(ToString(a), a) && WritesPlainly(ToString(a), a, 2)
    ensures Writes(Compact(a), a)
    ensures WritesPlainly(Compact(a), a, if a.hundredths % 100 == 0 then 0 else if a.hundredths % 10 == 0 then 1 else 2)
  {
    var h := a.hundredths;
    var units, cents := Decimal(h / 100), TwoDigits(h % 100);
    TwoDigitsShape(h % 100);
    CompactShape(a);
    WithTwoDigits(units, cents, a);
    CentsOf(h, cents);
    if h % 100 == 0 {
      WithNoDigits(units, a);
    } else if h % 10 == 0 {
      WithOneDigit(units, cents[0], a);
    }
  }

  lemma CentsOf(h: nat, cents: string)
    requires |cents| == 2 && AllDigits(cents) && Digit(cents[0]) == h % 100 / 10 && Digit(cents[1]) == h % 100 % 10
    ensures cents == "00" <==> h % 100 == 0
    ensures cents[1] == '0' <==> h % 10 == 0
  {
    LastTwo(h);
    assert cents[0] == '0' <==> Digit(cents[0]) == 0;
    assert cents[1] == '0' <==> Digit(cents[1]) == 0;
    assert cents == [cents[0], cents[1]];
  }

  lemma LastTwo(h: nat)
    ensures h % 100 % 10 == h % 10
    ensures h % 100 == 0 <==> h % 100 / 10 == 0 && h % 100 % 10 == 0
  {
  }

  /** The literal with these digits before and after the point. */
  lemma PlainLiteral(units: string, fraction: string) returns (lit: Literal)
    requires units != "" && AllDigits(units) && (|units| > 1 ==> units[0] != '0') && AllDigits(fraction)
    ensures lit.WellFormed() && lit.exponent.None? && lit.FractionDigits() == fraction
    ensures lit.Text() == if fraction == "" then units else units + "." + fraction
    ensures AllDigits(units + fraction) && lit.Digits() == Value(units + fraction) && lit.Power() == -|fraction|
  {
    DigitsConcat(units, fraction);
    lit := Literal(units, if fraction == "" then None else Some(fraction), None);
    assert lit.Mantissa() + "" == lit.Mantissa();
  }

  lemma WithTwoDigits(units: string, cents: string, a: Amount)
    requires units == Decimal(a.hundredths / 100) && |cents| == 2 && AllDigits(cents)
    requires 10 * Digit(cents[0]) + Digit(cents[1]) == a.hundredths % 100
    ensures Writes(units + "." + cents, a) && WritesPlainly(units + "." + cents, a, 2)
  {
    UnitsShape(a.hundredths / 100);
    var lit := PlainLiteral(units, cents);
    assert cents == [cents[0], cents[1]];
    TwoMore(units, cents[0], cents[1]);
    DenotesTwoDigits(lit.Digits(), a.hundredths);
  }

  lemma WithOneDigit(units: string, c: char, a: Amount)
    requires units == Decimal(a.hundredths / 100) && IsDigit(c) && 10 * Digit(c) == a.hundredths % 100
    ensures Writes(units + "." + [c], a) && WritesPlainly(units + "." + [c], a, 1)
  {
    UnitsShape(a.hundredths / 100);
    var lit := PlainLiteral(units, [c]);
    TwoMore(units, c, '0');
    DenotesOneDigit(lit.Digits(), a.hundredths);
  }

  lemma WithNoDigits(units: string, a: Amount)
    requires units == Decimal(a.hundredths / 100) && a.hundredths % 100 == 0
    ensures Writes(units, a) && WritesPlainly(units, a, 0)
  {
    UnitsShape(a.hundredths / 100);
    var lit := PlainLiteral(units, "");
    assert units + "" == units;
    DenotesNoDigits(lit.Digits(), a.hundredths);
  }

  lemma UnitsShape(n: nat)
    ensures |Decimal(n)| > 1 ==> Decimal(n)[0] != '0'
  {
  }

  lemma DenotesTwoDigits(n: int, h: int)
    requires n == h
    ensures Denotes(n, -2, h)
  {
  }

  lemma DenotesOneDigit(n: int, h: int)
    requires 10 * n == h
    ensures Denotes(n, -1, h)
  {
    assert TimesTenTo(n, 1) == 10 * TimesTenTo(n, 0);
  }

  lemma DenotesNoDigits(n: int, h: int)
    requires 100 * n == h
    ensures Denotes(n, 0, h)
  {
    assert TimesTenTo(n, 2) == 10 * TimesTenTo(n, 1) && TimesTenTo(n, 1) == 10 * TimesTenTo(n, 0);
  }

  lemma CompactShape(a: Amount)
    ensures var units, cents := Decimal(a.hundredths / 100), TwoDigits(a.hundredths % 100);
            |cents| == 2
            && Compact(a) == if cents == "00" then units
                             else if cents[1] == '0' then units + "." + [cents[0]]
                             else units + "." + cents
  {
    var units, cents := Decimal(a.hundredths / 100), TwoDigits(a.hundredths % 100);
    TwoDigitsShape(a.hundredths % 100);
    assert cents == [cents[0], cents[1]];
    CompactOf(units + ".", cents[0], cents[1]);
    assert (units + ".")[..|units|] == units;
  }

  lemma CompactOf(front: string, c: char, d: char)
    requires IsDigit(c) && IsDigit(d) && front != "" && front[|front| - 1] == '.'
    ensures TrimSuffix(TrimRightZeros(front + [c, d]), '.')
         == if c == d == '0' then front[..|front| - 1] else if d == '0' then front + [c] else front + [c, d]
  {
    TrimTwo(front, c, d);
    TrimPoint(front, c, d, TrimRightZeros(front + [c, d]));
  }

  lemma TrimPoint(front: string, c: char, d: char, trimmed: string)
    requires IsDigit(c) && IsDigit(d) && front != "" && front[|front| - 1] == '.'
    requires trimmed == if c == d == '0' then front else if d == '0' then front + [c] else front + [c, d]
    ensures TrimSuffix(trimmed, '.') == if c == d == '0' then front[..|front| - 1] else trimmed
  {
  }

  lemma TrimTwo(front: string, c: char, d: char)
    requires front != "" && front[|front| - 1] != '0'
    ensures TrimRightZeros(front + [c, d])
         == if c == d == '0' then front else if d == '0' then front + [c] else front + [c, d]
  {
    if d != '0' {
      TrimNothing(front + [c, d]);
    } else {
      assert front + [c, d] == front + [c] + "0";
      TrimOneZero(front + [c]);
      TrimUpToOne(front, c);
    }
  }

  lemma TrimUpToOne(front: string, c: char)
    requires front != "" && front[|front| - 1] != '0'
    ensures TrimRightZeros(front + [c]) == if c == '0' then front else front + [c]
  {
    if c == '0' {
      TrimOneZero(front);
      TrimNothing(front);
    } else {
      TrimNothing(front + [c]);
    }
  }

  lemma TrimNothing(s: string)
    requires s != "" && s[|s| - 1] != '0'
    ensures TrimRightZeros(s) == s
  {
  }

  lemma TrimOneZero(s: string)
    ensures TrimRightZeros(s + "0") == TrimRightZeros(s)
  {
    var longer := s + "0";
    assert longer[|s|] == '0' && longer[..|s|] == s;
  }

  // ---------------------------------------------------------------- main results

  /** Parsing undoes both printers for every positive amount below 10^18. */
  lemma ParserUndoesPrinters(a: Amount)
    requires 0 < a.hundredths < Pow10(20)
    ensures forall h :: SumText(Compact(a), h) <==> h == a.hundredths
    ensures forall h :: SumText(ToString(a), h) <==> h == a.hundredths
  {
    PrintedFormsWriteAmount(a);
    SumOfWritten(Compact(a), a);
    SumOfWritten(ToString(a), a);
  }

  lemma SumOfWritten(text: string, a: Amount)
    requires Writes(text, a) && 0 < a.hundredths < Pow10(20)
    ensures forall h :: SumText(text, h) <==> h == a.hundredths
  {
    var lit: Literal :| lit.WellFormed() && lit.Text() == text && Denotes(lit.Digits(), lit.Power(), a.hundredths);
    OnlyThisLiteral(text, lit);
    forall h | SumOf(lit, h) ensures h == a.hundredths {
      DenotesUnique(lit.Digits(), lit.Power(), h, a.hundredths);
    }
  }

  method ReparseCompact(a: Amount) returns (r: Result<Amount, SumError>)
    requires 0 < a.hundredths < Pow10(20)
    ensures r == Success(a)
  {
    ParserUndoesPrinters(a);
    CompactShape(a);
    DecimalLength(a.hundredths / 100);
    r := ParseSum(Compact(a));
    assert r.Failure? ==> !SumText(Compact(a), a.hundredths);
  }

  lemma DecimalLength(n: nat)
    requires n < Pow10(20)
    ensures |Decimal(n)| <= 20
  {
    var s := Decimal(n);
    if |s| > 20 {
      ValueAtLeast(s);
      Pow10Monotone(20, |s| - 1);
    }
  }

  /** Different amounts have different compact forms. */
  lemma CompactIsInjective(a: Amount, b: Amount)
    requires Compact(a) == Compact(b)
    ensures a == b
  {
    PrintedFormsWriteAmount(a);
    PrintedFormsWriteAmount(b);
    var x: Literal :| x.WellFormed() && x.Text() == Compact(a) && Denotes(x.Digits(), x.Power(), a.hundredths);
    var y: Literal :| y.WellFormed() && y.Text() == Compact(b) && Denotes(y.Digits(), y.Power(), b.hundredths);
    LiteralNumberUnique(x, y);
    DenotesUnique(x.Digits(), x.Power(), a.hundredths, b.hundredths);
  }

  /** The compact form is canonical: two sums have the same one exactly when the numbers they write are equal. */
  lemma CompactIsCanonical(x: Literal, y: Literal, a: Amount, b: Amount)
    requires x.WellFormed() && SumText(x.Text(), a.hundredths)
    requires y.WellFormed() && SumText(y.Text(), b.hundredths)
    ensures Compact(a) == Compact(b) <==> x.Number() == y.Number()
  {
    OnlyThisLiteral(x.Text(), x);
    OnlyThisLiteral(y.Text(), y);
    SumOfMeaning(x, a.hundredths);
    SumOfMeaning(y, b.hundredths);
    if Compact(a) == Compact(b) {
      CompactIsInjective(a, b);
    }
  }
}
