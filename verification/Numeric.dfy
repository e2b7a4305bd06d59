/** PostgreSQL NUMERIC values as the driver delivers them, and their conversion to amounts. */
module Numerics {
  import opened Wrappers
  import opened Digits
  import opened Decimals
  import opened Amounts

  newtype int32 = x: int | -0x8000_0000 <= x < 0x8000_0000

  /** mantissa * 10^exp; `mantissa` is None for a nil big integer, `finite` is false for infinities. */
  datatype Numeric = Numeric(mantissa: Option<int>, exp: int32, finite: bool, nan: bool, valid: bool) {
    predicate IsNumber() {
      valid && !nan && finite && mantissa.Some?
    }
  }

  datatype NumericError = NotFinite | TooManyDecimals | InvalidAmount

  function NumericFromAmount(a: Amount): Numeric {
    Numeric(Some(a.hundredths), -2, true, false, true)
  }

  /** Division and remainder truncated toward zero. */
  function Quo(n: int, d: int): int
    requires d > 0
  {
    if n >= 0 then n / d else -(-n / d)
  }

  function Rem(n: int, d: int): int
    requires d > 0
  {
    n - Quo(n, d) * d
  }

  /** Division is the same on both sides of zero, and leaves a remainder with the sign of the number. */
  lemma QuotientsAreTruncated(n: int, d: int)
    requires d > 0 && n >= 0
    ensures Quo(-n, d) == -Quo(n, d) && 0 <= Rem(n, d) < d && Rem(-n, d) == -Rem(n, d)
  {
    assert -Quo(n, d) * d == -(Quo(n, d) * d);
  }

  /** What a stored number stands for: its hundredths, unless it is negative or finer than hundredths. */
  function Meaning(x: real): Result<Amount, NumericError> {
    var hundredths := (100.0 * x).Floor;
    if hundredths as real != 100.0 * x then Failure(TooManyDecimals)
    else if hundredths < 0 then Failure(InvalidAmount)
    else Success(Amount(hundredths))
  }

  /** The outcome depends only on the number, not on which mantissa and exponent write it. */
  method AmountFromNumeric(value: Numeric) returns (r: Result<Amount, NumericError>)
    ensures r == if value.IsNumber() then Meaning(Scaled(value.mantissa.value, value.exp as int))
        else Failure(NotFinite)
    ensures r == Failure(NotFinite) <==> !value.valid || value.nan || !value.finite || value.mantissa.None?
    ensures r != Failure(NotFinite) ==>
      var hundred := 100.0 * Scaled(value.mantissa.value, value.exp as int);
      match r
      case Success(a) => a.hundredths as real == hundred
      case Failure(TooManyDecimals) => hundred != hundred.Floor as real
      case Failure(_) => hundred < 0.0 && hundred == hundred.Floor as real
  {
    if !value.valid || value.nan || !value.finite || value.mantissa.None? {
      return Failure(NotFinite);
    }
    var hundredths := value.mantissa.value;
    var scale := value.exp as int + 2;
    if scale > 0 {
      hundredths := TimesTenTo(hundredths, scale);
    } else if scale < 0 {
      var divisor := Pow10(-scale);
      QuotientOfTens(hundredths, -scale);
      var remainder := Rem(hundredths, divisor);
      hundredths := Quo(hundredths, divisor);
      if remainder != 0 {
        NotHundredths(value.mantissa.value, value.exp as int);
        return Failure(TooManyDecimals);
      }
    }
    assert Denotes(value.mantissa.value, value.exp as int, hundredths);
    InHundredths(value.mantissa.value, value.exp as int, hundredths);
    if hundredths < 0 {
      return Failure(InvalidAmount);
    }
    return Success(Amount(hundredths));
  }

  lemma InHundredths(n: int, e: int, h: int)
    requires Denotes(n, e, h)
    ensures Meaning(Scaled(n, e)) == if h < 0 then Failure(InvalidAmount) else Success(Amount(h))
  {
    DenotesMeansEqual(n, e, h);
  }

  lemma NotHundredths(n: int, e: int)
    requires e + 2 < 0 && Pow10(-(e + 2)) > 0 && Rem(n, Pow10(-(e + 2))) != 0
    ensures Meaning(Scaled(n, e)) == Failure(TooManyDecimals)
  {
    var h := (100.0 * Scaled(n, e)).Floor;
    DenotesMeansEqual(n, e, h);
    QuotientOfTens(n, -(e + 2));
  }

  lemma {:induction false} TimesPow10(q: int, k: nat)
    ensures TimesTenTo(q, k) == q * Pow10(k)
  {
    if k > 0 {
      TimesPow10(q, k - 1);
    }
  }

  /** Truncated division by a power of ten is exact precisely when the number is a multiple. */
  lemma QuotientOfTens(n: int, k: nat)
    ensures Pow10(k) > 0
    ensures Rem(n, Pow10(k)) == 0 ==> TimesTenTo(Quo(n, Pow10(k)), k) == n
    ensures forall q :: TimesTenTo(q, k) == n ==> Rem(n, Pow10(k)) == 0
  {
    Pow10Monotone(0, k);
    var d := Pow10(k);
    TimesPow10(Quo(n, d), k);
    forall q | TimesTenTo(q, k) == n ensures Rem(n, d) == 0 {
      TimesPow10(q, k);
      ExactQuotient(q, d, n);
    }
  }

  lemma ExactQuotient(q: int, d: int, n: int)
    requires d > 0 && n == q * d
    ensures Quo(n, d) == q
  {
    if n >= 0 {
      OnlyQuotient(n / d, n % d, q, d);
    } else {
      assert -n == (-q) * d;
      OnlyQuotient(-n / d, -n % d, -q, d);
    }
  }

  lemma OnlyQuotient(a: int, r: int, q: int, d: int)
    requires 0 <= r < d && a * d + r == q * d
    ensures a == q
  {
    var k := q - a;
    assert k * d == q * d - a * d == r;
    SmallMultiple(k, d);
  }

  lemma SmallMultiple(k: int, d: int)
    ensures k >= 1 && d > 0 ==> k * d >= d
    ensures k <= -1 && d > 0 ==> k * d < 0
  {
    if k >= 1 && d > 0 {
      assert (k - 1) * d >= 0;
    }
  }

  /** Amounts survive storage as NUMERIC. */
  method StoreAndLoad(a: Amount) returns (r: Result<Amount, NumericError>)
    ensures r == Success(a)
  {
    InHundredths(a.hundredths, -2, a.hundredths);
    r := AmountFromNumeric(NumericFromAmount(a));
  }
}
