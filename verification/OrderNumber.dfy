/** Order numbers: strings of 1 to 255 digits that pass the Luhn check
    (Annex B of ISO/IEC 7812-1). */
module OrderNumber {
  import opened Wrappers
  import opened Digits

  const MAX_NUMBER_LENGTH := 255

  type Number = string

  datatype NumberError = InvalidNumber

  /** The contribution of digit `d`: itself, or the sum of the decimal digits of twice itself. */
  function Weight(d: int, doubled: bool): int {
    if doubled then 2 * d / 10 + 2 * d % 10 else d
  }

  /** The contribution of the digit `c` standing `place` places from the right end. */
  function PlaceWeight(c: char, place: nat): int {
    Weight(Digit(c), place % 2 == 1)
  }

  /** The Luhn sum of `s` when its last digit stands `place` places from the right end
      of the whole number; digits at odd places are doubled. */
  function LuhnSum(s: string, place: nat): int {
    if s == [] then 0
    else PlaceWeight(s[|s| - 1], place) + LuhnSum(s[..|s| - 1], place + 1)
  }

  predicate LuhnValid(s: string) {
    LuhnSum(s, 0) % 10 == 0
  }

  predicate ValidNumber(s: string) {
    1 <= |s| <= MAX_NUMBER_LENGTH && AllDigits(s) && LuhnValid(s)
  }

  method ParseNumber(value: string) returns (r: Result<Number, NumberError>)
    ensures r == if ValidNumber(value) then Success(value) else Failure(InvalidNumber)
    ensures r.Success? <==> 1 <= |value| <= 255 && AllDigits(value) && LuhnSum(value, 0) % 10 == 0
  {
    if value == "" || |value| > MAX_NUMBER_LENGTH {
      return Failure(InvalidNumber);
    }
    var checksum := 0;
    var double := false;
    var i := |value| - 1;
    assert value[..i + 1] == value;
    while i >= 0
      invariant -1 <= i < |value|
      invariant double == ((|value| - 1 - i) % 2 == 1)
      invariant forall k | i < k < |value| :: IsDigit(value[k])
      invariant (checksum + LuhnSum(value[..i + 1], |value| - 1 - i)) % 10 == LuhnSum(value, 0) % 10
      invariant 0 <= checksum < 10
    {
      if value[i] < '0' || value[i] > '9' {
        return Failure(InvalidNumber);
      }
      assert value[..i + 1][..i] == value[..i];
      var digit := value[i] as int - '0' as int;
      if double {
        digit := digit * 2;
        if digit > 9 {
          digit := digit - 9;
        }
      }
      DoubledWeight(Digit(value[i]));
      assert digit == PlaceWeight(value[i], |value| - 1 - i);
      RemainderStep(checksum, digit, LuhnSum(value[..i], |value| - i));
      checksum := (checksum + digit) % 10;
      double := !double;
      i := i - 1;
    }
    assert value[..i + 1] == [] && LuhnSum(value, 0) % 10 == checksum;
    if checksum != 0 {
      return Failure(InvalidNumber);
    }
    return Success(value);
  }

  lemma RemainderStep(checksum: int, digit: int, rest: int)
    ensures ((checksum + digit) % 10 + rest) % 10 == (checksum + (digit + rest)) % 10
  {
  }

  // ---------------------------------------------------------------- error detection

  /** The sum of a concatenation is the sum of its parts, the left one shifted by the right one. */
  lemma {:induction false} LuhnSumConcat(a: string, b: string, place: nat)
    ensures LuhnSum(a + b, place) == LuhnSum(a, place + |b|) + LuhnSum(b, place)
  {
    if b == [] {
      assert a + b == a;
    } else {
      var n := |b| - 1;
      assert (a + b)[..|a + b| - 1] == a + b[..n];
      LuhnSumConcat(a, b[..n], place + 1);
    }
  }

  /** Splits the sum at one digit. */
  lemma {:induction false} LuhnSumAt(s: string, i: nat, place: nat)
    requires i < |s| && place == |s| - 1 - i
    ensures LuhnSum(s, 0)
         == LuhnSum(s[..i], place + 1) + PlaceWeight(s[i], place) + LuhnSum(s[i + 1..], 0)
  {
    assert s == s[..i] + ([s[i]] + s[i + 1..]);
    LuhnSumConcat(s[..i], [s[i]] + s[i + 1..], 0);
    LuhnSumConcat([s[i]], s[i + 1..], 0);
    assert [s[i]][..0] == [];
  }

  /** Distinct digits contribute differently at the same place. */
  lemma WeightsDiffer(c: char, d: char, place: nat)
    requires IsDigit(c) && IsDigit(d) && c != d
    ensures 0 <= PlaceWeight(c, place) <= 9 && 0 <= PlaceWeight(d, place) <= 9
    ensures PlaceWeight(c, place) != PlaceWeight(d, place)
  {
    DoubledWeight(Digit(c));
    DoubledWeight(Digit(d));
  }

  /** Adding up the decimal digits of a doubled digit is subtracting nine when it exceeds nine. */
  lemma DoubledWeight(d: int)
    requires 0 <= d <= 9
    ensures Weight(d, true) == if 2 * d > 9 then 2 * d - 9 else 2 * d
  {
    if d < 5 {
      assert 2 * d / 10 == 0;
    } else {
      assert 2 * d / 10 == 1;
    }
  }

  lemma SumOfRemainders(rest: int, a: int, b: int)
    ensures (rest + a) % 10 == (rest + b) % 10 <==> a % 10 == b % 10
  {
  }

  lemma {:induction false} LuhnSumTwoPlacesOn(s: string, place: nat)
    ensures LuhnSum(s, place + 2) == LuhnSum(s, place)
  {
    if s != [] {
      LuhnSumTwoPlacesOn(s[..|s| - 1], place + 1);
    }
  }

  /** The sum, two digits at a time from the right: the last digit counts as it is, the one before it
      doubled, less nine if that exceeds nine. */
  lemma LuhnSumByPairs(prefix: string, d: char, c: char)
    requires IsDigit(d) && IsDigit(c)
    ensures LuhnSum("", 0) == 0 && LuhnSum([c], 0) == c as int - '0' as int
    ensures var value, doubled := c as int - '0' as int, 2 * (d as int - '0' as int);
      LuhnSum(prefix + [d, c], 0) == LuhnSum(prefix, 0) + (if doubled > 9 then doubled - 9 else doubled) + value
  {
    assert (prefix + [d, c])[..|prefix| + 1] == prefix + [d];
    assert (prefix + [d])[..|prefix|] == prefix && [c][..0] == "";
    LuhnSumTwoPlacesOn(prefix, 0);
    DoubledWeight(Digit(d));
  }

  function CheckDigit(prefix: string): char {
    ('0' as int + (10 - LuhnSum(prefix, 1) % 10) % 10) as char
  }

  /** Every digit prefix is completed to a valid number by exactly one digit. */
  lemma CheckDigitIsUnique(prefix: string, c: char)
    requires IsDigit(c)
    ensures IsDigit(CheckDigit(prefix))
    ensures LuhnValid(prefix + [c]) <==> c == CheckDigit(prefix)
  {
    assert (prefix + [c])[..|prefix|] == prefix;
  }

  /** Replacing one digit of a valid number by another is always detected. */
  lemma {:induction false} SingleDigitErrorDetected(s: string, i: nat, c: char)
    requires AllDigits(s) && LuhnValid(s)
    requires i < |s| && IsDigit(c) && c != s[i]
    ensures !LuhnValid(s[i := c])
  {
    var t, place := s[i := c], |s| - 1 - i;
    LuhnSumAt(s, i, place);
    LuhnSumAt(t, i, place);
    assert t[..i] == s[..i] && t[i + 1..] == s[i + 1..];
    WeightsDiffer(s[i], c, place);
    SmallRemainders(PlaceWeight(s[i], place), PlaceWeight(c, place));
    SumOfRemainders(LuhnSum(s[..i], place + 1) + LuhnSum(s[i + 1..], 0), PlaceWeight(s[i], place),
        PlaceWeight(c, place));
    assert LuhnSum(t, 0) % 10 != LuhnSum(s, 0) % 10;
  }

  function Transposed(s: string, i: nat): string
    requires i + 1 < |s|
  {
    s[..i] + [s[i + 1], s[i]] + s[i + 2..]
  }

  /** Transposing two neighbouring digits of a valid number is detected unless they are
      equal or are 0 and 9, and in those cases it is not. */
  lemma {:induction false} TranspositionDetected(s: string, i: nat)
    requires AllDigits(s) && LuhnValid(s)
    requires i + 1 < |s|
    ensures LuhnValid(Transposed(s, i))
       <==> s[i] == s[i + 1] || (s[i] == '0' && s[i + 1] == '9') || (s[i] == '9' && s[i + 1] == '0')
  {
    var t, place := Transposed(s, i), |s| - 2 - i;
    LuhnSumPair(s, i, place);
    LuhnSumPair(t, i, place);
    assert t[..i] == s[..i] && t[i + 2..] == s[i + 2..];
    TransposedWeights(s[i], s[i + 1], place);
    SumOfRemainders(LuhnSum(s[..i], place + 2) + LuhnSum(s[i + 2..], 0),
                    PlaceWeight(s[i], place + 1) + PlaceWeight(s[i + 1], place),
                    PlaceWeight(s[i + 1], place + 1) + PlaceWeight(s[i], place));
  }

  lemma TransposedWeights(c: char, d: char, place: nat)
    requires IsDigit(c) && IsDigit(d)
    ensures (PlaceWeight(c, place + 1) + PlaceWeight(d, place)) % 10
        == (PlaceWeight(d, place + 1) + PlaceWeight(c, place)) % 10
       <==> c == d || (c == '0' && d == '9') || (c == '9' && d == '0')
  {
    DoubledWeight(Digit(c));
    DoubledWeight(Digit(d));
    var x, y := Digit(c), Digit(d);
    var dx, dy := Weight(x, true), Weight(y, true);
    if place % 2 == 0 {
      assert PlaceWeight(c, place + 1) == dx && PlaceWeight(d, place + 1) == dy;
      SmallRemainders(dx + y, dy + x);
    } else {
      assert PlaceWeight(c, place) == dx && PlaceWeight(d, place) == dy;
      SmallRemainders(x + dy, y + dx);
    }
  }

  lemma SmallRemainders(a: int, b: int)
    requires 0 <= a < 20 && 0 <= b < 20
    ensures a % 10 == b % 10 <==> a == b || a == b + 10 || b == a + 10
  {
  }

  lemma {:induction false} LuhnSumPair(s: string, i: nat, place: nat)
    requires i + 1 < |s| && place == |s| - 2 - i
    ensures LuhnSum(s, 0) == LuhnSum(s[..i], place + 2) + PlaceWeight(s[i], place + 1)
                             + PlaceWeight(s[i + 1], place) + LuhnSum(s[i + 2..], 0)
  {
    LuhnSumAt(s, i, place + 1);
    var tail := s[i + 1..];
    LuhnSumAt(tail, 0, place);
    assert tail[1..] == s[i + 2..] && tail[..0] == [];
  }

  lemma {:induction false} LuhnSumOfZeros(n: nat, place: nat)
    ensures LuhnSum(Zeros(n), place) == 0
  {
    if n > 0 {
      assert Zeros(n)[..n - 1] == Zeros(n - 1);
      LuhnSumOfZeros(n - 1, place + 1);
    }
  }

  /** Leading zeros do not change the check. */
  lemma LeadingZerosKeepCheck(n: nat, s: string)
    ensures LuhnValid(Zeros(n) + s) <==> LuhnValid(s)
  {
    LuhnSumConcat(Zeros(n), s, 0);
    LuhnSumOfZeros(n, |s|);
  }
}
