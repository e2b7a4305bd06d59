/** Decimal digit strings, their values, and powers of ten. */
module Digits {

  predicate IsDigit(c: char) {
    '0' <= c <= '9'
  }

  predicate AllDigits(s: string) {
    forall i | 0 <= i < |s| :: IsDigit(s[i])
  }

  /** The numeric value of a digit; only meaningful for digits. */
  function Digit(c: char): int {
    c as int - '0' as int
  }

  /** `n` with `k` decimal zeros appended: n * 10^k, built without general multiplication. */
  function TimesTenTo(n: int, k: nat): int {
    if k == 0 then n else 10 * TimesTenTo(n, k - 1)
  }

  function Pow10(k: nat): int {
    TimesTenTo(1, k)
  }

  /** The number written by the digits of `s`. */
  function Value(s: string): (v: nat)
    requires AllDigits(s)
  {
    if s == [] then 0 else 10 * Value(s[..|s| - 1]) + Digit(s[|s| - 1])
  }

  function Zeros(n: nat): (s: string)
    ensures |s| == n && forall i | 0 <= i < n :: s[i] == '0'
  {
    seq(n, i => '0')
  }

  /** `s` without its leading zeros. */
  function TrimLeftZeros(s: string): (r: string)
    ensures |r| <= |s| && s == Zeros(|s| - |r|) + r
    ensures r == [] || r[0] != '0'
  {
    if s != [] && s[0] == '0' then TrimLeftZeros(s[1..]) else s
  }

  /** `s` without its trailing zeros. */
  function TrimRightZeros(s: string): (r: string)
    ensures |r| <= |s| && s == r + Zeros(|s| - |r|)
    ensures r == [] || r[|r| - 1] != '0'
  {
    if s != [] && s[|s| - 1] == '0' then TrimRightZeros(s[..|s| - 1]) else s
  }

  // ---------------------------------------------------------------- scaling by powers of ten

  lemma {:induction false} TimesTenToAdds(n: int, a: nat, b: nat)
    ensures TimesTenTo(TimesTenTo(n, a), b) == TimesTenTo(n, a + b)
  {
    if b > 0 {
      TimesTenToAdds(n, a, b - 1);
    }
  }

  lemma {:induction false} TimesTenToOrder(n: int, m: int, k: nat)
    ensures n < m <==> TimesTenTo(n, k) < TimesTenTo(m, k)
    ensures n == m <==> TimesTenTo(n, k) == TimesTenTo(m, k)
  {
    if k > 0 {
      TimesTenToOrder(n, m, k - 1);
    }
  }

  lemma {:induction false} TimesTenToZero(k: nat)
    ensures TimesTenTo(0, k) == 0
  {
    if k > 0 {
      TimesTenToZero(k - 1);
    }
  }

  lemma {:induction false} TimesTenToOfSum(n: int, m: int, k: nat)
    ensures TimesTenTo(n + m, k) == TimesTenTo(n, k) + TimesTenTo(m, k)
  {
    if k > 0 {
      TimesTenToOfSum(n, m, k - 1);
    }
  }

  lemma {:induction false} Pow10Monotone(a: nat, b: nat)
    requires a <= b
    ensures 1 <= Pow10(a) <= Pow10(b)
  {
    if a < b {
      Pow10Monotone(a, b - 1);
    } else if a > 0 {
      Pow10Monotone(a - 1, b - 1);
    }
  }

  lemma Pow10Of18And20()
    ensures Pow10(18) == 1_000_000_000_000_000_000
    ensures Pow10(20) == 100_000_000_000_000_000_000
  {
    assert Pow10(5) == 100_000;
    assert Pow10(10) == 10_000_000_000 by { TimesTenToAdds(1, 5, 5); }
    assert Pow10(15) == 1_000_000_000_000_000 by { TimesTenToAdds(1, 10, 5); }
  }

  // ---------------------------------------------------------------- values

  lemma DigitsConcat(a: string, b: string)
    ensures AllDigits(a + b) <==> AllDigits(a) && AllDigits(b)
  {
    var s := a + b;
    assert forall i | 0 <= i < |a| :: s[i] == a[i];
    assert forall i | 0 <= i < |b| :: s[|a| + i] == b[i];
  }

  lemma {:induction false} ValueConcat(a: string, b: string)
    requires AllDigits(a) && AllDigits(b)
    ensures AllDigits(a + b)
    ensures Value(a + b) == TimesTenTo(Value(a), |b|) + Value(b)
  {
    if b == [] {
      assert a + b == a;
    } else {
      var n := |b| - 1;
      assert (a + b)[..|a + b| - 1] == a + b[..n];
      ValueConcat(a, b[..n]);
    }
  }

  lemma {:induction false} ValueOfZeros(n: nat)
    ensures Value(Zeros(n)) == 0
  {
    if n > 0 {
      assert Zeros(n)[..n - 1] == Zeros(n - 1);
      ValueOfZeros(n - 1);
    }
  }

  lemma ValueLeadingZeros(n: nat, s: string)
    requires AllDigits(s)
    ensures AllDigits(Zeros(n) + s) && Value(Zeros(n) + s) == Value(s)
  {
    ValueConcat(Zeros(n), s);
    ValueOfZeros(n);
    TimesTenToZero(|s|);
  }

  lemma ValueTrailingZeros(s: string, n: nat)
    requires AllDigits(s)
    ensures AllDigits(s + Zeros(n)) && Value(s + Zeros(n)) == TimesTenTo(Value(s), n)
  {
    ValueConcat(s, Zeros(n));
    ValueOfZeros(n);
  }

  lemma {:induction false} ValueBelow(s: string)
    requires AllDigits(s)
    ensures Value(s) < Pow10(|s|)
  {
    if s != [] {
      ValueBelow(s[..|s| - 1]);
    }
  }

  lemma {:induction false} ValueAtLeast(s: string)
    requires AllDigits(s) && s != [] && s[0] != '0'
    ensures Value(s) >= Pow10(|s| - 1)
  {
    if |s| > 1 {
      ValueAtLeast(s[..|s| - 1]);
    }
  }

  lemma ValueNotMultipleOfTen(s: string)
    requires AllDigits(s) && s != [] && s[|s| - 1] != '0'
    ensures Value(s) % 10 != 0 && Value(s) > 0
  {
  }

  // ---------------------------------------------------------------- printing

  /** The decimal digits of `n`, without leading zeros. */
  function Decimal(n: nat): (s: string)
    ensures AllDigits(s) && s != [] && Value(s) == n
    ensures s[0] == '0' ==> s == "0"
  {
    if n < 10 then
      var s := [(n + '0' as int) as char];
      assert s[..0] == [];
      s
    else
      var front := Decimal(n / 10);
      var s := front + [(n % 10 + '0' as int) as char];
      assert s[..|s| - 1] == front;
      assert front[0] != '0' by { assert "0"[..0] == []; }
      s
  }
}
