/** Exact decimal numbers n * 10^e and their values in hundredths. */
module Decimals {
  import opened Digits

  /** Ten to an integer power, exactly. */
  ghost function TenTo(e: int): real
    decreases if e < 0 then -e else e
  {
    if e == 0 then 1.0 else if e > 0 then 10.0 * TenTo(e - 1) else TenTo(e + 1) / 10.0
  }

  /** The number n * 10^e. */
  ghost function Scaled(n: int, e: int): real {
    n as real * TenTo(e)
  }

  function Excess(k: int): nat {
    if k > 0 then k else 0
  }

  /** n * 10^e is exactly `h` hundredths, with the denominators multiplied out. */
  predicate Denotes(n: int, e: int, h: int) {
    TimesTenTo(n, Excess(e + 2)) == TimesTenTo(h, Excess(-(e + 2)))
  }

  /** `Denotes` is equality of exact numbers. */
  lemma DenotesMeansEqual(n: int, e: int, h: int)
    ensures Denotes(n, e, h) <==> h as real == 100.0 * Scaled(n, e)
  {
    if e + 2 >= 0 {
      ScaleUp(n, e + 2);
    } else {
      ScaleUp(h, -(e + 2));
      TenToInverse(-(e + 2));
      RealQuotient(h as real, n as real, TenTo(-(e + 2)), TenTo(e + 2));
    }
    TenToSteps(e);
  }

  lemma TenToSteps(e: int)
    ensures TenTo(e + 2) == 100.0 * TenTo(e)
  {
    if e < 0 {
      assert TenTo(e) == TenTo(e + 1) / 10.0;
      if e + 1 < 0 {
        assert TenTo(e + 1) == TenTo(e + 2) / 10.0;
      }
    }
  }

  lemma {:induction false} ScaleUp(n: int, k: nat)
    ensures TimesTenTo(n, k) as real == n as real * TenTo(k)
  {
    if k > 0 {
      ScaleUp(n, k - 1);
    }
  }

  lemma {:induction false} TenToInverse(k: int)
    requires k >= 0
    ensures TenTo(k) > 0.0 && TenTo(-k) * TenTo(k) == 1.0
  {
    if k > 0 {
      TenToInverse(k - 1);
      assert TenTo(-k) == TenTo(-(k - 1)) / 10.0;
    }
  }

  lemma RealQuotient(h: real, n: real, p: real, q: real)
    requires p > 0.0 && q * p == 1.0
    ensures n == h * p <==> h == n * q
  {
    if n == h * p {
      assert n * q == h * (q * p);
    }
    if h == n * q {
      assert h * p == n * (q * p);
    }
  }

  /** Any sufficiently large common scale decides `Denotes`. */
  lemma DenotesAtScale(n: int, e: int, h: int, k: nat)
    requires k >= Excess(-(e + 2))
    ensures Denotes(n, e, h) <==> TimesTenTo(n, k + e + 2) == TimesTenTo(h, k)
  {
    var low := Excess(-(e + 2));
    TimesTenToAdds(h, low, k - low);
    TimesTenToAdds(n, low + e + 2, k - low);
    TimesTenToOrder(TimesTenTo(n, low + e + 2), TimesTenTo(h, low), k - low);
  }

  /** Moving trailing zeros into the exponent keeps the number. */
  lemma DenotesShift(n: int, e: int, z: nat, h: int)
    ensures Denotes(TimesTenTo(n, z), e, h) <==> Denotes(n, e + z, h)
  {
    var k := Excess(-(e + 2));
    DenotesAtScale(TimesTenTo(n, z), e, h, k);
    DenotesAtScale(n, e + z, h, k);
    TimesTenToAdds(n, z, k + e + 2);
  }

  lemma DenotesUnique(n: int, e: int, h: int, g: int)
    requires Denotes(n, e, h) && Denotes(n, e, g)
    ensures h == g
  {
    TimesTenToOrder(h, g, Excess(-(e + 2)));
  }
}
