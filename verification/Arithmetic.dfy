/** Whole-number facts shared by the models: powers of two, and quotients and remainders. */
module Arithmetic {
  const MILLI := 1_000_000 // nanoseconds in a millisecond

  function Min(a: int, b: int): int { if a < b then a else b }

  function Pow2(k: nat): (p: nat)
    ensures p > 0
  {
    if k == 0 then 1 else 2 * Pow2(k - 1)
  }

  lemma {:induction false} Pow2Grows(a: nat, b: nat)
    requires a <= b
    ensures Pow2(a) <= Pow2(b)
    decreases b - a
  {
    if a < b {
      Pow2Grows(a, b - 1);
    }
  }

  /** A quotient and a remainder in range are the quotient and the remainder. */
  lemma DivModUnique(a: int, d: int, q: int, r: int)
    requires d > 0 && a == q * d + r && 0 <= r < d
    ensures a / d == q && a % d == r
  {
    var x := a / d - q;
    assert a == (a / d) * d + a % d;
    assert x * d == (a / d) * d - q * d;
    assert x >= 1 ==> x * d >= d;
    assert x <= -1 ==> x * d <= -d;
  }

  /** The multiple of a unit at or before a number. */
  lemma UnitStep(t: int, unit: int)
    requires unit > 0
    ensures t - t % unit == t / unit * unit && t / unit * unit <= t < t / unit * unit + unit
  {
    assert t == t / unit * unit + t % unit;
  }

  lemma OneUnit(q: int, t: int, unit: int)
    requires unit > 0 && q * unit <= t < q * unit + unit
    ensures t / unit == q
  {
    DivModUnique(t, unit, q, t - q * unit);
  }

  /** A multiple of a unit divides to its factor. */
  lemma MultipleDiv(q: int, unit: int)
    requires unit > 0
    ensures q * unit / unit == q
  {
    DivModUnique(q * unit, unit, q, 0);
  }

  lemma MulMonotone(a: int, b: int, unit: int)
    requires a <= b && unit > 0
    ensures a * unit <= b * unit
  {
    assert (b - a) * unit >= 0;
  }

  lemma DivBounds(lo: int, hi: int, t: int, unit: int)
    requires unit > 0 && lo * unit <= t < hi * unit
    ensures lo <= t / unit < hi
  {
    var q := t / unit;
    UnitStep(t, unit);
    if q < lo {
      MulMonotone(q + 1, lo, unit);
    }
    if hi <= q {
      MulMonotone(hi, q, unit);
    }
  }

  /** One unit more is one more in the quotient and the same remainder. */
  lemma DivShift(a: int, d: int)
    requires d > 0
    ensures (a + d) / d == a / d + 1 && (a + d) % d == a % d
  {
    UnitStep(a, d);
    assert (a / d + 1) * d == a / d * d + d;
    DivModUnique(a + d, d, a / d + 1, a % d);
  }
}
