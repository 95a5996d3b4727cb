/**
 Minimum and maximum, Ruby's `Float#round(4)` and `Comparable#clamp`, over the reals, and the sign rule for products.
 */
module Rounding {

  function Clamp(x: real, lo: real, hi: real): real {
    if x < lo then lo else if x > hi then hi else x
  }

  function Min(a: real, b: real): real { if a <= b then a else b }

  function Max(a: real, b: real): real { if a >= b then a else b }

  /** A product under a name, so that proofs can hide its definition. */
  function Times(p: real, q: real): real { p * q }

  lemma TimesSign(p: real, q: real)
    requires p >= 0.0 && q >= 0.0
    ensures Times(p, q) >= 0.0 && (p > 0.0 && q > 0.0 ==> Times(p, q) > 0.0)
  {
  }

  /** Rounds half away from zero to four decimal places. */
  function Round4(x: real): real {
    if x >= 0.0 then (x * 10000.0 + 0.5).Floor as real / 10000.0
    else -((-x * 10000.0 + 0.5).Floor as real / 10000.0)
  }

  /** A value already rounded to four places. */
  predicate FourPlaces(x: real) {
    (x * 10000.0).Floor as real == x * 10000.0
  }

  lemma FloorOfSum(n: int, f: real)
    requires 0.0 <= f < 1.0
    ensures (n as real + f).Floor == n
  {
  }

  lemma Round4Properties(x: real)
    requires x >= 0.0
    ensures Round4(x) >= 0.0 && FourPlaces(Round4(x))
    ensures x - 0.00005 < Round4(x) <= x + 0.00005
    ensures FourPlaces(x) ==> Round4(x) == x
  {
    var n := (x * 10000.0 + 0.5).Floor;
    assert Round4(x) * 10000.0 == n as real;
    FloorOfSum(n, 0.0);
    if FourPlaces(x) { FloorOfSum((x * 10000.0).Floor, 0.5); }
  }

  lemma Round4Monotone(x: real, y: real)
    requires 0.0 <= x <= y
    ensures Round4(x) <= Round4(y)
  {
    var m, n := (x * 10000.0 + 0.5).Floor, (y * 10000.0 + 0.5).Floor;
    assert x * 10000.0 <= y * 10000.0;
    assert m <= n;
    assert Round4(x) * 10000.0 == m as real && Round4(y) * 10000.0 == n as real;
  }

  /** Rounding stays on the same side of any bound that is itself a four-place value. */
  lemma Round4Between(x: real, lo: real, hi: real)
    requires 0.0 <= lo <= x <= hi && FourPlaces(lo) && FourPlaces(hi)
    ensures lo <= Round4(x) <= hi
  {
    Round4Monotone(lo, x);
    Round4Monotone(x, hi);
    Round4Properties(lo);
    Round4Properties(hi);
  }
}
