/** Monetary arithmetic shared by the payroll calculators.

    JavaScript numbers are modelled as exact reals; the one non-real value the
    calculators react to, "not a number", is an explicit variant of `Num`.
 */
module Numbers {

  /** A JavaScript number as the calculators see it: a real value or NaN. */
  datatype Num = NaN | Val(v: real)

  /** An optional value (a bracket index that may be absent). */
  datatype Option<T> = None | Some(value: T)

  /** `x` is a whole number of cents. */
  predicate IsCents(x: real) {
    (x * 100.0).Floor as real == x * 100.0
  }

  function Max(a: real, b: real): (m: real)
    ensures m >= a && m >= b
    ensures m == a || m == b
  {
    if a >= b then a else b
  }

  function Min(a: real, b: real): (m: real)
    ensures m <= a && m <= b
    ensures m == a || m == b
  {
    if a <= b then a else b
  }

  /** `Math.round(x * 100) / 100`: round to cents, halves going up (towards
      positive infinity, as `Math.round` does for negative halves too). */
  function Round2(x: real): (r: real)
    ensures IsCents(r)
    ensures x - 0.005 < r <= x + 0.005
    ensures x >= 0.0 ==> r >= 0.0
  {
    ((x * 100.0 + 0.5).Floor as real) / 100.0
  }

  /** A value already in whole cents is left alone by rounding. */
  lemma Round2OfCents(x: real)
    requires IsCents(x)
    ensures Round2(x) == x
  {
    var n := (x * 100.0).Floor;
    FloorOfHalfAbove(n);
    assert x * 100.0 + 0.5 == n as real + 0.5;
  }

  lemma FloorOfHalfAbove(n: int)
    ensures (n as real + 0.5).Floor == n
  {
  }

  /** Rounding to cents never reverses the order of two amounts. */
  lemma Round2Monotone(x: real, y: real)
    requires x <= y
    ensures Round2(x) <= Round2(y)
  {
    var a, b := (x * 100.0 + 0.5).Floor, (y * 100.0 + 0.5).Floor;
    assert a <= b;
    assert (a as real) / 100.0 <= (b as real) / 100.0;
  }

  /** `parseFloat(x.toFixed(2))`: round to cents, halves going away from zero. */
  function ToFixed2(x: real): (r: real)
    ensures IsCents(r)
    ensures x - 0.005 <= r <= x + 0.005
    ensures x >= 0.0 ==> r >= 0.0
  {
    if x < 0.0 then CentsNegate(Round2(-x)); -Round2(-x) else Round2(x)
  }

  lemma CentsNegate(x: real)
    requires IsCents(x)
    ensures IsCents(-x)
  {
    var n := (x * 100.0).Floor;
    assert -x * 100.0 == (-n) as real;
  }

  /** On non-negative amounts `toFixed(2)` and `Math.round` agree; on negative
      ones they differ exactly at the half-cent ties. */
  lemma ToFixed2AgreesOnNonNegative(x: real)
    ensures x >= 0.0 ==> ToFixed2(x) == Round2(x)
    ensures ToFixed2(-0.005) == -0.01 && Round2(-0.005) == 0.0
  {
  }
}
