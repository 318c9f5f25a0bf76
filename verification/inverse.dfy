/** Net to gross: a bounded bisection over the gross-to-net calculation. */
module Inverse {
  import opened Numbers
  import opened Payroll

  /** The search stops once the interval is at most one cent wide... */
  const Tolerance: real := 0.01

  /** ...or after this many halvings. */
  const MaxIterations: nat := 100

  /** The upper end of the search when the caller gives none. */
  const DefaultMaxSearch: real := 1000000.0

  /** When the upper end is too low it is replaced once by this multiple of
      the target. */
  const WidenFactor: real := 2.5

  /** `2^n`, only as the reference reading of `Scaled` (see ScaledIsProduct). */
  function Pow2(n: nat): real
    decreases n
  {
    if n == 0 then 1.0 else 2.0 * Pow2(n - 1)
  }

  /** The upper end the search starts from, for a positive target: the
      caller's bound if its net already reaches the target, otherwise the
      widened bound if that one does, otherwise NaN (the target is declared
      unreachable). */
  function InitialHigh(target: real, maxSearch: Num): (h: Num)
    requires target > 0.0
    ensures h.Val? ==> NetOf(h.v) >= target && h.v >= 0.0
    ensures h.NaN? <==> NetDetail(maxSearch).net < target && NetOf(WidenFactor * target) < target
    ensures NetDetail(maxSearch).net >= target ==> h == maxSearch
    ensures h.Val? && NetDetail(maxSearch).net < target ==> h.v == WidenFactor * target
  {
    if NetDetail(maxSearch).net < target then
      if NetOf(WidenFactor * target) < target then NaN else Val(WidenFactor * target)
    else
      maxSearch
  }

  /** With the default bound every positive target is reachable: the NaN
      sentinel is never produced. Targets up to 600000 are reached below the
      default bound; larger ones are reached at the widened bound, since net
      pay keeps more than 62% of the gross. */
  lemma DefaultBoundAlwaysReachable(target: real)
    requires target > 0.0
    ensures InitialHigh(target, Val(DefaultMaxSearch)).Val?
  {
    if target <= 600000.0 {
      NetAtLeast(DefaultMaxSearch);
    } else {
      NetAtLeast(WidenFactor * target);
    }
  }

  /** `w` doubled `n` times, that is `w * 2^n` (see ScaledIsProduct); written
      with repeated doubling so that the loop's width invariant stays linear. */
  function Scaled(w: real, n: nat): real
    decreases n
  {
    if n == 0 then w else Scaled(2.0 * w, n - 1)
  }

  lemma {:induction false} ScaledIsProduct(w: real, n: nat)
    ensures Scaled(w, n) == w * Pow2(n)
    decreases n
  {
    if n > 0 {
      ScaledIsProduct(2.0 * w, n - 1);
      assert (2.0 * w) * Pow2(n - 1) == w * (2.0 * Pow2(n - 1));
    }
  }

  /** Doubling `n` times keeps the order of two widths. */
  lemma {:induction false} ScaledMonotone(a: real, b: real, n: nat)
    ensures a <= b <==> Scaled(a, n) <= Scaled(b, n)
    decreases n
  {
    if n > 0 {
      ScaledMonotone(2.0 * a, 2.0 * b, n - 1);
    }
  }

  /** Doubling `m + n` times is doubling `m` times, then `n` times. */
  lemma {:induction false} ScaledSplit(w: real, m: nat, n: nat)
    ensures Scaled(w, m + n) == Scaled(Scaled(w, m), n)
    decreases m
  {
    if m > 0 {
      ScaledSplit(2.0 * w, m - 1, n);
    }
  }

  /** Ten doublings multiply by 1024. */
  lemma ScaledTen(w: real)
    ensures Scaled(w, 10) == 1024.0 * w
  {
  }

  /** Doubling never shrinks a non-negative width. */
  lemma {:induction false} ScaledAtLeast(w: real, n: nat)
    requires w >= 0.0
    ensures Scaled(w, n) >= w
    decreases n
  {
    if n > 0 {
      ScaledAtLeast(2.0 * w, n - 1);
    }
  }

  /** The bisection loop on an arbitrary objective `f`: starting from
      `[low, high]` with `f(high) >= target`, halve the interval, keeping the
      half whose upper end still reaches the target, until it is at most one
      cent wide or the iteration cap is hit. */
  method Bisect(f: real -> real, target: real, low: real, high: real)
    returns (lo: real, hi: real, iterations: nat)
    requires f(high) >= target
    ensures f(hi) >= target
    ensures lo == low || f(lo) < target
    ensures low <= high ==> low <= lo <= hi <= high
    ensures Scaled(hi - lo, iterations) == high - low
    ensures iterations <= MaxIterations
    ensures hi - lo <= Tolerance || iterations == MaxIterations
    ensures iterations == 0 <==> high - low <= Tolerance
    ensures iterations == 0 ==> lo == low && hi == high
    ensures iterations > 0 ==> Scaled(Tolerance, iterations - 1) < high - low
    ensures high - low <= Scaled(Tolerance, MaxIterations) ==> hi - lo <= Tolerance
  {
    lo, hi, iterations := low, high, 0;
    while hi - lo > Tolerance && iterations < MaxIterations
      invariant iterations <= MaxIterations
      invariant f(hi) >= target
      invariant lo == low || f(lo) < target
      invariant low <= high ==> low <= lo <= hi <= high
      invariant iterations == 0 ==> lo == low && hi == high
      invariant high - low <= Tolerance ==> iterations == 0
      invariant iterations > 0 ==> Scaled(Tolerance, iterations - 1) < high - low
      invariant Scaled(hi - lo, iterations) == high - low
      decreases MaxIterations - iterations
    {
      var mid := lo + (hi - lo) / 2.0;
      ghost var w := hi - lo;
      ScaledMonotone(w, Tolerance, iterations);
      if f(mid) < target {
        lo := mid;
      } else {
        hi := mid;
      }
      assert Scaled(hi - lo, iterations + 1) == Scaled(w, iterations);
      iterations := iterations + 1;
    }
    if high - low <= Scaled(Tolerance, MaxIterations) && iterations == MaxIterations {
      ScaledMonotone(hi - lo, Tolerance, iterations);
    }
  }

  /** With the default bound, a target up to 4,000,000 starts the search on an
      interval narrow enough to reach the one-cent tolerance in fewer than
      100 halvings. */
  lemma DefaultSearchWithinCap(target: real)
    requires 0.0 < target <= 4000000.0
    ensures InitialHigh(target, Val(DefaultMaxSearch)).Val?
    ensures InitialHigh(target, Val(DefaultMaxSearch)).v - target <= Scaled(Tolerance, MaxIterations - 1)
  {
    DefaultBoundAlwaysReachable(target);
    ScaledTen(Tolerance);
    ScaledTen(Scaled(Tolerance, 10));
    ScaledTen(Scaled(Scaled(Tolerance, 10), 10));
    ScaledSplit(Tolerance, 10, 10);
    ScaledSplit(Tolerance, 20, 10);
    assert Scaled(Tolerance, 30) == 10737418.24;
    ScaledSplit(Tolerance, 30, MaxIterations - 1 - 30);
    ScaledAtLeast(Scaled(Tolerance, 30), MaxIterations - 1 - 30);
  }

  /** What a successful search from `[target, high]` returns: the rounded
      midpoint of a final interval `[lo, hi]` whose upper end reaches the
      target and whose lower end is the target itself or falls short of it;
      the interval lies inside an ordered start and is the start itself when
      the start is reversed, is at most one cent wide unless the iteration
      cap was hit, and after the cap is exactly the start halved 100 times. */
  ghost predicate Found(target: real, high: real, lo: real, hi: real, gross: real, capReached: bool) {
    && NetOf(hi) >= target
    && (lo == target || NetOf(lo) < target)
    && (target <= high ==> target <= lo <= hi <= high)
    && (high < target ==> lo == target && hi == high)
    && (!capReached ==> hi - lo <= Tolerance)
    && (capReached ==> Scaled(hi - lo, MaxIterations) == high - target)
    && gross == ToFixed2((lo + hi) / 2.0)
  }

  /** `sueldoBrutoDesdeNeto`: the gross salary whose net pay is `target`,
      found by bisection. `capReached` reports that the iteration cap was hit
      (the condition the source logs a warning for). */
  method GrossFromNet(target: Num, maxSearch: Num) returns (gross: Num, capReached: bool)
    ensures target.NaN? || target.v <= 0.0 ==> gross == Val(0.0) && !capReached
    ensures target.Val? && target.v > 0.0 ==>
      (gross.NaN? <==> InitialHigh(target.v, maxSearch).NaN?)
    ensures gross.NaN? ==> !capReached
    ensures capReached ==>
      && target.Val? && target.v > 0.0 && InitialHigh(target.v, maxSearch).Val?
      && Scaled(Tolerance, MaxIterations - 1) < InitialHigh(target.v, maxSearch).v - target.v
    ensures target.Val? && target.v > 0.0 && gross.Val? ==>
      && gross.v >= 0.0
      && InitialHigh(target.v, maxSearch).Val?
      && exists lo, hi :: Found(target.v, InitialHigh(target.v, maxSearch).v, lo, hi, gross.v, capReached)
  {
    if target.NaN? || target.v <= 0.0 {
      return Val(0.0), false;
    }
    var t := target.v;
    var high := InitialHigh(t, maxSearch);
    if high.NaN? {
      return NaN, false;
    }
    var lo, hi, iterations := Bisect(NetOf, t, t, high.v);
    assert NetOf(hi) >= t;
    assert lo == t || NetOf(lo) < t;
    capReached := iterations >= MaxIterations;
    gross := Val(ToFixed2((lo + hi) / 2.0));
    assert Found(t, high.v, lo, hi, gross.v, capReached);
  }

  /** The calculator's own call, with the default upper bound: a positive
      target always yields a number. */
  method GrossFromNetDefault(target: Num) returns (gross: Num, capReached: bool)
    ensures gross.Val?
    ensures target.NaN? || target.v <= 0.0 ==> gross == Val(0.0)
    ensures target.Val? && target.v > 0.0 ==>
      && InitialHigh(target.v, Val(DefaultMaxSearch)).Val?
      && exists lo, hi :: Found(target.v, InitialHigh(target.v, Val(DefaultMaxSearch)).v, lo, hi, gross.v, capReached)
    ensures target.Val? && target.v <= 4000000.0 ==> !capReached
  {
    if target.Val? && target.v > 0.0 {
      DefaultBoundAlwaysReachable(target.v);
      if target.v <= 4000000.0 {
        DefaultSearchWithinCap(target.v);
      }
    }
    gross, capReached := GrossFromNet(target, Val(DefaultMaxSearch));
  }
}
