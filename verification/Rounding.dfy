/** Decimal rounding as Python's `round` performs it, over exact reals: nearest, ties to even. */
module Rounding {
  function Abs(x: real): (r: real)
  {
    if x < 0.0 then -x else x
  }

  function Min(a: real, b: real): real
  {
    if a <= b then a else b
  }

  function Max(a: real, b: real): real
  {
    if a <= b then b else a
  }

  /** The nearest integer to `x`; the even one when two are equally near. */
  function Nearest(x: real): (n: int)
    ensures Abs(x - n as real) <= 0.5
    ensures Abs(x - n as real) == 0.5 ==> n % 2 == 0
  {
    var low := x.Floor;
    var excess := x - low as real;
    if excess < 0.5 then low
    else if excess > 0.5 then low + 1
    else if low % 2 == 0 then low
    else low + 1
  }

  /** Rounding to four decimals. */
  function Round4(x: real): (r: real)
    ensures Abs(r - x) <= 0.00005
  {
    Nearest(x * 10000.0) as real / 10000.0
  }

  /** Rounding to six decimals. */
  function Round6(x: real): (r: real)
    ensures Abs(r - x) <= 0.0000005
  {
    Nearest(x * 1000000.0) as real / 1000000.0
  }

  lemma Round6IsMonotone(x: real, y: real)
    requires x <= y
    ensures Round6(x) <= Round6(y)
  {
    NearestIsMonotone(x * 1000000.0, y * 1000000.0);
  }

  lemma Round4OfUnits(n: int)
    ensures Round4(n as real / 10000.0) == n as real / 10000.0
  {
    NearestOfWhole(n);
    assert n as real / 10000.0 * 10000.0 == n as real;
  }

  lemma ProductSign(a: real, b: real)
    requires a >= 0.0 && b > 0.0
    ensures a * b >= 0.0 && b * a >= 0.0
    ensures a * b > 0.0 <==> a > 0.0
    ensures b * a > 0.0 <==> a > 0.0
  {
  }

  lemma ProductOrder(a: real, b: real, factor: real)
    requires a <= b && factor >= 0.0
    ensures a * factor <= b * factor
  {
  }

  lemma SumTimes(factor: real, a: real, b: real)
    ensures factor * (a + b) == factor * a + factor * b
  {
  }

  /** Multiplication by a factor of bounded size. */
  lemma ProductBound(a: real, factor: real, bound: real)
    requires Abs(factor) <= bound
    ensures Abs(a * factor) <= Abs(a) * bound
  {
    if a >= 0.0 {
      assert a * factor <= a * bound && a * factor >= a * -bound;
    } else {
      assert -a * factor <= -a * bound && -a * factor >= -a * -bound;
    }
  }

  lemma ScaledBound(a: real, scale: real, bound: real)
    requires Abs(1.0 - scale) <= bound
    ensures Abs(a - a * scale) <= Abs(a) * bound
  {
    ProductBound(a, 1.0 - scale, bound);
    assert a * (1.0 - scale) == a - a * scale;
  }

  lemma QuotientOfSum(a: real, b: real, t: real)
    requires t > 0.0
    ensures a / t + b / t == (a + b) / t
    ensures t / t == 1.0
    ensures a / t * t == a
  {
    assert (a / t + b / t) * t == a / t * t + b / t * t;
  }

  lemma NearestIsMonotone(x: real, y: real)
    requires x <= y
    ensures Nearest(x) <= Nearest(y)
  {
  }

  lemma NearestOfWhole(n: int)
    ensures Nearest(n as real) == n
  {
  }
}
