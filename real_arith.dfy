/**
 The two numeric conversions the oscillator relies on, stated over ideal reals:
 the float-to-integer cast `as usize` and the floating-point remainder `%`.
 */
module RealArith {

  /** True when `t` has no fractional part. */
  predicate IsInteger(t: real) {
    t.Floor as real == t
  }

  /** Rounding toward zero, the rounding that the floating-point remainder uses for its quotient. */
  function Trunc(t: real): (k: int)
    ensures 0.0 <= t ==> 0 <= k && k as real <= t < k as real + 1.0
    ensures t < 0.0 ==> k <= 0 && k as real - 1.0 < t <= k as real
  {
    if 0.0 <= t then t.Floor else -((-t).Floor)
  }

  /**
   The cast of a float to an unsigned machine index: the fractional part is
   dropped, and a negative value saturates to 0.
   */
  function AsUsize(x: real): (n: nat)
    ensures 0.0 <= x ==> n as real <= x < n as real + 1.0
    ensures x <= 0.0 ==> n == 0
  {
    if x <= 0.0 then 0 else x.Floor
  }

  /**
   The floating-point remainder: `x` minus the divisor times the quotient
   rounded toward zero. The result carries the sign of the dividend, lies
   strictly inside (-y, y); FRemDiffersByMultiple shows that it differs from
   `x` by a whole number of `y`s.
   */
  function FRem(x: real, y: real): (r: real)
    requires 0.0 < y
    ensures 0.0 <= x ==> 0.0 <= r < y
    ensures x < 0.0 ==> -y < r <= 0.0
  {
    var k := Trunc(x / y);
    RemainderBounds(x, y, k as real);
    QuotientLower(x, y, 0.0);
    x - k as real * y
  }

  /** Where `x / y` lies relative to `k` fixes where `x - k * y` lies relative to 0 and `y`. */
  lemma RemainderBounds(x: real, y: real, k: real)
    requires 0.0 < y
    ensures k <= x / y < k + 1.0 ==> 0.0 <= x - k * y < y
    ensures k - 1.0 < x / y <= k ==> -y < x - k * y <= 0.0
  {
    QuotientBounds(x, y, k);
  }

  /** Multiplying by a positive factor keeps the order of two reals, and only then. */
  lemma MulMono(a: real, b: real, y: real)
    requires 0.0 < y
    ensures a <= b <==> a * y <= b * y
    ensures a < b <==> a * y < b * y
  {
    assert (b - a) * y == b * y - a * y;
  }

  lemma DivMul(x: real, y: real)
    requires 0.0 < y
    ensures x / y * y == x
  {
  }

  lemma MulDiv(k: real, y: real)
    requires 0.0 < y
    ensures k * y / y == k
  {
  }

  /** A lower bound on a quotient is a lower bound on the dividend, scaled. */
  lemma QuotientLower(x: real, y: real, k: real)
    requires 0.0 < y
    ensures k <= x / y <==> k * y <= x
  {
    DivMul(x, y);
    MulMono(k, x / y, y);
  }

  /** A strict upper bound on a quotient is a strict upper bound on the dividend, scaled. */
  lemma QuotientUpper(x: real, y: real, k: real)
    requires 0.0 < y
    ensures x / y < k <==> x < k * y
  {
    DivMul(x, y);
    MulMono(x / y, k, y);
  }

  /** The bounds that rounding the quotient `x / y` to `k` puts on `x` itself. */
  lemma QuotientBounds(x: real, y: real, k: real)
    requires 0.0 < y
    ensures k <= x / y <==> k * y <= x
    ensures x / y < k + 1.0 <==> x < k * y + y
    ensures k - 1.0 < x / y <==> k * y - y < x
    ensures x / y <= k <==> x <= k * y
  {
    QuotientLower(x, y, k);
    QuotientUpper(x, y, k + 1.0);
    assert (k + 1.0) * y == k * y + y;
    QuotientUpper(-x, y, 1.0 - k);
    assert -x / y == -(x / y);
    assert (1.0 - k) * y == y - k * y;
    QuotientUpper(x, y, k);
    QuotientLower(-x, y, -k);
    assert (-k) * y == -(k * y);
  }

  /**
   For a non-negative dividend the remainder is the Euclidean one: whenever
   `x == q * y + r` with `0 <= r < y`, the remainder is `r`.
   */
  lemma FRemOfDecomposition(x: real, y: real, q: int, r: real)
    requires 0.0 < y && 0.0 <= x
    requires 0.0 <= r < y
    requires x == q as real * y + r
    ensures FRem(x, y) == r
  {
    QuotientBounds(x, y, q as real);
    QuotientLower(x, y, 0.0);
    assert Trunc(x / y) == q;
  }

  /** The remainder differs from the dividend by a whole number of divisors. */
  lemma FRemDiffersByMultiple(x: real, y: real)
    requires 0.0 < y
    ensures IsInteger((x - FRem(x, y)) / y)
  {
    var k := Trunc(x / y);
    var m := k as real * y;
    assert x - FRem(x, y) == m;
    assert m / y == k as real by {
      MulDiv(k as real, y);
    }
    assert (k as real).Floor == k;
  }

  /** A value already in [0, y) is its own remainder. */
  lemma FRemSmall(x: real, y: real)
    requires 0.0 <= x < y
    ensures FRem(x, y) == x
  {
    FRemOfDecomposition(x, y, 0, x);
  }

  /**
   Taking the remainder after each addition gives the same result as taking
   it once at the end.
   */
  lemma FRemAddAbsorbs(x: real, d: real, y: real)
    requires 0.0 < y && 0.0 <= x && 0.0 <= d
    ensures FRem(FRem(x, y) + d, y) == FRem(x + d, y)
  {
    var q1 := Trunc(x / y);
    var r1 := FRem(x, y);
    assert r1 == x - q1 as real * y;
    var q2 := Trunc((r1 + d) / y);
    var r2 := FRem(r1 + d, y);
    assert r2 == r1 + d - q2 as real * y;
    assert x + d == (q1 + q2) as real * y + r2;
    FRemOfDecomposition(x + d, y, q1 + q2, r2);
  }

  /** `s` lies on the segment from `a` to `b`, whichever of the two is larger. */
  predicate Between(s: real, a: real, b: real) {
    (a <= s <= b) || (b <= s <= a)
  }

  /** A blend of `a` and `b` whose weights are non-negative and sum to 1 lies between them. */
  lemma ConvexBetween(a: real, b: real, w: real)
    requires 0.0 <= w <= 1.0
    ensures Between((1.0 - w) * a + w * b, a, b)
  {
    BlendForms(a, b, w);
    if a <= b {
      ScaledDown(1.0 - w, b - a);
    } else {
      ScaledDown(1.0 - w, a - b);
    }
  }

  lemma BlendForms(a: real, b: real, w: real)
    ensures (1.0 - w) * a + w * b == b + (1.0 - w) * (a - b)
    ensures (1.0 - w) * a + w * b == b - (1.0 - w) * (b - a)
  {
  }

  lemma ScaledNonNegative(a: real, b: real)
    requires 0.0 <= a && 0.0 <= b
    ensures 0.0 <= a * b
  {
  }

  /** A non-negative amount scaled by a factor in [0, 1] stays between 0 and itself. */
  lemma ScaledDown(w: real, d: real)
    requires 0.0 <= w <= 1.0 && 0.0 <= d
    ensures 0.0 <= w * d
    ensures w * d <= d
  {
    assert d - w * d == (1.0 - w) * d;
  }
}
