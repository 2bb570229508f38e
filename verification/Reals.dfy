/**
 Small facts about products, quotients and square roots of reals, each on its own so that no other proof
 has to multiply or divide.
 */
module Reals {

  /** A product by name: a proof that hides it multiplies only where a lemma says so. */
  function Times(x: real, y: real): real { x * y }

  function Square(x: real): real { x * x }

  function Min(x: real, y: real): real { if x < y then x else y }

  function Max(x: real, y: real): real { if x > y then x else y }

  lemma TimesAdds(c: real, x: real, y: real)
    ensures Times(c, x + y) == Times(c, x) + Times(c, y)
  {
  }

  lemma TimesAssociates(x: real, y: real, z: real)
    ensures Times(Times(x, y), z) == Times(x, Times(y, z))
  {
  }

  lemma TimesRegroup(x: real, y: real, z: real)
    ensures Times(x, Times(y, z)) == Times(y, x * z)
  {
    assert x * (y * z) == y * (x * z);
  }

  /** A positive factor keeps the sign. */
  lemma TimesSign(c: real, x: real)
    requires c > 0.0
    ensures Times(c, x) > 0.0 <==> x > 0.0
  {
    if x > 0.0 { ProductPositive(c, x); } else { ProductNotNegative(c, -x); }
  }

  /** A share of something that is not negative is between nothing and all of it. */
  lemma TimesWithin(share: real, x: real)
    requires 0.0 <= share <= 1.0 && 0.0 <= x
    ensures 0.0 <= Times(share, x) <= x && (share == 0.0 ==> Times(share, x) == 0.0)
  {
    ProductNotNegative(share, x);
    ProductNotNegative(1.0 - share, x);
    assert (1.0 - share) * x == x - share * x;
  }

  lemma TimesInUnit(x: real, share: real)
    requires 0.0 <= x && 0.0 <= share <= 1.0
    ensures Times(x, share) >= 0.0 && (x <= 1.0 ==> Times(x, share) <= 1.0)
  {
    ProductNotNegative(x, share);
    if x <= 1.0 { TimesWithin(x, share); }
  }

  lemma SquareNotNegative(x: real)
    ensures Square(x) >= 0.0 && Times(x, x) >= 0.0
  {
  }

  lemma TimesZero(c: real)
    ensures Times(c, 0.0) == 0.0
  {
  }

  lemma ProductPositive(x: real, y: real)
    requires x > 0.0 && y > 0.0
    ensures x * y > 0.0
  {
  }

  lemma ProductNotNegative(x: real, y: real)
    requires x >= 0.0 && y >= 0.0
    ensures x * y >= 0.0
  {
  }

  lemma LargerProduct(a: real, b: real, c: real)
    requires a > b && c > 0.0
    ensures a * c > b * c
  {
    ProductPositive(a - b, c);
  }

  lemma Cancel(x: real, y: real, factor: real)
    requires factor != 0.0 && x * factor == y * factor
    ensures x == y
  {
    assert (x * factor) / factor == x && (y * factor) / factor == y;
  }

  lemma QuotientPositive(x: real, n: real)
    requires x > 0.0 && n > 0.0
    ensures x / n > 0.0 && (x / n) * n == x
  {
  }

  lemma QuotientAtMostOne(x: real, y: real)
    requires x <= y && y > 0.0
    ensures x / y <= 1.0
  {
    var q := x / y;
    assert q * y == x;
    if q > 1.0 { LargerProduct(q, 1.0, y); }
  }

  lemma QuotientBelowOne(x: real, y: real)
    requires 0.0 < x < y
    ensures 0.0 < x / y < 1.0
  {
    QuotientPositive(x, y);
    var q := x / y;
    if q >= 1.0 { ProductNotNegative(q - 1.0, y); }
  }

  lemma QuotientWithin(x: real, y: real)
    requires -y <= x <= y && y > 0.0
    ensures -1.0 <= x / y <= 1.0
  {
    QuotientAtMostOne(x, y);
    QuotientAtMostOne(-x, y);
    Negated(x, y);
  }

  lemma Negated(x: real, y: real)
    requires y != 0.0
    ensures (-x) / y == -(x / y)
  {
    Cancel((-x) / y, -(x / y), y);
  }

  lemma SquareOrder(x: real, y: real)
    requires 0.0 < y < x
    ensures x * x > y * y
  {
    assert x * x - y * y == (x - y) * (x + y);
  }

  lemma QuotientFalls(k: real, a: real, b: real)
    requires k > 0.0 && 0.0 < a < b
    ensures 0.0 < k / b < k / a
  {
    QuotientPositive(k, a);
    QuotientPositive(k, b);
    if k / b >= k / a {
      LargerProduct(b, a, k / a);
      ProductNotNegative(k / b - k / a, b);
    }
  }

  /** A mean with `x` of `s` mixed into `c` of a mean of `n / c`. */
  function Mixed(n: real, c: real, x: real, s: real): real
    requires c + x > 0.0
  {
    (n + Times(x, s)) / (c + x)
  }

  function Gap(k: real, c: real): real
    requires c > 0.0
  {
    k / c
  }

  /** How far it still is from `s`. */
  lemma MixedGap(n: real, c: real, x: real, s: real)
    requires c > 0.0 && x >= 0.0
    ensures Mixed(n, c, x, s) == s - Gap(Times(c, s) - n, c + x)
  {
    var q := (c * s - n) / (c + x);
    assert q * (c + x) == c * s - n;
    assert (s - q) * (c + x) == s * (c + x) - q * (c + x);
    assert s * (c + x) == c * s + x * s;
    Cancel(Mixed(n, c, x, s), s - q, c + x);
  }

  lemma MixedNothing(n: real, c: real, s: real)
    requires c > 0.0
    ensures Mixed(n, c, 0.0, s) == n / c
  {
  }

  /** A gap shrinks as what it is divided by grows, but keeps its sign. */
  lemma GapShrinks(k: real, a: real, b: real)
    requires 0.0 < a < b
    ensures k > 0.0 ==> 0.0 < Gap(k, b) < Gap(k, a)
    ensures k < 0.0 ==> Gap(k, a) < Gap(k, b) < 0.0
    ensures k == 0.0 ==> Gap(k, a) == 0.0 == Gap(k, b)
  {
    if k > 0.0 { QuotientFalls(k, a, b); }
    if k < 0.0 {
      QuotientFalls(-k, a, b);
      Negated(-k, a);
      Negated(-k, b);
    }
  }

  /** Mixing in more of `s` brings the mean strictly nearer to it, never there, from whichever side it comes. */
  lemma MixingMoves(n: real, c: real, x: real, y: real, s: real)
    requires c > 0.0 && 0.0 <= x < y
    ensures s > n / c ==> n / c <= Mixed(n, c, x, s) < Mixed(n, c, y, s) < s
    ensures s < n / c ==> s < Mixed(n, c, y, s) < Mixed(n, c, x, s) <= n / c
    ensures s == n / c ==> Mixed(n, c, x, s) == s == Mixed(n, c, y, s)
  {
    hide Mixed, Times, Gap;
    MixedNothing(n, c, s);
    MixedGap(n, c, 0.0, s);
    MixedGap(n, c, x, s);
    MixedGap(n, c, y, s);
    var k := Times(c, s) - n;
    GapShrinks(k, c, c + y);
    GapShrinks(k, c + x, c + y);
    if x > 0.0 { GapShrinks(k, c, c + x); }
  }

  /** Positive for a positive number, whose square gives the number back. */
  ghost predicate SquareRoot(root: real -> real) {
    forall x :: x > 0.0 ==> root(x) > 0.0 && root(x) * root(x) == x
  }
}
