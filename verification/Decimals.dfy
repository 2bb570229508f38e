/**
 Python's `Decimal` as far as orders use it: a sign, a coefficient and a power of ten, at 28 digits of
 precision, and rounding to the grid of a power of ten.
 */
module Decimals {
  import opened Common
  import Reals

  /** Digits an arithmetic result may have; `quantize` raises and `normalize` rounds beyond it. */
  const PRECISION: nat := 28

  datatype Dec = Dec(negative: bool, coeff: nat, exp: int)

  datatype Rounding = Down | Floor | Ceiling

  function Pow10(n: nat): (p: nat)
    ensures p > 0
  {
    if n == 0 then 1 else 10 * Pow10(n - 1)
  }

  function Tenths(n: nat): (p: real)
    ensures p > 0.0
  {
    if n == 0 then 1.0 else 0.1 * Tenths(n - 1)
  }

  /** Ten to any integer power. */
  function P10(e: int): (p: real)
    ensures p > 0.0
  {
    if e >= 0 then Pow10(e) as real else Tenths(-e)
  }

  lemma P10Next(e: int)
    ensures P10(e + 1) == 10.0 * P10(e)
  {
  }

  lemma TenfoldProduct(x: real, y: real)
    ensures Reals.Times(x, 10.0 * y) == 10.0 * Reals.Times(x, y)
    ensures Reals.Times(x, 1.0) == x
  {
  }

  lemma {:induction false} P10Sum(a: int, b: int)
    ensures P10(a + b) == Reals.Times(P10(a), P10(b))
    decreases if b < 0 then -b else b
  {
    if b == 0 {
      TenfoldProduct(P10(a), 1.0);
    } else if b > 0 {
      P10Sum(a, b - 1);
      P10Next(a + b - 1);
      TenfoldProduct(P10(a), P10(b - 1));
    } else {
      P10Sum(a, b + 1);
      P10Next(a + b);
      P10Next(b);
      TenfoldProduct(P10(a), P10(b));
    }
  }

  lemma {:induction false} P10OfNat(n: nat)
    ensures P10(n) == Pow10(n) as real
  {
    if n > 0 { P10OfNat(n - 1); }
  }

  lemma {:induction false} P10Grows(a: int, b: int)
    requires a <= b
    ensures P10(a) <= P10(b)
    decreases b - a
  {
    if a < b {
      P10Grows(a, b - 1);
      P10Next(b - 1);
    }
  }

  /** The multiple `k` of a power of ten. */
  function Times(k: int, e: int): real {
    Reals.Times(k as real, P10(e))
  }

  function Val(d: Dec): real {
    Times(if d.negative then -(d.coeff as int) else d.coeff, d.exp)
  }

  /** How many digits `n` prints with. */
  function Digits(n: nat): (k: nat)
    ensures k >= 1
  {
    if n < 10 then 1 else 1 + Digits(n / 10)
  }

  lemma {:induction false} DigitsBound(n: nat)
    ensures n < Pow10(Digits(n)) && (n > 0 ==> Pow10(Digits(n) - 1) <= n)
  {
    if n >= 10 { DigitsBound(n / 10); }
  }

  lemma {:induction false} Pow10Grows(a: nat, b: nat)
    requires a <= b
    ensures Pow10(a) <= Pow10(b)
    decreases b
  {
    if a < b { Pow10Grows(a, b - 1); }
  }

  /** `adjusted()`: the power of ten of the leading digit. */
  function Adjusted(d: Dec): int {
    d.exp + Digits(d.coeff) - 1
  }

  function Quotient(n: nat, p: nat): nat
    requires p > 0
  {
    n / p
  }

  /** A coefficient moved by a power of ten; what falls off the end is dropped or rounds the magnitude up. */
  function Shifted(coeff: nat, shift: int, up: bool): nat {
    if shift >= 0 then coeff * Pow10(shift)
    else Quotient(coeff + (if up then Pow10(-shift) - 1 else 0), Pow10(-shift))
  }

  predicate Away(d: Dec, rounding: Rounding) {
    (rounding == Floor && d.negative) || (rounding == Ceiling && !d.negative)
  }

  /** `quantize`: the same number on the grid of `10**exp`, or InvalidOperation when that takes too many digits. */
  function Quantize(d: Dec, exp: int, rounding: Rounding): Option<Dec> {
    var coeff := Shifted(d.coeff, d.exp - exp, Away(d, rounding));
    if Digits(coeff) > PRECISION then None else Some(Dec(d.negative, coeff, exp))
  }

  /** `int(d)` of a number that is not negative. */
  function IntegerPart(d: Dec): nat {
    Shifted(d.coeff, d.exp, false)
  }

  // ----- Grids of multiples of a power of ten

  ghost predicate OnGrid(x: real, e: int) {
    exists k: int :: x == Times(k, e)
  }

  /** `r` is the nearest multiple of `10**e` to `x` from below (`down`) or from above. */
  ghost predicate Nearest(x: real, e: int, r: real, down: bool) {
    && OnGrid(r, e)
    && (if down then r <= x else x <= r)
    && forall y :: OnGrid(y, e) && (if down then y <= x else x <= y) ==> if down then y <= r else r <= y
  }

  lemma ProductOrder(x: real, y: real, p: real)
    requires p > 0.0
    ensures Reals.Times(x, p) < Reals.Times(y, p) <==> x < y
  {
    if x < y { assert (y - x) * p > 0.0; }
    if y < x { assert (x - y) * p > 0.0; }
  }

  lemma TimesOrder(a: int, b: int, e: int)
    ensures Times(a, e) < Times(b, e) <==> a < b
  {
    ProductOrder(a as real, b as real, P10(e));
  }

  lemma ProductOfInts(k: int, n: int, x: real)
    ensures Reals.Times((k * n) as real, x) == Reals.Times(k as real, Reals.Times(x, n as real))
  {
    assert (k * n) as real == k as real * n as real;
  }

  /** The same multiple, written on a finer grid. */
  lemma TimesFiner(k: int, e: int, n: nat)
    ensures Times(k * Pow10(n), e) == Times(k, e + n)
  {
    P10Sum(e, n);
    P10OfNat(n);
    ProductOfInts(k, Pow10(n), P10(e));
  }

  lemma GridCoarser(x: real, e: int, f: int)
    requires f <= e && OnGrid(x, e)
    ensures OnGrid(x, f)
  {
    var k: int :| x == Times(k, e);
    TimesFiner(k, f, e - f);
  }

  /** Rounding to a grid and then to another is rounding once, to the coarser of the two. */
  lemma NearestTwice(x: real, e: int, a: real, f: int, b: real, down: bool)
    requires Nearest(x, e, a, down) && Nearest(a, f, b, down)
    ensures Nearest(x, if e < f then f else e, b, down)
  {
    if e < f {
      forall y | OnGrid(y, f) && (if down then y <= x else x <= y)
        ensures if down then y <= b else b <= y
      {
        GridCoarser(y, f, e);
      }
    } else {
      GridCoarser(a, e, f);
      assert b == a;
    }
  }

  lemma NearestFromBounds(x: real, e: int, k: int, down: bool)
    requires down ==> Times(k, e) <= x < Times(k + 1, e)
    requires !down ==> Times(k - 1, e) < x <= Times(k, e)
    ensures Nearest(x, e, Times(k, e), down)
  {
    forall y | OnGrid(y, e) && (if down then y <= x else x <= y)
      ensures if down then y <= Times(k, e) else Times(k, e) <= y
    {
      var j: int :| y == Times(j, e);
      if down {
        TimesOrder(j, k + 1, e);
        TimesOrder(k, j, e);
      } else {
        TimesOrder(k - 1, j, e);
        TimesOrder(j, k, e);
      }
    }
  }

  /** What rounding a quotient leaves, in terms of what was divided. */
  lemma QuotientBounds(coeff: nat, p: nat, up: bool)
    requires p > 0
    ensures var c := Quotient(coeff + (if up then p - 1 else 0), p);
      if up then (c - 1) * p < coeff <= c * p else c * p <= coeff < (c + 1) * p
  {
    var n := coeff + (if up then p - 1 else 0);
    var q := Quotient(n, p);
    assert n == q * p + n % p;
    assert (q + 1) * p == q * p + p && (q - 1) * p == q * p - p;
  }

  /** Moving a coefficient is rounding its number to the grid, and exact on a finer grid. */
  lemma ShiftedIsNearest(d: Dec, exp: int, up: bool)
    requires !d.negative
    ensures Nearest(Val(d), exp, Times(Shifted(d.coeff, d.exp - exp, up), exp), !up)
    ensures d.exp >= exp ==> Times(Shifted(d.coeff, d.exp - exp, up), exp) == Val(d)
  {
    var c := Shifted(d.coeff, d.exp - exp, up);
    if d.exp >= exp {
      TimesFiner(d.coeff, exp, d.exp - exp);
      TimesOrder(c - 1, c, exp);
      TimesOrder(c, c + 1, exp);
    } else {
      var n := exp - d.exp;
      QuotientBounds(d.coeff, Pow10(n), up);
      TimesFiner(c, d.exp, n);
      if up {
        TimesFiner(c - 1, d.exp, n);
        TimesOrder((c - 1) * Pow10(n), d.coeff, d.exp);
        TimesOrder(c * Pow10(n), d.coeff, d.exp);
      } else {
        TimesFiner(c + 1, d.exp, n);
        TimesOrder(d.coeff, (c + 1) * Pow10(n), d.exp);
        TimesOrder(d.coeff, c * Pow10(n), d.exp);
      }
    }
    NearestFromBounds(Val(d), exp, c, !up);
  }

  /** Quantizing a number that is not negative is rounding it to the grid, and exact on a finer grid. */
  lemma QuantizeIsNearest(d: Dec, exp: int, rounding: Rounding)
    requires !d.negative && Quantize(d, exp, rounding).Some?
    ensures Nearest(Val(d), exp, Val(Quantize(d, exp, rounding).value), rounding != Ceiling)
    ensures d.exp >= exp ==> Val(Quantize(d, exp, rounding).value) == Val(d)
  {
    ShiftedIsNearest(d, exp, rounding == Ceiling);
  }
}
