/**
 Division rounded to the nearest whole number, a tie to the even one, as Python's `round` and the default
 decimal context do it.
 */
module Rounding {

  function HalfEven(n: nat, p: nat): nat
    requires p > 0
  {
    var q, r := n / p, n % p;
    if 2 * r > p || (2 * r == p && q % 2 == 1) then q + 1 else q
  }

  lemma HalfEvenExact(n: nat, p: nat)
    requires p > 0
    ensures HalfEven(n, p) * p == n <==> n % p == 0
  {
    var q, r := n / p, n % p;
    assert n == q * p + r && (q + 1) * p == q * p + p;
  }

  lemma Distributes(s: int, d: int, b: int)
    ensures (s + d) * b == s * b + d * b
  {
  }

  lemma NaturalProduct(d: nat, b: nat)
    ensures d * b >= 0
  {
  }

  /** Another `d` of `b` on top of `s` of them. */
  lemma MultipleGap(s: nat, d: nat, b: nat)
    requires d >= 1
    ensures (s + d) * b >= s * b + b && (d > 1 ==> (s + d) * b >= s * b + 2 * b)
  {
    Distributes(s, d, b);
    Distributes(d - 1, 1, b);
    NaturalProduct(d - 1, b);
    if d > 1 {
      Distributes(d - 2, 2, b);
      NaturalProduct(d - 2, b);
    }
  }

  predicate NearestMultiple(n: nat, p: nat, r: nat) {
    var down, up := 2 * (r * p) - 2 * n, 2 * n - 2 * (r * p);
    down <= p && up <= p && (down == p || up == p ==> r % 2 == 0)
  }

  lemma HalfEvenIsNearestMultiple(n: nat, p: nat)
    requires p > 0
    ensures NearestMultiple(n, p, HalfEven(n, p))
  {
    var q, r := n / p, n % p;
    assert n == q * p + r;
    Distributes(q, 1, p);
  }

  lemma NearestMultipleGrows(a: nat, c: nat, p: nat, r: nat, s: nat)
    requires p > 0 && a <= c && NearestMultiple(a, p, r) && NearestMultiple(c, p, s)
    ensures r <= s
  {
    if r > s { MultipleGap(s, r - s, p); }
  }

  lemma HalfEvenGrows(a: nat, c: nat, p: nat)
    requires p > 0 && a <= c
    ensures HalfEven(a, p) <= HalfEven(c, p)
  {
    HalfEvenIsNearestMultiple(a, p);
    HalfEvenIsNearestMultiple(c, p);
    NearestMultipleGrows(a, c, p, HalfEven(a, p), HalfEven(c, p));
  }

  lemma HalfEvenWithin(a: nat, n: nat, p: nat)
    requires p > 0 && a <= n * p
    ensures HalfEven(a, p) <= n
  {
    HalfEvenIsNearestMultiple(a, p);
    var r := HalfEven(a, p);
    if r > n { MultipleGap(n, r - n, p); }
  }

  lemma MultipleInBetween(q: nat, q': nat, p: nat, r: nat, r': nat)
    requires q * p + r == q' * p + r' && r < p && r' < p
    ensures q == q' && r == r'
  {
    if q < q' { MultipleGap(q, q' - q, p); }
    if q' < q { MultipleGap(q', q - q', p); }
  }

  lemma Regroup(x: nat, y: nat, z: nat)
    ensures (x * y) * z == x * (y * z)
  {
  }

  lemma ProductLess(r: nat, p: nat, m: nat)
    requires m > 0
    ensures r * m < p * m <==> r < p
    ensures r == p ==> r * m == p * m
  {
    if r < p {
      Distributes(r, p - r, m);
      assert (p - r) * m > 0;
    } else {
      Distributes(p, r - p, m);
      NaturalProduct(r - p, m);
    }
  }

  lemma DivisionScaled(n: nat, p: nat, m: nat)
    requires p > 0 && m > 0
    ensures p * m > 0 && (n * m) / (p * m) == n / p && (n * m) % (p * m) == (n % p) * m
  {
    var q, r := n / p, n % p;
    ProductLess(0, p, m);
    ProductLess(r, p, m);
    assert n == q * p + r;
    Distributes(q * p, r, m);
    Regroup(q, p, m);
    var q', r' := (n * m) / (p * m), (n * m) % (p * m);
    assert n * m == q' * (p * m) + r';
    MultipleInBetween(q, q', p * m, r * m, r');
  }

  /** Rounding a division does not depend on a common factor. */
  lemma HalfEvenScaled(n: nat, p: nat, m: nat)
    requires p > 0 && m > 0
    ensures p * m > 0 && HalfEven(n * m, p * m) == HalfEven(n, p)
  {
    DivisionScaled(n, p, m);
    var r := n % p;
    Regroup(2, r, m);
    ProductLess(p, 2 * r, m);
    ProductLess(2 * r, p, m);
  }
}
