/**
 Sums of reals over sequences: how a sum grows, splits, scales and adds, and that it does not depend on
 the order it is taken in.
 */
module Sums {
  import opened Common

  /** `sum(f(x) for x in xs)`. */
  function SumOf<T>(f: T -> real, xs: seq<T>): real {
    if xs == [] then 0.0 else SumOf(f, Front(xs)) + f(Last(xs))
  }

  function Itself(x: real): real { x }

  function Sum(xs: seq<real>): real {
    SumOf(Itself, xs)
  }

  function MeanBy<T>(f: T -> real, xs: seq<T>): real
    requires xs != []
  {
    SumOf(f, xs) / |xs| as real
  }

  function Mean(xs: seq<real>): real
    requires xs != []
  {
    MeanBy(Itself, xs)
  }

  lemma SumOfAdd<T>(f: T -> real, xs: seq<T>, x: T)
    ensures SumOf(f, xs + [x]) == SumOf(f, xs) + f(x)
  {
    assert Front(xs + [x]) == xs;
  }

  lemma SumOfNext<T>(f: T -> real, xs: seq<T>, k: nat)
    requires k < |xs|
    ensures SumOf(f, xs[..k + 1]) == SumOf(f, xs[..k]) + f(xs[k])
  {
    SumOfAdd(f, xs[..k], xs[k]);
    assert xs[..k] + [xs[k]] == xs[..k + 1];
  }

  lemma {:induction false} SumOfConcat<T>(f: T -> real, xs: seq<T>, ys: seq<T>)
    ensures SumOf(f, xs + ys) == SumOf(f, xs) + SumOf(f, ys)
  {
    if ys == [] {
      assert xs + ys == xs;
    } else {
      SumOfConcat(f, xs, Front(ys));
      assert Front(xs + ys) == xs + Front(ys);
    }
  }

  lemma SumOfHead<T>(f: T -> real, xs: seq<T>)
    requires xs != []
    ensures SumOf(f, xs) == f(xs[0]) + SumOf(f, xs[1..])
  {
    SumOfConcat(f, [xs[0]], xs[1..]);
    assert [xs[0]] + xs[1..] == xs;
    assert Front([xs[0]]) == [];
  }

  lemma {:induction false} SumOfRemoved<T>(f: T -> real, xs: seq<T>, i: nat)
    requires i < |xs|
    ensures SumOf(f, xs) == SumOf(f, xs[..i] + xs[i + 1..]) + f(xs[i])
  {
    SumOfConcat(f, xs[..i], xs[i + 1..]);
    SumOfConcat(f, xs[..i + 1], xs[i + 1..]);
    SumOfAdd(f, xs[..i], xs[i]);
    assert xs[..i] + [xs[i]] == xs[..i + 1] && xs[..i + 1] + xs[i + 1..] == xs;
  }

  lemma WithoutOne<T>(xs: seq<T>, i: nat)
    requires i < |xs|
    ensures multiset(xs[..i] + xs[i + 1..]) == multiset(xs) - multiset{xs[i]}
  {
    assert xs == xs[..i] + [xs[i]] + xs[i + 1..];
  }

  lemma WithoutLast<T>(xs: seq<T>)
    requires xs != []
    ensures multiset(xs) == multiset(Front(xs)) + multiset{Last(xs)}
  {
    assert xs == Front(xs) + [Last(xs)];
  }

  /** Where a permutation puts the last element, and that the rest are permuted too. */
  lemma FindLast<T>(xs: seq<T>, ys: seq<T>) returns (i: nat)
    requires xs != [] && multiset(xs) == multiset(ys)
    ensures i < |ys| && ys[i] == Last(xs) && multiset(Front(xs)) == multiset(ys[..i] + ys[i + 1..])
  {
    WithoutLast(xs);
    assert Last(xs) in multiset(ys);
    i :| 0 <= i < |ys| && ys[i] == Last(xs);
    WithoutOne(ys, i);
  }

  /** A sum does not depend on the order it is taken in. */
  lemma {:induction false} SumOfPermuted<T>(f: T -> real, xs: seq<T>, ys: seq<T>)
    requires multiset(xs) == multiset(ys)
    ensures SumOf(f, xs) == SumOf(f, ys)
    decreases |xs|
  {
    if xs == [] {
      assert |multiset(ys)| == 0;
      assert ys == [];
    } else {
      var i := FindLast(xs, ys);
      SumOfPermuted(f, Front(xs), ys[..i] + ys[i + 1..]);
      SumOfRemoved(f, ys, i);
    }
  }

  lemma {:induction false} SumOfSame<T>(f: T -> real, g: T -> real, xs: seq<T>)
    requires forall x :: x in xs ==> f(x) == g(x)
    ensures SumOf(f, xs) == SumOf(g, xs)
  {
    if xs != [] { SumOfSame(f, g, Front(xs)); }
  }

  lemma {:induction false} SumOfBoth<T>(f: T -> real, g: T -> real, h: T -> real, xs: seq<T>)
    requires forall x :: x in xs ==> h(x) == f(x) + g(x)
    ensures SumOf(h, xs) == SumOf(f, xs) + SumOf(g, xs)
  {
    if xs != [] { SumOfBoth(f, g, h, Front(xs)); }
  }

  lemma {:induction false} SumOfNonNegative<T>(f: T -> real, xs: seq<T>)
    requires forall x :: x in xs ==> f(x) >= 0.0
    ensures SumOf(f, xs) >= 0.0
    ensures forall x :: x in xs ==> f(x) <= SumOf(f, xs)
  {
    if xs != [] { SumOfNonNegative(f, Front(xs)); }
  }

  lemma {:induction false} SumOfBounded<T>(f: T -> real, g: T -> real, xs: seq<T>)
    requires forall x :: x in xs ==> -g(x) <= f(x) <= g(x)
    ensures -SumOf(g, xs) <= SumOf(f, xs) <= SumOf(g, xs)
  {
    if xs != [] { SumOfBounded(f, g, Front(xs)); }
  }

  lemma {:induction false} SumOfOrder<T>(f: T -> real, g: T -> real, xs: seq<T>)
    requires forall x :: x in xs ==> f(x) <= g(x)
    ensures SumOf(f, xs) <= SumOf(g, xs)
  {
    if xs != [] { SumOfOrder(f, g, Front(xs)); }
  }

  lemma {:induction false} SumOfScaled<T>(f: T -> real, g: T -> real, k: real, xs: seq<T>)
    requires forall x :: x in xs ==> g(x) == k * f(x)
    ensures SumOf(g, xs) == k * SumOf(f, xs)
  {
    if xs != [] { SumOfScaled(f, g, k, Front(xs)); }
  }

  lemma {:induction false} SumOfConstant<T>(f: T -> real, c: real, xs: seq<T>)
    requires forall x :: x in xs ==> f(x) == c
    ensures SumOf(f, xs) == |xs| as real * c
  {
    if xs != [] {
      SumOfConstant(f, c, Front(xs));
      assert |xs| as real * c == (|xs| - 1) as real * c + c;
    }
  }

  /** A sum that is linear in three totals. */
  function Linear(x: real, y: real, z: real, a: real, b: real, c: real): real {
    x * a + y * b + z * c
  }

  lemma LinearAdds(x: real, y: real, z: real, p: real, q: real, r: real, a: real, b: real, c: real)
    ensures Linear(x + p, y + q, z + r, a, b, c) == Linear(x, y, z, a, b, c) + Linear(p, q, r, a, b, c)
  {
    assert (x + p) * a == x * a + p * a;
    assert (y + q) * b == y * b + q * b;
    assert (z + r) * c == z * c + r * c;
  }
}
