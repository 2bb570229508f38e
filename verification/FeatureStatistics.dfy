/** The scorer's z-score: when there is one, and how it follows its history and its value. */
module FeatureStatistics {
  import opened Common
  import opened Reals
  import opened Sums
  import opened Sorting

  const ORDINARY := "ordinary_zscore"
  const ROBUST := "robust_zscore"
  const SCALE: real := 1.4826

  function SquaredFrom(center: real): real -> real {
    (x: real) => Times(x - center, x - center)
  }

  /** The sample standard deviation. */
  function StDev(root: real -> real, xs: seq<real>): real
    requires |xs| >= 2
  {
    var variance := SumOf(SquaredFrom(Mean(xs)), xs) / (|xs| - 1) as real;
    if variance <= 0.0 then 0.0 else root(variance)
  }

  /** The middle value, or the mean of the two in the middle. */
  function Median(xs: seq<real>): real
    requires xs != []
  {
    Middle(SortBy(Itself, xs))
  }

  function Middle(sorted: seq<real>): real
    requires sorted != []
  {
    var n := |sorted|;
    if n % 2 == 1 then sorted[n / 2] else (sorted[n / 2 - 1] + sorted[n / 2]) / 2.0
  }

  function Distances(xs: seq<real>, center: real): (ds: seq<real>)
    ensures |ds| == |xs|
  {
    seq(|xs|, i requires 0 <= i < |xs| => Distance(xs[i], center))
  }

  function Distance(x: real, y: real): real { if x < y then y - x else x - y }

  /** The median absolute deviation. */
  function Deviation(xs: seq<real>): real
    requires xs != []
  {
    Median(Distances(xs, Median(xs)))
  }

  function Score(current: real, center: real, dispersion: real): Option<real> {
    if dispersion == 0.0 then None else Some((current - center) / dispersion)
  }

  function OrdinaryScore(root: real -> real, xs: seq<real>, current: real): Option<real> {
    if |xs| < 2 then None else Score(current, Mean(xs), StDev(root, xs))
  }

  function RobustScore(xs: seq<real>, current: real): Option<real> {
    if |xs| < 2 then None else Score(current, Median(xs), SCALE * Deviation(xs))
  }

  predicate AllEqual(xs: seq<real>) {
    forall i :: 0 <= i < |xs| ==> xs[i] == xs[0]
  }

  /**
   `z_score_statistics(...)["z_score"]`; nothing where it refuses. Without a median deviation the ordinary
   score stands in.
   */
  function ZScore(root: real -> real, xs: seq<real>, current: real, m: string): Option<real> {
    if m != ORDINARY && m != ROBUST then None
    else if |xs| >= 2 && AllEqual(xs) then None
    else if m == ORDINARY then OrdinaryScore(root, xs, current)
    else if |xs| >= 2 && Deviation(xs) == 0.0 then OrdinaryScore(root, xs, current)
    else RobustScore(xs, current)
  }

  // ----- When there is a score

  lemma SquareOfDifference(x: real, center: real)
    ensures SquaredFrom(center)(x) >= 0.0 && (x != center ==> SquaredFrom(center)(x) > 0.0)
  {
    hide Times;
    SquareIsPositive(x - center);
  }

  lemma TimesPositive(x: real, y: real)
    requires x > 0.0 && y > 0.0
    ensures Times(x, y) > 0.0
  {
  }

  lemma TimesNegated(x: real, y: real)
    ensures Times(-x, -y) == Times(x, y)
  {
  }

  lemma SquareIsPositive(d: real)
    ensures Times(d, d) >= 0.0 && (d != 0.0 ==> Times(d, d) > 0.0)
  {
    hide Times;
    if d > 0.0 {
      TimesPositive(d, d);
    } else if d < 0.0 {
      TimesPositive(-d, -d);
      TimesNegated(d, d);
    } else {
      TimesZero(d);
    }
  }

  lemma SpreadIsPositive(xs: seq<real>, center: real)
    requires !AllEqual(xs)
    ensures SumOf(SquaredFrom(center), xs) > 0.0
  {
    hide Times, SquaredFrom;
    var i :| 0 <= i < |xs| && xs[i] != xs[0];
    var away := if xs[i] != center then xs[i] else xs[0];
    forall x | x in xs ensures SquaredFrom(center)(x) >= 0.0 {
      SquareOfDifference(x, center);
    }
    SumOfNonNegative(SquaredFrom(center), xs);
    SquareOfDifference(away, center);
    assert away in xs;
  }

  lemma StDevIsPositive(root: real -> real, xs: seq<real>)
    requires SquareRoot(root) && |xs| >= 2 && !AllEqual(xs)
    ensures StDev(root, xs) > 0.0
  {
    SpreadIsPositive(xs, Mean(xs));
    QuotientPositive(SumOf(SquaredFrom(Mean(xs)), xs), (|xs| - 1) as real);
  }

  lemma MiddleNotNegative(sorted: seq<real>)
    requires sorted != [] && forall x :: x in sorted ==> x >= 0.0
    ensures Middle(sorted) >= 0.0
  {
    assert sorted[|sorted| / 2] in sorted;
    if |sorted| % 2 == 0 { assert sorted[|sorted| / 2 - 1] in sorted; }
  }

  lemma DeviationNotNegative(xs: seq<real>)
    requires xs != []
    ensures Deviation(xs) >= 0.0
  {
    var ds := Distances(xs, Median(xs));
    SortBySorts(Itself, ds);
    SortByMembers(Itself, ds);
    MiddleNotNegative(SortBy(Itself, ds));
  }

  /** What a formed score divides by: the two methods' center and dispersion. */
  function Center(xs: seq<real>, m: string): real
    requires |xs| >= 2
  {
    if m == ORDINARY || Deviation(xs) == 0.0 then Mean(xs) else Median(xs)
  }

  function Dispersion(root: real -> real, xs: seq<real>, m: string): real
    requires |xs| >= 2
  {
    if m == ORDINARY || Deviation(xs) == 0.0 then StDev(root, xs) else SCALE * Deviation(xs)
  }

  lemma DispersionIsPositive(root: real -> real, xs: seq<real>, m: string)
    requires SquareRoot(root) && |xs| >= 2 && !AllEqual(xs)
    ensures Dispersion(root, xs, m) > 0.0
  {
    StDevIsPositive(root, xs);
    DeviationNotNegative(xs);
  }

  predicate Scorable(xs: seq<real>, m: string) {
    (m == ORDINARY || m == ROBUST) && |xs| >= 2 && !AllEqual(xs)
  }

  /** There is a score exactly for two or more values that are not all the same, under a known method. */
  lemma ZScoreFormed(root: real -> real, xs: seq<real>, current: real, m: string)
    requires SquareRoot(root)
    ensures ZScore(root, xs, current, m).Some? <==> Scorable(xs, m)
    ensures Scorable(xs, m) ==>
      ZScore(root, xs, current, m) == Some((current - Center(xs, m)) / Dispersion(root, xs, m))
  {
    hide Deviation, Median, Mean, StDev;
    if Scorable(xs, m) { DispersionIsPositive(root, xs, m); }
  }

  // ----- The same values, all moved by the same amount

  predicate Moved(xs: seq<real>, ys: seq<real>, step: real) {
    |ys| == |xs| && forall i :: 0 <= i < |xs| ==> ys[i] == xs[i] + step
  }

  lemma TimesNone(x: real)
    ensures Times(0.0, x) == 0.0
  {
  }

  lemma OneMore(n: nat, x: real)
    ensures Times((n + 1) as real, x) == Times(n as real, x) + x
  {
  }

  lemma {:induction false} SumOfMoved(f: real -> real, g: real -> real, xs: seq<real>, ys: seq<real>, step: real,
      more: real)
    requires Moved(xs, ys, step) && forall i :: 0 <= i < |xs| ==> g(ys[i]) == f(xs[i]) + more
    ensures SumOf(g, ys) == SumOf(f, xs) + Times(|xs| as real, more)
  {
    TimesNone(more);
    if xs != [] {
      hide Times;
      SumOfMoved(f, g, Front(xs), Front(ys), step, more);
      OneMore(|xs| - 1, more);
    }
  }

  lemma MovedQuotient(sum: real, n: real, step: real)
    requires n > 0.0
    ensures (sum + Times(n, step)) / n == sum / n + step
  {
    Cancel((sum + n * step) / n, sum / n + step, n);
  }

  lemma MeanMoves(xs: seq<real>, ys: seq<real>, step: real)
    requires xs != [] && Moved(xs, ys, step)
    ensures Mean(ys) == Mean(xs) + step
  {
    hide Times;
    SumOfMoved(Itself, Itself, xs, ys, step, step);
    MovedQuotient(Sum(xs), |xs| as real, step);
  }

  lemma SpreadStays(xs: seq<real>, ys: seq<real>, center: real, step: real)
    requires Moved(xs, ys, step)
    ensures SumOf(SquaredFrom(center + step), ys) == SumOf(SquaredFrom(center), xs)
  {
    hide Times;
    forall i | 0 <= i < |xs| ensures SquaredFrom(center + step)(ys[i]) == SquaredFrom(center)(xs[i]) + 0.0 {
      assert ys[i] - (center + step) == xs[i] - center;
    }
    SumOfMoved(SquaredFrom(center), SquaredFrom(center + step), xs, ys, step, 0.0);
    TimesZero(|xs| as real);
  }

  lemma StDevStays(root: real -> real, xs: seq<real>, ys: seq<real>, step: real)
    requires |xs| >= 2 && Moved(xs, ys, step)
    ensures StDev(root, ys) == StDev(root, xs)
  {
    hide Mean, SquaredFrom;
    MeanMoves(xs, ys, step);
    SpreadStays(xs, ys, Mean(xs), step);
  }

  lemma {:induction false} PlaceMoves(xs: seq<real>, ys: seq<real>, x: real, step: real)
    requires Moved(xs, ys, step)
    ensures Moved(Place(Itself, xs, x), Place(Itself, ys, x + step), step)
  {
    if xs != [] && Last(xs) > x { PlaceMoves(Front(xs), Front(ys), x, step); }
  }

  lemma {:induction false} SortMoves(xs: seq<real>, ys: seq<real>, step: real)
    requires Moved(xs, ys, step)
    ensures Moved(SortBy(Itself, xs), SortBy(Itself, ys), step)
  {
    if xs != [] {
      hide Place;
      SortMoves(Front(xs), Front(ys), step);
      PlaceMoves(SortBy(Itself, Front(xs)), SortBy(Itself, Front(ys)), Last(xs), step);
    }
  }

  lemma MedianMoves(xs: seq<real>, ys: seq<real>, step: real)
    requires xs != [] && Moved(xs, ys, step)
    ensures Median(ys) == Median(xs) + step
  {
    SortMoves(xs, ys, step);
    SortBySorts(Itself, xs);
  }

  lemma DistancesStay(xs: seq<real>, ys: seq<real>, center: real, step: real)
    requires Moved(xs, ys, step)
    ensures Distances(ys, center + step) == Distances(xs, center)
  {
  }

  lemma DeviationStays(xs: seq<real>, ys: seq<real>, step: real)
    requires xs != [] && Moved(xs, ys, step)
    ensures Deviation(ys) == Deviation(xs)
  {
    hide Median, Distances;
    MedianMoves(xs, ys, step);
    DistancesStay(xs, ys, Median(xs), step);
  }

  lemma ScorableStays(xs: seq<real>, ys: seq<real>, step: real, m: string)
    requires Moved(xs, ys, step)
    ensures Scorable(ys, m) <==> Scorable(xs, m)
  {
  }

  lemma CenterMoves(root: real -> real, xs: seq<real>, ys: seq<real>, step: real, m: string)
    requires |xs| >= 2 && Moved(xs, ys, step)
    ensures Center(ys, m) == Center(xs, m) + step && Dispersion(root, ys, m) == Dispersion(root, xs, m)
  {
    hide Mean, StDev, Median, Deviation;
    MeanMoves(xs, ys, step);
    StDevStays(root, xs, ys, step);
    MedianMoves(xs, ys, step);
    DeviationStays(xs, ys, step);
  }

  /** Moving the history and the value by the same amount changes nothing, the choice of method included. */
  lemma ZScoreMoves(root: real -> real, xs: seq<real>, ys: seq<real>, current: real, step: real, m: string)
    requires SquareRoot(root) && Moved(xs, ys, step)
    ensures ZScore(root, ys, current + step, m) == ZScore(root, xs, current, m)
  {
    hide ZScore, Center, Dispersion, AllEqual;
    ZScoreFormed(root, xs, current, m);
    ZScoreFormed(root, ys, current + step, m);
    ScorableStays(xs, ys, step, m);
    if Scorable(xs, m) {
      CenterMoves(root, xs, ys, step, m);
      assert current + step - Center(ys, m) == current - Center(xs, m);
    }
  }

  lemma LargerQuotient(a: real, b: real, d: real)
    requires a < b && d > 0.0
    ensures a / d < b / d
  {
    assert (b / d - a / d) * d == b - a;
    if b / d <= a / d { ProductNotNegative(a / d - b / d, d); }
  }

  /** A larger value has a larger score against the same history. */
  lemma ZScoreGrows(root: real -> real, xs: seq<real>, x: real, y: real, m: string)
    requires SquareRoot(root) && Scorable(xs, m) && x < y
    ensures ZScore(root, xs, x, m).Some? && ZScore(root, xs, y, m).Some?
    ensures ZScore(root, xs, x, m).value < ZScore(root, xs, y, m).value
  {
    hide ZScore, Center, Dispersion;
    ZScoreFormed(root, xs, x, m);
    ZScoreFormed(root, xs, y, m);
    DispersionIsPositive(root, xs, m);
    LargerQuotient(x - Center(xs, m), y - Center(xs, m), Dispersion(root, xs, m));
  }

  /** A history that has moved as a whole scores the same value differently. */
  lemma MovedScoresDifferently(root: real -> real, xs: seq<real>, ys: seq<real>, current: real, m: string)
    requires SquareRoot(root) && Scorable(xs, m) && Moved(xs, ys, 1.0)
    ensures Scorable(ys, m) && ZScore(root, ys, current, m) != ZScore(root, xs, current, m)
  {
    hide ZScore, Scorable;
    ScorableStays(xs, ys, 1.0, m);
    ZScoreMoves(root, xs, ys, current - 1.0, 1.0, m);
    ZScoreGrows(root, xs, current - 1.0, current, m);
  }

  // ----- The median

  lemma FrontRises(a: seq<real>)
    requires Rising(a) && a != []
    ensures Rising(Front(a)) && multiset(Front(a)) == multiset(a) - multiset{Last(a)} && a == Front(a) + [Last(a)]
  {
    WithoutLast(a);
  }

  lemma NoneLeft(a: seq<real>)
    requires multiset(a) == multiset{}
    ensures a == []
  {
    assert |multiset(a)| == 0;
  }

  lemma {:induction false} RisingUnique(a: seq<real>, b: seq<real>)
    requires Rising(a) && Rising(b) && multiset(a) == multiset(b)
    ensures a == b
  {
    hide Rising;
    if a == [] {
      NoneLeft(b);
    } else {
      LargestLast(a, b);
      FrontRises(a);
      FrontRises(b);
      RisingUnique(Front(a), Front(b));
    }
  }

  lemma LargestLast(a: seq<real>, b: seq<real>)
    requires Rising(a) && Rising(b) && multiset(a) == multiset(b) && a != []
    ensures b != [] && Last(a) == Last(b)
  {
    assert Last(a) in multiset(b);
    assert Last(b) in multiset(a);
    var i :| 0 <= i < |b| && b[i] == Last(a);
    var j :| 0 <= j < |a| && a[j] == Last(b);
  }

  /** The median is the middle one of the values in any ascending arrangement, or halfway between the middle two. */
  lemma MedianOfSorted(xs: seq<real>, sorted: seq<real>)
    requires xs != [] && Rising(sorted) && multiset(sorted) == multiset(xs)
    ensures |sorted| == |xs|
    ensures var h := |xs| / 2;
      2.0 * Median(xs) == if |xs| % 2 == 1 then 2.0 * sorted[h] else sorted[h - 1] + sorted[h]
  {
    SortedIsRising(xs);
    RisingUnique(sorted, SortBy(Itself, xs));
  }

  lemma SortedIsRising(xs: seq<real>)
    ensures Rising(SortBy(Itself, xs)) && multiset(SortBy(Itself, xs)) == multiset(xs) && |SortBy(Itself, xs)| == |xs|
  {
    SortBySorts(Itself, xs);
    var sorted := SortBy(Itself, xs);
    forall i, j | 0 <= i < j < |sorted| ensures sorted[i] <= sorted[j] {
      assert Itself(sorted[i]) <= Itself(sorted[j]);
    }
  }

  function NotAbove(m: real): real -> real {
    (x: real) => if x <= m then 1.0 else 0.0
  }

  function NotBelow(m: real): real -> real {
    (x: real) => if x >= m then 1.0 else 0.0
  }

  lemma Ones(f: real -> real, xs: seq<real>)
    requires forall i :: 0 <= i < |xs| ==> f(xs[i]) == 1.0
    ensures SumOf(f, xs) == |xs| as real
  {
    SumOfConstant(f, 1.0, xs);
  }

  /** A run of ones counts. */
  lemma CountRun(f: real -> real, a: seq<real>, run: seq<real>, b: seq<real>)
    requires SumOf(f, a) >= 0.0 && SumOf(f, b) >= 0.0
    requires forall i :: 0 <= i < |run| ==> f(run[i]) == 1.0
    ensures SumOf(f, a + run + b) >= |run| as real
  {
    SumOfConcat(f, a, run);
    SumOfConcat(f, a + run, b);
    Ones(f, run);
  }

  lemma MedianBetween(sorted: seq<real>, m: real)
    requires Rising(sorted) && sorted != []
    requires var h := |sorted| / 2; 2.0 * m == if |sorted| % 2 == 1 then 2.0 * sorted[h] else sorted[h - 1] + sorted[h]
    ensures var h := |sorted| / 2;
      && (forall i :: 0 <= i < |sorted| - h ==> sorted[i] <= m)
      && (forall i :: h <= i < |sorted| ==> sorted[i] >= m)
  {
    var h := |sorted| / 2;
    if |sorted| % 2 == 0 { assert sorted[h - 1] <= sorted[h]; }
  }

  /** At least half of the values are not above the median, and at least half are not below it. */
  lemma MedianHalves(xs: seq<real>)
    requires xs != []
    ensures 2.0 * SumOf(NotAbove(Median(xs)), xs) >= |xs| as real
    ensures 2.0 * SumOf(NotBelow(Median(xs)), xs) >= |xs| as real
  {
    hide Median, SortBy, Place, NotAbove, NotBelow;
    SortedIsRising(xs);
    MedianOfSorted(xs, SortBy(Itself, xs));
    HalvesOfSorted(SortBy(Itself, xs), Median(xs));
    SumOfPermuted(NotAbove(Median(xs)), xs, SortBy(Itself, xs));
    SumOfPermuted(NotBelow(Median(xs)), xs, SortBy(Itself, xs));
  }

  lemma HalvesOfSorted(sorted: seq<real>, m: real)
    requires Rising(sorted) && sorted != []
    requires var h := |sorted| / 2; 2.0 * m == if |sorted| % 2 == 1 then 2.0 * sorted[h] else sorted[h - 1] + sorted[h]
    ensures 2.0 * SumOf(NotAbove(m), sorted) >= |sorted| as real && 2.0 * SumOf(NotBelow(m), sorted) >= |sorted| as real
  {
    MedianBetween(sorted, m);
    CountLower(sorted, m, |sorted| - |sorted| / 2);
    CountUpper(sorted, m, |sorted| / 2);
  }

  lemma CountLower(sorted: seq<real>, m: real, k: nat)
    requires k <= |sorted| && forall i :: 0 <= i < k ==> sorted[i] <= m
    ensures SumOf(NotAbove(m), sorted) >= k as real
  {
    var run, rest := sorted[..k], sorted[k..];
    assert [] + run + rest == sorted;
    SumOfNonNegative(NotAbove(m), rest);
    CountRun(NotAbove(m), [], run, rest);
  }

  lemma CountUpper(sorted: seq<real>, m: real, k: nat)
    requires k <= |sorted| && forall i :: k <= i < |sorted| ==> sorted[i] >= m
    ensures SumOf(NotBelow(m), sorted) >= (|sorted| - k) as real
  {
    var rest, run := sorted[..k], sorted[k..];
    assert rest + run + [] == sorted;
    SumOfNonNegative(NotBelow(m), rest);
    CountRun(NotBelow(m), rest, run, []);
  }

  // ----- What a score is

  /** The robust score counts in 1.4826 median deviations from the median. */
  lemma RobustScoreIs(root: real -> real, xs: seq<real>, current: real)
    requires |xs| >= 2 && !AllEqual(xs) && Deviation(xs) != 0.0
    ensures var z := ZScore(root, xs, current, ROBUST);
      z.Some? && z.value * (1.4826 * Deviation(xs)) == current - Median(xs)
  {
    hide Deviation, Median;
    DeviationNotNegative(xs);
    QuotientTimes(current - Median(xs), 1.4826 * Deviation(xs));
  }

  lemma QuotientTimes(x: real, y: real)
    requires y != 0.0
    ensures (x / y) * y == x
  {
  }

  /** Each distance is how far a value is from the center; the median deviation is their median. */
  lemma DeviationIs(xs: seq<real>, ds: seq<real>)
    requires xs != [] && |ds| == |xs|
    requires forall i :: 0 <= i < |xs| ==> ds[i] >= 0.0 && ds[i] in {xs[i] - Median(xs), Median(xs) - xs[i]}
    ensures Deviation(xs) == Median(ds)
  {
    assert ds == Distances(xs, Median(xs));
  }

  /** The ordinary score counts in sample standard deviations from the mean: squared, in sample variances. */
  lemma OrdinaryScoreIs(root: real -> real, xs: seq<real>, current: real)
    requires SquareRoot(root) && |xs| >= 2 && !AllEqual(xs)
    ensures var z, d := ZScore(root, xs, current, ORDINARY), current - Mean(xs);
      && z.Some? && (z.value > 0.0 <==> d > 0.0) && (z.value < 0.0 <==> d < 0.0)
      && (z.value * z.value) * SumOf(SquaredFrom(Mean(xs)), xs) == (d * d) * (|xs| - 1) as real
  {
    StDevIsPositive(root, xs);
    StDevSquared(root, xs);
    hide Mean, StDev, SquaredFrom;
    ScoreSquared(current - Mean(xs), StDev(root, xs), SumOf(SquaredFrom(Mean(xs)), xs), (|xs| - 1) as real);
  }

  lemma StDevSquared(root: real -> real, xs: seq<real>)
    requires SquareRoot(root) && |xs| >= 2 && !AllEqual(xs)
    ensures StDev(root, xs) * StDev(root, xs) * (|xs| - 1) as real == SumOf(SquaredFrom(Mean(xs)), xs)
  {
    hide SquaredFrom;
    SpreadIsPositive(xs, Mean(xs));
    var sum, n := SumOf(SquaredFrom(Mean(xs)), xs), (|xs| - 1) as real;
    QuotientPositive(sum, n);
    QuotientTimes(sum, n);
  }

  lemma ScoreSquared(d: real, s: real, sum: real, n: real)
    requires s > 0.0 && s * s * n == sum
    ensures var z := d / s; (z > 0.0 <==> d > 0.0) && (z < 0.0 <==> d < 0.0) && (z * z) * sum == (d * d) * n
  {
    var z := d / s;
    assert z * s == d;
    if d > 0.0 { QuotientPositive(d, s); }
    if d < 0.0 {
      QuotientPositive(-d, s);
      Negated(-d, s);
    }
    assert (z * z) * (s * s * n) == ((z * s) * (z * s)) * n;
  }

  // ----- The same values in another unit

  predicate Scaled(xs: seq<real>, ys: seq<real>, k: real) {
    |ys| == |xs| && forall i :: 0 <= i < |xs| ==> ys[i] == Times(k, xs[i])
  }

  lemma {:induction false} SumScales(xs: seq<real>, ys: seq<real>, k: real)
    requires Scaled(xs, ys, k)
    ensures Sum(ys) == Times(k, Sum(xs))
  {
    if xs == [] {
      TimesZero(k);
    } else {
      hide Times;
      SumScales(Front(xs), Front(ys), k);
      TimesAdds(k, Sum(Front(xs)), Last(xs));
    }
  }

  lemma DividedScales(k: real, x: real, n: real)
    requires n != 0.0
    ensures Times(k, x) / n == Times(k, x / n)
  {
    assert (x / n) * n == x;
    assert (k * (x / n)) * n == k * ((x / n) * n);
    Cancel(Times(k, x) / n, Times(k, x / n), n);
  }

  lemma MeanScales(xs: seq<real>, ys: seq<real>, k: real)
    requires xs != [] && Scaled(xs, ys, k)
    ensures Mean(ys) == Times(k, Mean(xs))
  {
    hide Times;
    SumScales(xs, ys, k);
    DividedScales(k, Sum(xs), |xs| as real);
  }

  lemma TimesOrder(k: real, x: real, y: real)
    requires k > 0.0
    ensures Times(k, x) <= Times(k, y) <==> x <= y
    ensures Times(k, x) == Times(k, y) <==> x == y
    ensures Times(k, y) - Times(k, x) == Times(k, y - x)
  {
    if x < y { LargerProduct(y, x, k); }
    if y < x { LargerProduct(x, y, k); }
  }

  lemma {:induction false} PlaceScales(xs: seq<real>, ys: seq<real>, x: real, k: real)
    requires k > 0.0 && Scaled(xs, ys, k)
    ensures Scaled(Place(Itself, xs, x), Place(Itself, ys, Times(k, x)), k)
  {
    if xs != [] {
      hide Times;
      TimesOrder(k, Last(xs), x);
      if Last(xs) > x { PlaceScales(Front(xs), Front(ys), x, k); }
    }
  }

  lemma {:induction false} SortScales(xs: seq<real>, ys: seq<real>, k: real)
    requires k > 0.0 && Scaled(xs, ys, k)
    ensures Scaled(SortBy(Itself, xs), SortBy(Itself, ys), k)
  {
    if xs != [] {
      hide Place, Times;
      SortScales(Front(xs), Front(ys), k);
      PlaceScales(SortBy(Itself, Front(xs)), SortBy(Itself, Front(ys)), Last(xs), k);
    }
  }

  lemma HalfwayScales(k: real, x: real, y: real)
    ensures (Times(k, x) + Times(k, y)) / 2.0 == Times(k, (x + y) / 2.0)
  {
  }

  lemma MiddleScales(xs: seq<real>, ys: seq<real>, k: real)
    requires xs != [] && Scaled(xs, ys, k)
    ensures Middle(ys) == Times(k, Middle(xs))
  {
    hide Times;
    if |xs| % 2 == 0 { HalfwayScales(k, xs[|xs| / 2 - 1], xs[|xs| / 2]); }
  }

  lemma MedianScales(xs: seq<real>, ys: seq<real>, k: real)
    requires xs != [] && k > 0.0 && Scaled(xs, ys, k)
    ensures Median(ys) == Times(k, Median(xs))
  {
    hide Times, Place;
    SortBySorts(Itself, xs);
    SortScales(xs, ys, k);
    MiddleScales(SortBy(Itself, xs), SortBy(Itself, ys), k);
  }

  lemma DistancesScale(xs: seq<real>, ys: seq<real>, center: real, k: real)
    requires k > 0.0 && Scaled(xs, ys, k)
    ensures Scaled(Distances(xs, center), Distances(ys, Times(k, center)), k)
  {
    hide Times;
    forall i | 0 <= i < |xs| ensures Distance(ys[i], Times(k, center)) == Times(k, Distance(xs[i], center)) {
      TimesOrder(k, xs[i], center);
      TimesOrder(k, center, xs[i]);
    }
  }

  lemma DeviationScales(xs: seq<real>, ys: seq<real>, k: real)
    requires xs != [] && k > 0.0 && Scaled(xs, ys, k)
    ensures Deviation(ys) == Times(k, Deviation(xs))
  {
    hide Times, Median, Distances;
    MedianScales(xs, ys, k);
    DistancesScale(xs, ys, Median(xs), k);
    MedianScales(Distances(xs, Median(xs)), Distances(ys, Times(k, Median(xs))), k);
  }

  lemma TimesDiffers(k: real, x: real, y: real)
    ensures Times(k, x) - Times(k, y) == Times(k, x - y)
  {
  }

  lemma TimesSquares(k: real, d: real)
    ensures Times(Times(k, d), Times(k, d)) == Times(Times(k, k), Times(d, d))
  {
    hide Times;
    TimesAssociates(k, d, Times(k, d));
    TimesSwaps(d, k);
    TimesAssociates(d, k, d);
    TimesSwaps(k, d);
    TimesAssociates(k, d, d);
    TimesAssociates(k, k, Times(d, d));
    OpenInner(d, k);
  }

  lemma TimesSwaps(x: real, y: real)
    ensures Times(x, y) == Times(y, x)
  {
  }

  lemma OpenInner(d: real, k: real)
    ensures Times(d, Times(k, d)) == Times(k, Times(d, d))
  {
    hide Times;
    TimesAssociates(d, k, d);
    TimesAssociates(k, d, d);
    TimesSwaps(d, k);
  }

  lemma SquareScales(k: real, x: real, center: real)
    ensures SquaredFrom(Times(k, center))(Times(k, x)) == Times(Times(k, k), SquaredFrom(center)(x))
  {
    hide Times;
    TimesDiffers(k, x, center);
    TimesSquares(k, x - center);
  }

  lemma {:induction false} SpreadScales(xs: seq<real>, ys: seq<real>, center: real, k: real)
    requires Scaled(xs, ys, k)
    ensures SumOf(SquaredFrom(Times(k, center)), ys) == Times(Times(k, k), SumOf(SquaredFrom(center), xs))
  {
    if xs == [] {
      TimesZero(Times(k, k));
    } else {
      hide Times, SquaredFrom;
      SpreadScales(Front(xs), Front(ys), center, k);
      SquareScales(k, Last(xs), center);
      TimesAdds(Times(k, k), SumOf(SquaredFrom(center), Front(xs)), SquaredFrom(center)(Last(xs)));
    }
  }

  lemma SameSquare(a: real, b: real)
    requires a > 0.0 && b > 0.0 && Times(a, a) == Times(b, b)
    ensures a == b
  {
    if a < b { SquareOrder(b, a); }
    if b < a { SquareOrder(a, b); }
  }

  /** There is only one positive square root. */
  lemma RootScales(root: real -> real, k: real, v: real)
    requires SquareRoot(root) && k > 0.0 && v > 0.0
    ensures Times(Times(k, k), v) > 0.0 && root(Times(Times(k, k), v)) == Times(k, root(v))
  {
    RootSquared(root, v);
    TimesPositive(k, k);
    TimesPositive(Times(k, k), v);
    RootSquared(root, Times(Times(k, k), v));
    hide Times;
    TimesPositive(k, root(v));
    TimesSquares(k, root(v));
    SameSquare(root(Times(Times(k, k), v)), Times(k, root(v)));
  }

  lemma RootSquared(root: real -> real, v: real)
    requires SquareRoot(root) && v > 0.0
    ensures root(v) > 0.0 && Times(root(v), root(v)) == v
  {
  }

  lemma StDevScales(root: real -> real, xs: seq<real>, ys: seq<real>, k: real)
    requires SquareRoot(root) && |xs| >= 2 && !AllEqual(xs) && k > 0.0 && Scaled(xs, ys, k)
    ensures StDev(root, ys) == Times(k, StDev(root, xs))
  {
    MeanScales(xs, ys, k);
    SpreadScales(xs, ys, Mean(xs), k);
    SpreadIsPositive(xs, Mean(xs));
    hide Times, Mean, SquaredFrom, SquareRoot;
    var sum, n := SumOf(SquaredFrom(Mean(xs)), xs), (|xs| - 1) as real;
    QuotientPositive(sum, n);
    DividedScales(Times(k, k), sum, n);
    RootScales(root, k, sum / n);
  }

  lemma ScorableScales(xs: seq<real>, ys: seq<real>, k: real, m: string)
    requires k > 0.0 && Scaled(xs, ys, k)
    ensures Scorable(ys, m) <==> Scorable(xs, m)
  {
    hide Times;
    forall i | 0 <= i < |xs| ensures ys[i] == ys[0] <==> xs[i] == xs[0] {
      TimesOrder(k, xs[i], xs[0]);
    }
  }

  lemma CenterScales(root: real -> real, xs: seq<real>, ys: seq<real>, k: real, m: string)
    requires SquareRoot(root) && k > 0.0 && Scaled(xs, ys, k) && Scorable(xs, m)
    ensures Center(ys, m) == Times(k, Center(xs, m)) && Dispersion(root, ys, m) == Times(k, Dispersion(root, xs, m))
  {
    hide Times, Mean, StDev, Median, Deviation;
    MeanScales(xs, ys, k);
    StDevScales(root, xs, ys, k);
    MedianScales(xs, ys, k);
    DeviationScales(xs, ys, k);
    TimesZero(k);
    TimesOrder(k, Deviation(xs), 0.0);
    ScaleAssociates(k, Deviation(xs));
  }

  lemma ScaleAssociates(k: real, x: real)
    ensures SCALE * Times(k, x) == Times(k, SCALE * x)
  {
  }

  lemma RatioScales(k: real, x: real, y: real)
    requires k > 0.0 && y > 0.0
    ensures Times(k, y) > 0.0 && Times(k, x) / Times(k, y) == x / y
  {
    ProductPositive(k, y);
    assert (x / y) * y == x;
    assert (x / y) * (k * y) == k * ((x / y) * y);
    Cancel(Times(k, x) / Times(k, y), x / y, Times(k, y));
  }

  /** A score has no unit: measuring the history and the value in another one changes nothing. */
  lemma ZScoreScales(root: real -> real, xs: seq<real>, ys: seq<real>, current: real, k: real, m: string)
    requires SquareRoot(root) && k > 0.0 && Scaled(xs, ys, k)
    ensures ZScore(root, ys, Times(k, current), m) == ZScore(root, xs, current, m)
  {
    hide ZScore, Center, Dispersion, AllEqual, Times;
    ZScoreFormed(root, xs, current, m);
    ZScoreFormed(root, ys, Times(k, current), m);
    ScorableScales(xs, ys, k, m);
    if Scorable(xs, m) {
      CenterScales(root, xs, ys, k, m);
      DispersionIsPositive(root, xs, m);
      TimesOrder(k, Center(xs, m), current);
      RatioScales(k, current - Center(xs, m), Dispersion(root, xs, m));
    }
  }
}
