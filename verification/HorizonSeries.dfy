/** Running means, extremes and volatility. */
module HorizonSeries {
  import opened Common
  import opened Reals
  import opened Sums

  // ----- Running sums

  /** Where a window of at most `n` values that ends before `t` begins. */
  function WindowStart(t: nat, n: nat, first: nat): (lo: nat)
    requires first <= t
    ensures first <= lo <= t
  {
    if t - first < n then first else t - n
  }

  /** One value enters the window and, once it is full, the oldest leaves it. */
  lemma SlideWindow(f: real -> real, xs: seq<real>, t: nat, n: nat, first: nat)
    requires first <= t < |xs| && n >= 1
    ensures var lo, next := WindowStart(t, n, first), WindowStart(t + 1, n, first);
      SumOf(f, xs[next..t + 1]) == SumOf(f, xs[lo..t]) + f(xs[t]) - (if t - first >= n then f(xs[t - n]) else 0.0)
  {
    var lo, next := WindowStart(t, n, first), WindowStart(t + 1, n, first);
    SumOfAdd(f, xs[lo..t], xs[t]);
    assert xs[lo..t] + [xs[t]] == xs[lo..t + 1];
    if t - first >= n {
      SumOfHead(f, xs[lo..t + 1]);
      assert xs[lo..t + 1][1..] == xs[next..t + 1];
    }
  }

  /** The mean of the last `n` closes on day `t`, once there are `n`. */
  function AverageOn(closes: seq<real>, n: nat, t: nat): Option<real>
    requires n >= 1 && t < |closes|
  {
    if t >= n - 1 then Some(Sum(closes[t + 1 - n..t + 1]) / n as real) else None
  }

  lemma AverageFromSum(closes: seq<real>, n: nat, t: nat, running: real)
    requires n >= 1 && t < |closes| && running == Sum(closes[WindowStart(t + 1, n, 0)..t + 1])
    ensures AverageOn(closes, n, t) == if t >= n - 1 then Some(running / n as real) else None
  {
  }

  /** `moving_averages`. */
  method MovingAverages(closes: seq<real>, n: nat) returns (out: seq<Option<real>>)
    requires n >= 1
    ensures |out| == |closes| && forall t :: 0 <= t < |closes| ==> out[t] == AverageOn(closes, n, t)
  {
    hide AverageOn, WindowStart;
    out := [];
    var running := 0.0;
    assert closes[0..0] == [];
    for t := 0 to |closes|
      invariant |out| == t && running == Sum(closes[WindowStart(t, n, 0)..t])
      invariant forall i :: 0 <= i < t ==> out[i] == AverageOn(closes, n, i)
    {
      SlideWindow(Itself, closes, t, n, 0);
      running := running + closes[t];
      if t >= n {
        running := running - closes[t - n];
      }
      AverageFromSum(closes, n, t, running);
      out := out + [if t >= n - 1 then Some(running / n as real) else None];
    }
  }

  // ----- Extremes

  /** `a` is at least as extreme as `b`. */
  predicate Beats(a: real, b: real, largest: bool) {
    if largest then a >= b else a <= b
  }

  predicate IsExtreme(values: seq<real>, lo: int, hi: int, m: real, largest: bool)
    requires 0 <= lo <= hi <= |values|
  {
    m in values[lo..hi] && forall i :: lo <= i < hi ==> Beats(m, values[i], largest)
  }

  /** Indices in order, inside the window that ends before `hi`. */
  predicate InWindow(kept: seq<nat>, lo: int, hi: nat) {
    && (forall k :: 0 <= k < |kept| ==> lo <= kept[k] < hi)
    && (forall j, k :: 0 <= j < k < |kept| ==> kept[j] < kept[k])
  }

  /** Each value kept is strictly more extreme than every later one. */
  predicate Falling(values: seq<real>, kept: seq<nat>, largest: bool)
    requires forall k :: 0 <= k < |kept| ==> kept[k] < |values|
  {
    forall j, k :: 0 <= j < k < |kept| ==> !Beats(values[kept[k]], values[kept[j]], largest)
  }

  /** Some index kept, no older than `p`, has a value at least as extreme. */
  predicate Covered(values: seq<real>, kept: seq<nat>, p: nat, largest: bool)
    requires p < |values| && forall k :: 0 <= k < |kept| ==> kept[k] < |values|
  {
    exists k :: 0 <= k < |kept| && kept[k] >= p && Beats(values[kept[k]], values[p], largest)
  }

  /** What the deque holds for the window from `lo` up to, not including, `hi`. */
  predicate Kept(values: seq<real>, kept: seq<nat>, lo: int, hi: nat, largest: bool)
    requires hi <= |values|
  {
    && InWindow(kept, lo, hi)
    && Falling(values, kept, largest)
    && (forall p: nat :: lo <= p < hi ==> Covered(values, kept, p, largest))
  }

  lemma NewestStaysInOrder(values: seq<real>, kept: seq<nat>, cut: nat, lo: int, i: nat, largest: bool)
    requires i < |values| && lo <= i && cut <= |kept| && InWindow(kept, lo, i) && Falling(values, kept, largest)
    requires cut > 0 ==> !Beats(values[i], values[kept[cut - 1]], largest)
    ensures InWindow(kept[..cut] + [i], lo, i + 1) && Falling(values, kept[..cut] + [i], largest)
  {
    forall j | 0 <= j < cut ensures !Beats(values[i], values[kept[j]], largest) {
      if j < cut - 1 { assert !Beats(values[kept[cut - 1]], values[kept[j]], largest); }
    }
  }

  lemma NewestCovers(values: seq<real>, kept: seq<nat>, cut: nat, i: nat, largest: bool, p: nat)
    requires p <= i < |values| && cut <= |kept| && forall k :: 0 <= k < |kept| ==> kept[k] < i
    requires forall k :: cut <= k < |kept| ==> Beats(values[i], values[kept[k]], largest)
    requires p < i ==> Covered(values, kept, p, largest)
    ensures Covered(values, kept[..cut] + [i], p, largest)
  {
    var next := kept[..cut] + [i];
    assert next[cut] == i;
    if p < i {
      var k :| 0 <= k < |kept| && kept[k] >= p && Beats(values[kept[k]], values[p], largest);
      if k < cut { assert next[k] == kept[k]; } else { assert Beats(values[next[cut]], values[p], largest); }
    }
  }

  /** Dropping every value the new one beats, and adding it, keeps the deque right. */
  lemma KeptNewest(values: seq<real>, kept: seq<nat>, cut: nat, lo: int, i: nat, largest: bool)
    requires i < |values| && lo <= i && cut <= |kept| && Kept(values, kept, lo, i, largest)
    requires forall k :: cut <= k < |kept| ==> Beats(values[i], values[kept[k]], largest)
    requires cut > 0 ==> !Beats(values[i], values[kept[cut - 1]], largest)
    ensures Kept(values, kept[..cut] + [i], lo, i + 1, largest)
  {
    NewestStaysInOrder(values, kept, cut, lo, i, largest);
    forall p: nat | lo <= p < i + 1 ensures Covered(values, kept[..cut] + [i], p, largest) {
      NewestCovers(values, kept, cut, i, largest, p);
    }
  }

  lemma ExpiredCoversNone(values: seq<real>, kept: seq<nat>, largest: bool, p: nat)
    requires p < |values| && kept != [] && forall k :: 0 <= k < |kept| ==> kept[k] < |values|
    requires Covered(values, kept, p, largest) && kept[0] < p
    ensures Covered(values, kept[1..], p, largest)
  {
    var k :| 0 <= k < |kept| && kept[k] >= p && Beats(values[kept[k]], values[p], largest);
    assert kept[1..][k - 1] == kept[k];
  }

  /** When the window moves on, at most the oldest index leaves. */
  lemma KeptExpires(values: seq<real>, kept: seq<nat>, lo: int, hi: nat, largest: bool)
    requires hi <= |values| && kept != [] && Kept(values, kept, lo, hi, largest)
    ensures kept[0] > lo ==> Kept(values, kept, lo + 1, hi, largest)
    ensures kept[0] <= lo ==> Kept(values, kept[1..], lo + 1, hi, largest)
  {
    if kept[0] <= lo {
      forall p: nat | lo + 1 <= p < hi ensures Covered(values, kept[1..], p, largest) {
        ExpiredCoversNone(values, kept, largest, p);
      }
    }
  }

  /** The oldest index kept is the extreme of the window. */
  lemma FrontIsExtreme(values: seq<real>, kept: seq<nat>, lo: nat, hi: nat, largest: bool)
    requires lo < hi <= |values| && kept != [] && Kept(values, kept, lo, hi, largest)
    ensures IsExtreme(values, lo, hi, values[kept[0]], largest)
  {
    assert values[lo..hi][kept[0] - lo] == values[kept[0]];
    forall p | lo <= p < hi ensures Beats(values[kept[0]], values[p], largest) {
      assert Covered(values, kept, p, largest);
      var k :| 0 <= k < |kept| && kept[k] >= p && Beats(values[kept[k]], values[p], largest);
      if k > 0 { assert !Beats(values[kept[k]], values[kept[0]], largest); }
    }
  }

  /** What the value for day `t` must be. */
  predicate RightExtreme(values: seq<real>, window: nat, t: nat, out: Option<real>, largest: bool)
    requires t < |values| && window >= 1
  {
    if t + 1 < window then out.None?
    else out.Some? && IsExtreme(values, t + 1 - window, t + 1, out.value, largest)
  }

  /** The inner loop: everything the newest value beats leaves from the back. */
  method PopBeaten(values: seq<real>, kept: seq<nat>, i: nat, lo: int, largest: bool)
      returns (left: seq<nat>, pops: nat)
    requires i < |values| && lo <= i && Kept(values, kept, lo, i, largest)
    ensures pops + |left| == |kept| && Kept(values, left + [i], lo, i + 1, largest)
  {
    left, pops := kept, 0;
    while left != [] && Beats(values[i], values[Last(left)], largest)
      invariant pops + |left| == |kept| && left == kept[..|left|]
      invariant forall k :: |left| <= k < |kept| ==> Beats(values[i], values[kept[k]], largest)
    {
      left := Front(left);
      pops := pops + 1;
    }
    KeptNewest(values, kept, |left|, lo, i, largest);
  }

  /** One day: the newest value enters, and the oldest index leaves if the window has moved past it. */
  method SlideDeque(values: seq<real>, kept: seq<nat>, i: nat, window: nat, largest: bool)
      returns (next: seq<nat>, pops: nat)
    requires i < |values| && window >= 1 && Kept(values, kept, i - window, i, largest)
    ensures Kept(values, next, i + 1 - window, i + 1, largest) && next != [] && pops + |next| == |kept| + 1
  {
    next, pops := PopBeaten(values, kept, i, i - window, largest);
    next := next + [i];
    KeptExpires(values, next, i - window, i + 1, largest);
    if next[0] <= i - window {
      next, pops := next[1..], pops + 1;
    }
    assert Covered(values, next, i, largest);
  }

  /** `rolling_extreme`: the true extreme of each full window, with no more pops than there are values. */
  method RollingExtreme(values: seq<real>, window: nat, largest: bool) returns (out: seq<Option<real>>, pops: nat)
    requires window >= 1
    ensures |out| == |values| && pops <= |values|
    ensures forall t :: 0 <= t < |values| ==> RightExtreme(values, window, t, out[t], largest)
  {
    out, pops := [], 0;
    var kept: seq<nat> := [];
    for i := 0 to |values|
      invariant |out| == i && pops + |kept| == i
      invariant Kept(values, kept, i - window, i, largest)
      invariant forall t :: 0 <= t < i ==> RightExtreme(values, window, t, out[t], largest)
    {
      var popped;
      kept, popped := SlideDeque(values, kept, i, window, largest);
      pops := pops + popped;
      if i >= window - 1 {
        FrontIsExtreme(values, kept, i + 1 - window, i + 1, largest);
        out := out + [Some(values[kept[0]])];
      } else {
        out := out + [None];
      }
    }
  }

  // ----- Volatility

  function SquareFrom(m: real): real -> real {
    x => Square(x - m)
  }

  /** The variance of a sample, from its mean. */
  function SampleVariance(xs: seq<real>): real
    requires |xs| >= 2
  {
    SumOf(SquareFrom(Mean(xs)), xs) / (|xs| - 1) as real
  }

  /** A sample's squared deviations from `m`, its squares, its total and its size. */
  datatype Moments = Moments(deviations: real, squares: real, total: real, n: real)

  function MomentsOf(xs: seq<real>, m: real): Moments {
    Moments(SumOf(SquareFrom(m), xs), SumOf(Square, xs), Sum(xs), |xs| as real)
  }

  /** The brackets of the squared deviations, opened. */
  predicate DeviationsOpened(moments: Moments, m: real) {
    moments.deviations == moments.squares + (-2.0 * m) * moments.total + moments.n * (m * m)
  }

  function With(moments: Moments, m: real, x: real): Moments {
    Moments(moments.deviations + Square(x - m), moments.squares + Square(x), moments.total + x, moments.n + 1.0)
  }

  lemma OneMoreDeviation(moments: Moments, m: real, x: real)
    requires DeviationsOpened(moments, m)
    ensures DeviationsOpened(With(moments, m, x), m)
  {
    assert Square(x - m) == x * x + (-2.0 * m) * x + m * m;
    assert (-2.0 * m) * (moments.total + x) == (-2.0 * m) * moments.total + (-2.0 * m) * x;
    assert (moments.n + 1.0) * (m * m) == moments.n * (m * m) + m * m;
  }

  lemma OneMoreValue(xs: seq<real>, m: real, x: real)
    ensures MomentsOf(xs + [x], m) == With(MomentsOf(xs, m), m, x)
  {
    SumOfAdd(SquareFrom(m), xs, x);
    SumOfAdd(Square, xs, x);
    SumOfAdd(Itself, xs, x);
  }

  lemma {:induction false} DeviationsFrom(xs: seq<real>, m: real)
    ensures DeviationsOpened(MomentsOf(xs, m), m)
  {
    if xs != [] {
      DeviationsFrom(Front(xs), m);
      OneMoreDeviation(MomentsOf(Front(xs), m), m, Last(xs));
      OneMoreValue(Front(xs), m, Last(xs));
      assert xs == Front(xs) + [Last(xs)];
    }
  }

  /** The variance from running sums, never below zero. */
  function RunningVariance(total: real, squares: real, n: nat): real
    requires n >= 2
  {
    var mean := total / n as real;
    var variance := (squares - n as real * mean * mean) / (n - 1) as real;
    if variance > 0.0 then variance else 0.0
  }

  lemma SquaresNotNegative(m: real, xs: seq<real>)
    ensures SumOf(SquareFrom(m), xs) >= 0.0
  {
    forall x | x in xs ensures SquareFrom(m)(x) >= 0.0 {
      SquareNotNegative(x - m);
    }
    SumOfNonNegative(SquareFrom(m), xs);
  }

  lemma VarianceFormulas(total: real, squares: real, n: nat, m: real, deviations: real)
    requires n >= 2 && deviations >= 0.0 && m == total / n as real
    requires DeviationsOpened(Moments(deviations, squares, total, n as real), m)
    ensures RunningVariance(total, squares, n) == deviations / (n - 1) as real
  {
    assert total == n as real * m;
    assert (-2.0 * m) * total == -2.0 * (n as real * m * m);
    assert deviations == squares - n as real * m * m;
  }

  /** The running sums give the sample's variance, so taking the larger of it and zero changes nothing. */
  lemma OnePassVariance(xs: seq<real>)
    requires |xs| >= 2
    ensures RunningVariance(Sum(xs), SumOf(Square, xs), |xs|) == SampleVariance(xs)
  {
    hide DeviationsOpened;
    var m := Mean(xs);
    DeviationsFrom(xs, m);
    SquaresNotNegative(m, xs);
    VarianceFormulas(Sum(xs), SumOf(Square, xs), |xs|, m, SumOf(SquareFrom(m), xs));
  }

  /** The logarithm is a parameter: the identities hold whatever it computes. */
  type Log = real -> real

  /** A day's return; 0 where a close is not positive, and for the first day. */
  function ReturnOn(ln: Log, closes: seq<real>, t: nat): real
    requires t < |closes|
  {
    if t > 0 && closes[t - 1] > 0.0 && closes[t] > 0.0 then ln(closes[t] / closes[t - 1]) else 0.0
  }

  function Returns(ln: Log, closes: seq<real>): (r: seq<real>)
    ensures |r| == |closes| && forall t :: 0 <= t < |closes| ==> r[t] == ReturnOn(ln, closes, t)
  {
    seq(|closes|, t requires 0 <= t < |closes| => ReturnOn(ln, closes, t))
  }

  /** The window of returns that ends on day `t`. */
  function ReturnWindow(ln: Log, closes: seq<real>, lookback: nat, t: nat): (xs: seq<real>)
    requires 1 <= lookback <= t < |closes|
    ensures |xs| == lookback
  {
    Returns(ln, closes)[t + 1 - lookback..t + 1]
  }

  function RollingVarianceOn(ln: Log, closes: seq<real>, lookback: nat, t: nat): Option<real>
    requires lookback >= 2 && t < |closes|
  {
    if t >= lookback then Some(SampleVariance(ReturnWindow(ln, closes, lookback, t))) else None
  }

  /** The two running sums, over the window that ends before `t`. */
  predicate RunningSums(daily: seq<real>, lookback: nat, t: nat, total: real, squares: real)
    requires 1 <= t <= |daily|
  {
    var window := daily[WindowStart(t, lookback, 1)..t];
    total == Sum(window) && squares == SumOf(Square, window)
  }

  method SlideSums(daily: seq<real>, lookback: nat, t: nat, total: real, squares: real)
    returns (nextTotal: real, nextSquares: real)
    requires lookback >= 1 && 1 <= t < |daily| && RunningSums(daily, lookback, t, total, squares)
    ensures RunningSums(daily, lookback, t + 1, nextTotal, nextSquares)
  {
    SlideWindow(Itself, daily, t, lookback, 1);
    SlideWindow(Square, daily, t, lookback, 1);
    nextTotal := total + daily[t];
    nextSquares := squares + Square(daily[t]);
    if t > lookback {
      var oldest := daily[t - lookback];
      nextTotal := nextTotal - oldest;
      nextSquares := nextSquares - Square(oldest);
    }
  }

  method VarianceFromSums(ln: Log, closes: seq<real>, lookback: nat, t: nat, total: real, squares: real)
      returns (out: Option<real>)
    requires lookback >= 2 && t < |closes| && RunningSums(Returns(ln, closes), lookback, t + 1, total, squares)
    ensures out == RollingVarianceOn(ln, closes, lookback, t)
  {
    if t >= lookback {
      OnePassVariance(ReturnWindow(ln, closes, lookback, t));
      out := Some(RunningVariance(total, squares, lookback));
    } else {
      out := None;
    }
  }

  /** `_rolling_volatility`, squared: the variance of the last `lookback` returns, from running sums. */
  method RollingVariance(ln: Log, closes: seq<real>, lookback: nat) returns (out: seq<Option<real>>)
    requires lookback >= 2
    ensures |out| == |closes|
    ensures forall t :: 0 <= t < |closes| ==> out[t] == RollingVarianceOn(ln, closes, lookback, t)
  {
    if closes == [] { return []; }
    var daily := Returns(ln, closes);
    out := [None];
    var total, squares := 0.0, 0.0;
    assert daily[1..1] == [];
    for t := 1 to |closes|
      invariant |out| == t && RunningSums(daily, lookback, t, total, squares)
      invariant forall i :: 0 <= i < t ==> out[i] == RollingVarianceOn(ln, closes, lookback, i)
    {
      total, squares := SlideSums(daily, lookback, t, total, squares);
      var variance := VarianceFromSums(ln, closes, lookback, t, total, squares);
      out := out + [variance];
    }
  }

  function PairReturns(ln: Log, window: seq<real>): seq<real> {
    if |window| < 2 then []
    else
      var a, b := window[|window| - 2], window[|window| - 1];
      PairReturns(ln, Front(window)) + (if a > 0.0 && b > 0.0 then [ln(b / a)] else [])
  }

  /** `closes[-(lookback + 1):]`. */
  function LastWindow(closes: seq<real>, lookback: nat): seq<real> {
    if |closes| > lookback + 1 then closes[|closes| - (lookback + 1)..] else closes
  }

  lemma LastCloses(closes: seq<real>, lookback: nat, t: nat)
    requires lookback <= t < |closes|
    ensures LastWindow(closes[..t + 1], lookback) == closes[t - lookback..t + 1]
  {
  }

  /** `daily_volatility`, squared: the two-pass variance of the returns between positive closes. */
  function DailyVariance(ln: Log, closes: seq<real>, lookback: nat): Option<real> {
    var daily := PairReturns(ln, LastWindow(closes, lookback));
    if |daily| < (if lookback / 2 > 10 then lookback / 2 else 10) then None else Some(SampleVariance(daily))
  }

  lemma {:induction false} PairsAreReturns(ln: Log, closes: seq<real>, lo: nat, hi: nat)
    requires lo < hi <= |closes| && forall t :: 0 <= t < |closes| ==> closes[t] > 0.0
    ensures PairReturns(ln, closes[lo..hi]) == Returns(ln, closes)[lo + 1..hi]
    decreases hi - lo
  {
    if hi - lo >= 2 {
      PairsAreReturns(ln, closes, lo, hi - 1);
      assert Front(closes[lo..hi]) == closes[lo..hi - 1];
    }
  }

  lemma FewCloses(closes: seq<real>, lookback: nat, t: nat)
    requires t < lookback && t < |closes|
    ensures LastWindow(closes[..t + 1], lookback) == closes[0..t + 1]
  {
  }

  /** How many returns the window of day `t` holds when every close is positive. */
  lemma DailyOfPositive(ln: Log, closes: seq<real>, lookback: nat, t: nat)
    requires lookback >= 2 && t < |closes| && forall i :: 0 <= i < |closes| ==> closes[i] > 0.0
    ensures var daily := PairReturns(ln, LastWindow(closes[..t + 1], lookback));
      |daily| == (if t < lookback then t else lookback)
        && (t >= lookback ==> daily == ReturnWindow(ln, closes, lookback, t))
  {
    if t < lookback {
      FewCloses(closes, lookback, t);
      PairsAreReturns(ln, closes, 0, t + 1);
    } else {
      LastCloses(closes, lookback, t);
      PairsAreReturns(ln, closes, t - lookback, t + 1);
    }
  }

  /**
   On positive closes the one-pass and the two-pass figures agree on a day with a full window exactly when
   the lookback is at least ten, and before that exactly while the two-pass figure has too few returns.
   */
  lemma RollingAgreesWithDaily(ln: Log, closes: seq<real>, lookback: nat, t: nat)
    requires lookback >= 2 && t < |closes| && forall i :: 0 <= i < |closes| ==> closes[i] > 0.0
    ensures DailyVariance(ln, closes[..t + 1], lookback) == RollingVarianceOn(ln, closes, lookback, t)
      <==> if t >= lookback then lookback >= 10 else (t < 10 || t < lookback / 2)
  {
    hide SampleVariance;
    DailyOfPositive(ln, closes, lookback, t);
  }
}
