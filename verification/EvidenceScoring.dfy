/** The Brier score of probability forecasts, and Murphy's decomposition of it over bins. */
module EvidenceScoring {
  import opened Common
  import opened Reals
  import opened Sums
  import opened EvidenceBins

  /** What `_check` accepts: an outcome of 0 or 1 for each forecast between 0 and 1. */
  predicate Checked(p: seq<real>, y: seq<int>) {
    |p| == |y| && (forall x :: x in p ==> 0.0 <= x <= 1.0) && forall o :: o in y ==> o == 0 || o == 1
  }

  function Outcome(y: seq<int>): nat -> real {
    (i: nat) => if i < |y| then y[i] as real else 0.0
  }

  function Weighted(w: real, x: real): real { w * Square(x) }

  function Term(p: seq<real>, y: seq<int>): nat -> real {
    (i: nat) => Square(Forecast(p)(i) - Outcome(y)(i))
  }

  /** The mean of `f` over a bin. */
  function MeanOver(f: nat -> real, group: seq<nat>): real {
    if group == [] then 0.0 else MeanBy(f, group)
  }

  function Share(group: seq<nat>, n: nat): real
    requires n > 0
  {
    |group| as real / n as real
  }

  /** What a bin adds to reliability: its share of the squared gap between forecast and outcome. */
  function Gap(p: seq<real>, y: seq<int>, n: nat): seq<nat> -> real
    requires n > 0
  {
    group => Weighted(Share(group, n), MeanOver(Forecast(p), group) - MeanOver(Outcome(y), group))
  }

  /** What a bin adds to resolution: its share of the squared distance of its outcomes from the overall rate. */
  function Reach(y: seq<int>, n: nat, rise: real): seq<nat> -> real
    requires n > 0
  {
    group => Weighted(Share(group, n), MeanOver(Outcome(y), group) - rise)
  }

  function WeightedAbs(w: real, x: real): real { w * (if x < 0.0 then -x else x) }

  function Miss(p: seq<real>, y: seq<int>, n: nat): seq<nat> -> real
    requires n > 0
  {
    group => WeightedAbs(Share(group, n), MeanOver(Forecast(p), group) - MeanOver(Outcome(y), group))
  }

  datatype Score = Score(decisions: nat, brier: real, meanProbability: real, riseShare: real,
    reliability: real, resolution: real, uncertainty: real, calibrationError: real)

  function Rate(f: nat -> real, n: nat): real
    requires n > 0
  {
    SumOf(f, Range(n)) / n as real
  }

  function ScoreFrom(p: seq<real>, y: seq<int>, reliability: real, resolution: real, calibration: real): Score
    requires |p| > 0
  {
    var rise := Rate(Outcome(y), |p|);
    Score(|p|, Rate(Term(p, y), |p|), Rate(Forecast(p), |p|), rise, reliability, resolution, rise * (1.0 - rise),
      calibration)
  }

  function ScoreOver(p: seq<real>, y: seq<int>, groups: seq<seq<nat>>): Score
    requires |p| > 0
  {
    var n := |p|;
    ScoreFrom(p, y, SumOf(Gap(p, y, n), groups), SumOf(Reach(y, n, Rate(Outcome(y), n)), groups),
      SumOf(Miss(p, y, n), groups))
  }

  /** What one bin adds to the three running sums. */
  method ScoreGroup(p: seq<real>, y: seq<int>, n: nat, rise: real, group: seq<nat>)
    returns (reliability: real, resolution: real, calibration: real)
    requires n > 0
    ensures reliability == Gap(p, y, n)(group) && resolution == Reach(y, n, rise)(group)
    ensures calibration == Miss(p, y, n)(group)
  {
    var forecast, observed := MeanOver(Forecast(p), group), MeanOver(Outcome(y), group);
    var share := Share(group, n);
    reliability := Weighted(share, forecast - observed);
    resolution := Weighted(share, observed - rise);
    calibration := WeightedAbs(share, forecast - observed);
  }

  method ScoreGroups(p: seq<real>, y: seq<int>, n: nat, rise: real, groups: seq<seq<nat>>)
    returns (reliability: real, resolution: real, calibration: real)
    requires n > 0
    ensures reliability == SumOf(Gap(p, y, n), groups) && resolution == SumOf(Reach(y, n, rise), groups)
    ensures calibration == SumOf(Miss(p, y, n), groups)
  {
    reliability, resolution, calibration := 0.0, 0.0, 0.0;
    for k := 0 to |groups|
      invariant reliability == SumOf(Gap(p, y, n), groups[..k])
      invariant resolution == SumOf(Reach(y, n, rise), groups[..k])
      invariant calibration == SumOf(Miss(p, y, n), groups[..k])
    {
      SumOfNext(Gap(p, y, n), groups, k);
      SumOfNext(Reach(y, n, rise), groups, k);
      SumOfNext(Miss(p, y, n), groups, k);
      var gap, reach, miss := ScoreGroup(p, y, n, rise, groups[k]);
      reliability, resolution, calibration := reliability + gap, resolution + reach, calibration + miss;
    }
    assert groups[..|groups|] == groups;
  }

  /** `score_forecast`, without the log loss, the effective windows and the intervals. */
  method ScoreForecast(p: seq<real>, y: seq<int>, openings: nat, bins: int) returns (r: Result<Score, string>)
    ensures r.Ok? <==> p != [] && openings == |p| && Checked(p, y) && bins >= 1
    ensures r.Ok? ==> r.value == ScoreOver(p, y, Bins(p, bins))
    ensures r.Ok? ==> Decomposed(r.value, SumOf(Within(p, y), Bins(p, bins)) / |p| as real)
  {
    hide Gap, Reach, Miss, Within, Term, Outcome, Decomposed, Bins;
    if p == [] { return Err("nothing to score"); }
    if openings != |p| { return Err("one opening time per forecast"); }
    if !Checked(p, y) { return Err("not forecasts and outcomes"); }
    var n := |p|;
    var rise := Rate(Outcome(y), n);
    var groups := EqualCountBins(p, bins);
    if groups.Err? { return Err(groups.error); }
    var reliability, resolution, calibration := ScoreGroups(p, y, n, rise, groups.value);
    BinsPartition(p, bins);
    MurphyWithin(p, y, groups.value);
    r := Ok(ScoreFrom(p, y, reliability, resolution, calibration));
  }

  // ----- One bin

  /**
   How far a forecast in a bin strays from the bin's mean: its variance, less twice its covariance with the
   outcome.
   */
  function StrayOf(x: real, v: real, f: real, o: real): real { Square(x - f) - 2.0 * ((x - f) * (v - o)) }

  function Stray(p: seq<real>, y: seq<int>, f: real, o: real): nat -> real {
    (i: nat) => StrayOf(Forecast(p)(i), Outcome(y)(i), f, o)
  }

  /** What a bin adds beside the three terms of the decomposition. */
  function Within(p: seq<real>, y: seq<int>): seq<nat> -> real {
    group => SumOf(Stray(p, y, MeanOver(Forecast(p), group), MeanOver(Outcome(y), group)), group)
  }

  /** Sums over part of a bin: of the terms, of what strays, of the forecasts and of the outcomes, and the count. */
  datatype Tally = Tally(terms: real, stray: real, forecasts: real, outcomes: real, n: real)

  function TallyOf(p: seq<real>, y: seq<int>, f: real, o: real, group: seq<nat>): Tally {
    Tally(SumOf(Term(p, y), group), SumOf(Stray(p, y, f, o), group), SumOf(Forecast(p), group),
      SumOf(Outcome(y), group),
      |group| as real)
  }

  function Counting(t: Tally, x: real, v: real, f: real, o: real): Tally {
    Tally(t.terms + Square(x - v), t.stray + StrayOf(x, v, f, o), t.forecasts + x, t.outcomes + v, t.n + 1.0)
  }

  /** What squared misses come to beside what strays from the means `f` and `o`. */
  function Opening(n: real, forecasts: real, outcomes: real, f: real, o: real): real {
    Linear(n, forecasts, outcomes, 2.0 * f * o - f * f, 2.0 * (f - o), 1.0 - 2.0 * f)
  }

  /** The sum of the terms, opened around the means `f` and `o`. */
  predicate GapsOpened(t: Tally, f: real, o: real) {
    t.terms == t.stray + Opening(t.n, t.forecasts, t.outcomes, f, o)
  }

  lemma TermOpens(x: real, v: real, f: real, o: real)
    requires v == 0.0 || v == 1.0
    ensures Square(x - v) == StrayOf(x, v, f, o) + Opening(1.0, x, v, f, o)
  {
  }

  lemma CountingOpens(t: Tally, x: real, v: real, f: real, o: real)
    requires GapsOpened(t, f, o) && (v == 0.0 || v == 1.0)
    ensures GapsOpened(Counting(t, x, v, f, o), f, o)
  {
    hide Linear, Square, StrayOf;
    TermOpens(x, v, f, o);
    LinearAdds(t.n, t.forecasts, t.outcomes, 1.0, x, v, 2.0 * f * o - f * f, 2.0 * (f - o), 1.0 - 2.0 * f);
  }

  lemma OneForecast(p: seq<real>, y: seq<int>, f: real, o: real, i: nat)
    ensures var x, v := Forecast(p)(i), Outcome(y)(i);
      && Term(p, y)(i) == Square(x - v)
      && Stray(p, y, f, o)(i) == StrayOf(x, v, f, o)
  {
  }

  lemma OneMoreForecast(p: seq<real>, y: seq<int>, f: real, o: real, group: seq<nat>, i: nat)
    ensures TallyOf(p, y, f, o, group + [i])
      == Counting(TallyOf(p, y, f, o, group), Forecast(p)(i), Outcome(y)(i), f, o)
  {
    hide Square, StrayOf, Term, Stray, Forecast, Outcome;
    SumOfAdd(Term(p, y), group, i);
    SumOfAdd(Stray(p, y, f, o), group, i);
    SumOfAdd(Forecast(p), group, i);
    SumOfAdd(Outcome(y), group, i);
    OneForecast(p, y, f, o, i);
  }

  lemma OutcomeIsBit(p: seq<real>, y: seq<int>, i: nat)
    requires Checked(p, y) && i < |p|
    ensures Outcome(y)(i) == 0.0 || Outcome(y)(i) == 1.0
  {
    assert y[i] in y;
  }

  predicate Indexes(group: seq<nat>, n: nat) {
    forall k :: 0 <= k < |group| ==> group[k] < n
  }

  lemma NothingOpens(f: real, o: real)
    ensures GapsOpened(Tally(0.0, 0.0, 0.0, 0.0, 0.0), f, o)
  {
  }

  lemma {:induction false} GroupOpens(p: seq<real>, y: seq<int>, f: real, o: real, group: seq<nat>)
    requires Checked(p, y) && Indexes(group, |p|)
    ensures GapsOpened(TallyOf(p, y, f, o, group), f, o)
  {
    hide Square, GapsOpened, Counting;
    if group == [] {
      NothingOpens(f, o);
    } else {
      GroupOpens(p, y, f, o, Front(group));
      OutcomeIsBit(p, y, Last(group));
      CountingOpens(TallyOf(p, y, f, o, Front(group)), Forecast(p)(Last(group)), Outcome(y)(Last(group)), f, o);
      OneMoreForecast(p, y, f, o, Front(group), Last(group));
      assert group == Front(group) + [Last(group)];
    }
  }

  /** The sum of the terms: the gap, what strays, and the spread of the outcomes. */
  predicate Split(t: Tally, f: real, o: real) {
    t.terms == t.stray + Weighted(t.n, f - o) + t.outcomes - Weighted(t.n, o)
  }

  /** Around its own means a bin's cross term vanishes. */
  lemma OpenedAtMeans(t: Tally, f: real, o: real)
    requires GapsOpened(t, f, o) && t.forecasts == t.n * f && t.outcomes == t.n * o
    ensures Split(t, f, o)
  {
    assert f * t.forecasts == t.n * (f * f) && o * t.forecasts == t.n * (f * o) && f * t.outcomes == t.n * (f * o);
  }

  lemma MeanTimesCount(f: nat -> real, group: seq<nat>)
    ensures SumOf(f, group) == |group| as real * MeanOver(f, group)
  {
  }

  lemma GroupSplits(p: seq<real>, y: seq<int>, group: seq<nat>)
    requires Checked(p, y) && Indexes(group, |p|)
    ensures var f, o := MeanOver(Forecast(p), group), MeanOver(Outcome(y), group);
      Split(TallyOf(p, y, f, o, group), f, o)
  {
    hide GapsOpened, Square, MeanOver, Split;
    var f, o := MeanOver(Forecast(p), group), MeanOver(Outcome(y), group);
    GroupOpens(p, y, f, o, group);
    MeanTimesCount(Forecast(p), group);
    MeanTimesCount(Outcome(y), group);
    OpenedAtMeans(TallyOf(p, y, f, o, group), f, o);
  }

  // ----- All the bins

  function In(f: nat -> real): seq<nat> -> real { group => SumOf(f, group) }

  function Size(group: seq<nat>): real { |group| as real }

  function GapIn(p: seq<real>, y: seq<int>): seq<nat> -> real {
    group => Weighted(Size(group), MeanOver(Forecast(p), group) - MeanOver(Outcome(y), group))
  }

  function ReachIn(y: seq<int>, rise: real): seq<nat> -> real {
    group => Weighted(Size(group), MeanOver(Outcome(y), group) - rise)
  }

  predicate AllIndex(groups: seq<seq<nat>>, n: nat) {
    forall k :: 0 <= k < |groups| ==> Indexes(groups[k], n)
  }

  lemma GroupAdds(p: seq<real>, y: seq<int>, group: seq<nat>)
    requires Checked(p, y) && Indexes(group, |p|)
    ensures In(Term(p, y))(group)
      == Within(p, y)(group) + GapIn(p, y)(group) + In(Outcome(y))(group) - ReachIn(y, 0.0)(group)
  {
    hide Square, MeanOver, Weighted;
    GroupSplits(p, y, group);
  }

  /** The terms of all the bins together. */
  lemma {:induction false} GroupsAdd(p: seq<real>, y: seq<int>, groups: seq<seq<nat>>)
    requires Checked(p, y) && AllIndex(groups, |p|)
    ensures SumOf(In(Term(p, y)), groups)
      == SumOf(Within(p, y), groups) + SumOf(GapIn(p, y), groups) + SumOf(In(Outcome(y)), groups)
        - SumOf(ReachIn(y, 0.0), groups)
  {
    hide Square, Within, GapIn, In, ReachIn, Checked;
    if groups != [] {
      GroupsAdd(p, y, Front(groups));
      GroupAdds(p, y, Last(groups));
    }
  }

  /** How squared distances change when they are measured from `rise` and not from zero. */
  function Moved(total: real, size: real, rise: real): real { rise * rise * size - 2.0 * rise * total }

  lemma MovedAdds(total: real, size: real, more: real, others: real, rise: real)
    ensures Moved(total + more, size + others, rise) == Moved(total, size, rise) + Moved(more, others, rise)
    ensures Moved(0.0, 0.0, rise) == 0.0
  {
  }

  lemma ReachMoves(size: real, total: real, mean: real, rise: real)
    requires total == size * mean
    ensures Weighted(size, mean - rise) == Weighted(size, mean - 0.0) + Moved(total, size, rise)
  {
    assert rise * total == size * (rise * mean);
  }

  lemma GroupReaches(y: seq<int>, rise: real, group: seq<nat>)
    ensures ReachIn(y, rise)(group) == ReachIn(y, 0.0)(group) + Moved(In(Outcome(y))(group), Size(group), rise)
  {
    hide Weighted, Moved, MeanOver;
    MeanTimesCount(Outcome(y), group);
    ReachMoves(Size(group), SumOf(Outcome(y), group), MeanOver(Outcome(y), group), rise);
  }

  lemma {:induction false} ReachesOpen(y: seq<int>, rise: real, groups: seq<seq<nat>>)
    ensures SumOf(ReachIn(y, rise), groups)
      == SumOf(ReachIn(y, 0.0), groups) + Moved(SumOf(In(Outcome(y)), groups), SumOf(Size, groups), rise)
  {
    hide Moved, ReachIn, In;
    if groups == [] {
      MovedAdds(0.0, 0.0, 0.0, 0.0, rise);
    } else {
      var before, group := Front(groups), Last(groups);
      ReachesOpen(y, rise, before);
      GroupReaches(y, rise, group);
      MovedAdds(SumOf(In(Outcome(y)), before), SumOf(Size, before), In(Outcome(y))(group), Size(group), rise);
    }
  }

  lemma {:induction false} SumOfFlatten(f: nat -> real, groups: seq<seq<nat>>)
    ensures SumOf(In(f), groups) == SumOf(f, Flatten(groups))
  {
    if groups != [] {
      SumOfFlatten(f, Front(groups));
      SumOfConcat(f, Flatten(Front(groups)), Last(groups));
    }
  }

  lemma {:induction false} SizeOfFlatten(groups: seq<seq<nat>>)
    ensures SumOf(Size, groups) == |Flatten(groups)| as real
  {
    if groups != [] { SizeOfFlatten(Front(groups)); }
  }

  lemma ScaledWeight(size: nat, n: nat, x: real)
    requires n > 0
    ensures Weighted(size as real / n as real, x) == (1.0 / n as real) * Weighted(size as real, x)
  {
    assert size as real / n as real == (1.0 / n as real) * size as real;
  }

  /** Dividing by the number of forecasts turns the sums over the bins into reliability and resolution. */
  lemma Scaled(p: seq<real>, y: seq<int>, n: nat, rise: real, groups: seq<seq<nat>>)
    requires n > 0
    ensures SumOf(Gap(p, y, n), groups) == (1.0 / n as real) * SumOf(GapIn(p, y), groups)
    ensures SumOf(Reach(y, n, rise), groups) == (1.0 / n as real) * SumOf(ReachIn(y, rise), groups)
  {
    hide Weighted, MeanOver;
    forall g | g in groups ensures Gap(p, y, n)(g) == (1.0 / n as real) * GapIn(p, y)(g) {
      ScaledWeight(|g|, n, MeanOver(Forecast(p), g) - MeanOver(Outcome(y), g));
    }
    forall g | g in groups ensures Reach(y, n, rise)(g) == (1.0 / n as real) * ReachIn(y, rise)(g) {
      ScaledWeight(|g|, n, MeanOver(Outcome(y), g) - rise);
    }
    SumOfScaled(GapIn(p, y), Gap(p, y, n), 1.0 / n as real, groups);
    SumOfScaled(ReachIn(y, rise), Reach(y, n, rise), 1.0 / n as real, groups);
  }

  /** The decomposition over plain numbers. */
  lemma Decomposes(terms: real, within: real, gap: real, outcomes: real, spread: real, reach: real, n: real, s: Score)
    requires n > 0.0 && outcomes == n * s.riseShare
    requires terms == within + gap + outcomes - spread && reach == spread + Moved(outcomes, n, s.riseShare)
    requires s.brier == terms / n && s.reliability == (1.0 / n) * gap && s.resolution == (1.0 / n) * reach
    requires s.uncertainty == s.riseShare * (1.0 - s.riseShare)
    ensures Decomposed(s, within / n)
  {
    var rise := s.riseShare;
    assert reach == spread - n * (rise * rise);
    assert terms == within + gap - reach + n * (rise * (1.0 - rise));
  }

  /** The score splits into its three terms and a remainder. */
  predicate Decomposed(s: Score, rest: real) {
    s.brier == s.reliability - s.resolution + s.uncertainty + rest
  }

  /** The bins hold every forecast once. */
  predicate Partition(groups: seq<seq<nat>>, n: nat) {
    multiset(Flatten(groups)) == multiset(Range(n))
  }

  lemma SumOverBins(f: nat -> real, groups: seq<seq<nat>>, n: nat)
    requires Partition(groups, n)
    ensures SumOf(In(f), groups) == SumOf(f, Range(n))
  {
    SumOfFlatten(f, groups);
    SumOfPermuted(f, Flatten(groups), Range(n));
  }

  lemma SizeOfBins(groups: seq<seq<nat>>, n: nat)
    requires Partition(groups, n)
    ensures SumOf(Size, groups) == n as real
  {
    SizeOfFlatten(groups);
    SameLength(Flatten(groups), Range(n));
  }

  lemma RateTimes(f: nat -> real, n: nat)
    requires n > 0
    ensures SumOf(f, Range(n)) == n as real * Rate(f, n)
  {
  }

  /** Murphy's decomposition over any way of putting every forecast into one bin:
    * exact, once what strays within the bins is added. */
  lemma MurphyWithin(p: seq<real>, y: seq<int>, groups: seq<seq<nat>>)
    requires p != [] && Checked(p, y) && Partition(groups, |p|)
    ensures Decomposed(ScoreOver(p, y, groups), SumOf(Within(p, y), groups) / |p| as real)
  {
    hide Within, GapIn, ReachIn, Gap, Reach, Miss, Moved, Checked, Term, Outcome, In, Decomposed, Partition;
    var n, s := |p|, ScoreOver(p, y, groups);
    EveryIndex(groups, n);
    GroupsAdd(p, y, groups);
    ReachesOpen(y, s.riseShare, groups);
    SumOverBins(Term(p, y), groups, n);
    SumOverBins(Outcome(y), groups, n);
    SizeOfBins(groups, n);
    RateTimes(Outcome(y), n);
    Scaled(p, y, n, s.riseShare, groups);
    Decomposes(SumOf(Term(p, y), Range(n)), SumOf(Within(p, y), groups), SumOf(GapIn(p, y), groups),
      SumOf(Outcome(y), Range(n)),
      SumOf(ReachIn(y, 0.0), groups), SumOf(ReachIn(y, s.riseShare), groups), n as real, s);
  }

  lemma SameLength(a: seq<nat>, b: seq<nat>)
    requires multiset(a) == multiset(b)
    ensures |a| == |b|
  {
    assert |multiset(a)| == |a| && |multiset(b)| == |b|;
  }

  lemma EveryIndex(groups: seq<seq<nat>>, n: nat)
    requires Partition(groups, n)
    ensures AllIndex(groups, n)
  {
    forall k, j | 0 <= k < |groups| && 0 <= j < |groups[k]| ensures groups[k][j] < n {
      FlattenMembers(groups, k, groups[k][j]);
      assert groups[k][j] in multiset(Range(n));
    }
  }

  /** All the forecasts of a bin are the same. */
  predicate Level(p: seq<real>, group: seq<nat>) {
    forall i, j :: i in group && j in group ==> Forecast(p)(i) == Forecast(p)(j)
  }

  lemma LevelMean(f: nat -> real, group: seq<nat>, i: nat)
    requires i in group && forall j :: j in group ==> f(j) == f(i)
    ensures MeanOver(f, group) == f(i)
  {
    SumOfConstant(f, f(i), group);
  }

  lemma NothingStrays(x: real, v: real, f: real, o: real)
    requires x == f
    ensures StrayOf(x, v, f, o) == 0.0
  {
  }

  lemma LevelStraysNone(p: seq<real>, y: seq<int>, group: seq<nat>)
    requires Level(p, group)
    ensures Within(p, y)(group) == 0.0
  {
    hide StrayOf, MeanOver, Stray;
    var f, o := MeanOver(Forecast(p), group), MeanOver(Outcome(y), group);
    forall i | i in group ensures Stray(p, y, f, o)(i) == 0.0 {
      LevelMean(Forecast(p), group, i);
      OneForecast(p, y, f, o, i);
      NothingStrays(Forecast(p)(i), Outcome(y)(i), f, o);
    }
    SumOfConstant(Stray(p, y, f, o), 0.0, group);
  }

  /** Where every bin's forecasts are the same, Brier = reliability - resolution + uncertainty exactly. */
  lemma MurphyExact(p: seq<real>, y: seq<int>, groups: seq<seq<nat>>)
    requires p != [] && Checked(p, y) && Partition(groups, |p|)
    requires forall g :: g in groups ==> Level(p, g)
    ensures Decomposed(ScoreOver(p, y, groups), 0.0)
  {
    hide ScoreOver, Within, Level, Checked, Decomposed, Partition;
    MurphyWithin(p, y, groups);
    forall g | g in groups ensures Within(p, y)(g) == 0.0 {
      LevelStraysNone(p, y, g);
    }
    SumOfConstant(Within(p, y), 0.0, groups);
    assert SumOf(Within(p, y), groups) == 0.0;
  }

  // ----- What the other figures are

  /** `(p - y) ** 2`, forecast by forecast. */
  function SquaredErrors(p: seq<real>, y: seq<int>): (errors: seq<real>)
    requires |p| == |y|
    ensures |errors| == |p|
    ensures forall i :: 0 <= i < |p| ==> errors[i] == (p[i] - y[i] as real) * (p[i] - y[i] as real)
  {
    seq(|p|, i requires 0 <= i < |p| => (p[i] - y[i] as real) * (p[i] - y[i] as real))
  }

  function Risen(y: seq<int>): (os: seq<real>)
    ensures |os| == |y| && forall i :: 0 <= i < |y| ==> os[i] == y[i] as real
  {
    seq(|y|, i requires 0 <= i < |y| => y[i] as real)
  }

  lemma {:induction false} SumOverRange(f: nat -> real, xs: seq<real>)
    requires forall i :: 0 <= i < |xs| ==> f(i) == xs[i]
    ensures SumOf(f, Range(|xs|)) == Sum(xs)
  {
    if xs != [] {
      assert Front(Range(|xs|)) == Range(|xs| - 1);
      SumOverRange(f, Front(xs));
    }
  }

  /** The Brier score, the mean probability and the share that rose are the averages they are named after. */
  lemma AveragesAre(p: seq<real>, y: seq<int>, groups: seq<seq<nat>>)
    requires p != [] && Checked(p, y)
    ensures var s := ScoreOver(p, y, groups);
      && s.decisions == |p|
      && s.brier == Mean(SquaredErrors(p, y)) && s.meanProbability == Mean(p) && s.riseShare == Mean(Risen(y))
      && s.uncertainty == s.riseShare * (1.0 - s.riseShare)
  {
    hide Mean, Term, Forecast, Outcome, Gap, Reach, Miss, Rate, Checked;
    SameCount(p, y);
    TermsAreErrors(p, y);
    ForecastsAre(p);
    OutcomesAre(y);
    RateIsMean(Term(p, y), SquaredErrors(p, y));
    RateIsMean(Forecast(p), p);
    RateIsMean(Outcome(y), Risen(y));
  }

  lemma SameCount(p: seq<real>, y: seq<int>)
    requires Checked(p, y)
    ensures |p| == |y|
  {
  }

  lemma TermsAreErrors(p: seq<real>, y: seq<int>)
    requires |p| == |y|
    ensures forall i :: 0 <= i < |p| ==> Term(p, y)(i) == SquaredErrors(p, y)[i]
  {
    forall i | 0 <= i < |p| ensures Term(p, y)(i) == SquaredErrors(p, y)[i] {
      OpenSquare(p[i] - y[i] as real);
      assert Forecast(p)(i) == p[i] && Outcome(y)(i) == y[i] as real;
    }
  }

  lemma OpenSquare(x: real)
    ensures Square(x) == x * x
  {
  }

  lemma ForecastsAre(p: seq<real>)
    ensures forall i :: 0 <= i < |p| ==> Forecast(p)(i) == p[i]
  {
  }

  lemma OutcomesAre(y: seq<int>)
    ensures forall i :: 0 <= i < |y| ==> Outcome(y)(i) == Risen(y)[i]
  {
  }

  lemma RateIsMean(f: nat -> real, xs: seq<real>)
    requires xs != [] && forall i :: 0 <= i < |xs| ==> f(i) == xs[i]
    ensures Rate(f, |xs|) == Mean(xs)
  {
    SumOverRange(f, xs);
  }

  /** How far a bin's mean forecast is from the share of it that rose. */
  function Off(p: seq<real>, y: seq<int>): seq<nat> -> real {
    (g: seq<nat>) =>
      var x := MeanOver(Forecast(p), g) - MeanOver(Outcome(y), g);
      if x < 0.0 then -x else x
  }

  function ShareIn(n: nat): seq<nat> -> real
    requires n > 0
  {
    (g: seq<nat>) => Share(g, n)
  }

  lemma SharesAddUp(groups: seq<seq<nat>>, n: nat)
    requires n > 0 && Partition(groups, n)
    ensures SumOf(ShareIn(n), groups) == 1.0
  {
    hide Partition, Share;
    SizeOfBins(groups, n);
    forall g | g in groups ensures ShareIn(n)(g) == (1.0 / n as real) * Size(g) {
      ShareOfSize(g, n);
    }
    hide Size;
    OnePart(n as real);
    SumOfScaled(Size, ShareIn(n), 1.0 / n as real, groups);
  }

  lemma ShareOfSize(g: seq<nat>, n: nat)
    requires n > 0
    ensures Share(g, n) == (1.0 / n as real) * Size(g)
  {
    Over(|g| as real, n as real);
  }

  lemma OnePart(n: real)
    requires n > 0.0
    ensures (1.0 / n) * n == 1.0
  {
  }

  lemma ShareBounds(share: real, off: real, low: real, high: real)
    requires share >= 0.0 && low <= off <= high
    ensures low * share <= share * off <= high * share
  {
    ProductNotNegative(share, off - low);
    ProductNotNegative(share, high - off);
  }

  function ScaledShare(n: nat, c: real): seq<nat> -> real
    requires n > 0
  {
    (g: seq<nat>) => c * Share(g, n)
  }

  lemma MissIsShare(p: seq<real>, y: seq<int>, n: nat, g: seq<nat>)
    requires n > 0
    ensures Share(g, n) >= 0.0 && Miss(p, y, n)(g) == Share(g, n) * Off(p, y)(g)
  {
  }

  /** The calibration error is a mean of how far off the bins are: between the least and the most. */
  lemma CalibrationWithin(p: seq<real>, y: seq<int>, groups: seq<seq<nat>>, low: real, high: real)
    requires p != [] && Partition(groups, |p|) && forall g :: g in groups ==> low <= Off(p, y)(g) <= high
    ensures low <= ScoreOver(p, y, groups).calibrationError <= high
  {
    hide Off, Miss, Partition, Share;
    var n := |p|;
    SharesAddUp(groups, n);
    forall g | g in groups ensures ScaledShare(n, low)(g) <= Miss(p, y, n)(g) <= ScaledShare(n, high)(g) {
      MissIsShare(p, y, n, g);
      ShareBounds(Share(g, n), Off(p, y)(g), low, high);
    }
    SumOfOrder(ScaledShare(n, low), Miss(p, y, n), groups);
    SumOfOrder(Miss(p, y, n), ScaledShare(n, high), groups);
    SumOfScaled(ShareIn(n), ScaledShare(n, low), low, groups);
    SumOfScaled(ShareIn(n), ScaledShare(n, high), high, groups);
  }

  /** What a bin adds to the difference between the mean probability and the share that rose. */
  function Pulls(p: seq<real>, y: seq<int>, n: nat): seq<nat> -> real
    requires n > 0
  {
    (g: seq<nat>) => (1.0 / n as real) * (In(Forecast(p))(g) - In(Outcome(y))(g))
  }

  lemma ShareOfMean(f: nat -> real, g: seq<nat>, n: nat)
    requires n > 0
    ensures Share(g, n) * MeanOver(f, g) == (1.0 / n as real) * In(f)(g)
  {
    MeanTimesCount(f, g);
    assert |g| as real / n as real == (1.0 / n as real) * |g| as real;
  }

  lemma PullWithinMiss(p: seq<real>, y: seq<int>, n: nat, g: seq<nat>)
    requires n > 0
    ensures -Miss(p, y, n)(g) <= Pulls(p, y, n)(g) <= Miss(p, y, n)(g)
  {
    hide In, MeanOver, Share;
    MissIsShare(p, y, n, g);
    ShareOfMean(Forecast(p), g, n);
    ShareOfMean(Outcome(y), g, n);
    SplitShare(Share(g, n), MeanOver(Forecast(p), g), MeanOver(Outcome(y), g), Off(p, y)(g));
    SplitFactor(1.0 / n as real, In(Forecast(p))(g), In(Outcome(y))(g));
  }

  lemma SplitFactor(c: real, a: real, b: real)
    ensures c * (a - b) == c * a - c * b
  {
  }

  lemma SplitShare(share: real, a: real, b: real, off: real)
    requires share >= 0.0 && -off <= a - b <= off
    ensures -(share * off) <= share * a - share * b <= share * off
  {
    ProductNotNegative(share, off - (a - b));
    ProductNotNegative(share, off + (a - b));
  }

  /** It is at least as large as the mean forecast is off from the share that rose. */
  lemma CalibrationAtLeastBias(p: seq<real>, y: seq<int>, groups: seq<seq<nat>>)
    requires p != [] && Partition(groups, |p|)
    ensures var s := ScoreOver(p, y, groups);
      -s.calibrationError <= s.meanProbability - s.riseShare <= s.calibrationError
  {
    hide Miss, Pulls, Partition, In;
    var n := |p|;
    forall g | g in groups ensures -Miss(p, y, n)(g) <= Pulls(p, y, n)(g) <= Miss(p, y, n)(g) {
      PullWithinMiss(p, y, n, g);
    }
    SumOfBounded(Pulls(p, y, n), Miss(p, y, n), groups);
    SumOfPulls(p, y, groups);
  }

  function Difference(p: seq<real>, y: seq<int>): seq<nat> -> real {
    (g: seq<nat>) => In(Forecast(p))(g) - In(Outcome(y))(g)
  }

  lemma SumOfPulls(p: seq<real>, y: seq<int>, groups: seq<seq<nat>>)
    requires p != [] && Partition(groups, |p|)
    ensures SumOf(Pulls(p, y, |p|), groups) == Rate(Forecast(p), |p|) - Rate(Outcome(y), |p|)
  {
    hide Partition, In;
    var n := |p|;
    SumOfScaled(Difference(p, y), Pulls(p, y, n), 1.0 / n as real, groups);
    SumOfBoth(Difference(p, y), In(Outcome(y)), In(Forecast(p)), groups);
    SumOverBins(Forecast(p), groups, n);
    SumOverBins(Outcome(y), groups, n);
    SplitFactor(1.0 / n as real, SumOf(Forecast(p), Range(n)), SumOf(Outcome(y), Range(n)));
    Over(SumOf(Forecast(p), Range(n)), n as real);
    Over(SumOf(Outcome(y), Range(n)), n as real);
  }

  lemma Over(x: real, n: real)
    requires n != 0.0
    ensures (1.0 / n) * x == x / n
  {
    assert (1.0 / n) * n == 1.0;
    Cancel((1.0 / n) * x, x / n, n);
  }

  lemma MissSign(p: seq<real>, y: seq<int>, n: nat, g: seq<nat>)
    requires n > 0 && g != []
    ensures Miss(p, y, n)(g) >= 0.0 && Gap(p, y, n)(g) >= 0.0
    ensures Miss(p, y, n)(g) == 0.0 <==> MeanOver(Forecast(p), g) == MeanOver(Outcome(y), g)
    ensures Gap(p, y, n)(g) == 0.0 <==> MeanOver(Forecast(p), g) == MeanOver(Outcome(y), g)
  {
    hide MeanOver;
    var x := MeanOver(Forecast(p), g) - MeanOver(Outcome(y), g);
    QuotientPositive(|g| as real, n as real);
    WeighedSign(Share(g, n), x);
  }

  lemma WeighedSign(w: real, x: real)
    requires w > 0.0
    ensures Weighted(w, x) >= 0.0 && WeightedAbs(w, x) >= 0.0
    ensures (Weighted(w, x) == 0.0 <==> x == 0.0) && (WeightedAbs(w, x) == 0.0 <==> x == 0.0)
  {
    SquareNotNegative(x);
    ProductNotNegative(w, Square(x));
    if x > 0.0 {
      ProductPositive(w, x);
      PositiveSquare(x, x);
    } else if x < 0.0 {
      ProductPositive(w, -x);
      PositiveSquare(-x, x);
    }
    if x != 0.0 { ProductPositive(w, Square(x)); }
  }

  lemma PositiveSquare(a: real, x: real)
    requires a > 0.0 && (x == a || x == -a)
    ensures Square(x) > 0.0
  {
    SquareNotNegative(x);
    if Square(x) <= 0.0 { SquareOrder(a, a / 2.0); }
  }

  /** Neither it nor the reliability is ever negative, and both are zero exactly for calibrated forecasts. */
  lemma CalibratedExactly(p: seq<real>, y: seq<int>, groups: seq<seq<nat>>)
    requires p != [] && forall g :: g in groups ==> g != []
    ensures var s := ScoreOver(p, y, groups);
      var calibrated := forall g :: g in groups ==> MeanOver(Forecast(p), g) == MeanOver(Outcome(y), g);
      && s.calibrationError >= 0.0 && s.reliability >= 0.0
      && (s.calibrationError == 0.0 <==> calibrated) && (s.reliability == 0.0 <==> calibrated)
  {
    hide Miss, Gap, MeanOver;
    var n := |p|;
    forall g | g in groups
      ensures Miss(p, y, n)(g) >= 0.0 && Gap(p, y, n)(g) >= 0.0
      ensures Miss(p, y, n)(g) == 0.0 <==> MeanOver(Forecast(p), g) == MeanOver(Outcome(y), g)
      ensures Gap(p, y, n)(g) == 0.0 <==> MeanOver(Forecast(p), g) == MeanOver(Outcome(y), g)
    {
      MissSign(p, y, n, g);
    }
    NoneAboveZero(Miss(p, y, n), groups);
    NoneAboveZero(Gap(p, y, n), groups);
  }

  lemma NoneAboveZero<T>(f: T -> real, xs: seq<T>)
    requires forall x :: x in xs ==> f(x) >= 0.0
    ensures SumOf(f, xs) >= 0.0 && (SumOf(f, xs) == 0.0 <==> forall x :: x in xs ==> f(x) == 0.0)
  {
    SumOfNonNegative(f, xs);
    if forall x :: x in xs ==> f(x) == 0.0 { SumOfConstant(f, 0.0, xs); }
  }
}
