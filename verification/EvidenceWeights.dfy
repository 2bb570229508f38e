/** The sources' weights on one decision, and the log odds they add up to. */
module EvidenceWeights {
  import opened Common
  import opened Reals
  import opened Sums

  /** One source's log likelihood ratio on a decision. */
  datatype Entry = Entry(source: string, value: real)

  /** How much of one source another can repeat. */
  type Redundancy = (string, string) -> real

  /** The contributions of a decision, in the order they are held: a mapping names no source twice. */
  predicate Mapping(entries: seq<Entry>) {
    forall i, j :: 0 <= i < j < |entries| ==> entries[i].source != entries[j].source
  }

  function Abs(x: real): real { if x < 0.0 then -x else x }

  function Over(x: real, y: real): real
    requires y != 0.0
  {
    x / y
  }

  // ----- Shrinking a measured correlation

  const REDUNDANT: real := 1.0

  function ShrinkTowardRedundant(correlation: real, effective: real, prior: real): Result<real, string> {
    if prior <= 0.0 then Err("prior_windows must be positive")
    else if effective < 0.0 then Err("effective must be a non-negative number")
    else Ok((effective * correlation + prior * REDUNDANT) / (effective + prior))
  }

  lemma DistanceLeft(effective: real, correlation: real, prior: real)
    requires prior > 0.0 && effective >= 0.0
    ensures 1.0 - Over(effective * correlation + prior, effective + prior)
      == Times(Over(effective, effective + prior), 1.0 - correlation)
  {
    var total := effective + prior;
    var share, mean := effective / total, (effective * correlation + prior) / total;
    assert share * total == effective && mean * total == effective * correlation + prior;
    assert share * (1.0 - correlation) * total == effective * (1.0 - correlation);
    assert (1.0 - mean) * total == effective * (1.0 - correlation);
    Cancel(1.0 - mean, share * (1.0 - correlation), total);
  }

  /** Shrinking keeps the share effective / (effective + prior) of the distance from full redundancy. */
  lemma ShrinkKeepsShare(correlation: real, effective: real, prior: real)
    requires prior > 0.0 && effective >= 0.0
    ensures var r := ShrinkTowardRedundant(correlation, effective, prior);
      r.Ok? && 1.0 - r.value == Times(Over(effective, effective + prior), 1.0 - correlation)
  {
    hide Times;
    DistanceLeft(effective, correlation, prior);
    assert prior * REDUNDANT == prior;
  }

  function SignedCorrelation(rho: Option<real>, polarity: int): real {
    polarity as real * (if rho.Some? then rho.value else 0.0)
  }

  /** `pair_dependence(...).redundancy`, from the measured correlation of the shared windows. */
  function PairRedundancy(rho: Option<real>, polarity: int, effective: real, prior: real): Result<real, string> {
    match ShrinkTowardRedundant(SignedCorrelation(rho, polarity), effective, prior)
    case Err(e) => Err(e)
    case Ok(x) => Ok(Max(0.0, x))
  }

  lemma ShareOfDistance(share: real, distance: real, x: real)
    requires 0.0 <= share <= 1.0 && 0.0 <= distance && 1.0 - x == Times(share, distance)
    ensures x <= 1.0 && (share == 0.0 ==> x == 1.0) && x >= 1.0 - distance
  {
    TimesWithin(share, distance);
  }

  /** Two sources repeat each other by between nothing and everything; with no shared windows, by everything. */
  lemma PairRedundancyBounds(rho: Option<real>, polarity: int, effective: real, prior: real)
    requires prior > 0.0 && effective >= 0.0 && -1 <= polarity <= 1 && (rho.Some? ==> -1.0 <= rho.value <= 1.0)
    ensures var r := PairRedundancy(rho, polarity, effective, prior);
      && r.Ok? && 0.0 <= r.value <= 1.0
      && (effective == 0.0 ==> r.value == 1.0)
      && r.value >= SignedCorrelation(rho, polarity)
  {
    var signed := SignedCorrelation(rho, polarity);
    assert -1.0 <= signed <= 1.0;
    ShrinkKeepsShare(signed, effective, prior);
    ShareInUnit(effective, prior);
    ShareOfDistance(Over(effective, effective + prior), 1.0 - signed,
      ShrinkTowardRedundant(signed, effective, prior).value);
  }

  lemma ShareInUnit(effective: real, prior: real)
    requires prior > 0.0 && effective >= 0.0
    ensures 0.0 <= Over(effective, effective + prior) <= 1.0
      && (effective == 0.0 ==> Over(effective, effective + prior) == 0.0)
  {
  }

  // ----- The pairs a fit has measured

  /** Python's `a < b` on strings. */
  predicate Precedes(a: string, b: string) {
    b != "" && (a == "" || a[0] < b[0] || (a[0] == b[0] && Precedes(a[1..], b[1..])))
  }

  /** Of two different strings one comes first. */
  lemma {:induction false} OneComesFirst(a: string, b: string)
    requires a != b
    ensures Precedes(a, b) <==> !Precedes(b, a)
  {
    if a != "" && b != "" && a[0] == b[0] {
      assert a == [a[0]] + a[1..] && b == [b[0]] + b[1..];
      OneComesFirst(a[1..], b[1..]);
    }
  }

  /** The redundancy of each pair measured together, under its two sources in ascending order. */
  type Pairs = map<(string, string), real>

  function PairKey(first: string, second: string): (string, string) {
    if Precedes(first, second) then (first, second) else (second, first)
  }

  /** `CombinationModel.redundancy`: a pair never measured together counts as fully redundant. */
  function Fitted(pairs: Pairs): Redundancy {
    (first: string, second: string) =>
      if first == second || PairKey(first, second) !in pairs then 1.0 else pairs[PairKey(first, second)]
  }

  /** It does not matter which source of a pair is named first. */
  lemma FittedIsSymmetric(pairs: Pairs, first: string, second: string)
    ensures Fitted(pairs)(first, second) == Fitted(pairs)(second, first)
  {
    if first != second { OneComesFirst(first, second); }
  }

  /** A pair that was measured, stored under its sources in ascending order, is found from either side. */
  lemma MeasuredIsFound(pairs: Pairs, first: string, second: string)
    requires Precedes(first, second) && (first, second) in pairs
    ensures Fitted(pairs)(first, second) == pairs[(first, second)] == Fitted(pairs)(second, first)
  {
    NotBeforeItself(first);
    OneComesFirst(first, second);
  }

  lemma {:induction false} NotBeforeItself(a: string)
    ensures !Precedes(a, a)
  {
    if a != "" { NotBeforeItself(a[1..]); }
  }

  /** No two sources of the decision were measured together. */
  ghost predicate Unmeasured(pairs: Pairs, entries: seq<Entry>) {
    forall e, f :: e in entries && f in entries && e.source != f.source ==> PairKey(e.source, f.source) !in pairs
  }

  // ----- The weights

  /** How much of `own`'s evidence another source could be repeating. */
  function Repeated(rho: Redundancy, own: Entry): Entry -> real
    requires own.value != 0.0
  {
    (other: Entry) =>
      if other.source == own.source then 0.0
      else Times(Max(0.0, rho(own.source, other.source)), Min(1.0, Over(Abs(other.value), Abs(own.value))))
  }

  function Dilution(rho: Redundancy, entries: seq<Entry>, own: Entry): real
    requires own.value != 0.0
  {
    1.0 + SumOf(Repeated(rho, own), entries)
  }

  lemma OverNotNegative(x: real, y: real)
    requires x >= 0.0 && y > 0.0
    ensures Over(x, y) >= 0.0
  {
    if x > 0.0 { QuotientPositive(x, y); }
  }

  lemma RepeatedInUnit(rho: Redundancy, own: Entry, other: Entry)
    requires own.value != 0.0
    ensures Repeated(rho, own)(other) >= 0.0
    ensures rho(own.source, other.source) <= 1.0 ==> Repeated(rho, own)(other) <= 1.0
  {
    var r, share := Max(0.0, rho(own.source, other.source)), Min(1.0, Over(Abs(other.value), Abs(own.value)));
    hide Over, Times;
    OverNotNegative(Abs(other.value), Abs(own.value));
    TimesInUnit(r, share);
  }

  lemma DilutionAtLeastOne(rho: Redundancy, entries: seq<Entry>, own: Entry)
    requires own.value != 0.0
    ensures Dilution(rho, entries, own) >= 1.0
  {
    forall other | other in entries ensures Repeated(rho, own)(other) >= 0.0 {
      RepeatedInUnit(rho, own, other);
    }
    SumOfNonNegative(Repeated(rho, own), entries);
  }

  /** 1 / R for one source; a source with nothing to say keeps weight 1. */
  function Weight(rho: Redundancy, entries: seq<Entry>, own: Entry): (w: real) {
    if own.value == 0.0 then 1.0
    else
      DilutionAtLeastOne(rho, entries, own);
      Over(1.0, Dilution(rho, entries, own))
  }

  /** The inner loop: what the other sources could repeat of this one. */
  method WeightOf(entries: seq<Entry>, rho: Redundancy, own: Entry) returns (weight: real)
    ensures weight == Weight(rho, entries, own)
  {
    if own.value == 0.0 {
      return 1.0;
    }
    hide Times, Over;
    var total := 1.0;
    for j := 0 to |entries|
      invariant total == Dilution(rho, entries[..j], own)
    {
      SumOfNext(Repeated(rho, own), entries, j);
      var other := entries[j];
      if other.source != own.source {
        total := total + Times(Max(0.0, rho(own.source, other.source)),
          Min(1.0, Over(Abs(other.value), Abs(own.value))));
      }
    }
    assert entries[..|entries|] == entries;
    DilutionAtLeastOne(rho, entries, own);
    weight := Over(1.0, total);
  }

  /** The weights of the first `k` sources. */
  predicate Weighted(entries: seq<Entry>, rho: Redundancy, weights: map<string, real>, k: nat)
    requires k <= |entries|
  {
    && (forall s :: s in weights ==> exists j :: 0 <= j < k && entries[j].source == s)
    && (forall j :: 0 <= j < k ==>
      entries[j].source in weights && weights[entries[j].source] == Weight(rho, entries, entries[j]))
  }

  /** `redundancy_weights`. */
  method RedundancyWeights(entries: seq<Entry>, rho: Redundancy) returns (weights: map<string, real>)
    requires Mapping(entries)
    ensures Weighted(entries, rho, weights, |entries|)
  {
    hide Weight;
    weights := map[];
    for i := 0 to |entries|
      invariant Weighted(entries, rho, weights, i)
    {
      var weight := WeightOf(entries, rho, entries[i]);
      weights := weights[entries[i].source := weight];
    }
  }

  // ----- What the weights promise

  /** No source of the decision repeats another by more than everything. */
  ghost predicate AtMostAll(rho: Redundancy, entries: seq<Entry>) {
    forall e, f :: e in entries && f in entries && e.source != f.source ==> rho(e.source, f.source) <= 1.0
  }

  /** Every weight is above zero and at most one; k sources leave each at least a k-th of its vote. */
  lemma WeightBounds(rho: Redundancy, entries: seq<Entry>, own: Entry)
    requires Mapping(entries) && own in entries
    ensures 0.0 < Weight(rho, entries, own) <= 1.0
    ensures AtMostAll(rho, entries) ==> Weight(rho, entries, own) >= Over(1.0, |entries| as real)
  {
    if own.value != 0.0 {
      DilutionAtLeastOne(rho, entries, own);
      Inverse(Dilution(rho, entries, own));
      if AtMostAll(rho, entries) {
        DilutionAtMost(rho, entries, own);
        InverseOrder(Dilution(rho, entries, own), |entries| as real);
      }
    } else {
      Inverse(|entries| as real);
    }
  }

  lemma Inverse(x: real)
    requires x >= 1.0
    ensures 0.0 < Over(1.0, x) <= 1.0
  {
  }

  lemma InverseOrder(x: real, y: real)
    requires 0.0 < x <= y
    ensures Over(1.0, y) <= Over(1.0, x)
  {
    assert (1.0 / x) * x == 1.0 && (1.0 / y) * y == 1.0;
    if 1.0 / y > 1.0 / x { assert (1.0 / y - 1.0 / x) * y > 0.0; }
  }

  /** A source repeats nothing of itself. */
  lemma SumWithoutOwn(rho: Redundancy, entries: seq<Entry>, i: nat)
    requires i < |entries| && entries[i].value != 0.0
    ensures SumOf(Repeated(rho, entries[i]), entries)
      == SumOf(Repeated(rho, entries[i]), entries[..i] + entries[i + 1..])
  {
    SumOfRemoved(Repeated(rho, entries[i]), entries, i);
  }

  lemma {:induction false} SumAtMostCount<T>(f: T -> real, xs: seq<T>)
    requires forall x :: x in xs ==> f(x) <= 1.0
    ensures SumOf(f, xs) <= |xs| as real
  {
    if xs != [] { SumAtMostCount(f, Front(xs)); }
  }

  lemma DilutionAtMost(rho: Redundancy, entries: seq<Entry>, own: Entry)
    requires Mapping(entries) && own in entries && own.value != 0.0 && AtMostAll(rho, entries)
    ensures Dilution(rho, entries, own) <= |entries| as real
  {
    var i :| 0 <= i < |entries| && entries[i] == own;
    var others := entries[..i] + entries[i + 1..];
    OthersDiffer(entries, i);
    SumWithoutOwn(rho, entries, i);
    forall other | other in others ensures Repeated(rho, own)(other) <= 1.0 {
      RepeatedInUnit(rho, own, other);
    }
    SumAtMostCount(Repeated(rho, own), others);
  }

  /** The order the sources are held in does not matter. */
  lemma WeightIgnoresOrder(rho: Redundancy, a: seq<Entry>, b: seq<Entry>, own: Entry)
    requires multiset(a) == multiset(b)
    ensures Weight(rho, a, own) == Weight(rho, b, own)
  {
    if own.value != 0.0 { SumOfPermuted(Repeated(rho, own), a, b); }
  }

  // ----- The combined log odds

  function Value(e: Entry): real { e.value }

  /** What a source moves the log odds by. Without redundancies every source weighs 1. */
  function Move(rho: Option<Redundancy>, entries: seq<Entry>): Entry -> real {
    (e: Entry) => if rho.None? then e.value else Times(Weight(rho.value, entries, e), e.value)
  }

  /** `combine_log_odds(...).log_odds`. */
  function LogOdds(prior: real, entries: seq<Entry>, rho: Option<Redundancy>): real {
    prior + SumOf(Move(rho, entries), entries)
  }

  lemma LogOddsIgnoreOrder(prior: real, a: seq<Entry>, b: seq<Entry>, rho: Option<Redundancy>)
    requires multiset(a) == multiset(b)
    ensures LogOdds(prior, a, rho) == LogOdds(prior, b, rho)
  {
    forall e | e in a ensures Move(rho, a)(e) == Move(rho, b)(e) {
      if rho.Some? { WeightIgnoresOrder(rho.value, a, b, e); }
    }
    SumOfSame(Move(rho, a), Move(rho, b), a);
    SumOfPermuted(Move(rho, b), a, b);
  }

  lemma OthersDiffer(entries: seq<Entry>, i: nat)
    requires Mapping(entries) && i < |entries|
    ensures forall other :: other in entries[..i] + entries[i + 1..] ==>
      other in entries && other.source != entries[i].source
  {
    var others := entries[..i] + entries[i + 1..];
    forall other | other in others ensures other in entries && other.source != entries[i].source {
      var k :| 0 <= k < |others| && others[k] == other;
      if k < i { assert entries[k] == other; } else { assert entries[k + 1] == other; }
    }
  }

  /** Every source of the decision repeats every other by the same amount. */
  ghost predicate CommonTo(rho: Redundancy, entries: seq<Entry>, r: real) {
    forall e, f :: e in entries && f in entries && e.source != f.source ==> rho(e.source, f.source) == r
  }

  /** `own` is none of the others, and each of them could repeat the same share of it. */
  ghost predicate SharedWith(rho: Redundancy, own: Entry, others: seq<Entry>, r: real) {
    forall e :: e in others ==> e.source != own.source && rho(own.source, e.source) == r
  }

  lemma OthersShare(rho: Redundancy, entries: seq<Entry>, i: nat, r: real)
    requires Mapping(entries) && i < |entries| && CommonTo(rho, entries, r)
    ensures SharedWith(rho, entries[i], entries[..i] + entries[i + 1..], r)
  {
    OthersDiffer(entries, i);
  }

  lemma EquallyStrong(r: real, c: real)
    requires r >= 0.0 && c > 0.0
    ensures Times(Max(0.0, r), Min(1.0, Over(c, c))) == r
  {
  }

  lemma RepeatsAll(rho: Redundancy, own: Entry, other: Entry, r: real, c: real)
    requires own.source != other.source && rho(own.source, other.source) == r
    requires r >= 0.0 && c > 0.0 && Abs(own.value) == c == Abs(other.value)
    ensures Repeated(rho, own)(other) == r
  {
    hide Over, Times;
    EquallyStrong(r, c);
  }

  lemma OthersRepeatAll(rho: Redundancy, own: Entry, others: seq<Entry>, r: real, c: real)
    requires SharedWith(rho, own, others, r) && r >= 0.0 && c > 0.0 && Abs(own.value) == c
    requires forall e :: e in others ==> Abs(e.value) == c
    ensures SumOf(Repeated(rho, own), others) == Times(|others| as real, r)
  {
    hide Repeated;
    forall other | other in others ensures Repeated(rho, own)(other) == r {
      RepeatsAll(rho, own, other, r, c);
    }
    SumOfConstant(Repeated(rho, own), r, others);
  }

  lemma KishSum(rho: Redundancy, entries: seq<Entry>, i: nat, r: real, c: real)
    requires Mapping(entries) && i < |entries| && CommonTo(rho, entries, r) && r >= 0.0
    requires entries[i].value != 0.0 && c > 0.0 && forall e :: e in entries ==> Abs(e.value) == c
    ensures SumOf(Repeated(rho, entries[i]), entries) == Times((|entries| - 1) as real, r)
  {
    hide Repeated, Times, Abs, CommonTo, SharedWith;
    OthersDiffer(entries, i);
    OthersShare(rho, entries, i, r);
    SumWithoutOwn(rho, entries, i);
    OthersRepeatAll(rho, entries[i], entries[..i] + entries[i + 1..], r, c);
  }

  /** Equally strong sources with a common redundancy r each weigh 1 / (1 + (k - 1) r). */
  lemma Kish(rho: Redundancy, entries: seq<Entry>, own: Entry, r: real, c: real)
    requires Mapping(entries) && own in entries && CommonTo(rho, entries, r) && r >= 0.0
    requires c > 0.0 && forall e :: e in entries ==> Abs(e.value) == c
    ensures 1.0 + Times((|entries| - 1) as real, r) >= 1.0
    ensures Weight(rho, entries, own) == Over(1.0, 1.0 + Times((|entries| - 1) as real, r))
  {
    hide Over, Times;
    assert Abs(own.value) == c;
    var i :| 0 <= i < |entries| && entries[i] == own;
    KishSum(rho, entries, i, r, c);
    CountTimes(|entries| - 1, r);
  }

  lemma CountTimes(n: nat, r: real)
    requires r >= 0.0
    ensures n as real * r == Times(n as real, r) >= 0.0
  {
  }

  /** Sources that say the same and fully repeat each other move the log odds exactly as one of them does. */
  lemma CopiesCountOnce(prior: real, entries: seq<Entry>, rho: Redundancy, v: real)
    requires Mapping(entries) && entries != [] && CommonTo(rho, entries, 1.0)
    requires forall e :: e in entries ==> e.value == v
    ensures LogOdds(prior, entries, Some(rho)) == prior + v
  {
    var k := |entries| as real;
    forall e | e in entries ensures Move(Some(rho), entries)(e) == Over(v, k) {
      if v != 0.0 {
        Kish(rho, entries, e, 1.0, Abs(v));
        OneOfMany(k, v);
      } else {
        assert Over(v, k) == 0.0;
      }
    }
    SumOfConstant(Move(Some(rho), entries), Over(v, k), entries);
    assert k * Over(v, k) == v;
  }

  /** Sources that were never measured together and say the same count once, whatever else was measured. */
  lemma UnmeasuredCopiesCountOnce(prior: real, entries: seq<Entry>, pairs: Pairs, v: real)
    requires Mapping(entries) && entries != [] && Unmeasured(pairs, entries)
    requires forall e :: e in entries ==> e.value == v
    ensures LogOdds(prior, entries, Some(Fitted(pairs))) == prior + v
  {
    CopiesCountOnce(prior, entries, Fitted(pairs), v);
  }

  lemma OneOfMany(k: real, v: real)
    requires k >= 1.0
    ensures 1.0 + Times(k - 1.0, 1.0) == k && Times(Over(1.0, k), v) == Over(v, k)
  {
  }

  lemma NothingRepeated(rho: Redundancy, own: Entry, other: Entry)
    requires own.value != 0.0 && (own.source != other.source ==> rho(own.source, other.source) <= 0.0)
    ensures Repeated(rho, own)(other) == 0.0
  {
  }

  /** No source of the decision repeats another. */
  ghost predicate Independent(rho: Redundancy, entries: seq<Entry>) {
    forall e, f :: e in entries && f in entries && e.source != f.source ==> rho(e.source, f.source) <= 0.0
  }

  lemma IndependentWeighsOne(rho: Redundancy, entries: seq<Entry>, own: Entry)
    requires own in entries && Independent(rho, entries)
    ensures Weight(rho, entries, own) == 1.0
  {
    if own.value != 0.0 {
      forall other | other in entries ensures Repeated(rho, own)(other) == 0.0 {
        NothingRepeated(rho, own, other);
      }
      SumOfConstant(Repeated(rho, own), 0.0, entries);
      assert Dilution(rho, entries, own) == 1.0;
    }
  }

  /** Without redundancy the weights change nothing: the log odds are the naive sum. */
  lemma IndependentAddUp(prior: real, entries: seq<Entry>, rho: Redundancy)
    requires Independent(rho, entries)
    ensures LogOdds(prior, entries, Some(rho)) == LogOdds(prior, entries, None) == prior + SumOf(Value, entries)
  {
    hide Weight;
    forall e | e in entries ensures Move(Some(rho), entries)(e) == Value(e) {
      IndependentWeighsOne(rho, entries, e);
    }
    SumOfSame(Move(Some(rho), entries), Value, entries);
    SumOfSame(Move(None, entries), Value, entries);
  }
}
