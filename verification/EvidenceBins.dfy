/** Forecasts cut into bins of about equal count, never between two equal forecasts. */
module EvidenceBins {
  import opened Common
  import opened Rounding
  import opened Sorting

  function Range(n: nat): (r: seq<nat>)
    ensures |r| == n && forall i :: 0 <= i < n ==> r[i] == i
  {
    seq(n, i => i)
  }

  function Forecast(p: seq<real>): nat -> real {
    (i: nat) => if i < |p| then p[i] else 0.0
  }

  /** `sorted(range(n), key=lambda i: (probabilities[i], i))`: by forecast, equal forecasts in the order given. */
  function Order(p: seq<real>): seq<nat> {
    SortBy(Forecast(p), Range(|p|))
  }

  ghost predicate Before(p: seq<real>, i: nat, j: nat) {
    Forecast(p)(i) < Forecast(p)(j) || (Forecast(p)(i) == Forecast(p)(j) && i < j)
  }

  ghost predicate InOrder(p: seq<real>, xs: seq<nat>) {
    forall i, j :: 0 <= i < j < |xs| ==> Before(p, xs[i], xs[j])
  }

  lemma FrontBeforeLast(p: seq<real>, xs: seq<nat>)
    requires InOrder(p, xs) && xs != []
    ensures forall y :: y in Front(xs) ==> y in xs && Before(p, y, Last(xs))
  {
    forall y | y in Front(xs) ensures y in xs && Before(p, y, Last(xs)) {
      var i :| 0 <= i < |xs| - 1 && xs[i] == y;
    }
  }

  lemma {:induction false} PlaceInOrder(p: seq<real>, xs: seq<nat>, x: nat)
    requires InOrder(p, xs) && forall y :: y in xs ==> y < x
    ensures InOrder(p, Place(Forecast(p), xs, x))
  {
    if xs != [] {
      var rest, last := Front(xs), Last(xs);
      FrontBeforeLast(p, xs);
      if Forecast(p)(last) > Forecast(p)(x) {
        PlaceInOrder(p, rest, x);
        PlaceAdds(Forecast(p), rest, x);
        AppendInOrder(p, Place(Forecast(p), rest, x), last);
      } else {
        forall y | y in xs ensures Before(p, y, x) {
          assert y == last || y in rest;
        }
        AppendInOrder(p, xs, x);
      }
    }
  }

  lemma AppendInOrder(p: seq<real>, xs: seq<nat>, x: nat)
    requires InOrder(p, xs) && forall y :: y in xs ==> Before(p, y, x)
    ensures InOrder(p, xs + [x])
  {
    forall i | 0 <= i < |xs| ensures Before(p, xs[i], x) {
      assert xs[i] in xs;
    }
  }

  lemma {:induction false} SortedInOrder(p: seq<real>, n: nat)
    ensures InOrder(p, SortBy(Forecast(p), Range(n)))
  {
    if n > 0 {
      assert Front(Range(n)) == Range(n - 1);
      SortedInOrder(p, n - 1);
      SortByMembers(Forecast(p), Range(n - 1));
      PlaceInOrder(p, SortBy(Forecast(p), Range(n - 1)), n - 1);
    }
  }

  /** The order holds every index once, sorted by forecast and then by index. */
  lemma OrderIsSorted(p: seq<real>)
    ensures InOrder(p, Order(p)) && multiset(Order(p)) == multiset(Range(|p|)) && |Order(p)| == |p|
    ensures forall i :: i in Order(p) ==> i < |p|
  {
    SortedInOrder(p, |p|);
    SortBySorts(Forecast(p), Range(|p|));
    SortByMembers(Forecast(p), Range(|p|));
  }


  // ----- Where the bins end

  /** A cut at `e` would part two equal forecasts. */
  predicate Tied(p: seq<real>, order: seq<nat>, e: nat) {
    0 < e < |order| && Forecast(p)(order[e]) == Forecast(p)(order[e - 1])
  }

  /** The first place, from `e` on, where a cut parts no two equal forecasts. */
  function TieEnd(p: seq<real>, order: seq<nat>, e: nat): (r: nat)
    requires e <= |order|
    ensures e <= r <= |order| && !Tied(p, order, r) && forall k :: e <= k < r ==> Tied(p, order, k)
    decreases |order| - e
  {
    if Tied(p, order, e) then TieEnd(p, order, e + 1) else e
  }

  lemma ShareWithin(n: nat, bins: nat, k: nat)
    requires k <= bins
    ensures k * n <= n * bins
  {
    Distributes(k, bins - k, n);
    NaturalProduct(bins - k, n);
  }

  /** Where the first `k` of the bins would end if no forecasts were equal. */
  function Target(n: nat, bins: nat, k: nat): (e: nat)
    requires 1 <= k <= bins
    ensures e <= n
  {
    ShareWithin(n, bins, k);
    HalfEvenWithin(k * n, n, bins);
    if k == bins then n else HalfEven(k * n, bins)
  }

  lemma TargetGrows(n: nat, bins: nat, k: nat)
    requires 1 <= k < bins
    ensures Target(n, bins, k) <= Target(n, bins, k + 1)
  {
    Distributes(k, 1, n);
    HalfEvenGrows(k * n, (k + 1) * n, bins);
  }

  /** Where the first `k` bins end. */
  function Cut(p: seq<real>, order: seq<nat>, bins: nat, k: nat): (e: nat)
    requires k <= bins
    ensures e <= |order| && !Tied(p, order, e)
  {
    if k == 0 then 0 else TieEnd(p, order, Target(|order|, bins, k))
  }

  lemma CutsMeet(p: seq<real>, order: seq<nat>, bins: nat, k: nat)
    requires 1 <= k <= bins
    ensures Cut(p, order, bins, k - 1) <= Cut(p, order, bins, k)
    ensures var start, target := Cut(p, order, bins, k - 1), Target(|order|, bins, k);
      TieEnd(p, order, if target > start then target else start) == Cut(p, order, bins, k)
  {
    var start, target := Cut(p, order, bins, k - 1), Target(|order|, bins, k);
    if k > 1 { TargetGrows(|order|, bins, k - 1); }
    if target <= start {
      TiesUpTo(p, order, target, start);
    }
  }

  lemma {:induction false} TiesUpTo(p: seq<real>, order: seq<nat>, e: nat, end: nat)
    requires e <= end <= |order| && !Tied(p, order, end) && forall k :: e <= k < end ==> Tied(p, order, k)
    ensures TieEnd(p, order, e) == end == TieEnd(p, order, end)
    decreases end - e
  {
    if e < end { TiesUpTo(p, order, e + 1, end); }
  }

  /** Where the bins end, from nothing at all to the last. */
  function Cuts(p: seq<real>, order: seq<nat>, bins: nat): (cuts: seq<nat>)
    ensures |cuts| == bins + 1 && forall k :: 0 <= k <= bins ==> cuts[k] == Cut(p, order, bins, k)
  {
    seq(bins + 1, k requires 0 <= k <= bins => Cut(p, order, bins, k))
  }

  /** Cuts in order, from the start, none between two equal forecasts. */
  predicate Proper(p: seq<real>, order: seq<nat>, cuts: seq<nat>) {
    && cuts != [] && cuts[0] == 0
    && (forall k :: 0 <= k < |cuts| ==> cuts[k] <= |order| && !Tied(p, order, cuts[k]))
    && (forall k :: 0 < k < |cuts| ==> cuts[k - 1] <= cuts[k])
  }

  lemma CutsAreProper(p: seq<real>, order: seq<nat>, bins: nat)
    ensures Proper(p, order, Cuts(p, order, bins))
  {
    forall k | 1 <= k <= bins ensures Cut(p, order, bins, k - 1) <= Cut(p, order, bins, k) {
      CutsMeet(p, order, bins, k);
    }
  }

  /** One more bin, left out if there is nothing in it. */
  function AddBin(groups: seq<seq<nat>>, order: seq<nat>, start: nat, end: nat): seq<seq<nat>>
    requires start <= end <= |order|
  {
    if end > start then groups + [order[start..end]] else groups
  }

  /** The first `k` bins. */
  function BinsTo(p: seq<real>, order: seq<nat>, cuts: seq<nat>, k: nat): seq<seq<nat>>
    requires k < |cuts| && Proper(p, order, cuts)
  {
    if k == 0 then [] else AddBin(BinsTo(p, order, cuts, k - 1), order, cuts[k - 1], cuts[k])
  }

  function Bins(p: seq<real>, bins: nat): seq<seq<nat>> {
    CutsAreProper(p, Order(p), bins);
    BinsTo(p, Order(p), Cuts(p, Order(p), bins), bins)
  }

  /** The groups hold the first `end` of the order, none empty. */
  predicate Covers(groups: seq<seq<nat>>, order: seq<nat>, end: nat)
    requires end <= |order|
  {
    Flatten(groups) == order[..end] && forall g :: g in groups ==> g != []
  }

  lemma AddBinCovers(groups: seq<seq<nat>>, order: seq<nat>, start: nat, end: nat)
    requires start <= end <= |order| && Covers(groups, order, start)
    ensures Covers(AddBin(groups, order, start, end), order, end)
  {
    FlattenAdd(groups, order[start..end]);
    assert order[..start] + order[start..end] == order[..end];
  }

  lemma {:induction false} BinsCover(p: seq<real>, order: seq<nat>, cuts: seq<nat>, k: nat)
    requires k < |cuts| && Proper(p, order, cuts)
    ensures Covers(BinsTo(p, order, cuts, k), order, cuts[k]) && |BinsTo(p, order, cuts, k)| <= k
  {
    if k > 0 {
      BinsCover(p, order, cuts, k - 1);
      AddBinCovers(BinsTo(p, order, cuts, k - 1), order, cuts[k - 1], cuts[k]);
    }
  }

  /** Every forecast of one bin is below every forecast of another. */
  predicate Below(p: seq<real>, g: seq<nat>, h: seq<nat>) {
    forall i, j :: i in g && j in h && i < |p| && j < |p| ==> p[i] < p[j]
  }

  predicate Apart(p: seq<real>, groups: seq<seq<nat>>) {
    forall a, b :: 0 <= a < b < |groups| ==> Below(p, groups[a], groups[b])
  }

  lemma OrderAt(p: seq<real>, order: seq<nat>, a: nat, b: nat)
    requires InOrder(p, order) && a <= b < |order|
    ensures Forecast(p)(order[a]) <= Forecast(p)(order[b])
  {
    if a < b { assert Before(p, order[a], order[b]); }
  }

  lemma CutParts(p: seq<real>, order: seq<nat>, cut: nat)
    requires InOrder(p, order) && cut <= |order| && !Tied(p, order, cut)
    ensures Below(p, order[..cut], order[cut..])
  {
    forall i, j | i in order[..cut] && j in order[cut..] && i < |p| && j < |p| ensures p[i] < p[j] {
      var a :| 0 <= a < cut && order[a] == i;
      var b :| cut <= b < |order| && order[b] == j;
      OrderAt(p, order, a, cut - 1);
      OrderAt(p, order, cut - 1, cut);
      OrderAt(p, order, cut, b);
      assert Forecast(p)(i) == p[i] && Forecast(p)(j) == p[j];
    }
  }

  lemma SliceMembers(xs: seq<nat>, lo: nat, hi: nat)
    requires lo <= hi <= |xs|
    ensures forall x :: x in xs[lo..hi] ==> x in xs[lo..]
  {
    assert xs[lo..hi] == xs[lo..][..hi - lo];
  }

  lemma AddBinApart(p: seq<real>, groups: seq<seq<nat>>, order: seq<nat>, start: nat, end: nat)
    requires start <= end <= |order| && Covers(groups, order, start)
    requires Below(p, order[..start], order[start..]) && Apart(p, groups)
    ensures Apart(p, AddBin(groups, order, start, end))
  {
    SliceMembers(order, start, end);
    forall a | 0 <= a < |groups| ensures Below(p, groups[a], order[start..end]) {
      forall i | i in groups[a] ensures i in order[..start] {
        FlattenMembers(groups, a, i);
      }
    }
  }

  lemma {:induction false} BinsApart(p: seq<real>, order: seq<nat>, cuts: seq<nat>, k: nat)
    requires k < |cuts| && Proper(p, order, cuts) && InOrder(p, order)
    ensures Apart(p, BinsTo(p, order, cuts, k))
  {
    if k > 0 {
      hide Below, Covers, InOrder;
      BinsApart(p, order, cuts, k - 1);
      BinsCover(p, order, cuts, k - 1);
      CutParts(p, order, cuts[k - 1]);
      AddBinApart(p, BinsTo(p, order, cuts, k - 1), order, cuts[k - 1], cuts[k]);
    }
  }

  /** The bins: at most `bins` of them, none empty, every index once in sorted order, no two equal forecasts parted. */
  lemma BinsPartition(p: seq<real>, bins: nat)
    requires bins >= 1
    ensures |Bins(p, bins)| <= bins && forall g :: g in Bins(p, bins) ==> g != []
    ensures Flatten(Bins(p, bins)) == Order(p) && multiset(Order(p)) == multiset(Range(|p|))
    ensures Apart(p, Bins(p, bins))
  {
    var order, cuts := Order(p), Cuts(p, Order(p), bins);
    OrderIsSorted(p);
    CutsAreProper(p, order, bins);
    BinsCover(p, order, cuts, bins);
    BinsApart(p, order, cuts, bins);
    LastCut(p, order, bins);
  }

  // ----- How many each bin holds

  /** A cut at `e` has the same forecast on either side. */
  predicate SameAround(p: seq<real>, order: seq<nat>, e: nat) {
    0 < e < |order| && order[e] < |p| && order[e - 1] < |p| && p[order[e]] == p[order[e - 1]]
  }

  /**
   Where bin `k` has to end: at the least place, from the whole number nearest to its share of the count on (of
   two as near, the even one), where the neighbouring forecasts differ.
   */
  ghost predicate EndsBin(p: seq<real>, order: seq<nat>, bins: nat, k: nat, end: nat) {
    exists share: nat :: share <= end <= |order| && EndsFrom(p, order, bins, k, share, end)
  }

  ghost predicate EndsFrom(p: seq<real>, order: seq<nat>, bins: nat, k: nat, share: nat, end: nat)
    requires end <= |order|
  {
    && NearestMultiple(k * |order|, bins, share)
    && !SameAround(p, order, end)
    && forall j :: share <= j < end ==> SameAround(p, order, j)
  }

  function HeldBy(groups: seq<seq<nat>>, i: nat): nat
    requires i <= |groups|
  {
    |Flatten(groups[..i])|
  }

  /** A group of the answer ends where bin `k` has to. */
  ghost predicate SomeGroupEnds(p: seq<real>, bins: nat, groups: seq<seq<nat>>, k: nat) {
    exists i :: 0 <= i <= |groups| && EndsBin(p, Order(p), bins, k, HeldBy(groups, i))
  }

  /** Group `i` ends where some bin has to. */
  ghost predicate GroupEnds(p: seq<real>, bins: nat, groups: seq<seq<nat>>, i: nat)
    requires i <= |groups|
  {
    exists k :: 1 <= k <= bins && EndsBin(p, Order(p), bins, k, HeldBy(groups, i))
  }

  /** The groups end where the bins have to, and nowhere else. */
  ghost predicate EqualCount(p: seq<real>, bins: nat, groups: seq<seq<nat>>) {
    && (forall k :: 1 <= k <= bins ==> SomeGroupEnds(p, bins, groups, k))
    && (forall i :: 1 <= i <= |groups| ==> GroupEnds(p, bins, groups, i))
  }

  lemma TiedMeansSame(p: seq<real>, order: seq<nat>, e: nat)
    requires 0 < e < |order| && forall i :: i in order ==> i < |p|
    ensures Tied(p, order, e) <==> SameAround(p, order, e)
  {
    assert order[e] in order && order[e - 1] in order;
  }

  lemma WholeShare(n: nat, bins: nat)
    requires bins >= 1
    ensures NearestMultiple(bins * n, bins, n)
  {
  }

  lemma TargetIsNearest(n: nat, bins: nat, k: nat)
    requires 1 <= k <= bins
    ensures NearestMultiple(k * n, bins, Target(n, bins, k))
  {
    if k == bins { WholeShare(n, bins); } else { HalfEvenIsNearestMultiple(k * n, bins); }
  }

  lemma CutEndsBin(p: seq<real>, bins: nat, k: nat)
    requires 1 <= k <= bins
    ensures EndsBin(p, Order(p), bins, k, Cut(p, Order(p), bins, k))
  {
    var order := Order(p);
    OrderIsSorted(p);
    var share, end := Target(|order|, bins, k), Cut(p, order, bins, k);
    TargetIsNearest(|order|, bins, k);
    if 0 < end < |order| { TiedMeansSame(p, order, end); }
    forall j | share <= j < end ensures SameAround(p, order, j) {
      assert Tied(p, order, j);
      TiedMeansSame(p, order, j);
    }
    assert EndsFrom(p, order, bins, k, share, end);
  }

  lemma {:induction false} BinsToGrow(p: seq<real>, order: seq<nat>, cuts: seq<nat>, k: nat, l: nat)
    requires k <= l < |cuts| && Proper(p, order, cuts)
    ensures BinsTo(p, order, cuts, k) <= BinsTo(p, order, cuts, l)
    decreases l
  {
    if k < l { BinsToGrow(p, order, cuts, k, l - 1); }
  }

  lemma HeldByFirst(p: seq<real>, order: seq<nat>, cuts: seq<nat>, k: nat, l: nat)
    requires k <= l < |cuts| && Proper(p, order, cuts)
    ensures var groups, first := BinsTo(p, order, cuts, l), |BinsTo(p, order, cuts, k)|;
      first <= |groups| && HeldBy(groups, first) == cuts[k]
  {
    BinsToGrow(p, order, cuts, k, l);
    BinsCover(p, order, cuts, k);
    hide BinsTo, Proper, Flatten;
    assert BinsTo(p, order, cuts, l)[..|BinsTo(p, order, cuts, k)|] == BinsTo(p, order, cuts, k);
  }

  /** The first `k` bins hold what comes before the `k`-th cut. */
  lemma HeldByBins(p: seq<real>, bins: nat, k: nat) returns (first: nat)
    requires k <= bins
    ensures first <= |Bins(p, bins)| && HeldBy(Bins(p, bins), first) == Cut(p, Order(p), bins, k)
    ensures Proper(p, Order(p), Cuts(p, Order(p), bins))
    ensures first == |BinsTo(p, Order(p), Cuts(p, Order(p), bins), k)|
  {
    hide Proper, BinsTo, HeldBy, Cut;
    CutsAreProper(p, Order(p), bins);
    HeldByFirst(p, Order(p), Cuts(p, Order(p), bins), k, bins);
    first := |BinsTo(p, Order(p), Cuts(p, Order(p), bins), k)|;
  }

  /** The bin a group came from. */
  lemma {:induction false} GroupOfBin(p: seq<real>, order: seq<nat>, cuts: seq<nat>, k: nat, i: nat) returns (j: nat)
    requires k < |cuts| && Proper(p, order, cuts) && i < |BinsTo(p, order, cuts, k)|
    ensures 1 <= j <= k && |BinsTo(p, order, cuts, j)| == i + 1
    ensures BinsTo(p, order, cuts, k)[i] == order[cuts[j - 1]..cuts[j]]
  {
    if i < |BinsTo(p, order, cuts, k - 1)| { j := GroupOfBin(p, order, cuts, k - 1, i); } else { j := k; }
  }

  /** The bins end where their shares do, moved on past equal forecasts. */
  lemma BinsAreEqualCount(p: seq<real>, bins: nat)
    requires bins >= 1
    ensures EqualCount(p, bins, Bins(p, bins))
  {
    var groups := Bins(p, bins);
    hide Bins, Cut, EndsBin, HeldBy;
    forall k | 1 <= k <= bins ensures SomeGroupEnds(p, bins, groups, k) {
      CutEndsBin(p, bins, k);
      var first := HeldByBins(p, bins, k);
      assert EndsBin(p, Order(p), bins, k, HeldBy(groups, first));
    }
    forall i | 1 <= i <= |groups| ensures GroupEnds(p, bins, groups, i) {
      GroupAt(p, bins, i);
    }
  }

  lemma BinOfGroup(p: seq<real>, bins: nat, i: nat) returns (j: nat)
    requires i < |Bins(p, bins)|
    ensures 1 <= j <= bins && HeldBy(Bins(p, bins), i + 1) == Cut(p, Order(p), bins, j)
    ensures Cut(p, Order(p), bins, j - 1) <= Cut(p, Order(p), bins, j) <= |Order(p)|
    ensures Bins(p, bins)[i] == Order(p)[Cut(p, Order(p), bins, j - 1)..Cut(p, Order(p), bins, j)]
  {
    hide Proper, BinsTo, HeldBy, Cut;
    CutsAreProper(p, Order(p), bins);
    j := GroupOfBin(p, Order(p), Cuts(p, Order(p), bins), bins, i);
    var first := HeldByBins(p, bins, j);
    CutsMeet(p, Order(p), bins, j);
  }

  lemma GroupAt(p: seq<real>, bins: nat, i: nat)
    requires 1 <= i <= |Bins(p, bins)|
    ensures GroupEnds(p, bins, Bins(p, bins), i)
  {
    hide Cut, EndsBin, HeldBy, Bins;
    var j := BinOfGroup(p, bins, i - 1);
    CutEndsBin(p, bins, j);
  }

  predicate AllDifferent(p: seq<real>) {
    forall i, j :: 0 <= i < j < |p| ==> p[i] != p[j]
  }

  lemma NoneSame(p: seq<real>, j: nat)
    requires AllDifferent(p)
    ensures !SameAround(p, Order(p), j)
  {
    OrderIsSorted(p);
    if 0 < j < |Order(p)| { assert Before(p, Order(p)[j - 1], Order(p)[j]); }
  }

  lemma EndIsShare(p: seq<real>, bins: nat, k: nat, end: nat)
    requires AllDifferent(p) && EndsBin(p, Order(p), bins, k, end)
    ensures NearestMultiple(k * |p|, bins, end)
  {
    hide NearestMultiple;
    OrderIsSorted(p);
    var share: nat :| share <= end <= |Order(p)| && EndsFrom(p, Order(p), bins, k, share, end);
    NoneSame(p, share);
    assert share < end ==> SameAround(p, Order(p), share);
  }

  lemma ShareOfBin(p: seq<real>, bins: nat, k: nat)
    requires AllDifferent(p) && k <= bins && bins >= 1
    ensures NearestMultiple(k * |p|, bins, Cut(p, Order(p), bins, k))
  {
    if k > 0 {
      CutEndsBin(p, bins, k);
      EndIsShare(p, bins, k, Cut(p, Order(p), bins, k));
    }
  }

  /** `bins` times `count` is no further from `share` than half of `slack`. */
  predicate Nearly(count: int, bins: int, share: int, slack: int) {
    -slack <= 2 * (count * bins) - 2 * share <= slack
  }

  lemma SharesApart(a: nat, b: nat, n: nat, bins: nat, k: nat)
    requires k >= 1 && a <= b && NearestMultiple((k - 1) * n, bins, a) && NearestMultiple(k * n, bins, b)
    ensures Nearly(b - a, bins, n, 2 * bins)
  {
    Distributes(a, b - a, bins);
    Distributes(k - 1, 1, n);
  }

  lemma GroupIsEven(p: seq<real>, bins: nat, i: nat)
    requires bins >= 1 && AllDifferent(p) && i < |Bins(p, bins)|
    ensures Nearly(|Bins(p, bins)[i]|, bins, |p|, 2 * bins)
  {
    hide Cut, Bins, NearestMultiple, Nearly;
    var j := BinOfGroup(p, bins, i);
    ShareOfBin(p, bins, j - 1);
    ShareOfBin(p, bins, j);
    SharesApart(Cut(p, Order(p), bins, j - 1), Cut(p, Order(p), bins, j), |p|, bins, j);
  }

  /** Some first groups hold the first `k` shares to within half a decision. */
  ghost predicate HoldsShares(p: seq<real>, bins: nat, k: nat) {
    exists i :: 0 <= i <= |Bins(p, bins)| && Nearly(HeldBy(Bins(p, bins), i), bins, k * |p|, bins)
  }

  /**
   With no two forecasts equal, the first `k` shares of the count are held by some first groups to within half a
   decision, and no group is more than one decision larger or smaller than an equal share.
   */
  lemma DifferentForecastsEvenBins(p: seq<real>, bins: nat)
    requires bins >= 1 && AllDifferent(p)
    ensures forall k :: 1 <= k <= bins ==> HoldsShares(p, bins, k)
    ensures forall g :: g in Bins(p, bins) ==> Nearly(|g|, bins, |p|, 2 * bins)
  {
    hide Cut, Bins, HeldBy, AllDifferent;
    forall k | 1 <= k <= bins ensures HoldsShares(p, bins, k) {
      var first := HeldByBins(p, bins, k);
      ShareOfBin(p, bins, k);
      assert Nearly(HeldBy(Bins(p, bins), first), bins, k * |p|, bins);
    }
    forall g | g in Bins(p, bins) ensures Nearly(|g|, bins, |p|, 2 * bins) {
      var i :| 0 <= i < |Bins(p, bins)| && Bins(p, bins)[i] == g;
      GroupIsEven(p, bins, i);
    }
  }

  lemma LastCut(p: seq<real>, order: seq<nat>, bins: nat)
    requires bins >= 1
    ensures Cut(p, order, bins, bins) == |order|
  {
  }

  /** The inner loop: a cut that would part equal forecasts moves on. */
  method SkipTies(p: seq<real>, order: seq<nat>, from: nat) returns (end: nat)
    requires from <= |order|
    ensures end == TieEnd(p, order, from)
  {
    end := from;
    while 0 < end < |order| && Forecast(p)(order[end]) == Forecast(p)(order[end - 1])
      invariant from <= end <= |order| && TieEnd(p, order, from) == TieEnd(p, order, end)
      decreases |order| - end
    {
      end := end + 1;
    }
  }

  /** Where bin `k` ends, given where it starts. */
  method EndOfBin(p: seq<real>, order: seq<nat>, bins: nat, k: nat, start: nat) returns (end: nat)
    requires 1 <= k <= bins && start == Cut(p, order, bins, k - 1)
    ensures start <= end == Cut(p, order, bins, k)
  {
    CutsMeet(p, order, bins, k);
    end := |order|;
    if k != bins {
      end := HalfEven(k * |order|, bins);
      if end < start { end := start; }
    }
    end := SkipTies(p, order, end);
  }

  method CutBins(p: seq<real>, order: seq<nat>, bins: nat) returns (groups: seq<seq<nat>>)
    requires bins >= 1 && Proper(p, order, Cuts(p, order, bins))
    ensures groups == BinsTo(p, order, Cuts(p, order, bins), bins)
  {
    groups := [];
    var start := 0;
    ghost var cuts := Cuts(p, order, bins);
    for k := 1 to bins + 1
      invariant start == cuts[k - 1] && groups == BinsTo(p, order, cuts, k - 1)
    {
      var end := EndOfBin(p, order, bins, k, start);
      if end > start {
        groups := groups + [order[start..end]];
        start := end;
      }
    }
  }

  /** `equal_count_bins`. */
  method EqualCountBins(p: seq<real>, bins: int) returns (r: Result<seq<seq<nat>>, string>)
    ensures r.Err? <==> bins < 1
    ensures r.Ok? ==> r.value == Bins(p, bins) && EqualCount(p, bins, r.value)
    ensures r.Ok? ==> |r.value| <= bins && (forall g :: g in r.value ==> g != []) && Apart(p, r.value)
    ensures r.Ok? ==> Flatten(r.value) == Order(p) && multiset(Flatten(r.value)) == multiset(Range(|p|))
  {
    if bins < 1 {
      return Err("bins must be at least 1");
    }
    CutsAreProper(p, Order(p), bins);
    var groups := CutBins(p, Order(p), bins);
    BinsPartition(p, bins);
    BinsAreEqualCount(p, bins);
    r := Ok(groups);
  }
}
