/** How many windows of a number of days fit without overlapping. */
module HorizonWindows {
  import opened Common
  import opened Sorting

  function AsReal(i: int): real { i as real }

  function Sorted(xs: seq<int>): seq<int> { SortBy(AsReal, xs) }

  predicate Ascending(xs: seq<int>) {
    forall i, j :: 0 <= i < j < |xs| ==> xs[i] <= xs[j]
  }

  lemma SortedAscends(xs: seq<int>)
    ensures Ascending(Sorted(xs)) && multiset(Sorted(xs)) == multiset(xs) && |Sorted(xs)| == |xs|
  {
    SortBySorts(AsReal, xs);
    var s := Sorted(xs);
    forall i, j | 0 <= i < j < |s| ensures s[i] <= s[j] {
      assert AsReal(s[i]) <= AsReal(s[j]);
    }
  }

  /** The earliest window first, then the earliest that starts no sooner than that one ends. */
  function Picked(sorted: seq<int>, days: int, nextFree: Option<int>): seq<int> {
    if sorted == [] then []
    else if nextFree.None? || sorted[0] >= nextFree.value
    then [sorted[0]] + Picked(sorted[1..], days, Some(sorted[0] + days))
    else Picked(sorted[1..], days, nextFree)
  }

  function Fitting(indices: seq<int>, days: int): nat {
    |Picked(Sorted(indices), days, None)|
  }

  /** Windows of `days` days that start on these days do not overlap. */
  predicate Apart(chosen: seq<int>, days: int) {
    forall i, j :: 0 <= i < j < |chosen| ==> chosen[j] - chosen[i] >= days || chosen[i] - chosen[j] >= days
  }

  predicate Spaced(chosen: seq<int>, days: int) {
    Ascending(chosen) && forall i, j :: 0 <= i < j < |chosen| ==> chosen[j] - chosen[i] >= days
  }

  /** Choices among these days, each occurrence used once. */
  predicate Among(chosen: seq<int>, indices: seq<int>) {
    multiset(chosen) <= multiset(indices)
  }

  lemma {:induction false} PickedIsSpaced(sorted: seq<int>, days: int, nextFree: Option<int>)
    requires Ascending(sorted)
    ensures var picked := Picked(sorted, days, nextFree);
      && Among(picked, sorted) && Spaced(picked, days)
      && (forall x :: x in picked ==> (x in sorted && (nextFree.Some? ==> x >= nextFree.value)))
  {
    if sorted != [] {
      var rest := sorted[1..];
      assert sorted == [sorted[0]] + rest;
      if nextFree.None? || sorted[0] >= nextFree.value {
        PickedIsSpaced(rest, days, Some(sorted[0] + days));
        HeadIsSpaced(sorted[0], Picked(rest, days, Some(sorted[0] + days)), days);
      } else {
        PickedIsSpaced(rest, days, nextFree);
      }
    }
  }

  lemma HeadIsSpaced(x: int, xs: seq<int>, days: int)
    requires Spaced(xs, days) && forall y :: y in xs ==> y >= x && y >= x + days
    ensures Spaced([x] + xs, days)
  {
    var all := [x] + xs;
    forall i, j | 0 <= i < j < |all| ensures all[i] <= all[j] && all[j] - all[i] >= days {
      assert all[j] == xs[j - 1] && xs[j - 1] in xs;
    }
  }

  lemma AllAtLeast(sorted: seq<int>, x: int)
    requires Ascending(sorted) && sorted != [] && x in multiset(sorted)
    ensures x >= sorted[0]
  {
    var i :| 0 <= i < |sorted| && sorted[i] == x;
  }

  lemma HeadAndTail(xs: seq<int>)
    requires xs != []
    ensures multiset(xs) == multiset{xs[0]} + multiset(xs[1..])
  {
    assert xs == [xs[0]] + xs[1..];
  }

  lemma SkipAmong(chosen: seq<int>, sorted: seq<int>)
    requires sorted != [] && Among(chosen, sorted) && sorted[0] !in multiset(chosen)
    ensures Among(chosen, sorted[1..])
  {
    HeadAndTail(sorted);
  }

  lemma LessOne(a: multiset<int>, b: multiset<int>, x: int)
    requires multiset{x} + a <= multiset{x} + b
    ensures a <= b
  {
    forall y ensures a[y] <= b[y] {
      assert (multiset{x} + a)[y] <= (multiset{x} + b)[y];
    }
  }

  lemma TakeAmong(chosen: seq<int>, sorted: seq<int>)
    requires sorted != [] && chosen != [] && Among(chosen, sorted)
    requires chosen[0] == sorted[0] || sorted[0] !in multiset(chosen)
    ensures Among(chosen[1..], sorted[1..])
  {
    HeadAndTail(chosen);
    HeadAndTail(sorted);
    if chosen[0] == sorted[0] {
      LessOne(multiset(chosen[1..]), multiset(sorted[1..]), sorted[0]);
    } else {
      SkipAmong(chosen, sorted);
      assert multiset(chosen[1..]) <= multiset(chosen);
    }
  }

  lemma HeadIsLeast(chosen: seq<int>, x: int)
    requires Ascending(chosen) && chosen != [] && x <= chosen[0]
    ensures chosen[0] == x || x !in multiset(chosen)
  {
  }

  /** Staying with the earliest window never loses: no other choice fits more. */
  lemma {:induction false} PickedIsMost(sorted: seq<int>, days: int, nextFree: Option<int>, chosen: seq<int>)
    requires Ascending(sorted) && Among(chosen, sorted) && Spaced(chosen, days)
    requires nextFree.Some? && chosen != [] ==> chosen[0] >= nextFree.value
    ensures |chosen| <= |Picked(sorted, days, nextFree)|
    decreases |sorted|
  {
    if chosen != [] {
      assert chosen[0] in multiset(chosen);
      assert chosen[0] in multiset(sorted);
      assert |multiset(sorted)| > 0;
      AllAtLeast(sorted, chosen[0]);
      HeadIsLeast(chosen, sorted[0]);
      if nextFree.None? || sorted[0] >= nextFree.value {
        TakeAmong(chosen, sorted);
        PickedIsMost(sorted[1..], days, Some(sorted[0] + days), chosen[1..]);
      } else {
        SkipAmong(chosen, sorted);
        PickedIsMost(sorted[1..], days, nextFree, chosen);
      }
    }
  }

  /** `independent_windows`: the most windows that fit without overlapping, in whatever order the days come. */
  method IndependentWindows(indices: seq<int>, days: int) returns (count: nat)
    ensures count == Fitting(indices, days)
    ensures exists chosen :: Among(chosen, indices) && Apart(chosen, days) && |chosen| == count
    ensures forall chosen :: Among(chosen, indices) && Apart(chosen, days) ==> |chosen| <= count
  {
    var sorted := Sorted(indices);
    count := 0;
    var nextFree: Option<int> := None;
    assert sorted[0..] == sorted;
    for i := 0 to |sorted|
      invariant count + |Picked(sorted[i..], days, nextFree)| == Fitting(indices, days)
    {
      assert sorted[i..][1..] == sorted[i + 1..];
      if nextFree.None? || sorted[i] >= nextFree.value {
        count := count + 1;
        nextFree := Some(sorted[i] + days);
      }
    }
    FittingIsMost(indices, days);
  }

  lemma FittingIsMost(indices: seq<int>, days: int)
    ensures exists chosen :: Among(chosen, indices) && Apart(chosen, days) && |chosen| == Fitting(indices, days)
    ensures forall chosen :: Among(chosen, indices) && Apart(chosen, days) ==> |chosen| <= Fitting(indices, days)
  {
    var sorted := Sorted(indices);
    SortedAscends(indices);
    var picked := Picked(sorted, days, None);
    PickedIsSpaced(sorted, days, None);
    assert Among(picked, indices) && Apart(picked, days);
    forall chosen | Among(chosen, indices) && Apart(chosen, days) ensures |chosen| <= |picked| {
      ApartSorted(chosen, days);
      PickedIsMost(sorted, days, None, Sorted(chosen));
    }
  }

  lemma SpacedThen(xs: seq<int>, x: int, days: int)
    requires Spaced(xs, days) && forall y :: y in xs ==> y <= x && x - y >= days
    ensures Spaced(xs + [x], days)
  {
    var all := xs + [x];
    forall i, j | 0 <= i < j < |all| ensures all[i] <= all[j] && all[j] - all[i] >= days {
      assert all[i] == xs[i] && xs[i] in xs;
    }
  }

  lemma {:induction false} ApartPlaced(xs: seq<int>, x: int, days: int)
    requires Spaced(xs, days) && forall y :: y in xs ==> y - x >= days || x - y >= days
    ensures Spaced(Place(AsReal, xs, x), days)
    decreases |xs|
  {
    if xs != [] && AsReal(Last(xs)) > AsReal(x) {
      forall y | y in Front(xs) ensures y in xs && y <= Last(xs) && Last(xs) - y >= days {
        var j :| 0 <= j < |xs| - 1 && Front(xs)[j] == y;
        assert xs[j] == y;
      }
      assert Last(xs) in xs;
      ApartPlaced(Front(xs), x, days);
      PlaceAdds(AsReal, Front(xs), x);
      SpacedThen(Place(AsReal, Front(xs), x), Last(xs), days);
    } else {
      forall y | y in xs ensures y <= x && x - y >= days {
        var j :| 0 <= j < |xs| && xs[j] == y;
        assert y <= Last(xs);
      }
      SpacedThen(xs, x, days);
    }
  }

  /** Put in order, days that are pairwise apart follow each other at that distance. */
  lemma {:induction false} ApartSorted(chosen: seq<int>, days: int)
    requires Apart(chosen, days)
    ensures Spaced(Sorted(chosen), days) && |Sorted(chosen)| == |chosen|
    ensures multiset(Sorted(chosen)) == multiset(chosen)
  {
    SortedAscends(chosen);
    if chosen != [] {
      var rest, x := Front(chosen), Last(chosen);
      ApartSorted(rest, days);
      SortByMembers(AsReal, rest);
      forall y | y in Sorted(rest) ensures y - x >= days || x - y >= days {
        var i :| 0 <= i < |rest| && rest[i] == y;
        assert chosen[i] == y && chosen[|chosen| - 1] == x;
      }
      ApartPlaced(Sorted(rest), x, days);
    }
  }
}
