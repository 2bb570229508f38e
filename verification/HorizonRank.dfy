/** Where today's value stands among the last days, from one sorted list kept up to date. */
module HorizonRank {
  import opened Common
  import opened Sorting
  import opened Sums

  /** `bisect_left`: where `x` would go, before its equals. */
  function BisectLeft(xs: seq<real>, x: real): (i: nat)
    ensures i <= |xs| && (forall j :: 0 <= j < i ==> xs[j] < x) && (i < |xs| ==> xs[i] >= x)
  {
    if xs == [] || xs[0] >= x then 0 else 1 + BisectLeft(xs[1..], x)
  }

  /** `bisect_right`: where `x` would go, after its equals. */
  function BisectRight(xs: seq<real>, x: real): (i: nat)
    ensures i <= |xs| && (forall j :: 0 <= j < i ==> xs[j] <= x) && (i < |xs| ==> xs[i] > x)
  {
    if xs == [] || xs[0] > x then 0 else 1 + BisectRight(xs[1..], x)
  }

  /** `insort`. */
  function Insert(xs: seq<real>, x: real): seq<real> {
    var i := BisectRight(xs, x);
    xs[..i] + [x] + xs[i..]
  }

  lemma InsertAt(xs: seq<real>, i: nat, x: real)
    requires Rising(xs) && i <= |xs|
    requires (forall j :: 0 <= j < i ==> xs[j] <= x) && (forall j :: i <= j < |xs| ==> x <= xs[j])
    ensures Rising(xs[..i] + [x] + xs[i..])
  {
  }

  lemma InsertAdds(xs: seq<real>, i: nat, x: real)
    requires i <= |xs|
    ensures multiset(xs[..i] + [x] + xs[i..]) == multiset(xs) + multiset{x}
  {
    assert xs == xs[..i] + xs[i..];
  }

  lemma InsertKeeps(xs: seq<real>, x: real)
    requires Rising(xs)
    ensures Rising(Insert(xs, x)) && multiset(Insert(xs, x)) == multiset(xs) + multiset{x}
  {
    InsertAt(xs, BisectRight(xs, x), x);
    InsertAdds(xs, BisectRight(xs, x), x);
  }

  /** In a sorted list, `bisect_left` finds a value that is there. */
  lemma FoundWhenPresent(xs: seq<real>, x: real)
    requires Rising(xs) && x in xs
    ensures BisectLeft(xs, x) < |xs| && xs[BisectLeft(xs, x)] == x
  {
    var k :| 0 <= k < |xs| && xs[k] == x;
    var i := BisectLeft(xs, x);
    if i < k { assert xs[i] <= xs[k]; }
  }

  lemma RemoveKeeps(xs: seq<real>, i: nat)
    requires Rising(xs) && i < |xs|
    ensures Rising(xs[..i] + xs[i + 1..])
    ensures multiset(xs[..i] + xs[i + 1..]) == multiset(xs) - multiset{xs[i]}
  {
    WithoutOne(xs, i);
  }

  function AtMost(x: real): real -> real {
    y => if y <= x then 1.0 else 0.0
  }

  lemma AllAtMost(xs: seq<real>, x: real)
    requires forall y :: y in xs ==> y <= x
    ensures SumOf(AtMost(x), xs) == |xs| as real
  {
    SumOfConstant(AtMost(x), 1.0, xs);
  }

  lemma NoneAtMost(xs: seq<real>, x: real)
    requires forall y :: y in xs ==> y > x
    ensures SumOf(AtMost(x), xs) == 0.0
  {
    SumOfConstant(AtMost(x), 0.0, xs);
  }

  lemma CountSplit(xs: seq<real>, i: nat, x: real)
    requires i <= |xs| && (forall j :: 0 <= j < i ==> xs[j] <= x) && (forall j :: i <= j < |xs| ==> xs[j] > x)
    ensures SumOf(AtMost(x), xs) == i as real
  {
    AllAtMost(xs[..i], x);
    NoneAtMost(xs[i..], x);
    SumOfConcat(AtMost(x), xs[..i], xs[i..]);
    assert xs[..i] + xs[i..] == xs;
  }

  /** The position just past `x`'s equals counts the values at or below it. */
  lemma BisectCounts(xs: seq<real>, x: real)
    requires Rising(xs)
    ensures BisectRight(xs, x) as real == SumOf(AtMost(x), xs)
  {
    var i := BisectRight(xs, x);
    forall j | i <= j < |xs| ensures xs[j] > x {
      assert xs[i] <= xs[j];
    }
    CountSplit(xs, i, x);
  }

  /** The values there are, in order. */
  function Present(values: seq<Option<real>>): seq<real> {
    if values == [] then []
    else Present(Front(values)) + (if Last(values).Some? then [Last(values).value] else [])
  }

  /** Where the window of the last `window` days that ends before `t` begins. */
  function Start(t: nat, window: nat): (lo: nat)
    ensures lo <= t
  {
    if t >= window then t - window else 0
  }

  function One(value: Option<real>): multiset<real> {
    if value.Some? then multiset{value.value} else multiset{}
  }

  lemma PresentEnters(values: seq<Option<real>>, lo: nat, hi: nat)
    requires lo <= hi < |values|
    ensures multiset(Present(values[lo..hi + 1])) == multiset(Present(values[lo..hi])) + One(values[hi])
  {
    assert Front(values[lo..hi + 1]) == values[lo..hi];
  }

  lemma {:induction false} PresentJoins(a: seq<Option<real>>, b: seq<Option<real>>)
    ensures Present(a + b) == Present(a) + Present(b)
  {
    if b == [] {
      assert a + b == a;
    } else {
      PresentJoins(a, Front(b));
      assert Front(a + b) == a + Front(b);
    }
  }

  lemma PresentLeaves(values: seq<Option<real>>, lo: nat, hi: nat)
    requires lo < hi <= |values|
    ensures multiset(Present(values[lo..hi])) == One(values[lo]) + multiset(Present(values[lo + 1..hi]))
  {
    PresentJoins([values[lo]], values[lo + 1..hi]);
    assert [values[lo]] + values[lo + 1..hi] == values[lo..hi];
    assert Front([values[lo]]) == [];
  }

  predicate HoldsFrom(kept: seq<real>, values: seq<Option<real>>, lo: nat, hi: nat)
    requires lo <= hi <= |values|
  {
    Rising(kept) && multiset(kept) == multiset(Present(values[lo..hi]))
  }

  /** The list holds exactly the values of the last `window` days before `t`, smallest first. */
  predicate Holds(kept: seq<real>, values: seq<Option<real>>, window: nat, t: nat)
    requires t <= |values|
  {
    HoldsFrom(kept, values, Start(t, window), t)
  }

  /** Today's value enters. */
  method Enter(kept: seq<real>, values: seq<Option<real>>, lo: nat, t: nat) returns (next: seq<real>)
    requires lo <= t < |values| && HoldsFrom(kept, values, lo, t)
    ensures HoldsFrom(next, values, lo, t + 1)
  {
    next := kept;
    PresentEnters(values, lo, t);
    if values[t].Some? {
      InsertKeeps(next, values[t].value);
      next := Insert(next, values[t].value);
    }
  }

  /** The value that is a window old is found, and leaves. */
  method Leave(kept: seq<real>, values: seq<Option<real>>, lo: nat, hi: nat) returns (next: seq<real>)
    requires lo < hi <= |values| && HoldsFrom(kept, values, lo, hi)
    ensures HoldsFrom(next, values, lo + 1, hi)
  {
    next := kept;
    PresentLeaves(values, lo, hi);
    var oldest := values[lo];
    if oldest.Some? {
      assert oldest.value in multiset(kept);
      FoundWhenPresent(kept, oldest.value);
      var i := BisectLeft(kept, oldest.value);
      RemoveKeeps(kept, i);
      next := kept[..i] + kept[i + 1..];
    }
  }

  method Slide(kept: seq<real>, values: seq<Option<real>>, window: nat, t: nat) returns (next: seq<real>)
    requires t < |values| && Holds(kept, values, window, t)
    ensures Holds(next, values, window, t + 1)
  {
    next := Enter(kept, values, Start(t, window), t);
    if t >= window {
      next := Leave(next, values, t - window, t + 1);
    }
  }

  /** The share of the values there that are at or below today's, counted afresh. */
  function RankIn(there: seq<real>, value: Option<real>, minCount: int): Option<real> {
    if value.None? || |there| < minCount || there == [] then None
    else Some(SumOf(AtMost(value.value), there) / |there| as real)
  }

  /** What day `t` must show: `value` among the values of the window that ends with it. */
  function RankOn(values: seq<Option<real>>, window: nat, minCount: int, t: nat): Option<real>
    requires t < |values|
  {
    RankIn(Present(values[Start(t + 1, window)..t + 1]), values[t], minCount)
  }

  lemma SameSize(a: seq<real>, b: seq<real>)
    requires multiset(a) == multiset(b)
    ensures |a| == |b|
  {
    assert |multiset(a)| == |a| && |multiset(b)| == |b|;
  }

  lemma TodayIsThere(values: seq<Option<real>>, window: nat, t: nat)
    requires t < |values| && values[t].Some? && window >= 1
    ensures Present(values[Start(t + 1, window)..t + 1]) != []
  {
  }

  /** The list answers without counting; where it is empty the source would divide by zero. */
  method Rank(kept: seq<real>, ghost there: seq<real>, value: Option<real>, minCount: int) returns (r: Option<real>)
    requires Rising(kept) && multiset(kept) == multiset(there)
    requires value.None? || there != [] || minCount >= 1
    ensures r == RankIn(there, value, minCount)
  {
    SameSize(kept, there);
    if value.None? || |kept| < minCount {
      return None;
    }
    BisectCounts(kept, value.value);
    SumOfPermuted(AtMost(value.value), kept, there);
    r := Some(BisectRight(kept, value.value) as real / |kept| as real);
  }

  lemma HoldsNothing(values: seq<Option<real>>, window: nat)
    ensures Holds([], values, window, 0)
  {
  }

  method RankToday(kept: seq<real>, values: seq<Option<real>>, window: nat, minCount: int, t: nat)
      returns (r: Option<real>)
    requires (window >= 1 || minCount >= 1) && t < |values| && Holds(kept, values, window, t + 1)
    ensures r == RankOn(values, window, minCount, t)
  {
    hide RankIn, Present;
    if values[t].Some? && window >= 1 { TodayIsThere(values, window, t); }
    r := Rank(kept, Present(values[Start(t + 1, window)..t + 1]), values[t], minCount);
  }

  /** `_rolling_rank`: each output is the share of its own window at or below its own value. */
  method RollingRank(values: seq<Option<real>>, window: nat, minCount: int) returns (out: seq<Option<real>>)
    requires window >= 1 || minCount >= 1
    ensures |out| == |values|
    ensures forall t :: 0 <= t < |values| ==> out[t] == RankOn(values, window, minCount, t)
  {
    out := [];
    var kept: seq<real> := [];
    HoldsNothing(values, window);
    hide RankOn, Holds;
    for t := 0 to |values|
      invariant |out| == t && Holds(kept, values, window, t)
      invariant forall i :: 0 <= i < t ==> out[i] == RankOn(values, window, minCount, i)
    {
      kept := Slide(kept, values, window, t);
      var rank := RankToday(kept, values, window, minCount, t);
      out := out + [rank];
    }
  }
}
