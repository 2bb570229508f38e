/**
 `sorted(xs, key=key)`, as the sources use it: ascending by a real key, and stable, so that elements with
 equal keys keep the order they came in.
 */
module Sorting {
  import opened Common

  function Place<T>(key: T -> real, sorted: seq<T>, x: T): seq<T> {
    if sorted == [] || key(Last(sorted)) <= key(x) then sorted + [x] else Place(key, Front(sorted), x) + [Last(sorted)]
  }

  function SortBy<T>(key: T -> real, xs: seq<T>): seq<T> {
    if xs == [] then [] else Place(key, SortBy(key, Front(xs)), Last(xs))
  }

  ghost predicate SortedBy<T>(key: T -> real, xs: seq<T>) {
    forall i, j :: 0 <= i < j < |xs| ==> key(xs[i]) <= key(xs[j])
  }

  predicate Rising(xs: seq<real>) {
    forall i, j :: 0 <= i < j < |xs| ==> xs[i] <= xs[j]
  }

  lemma {:induction false} PlaceAdds<T>(key: T -> real, sorted: seq<T>, x: T)
    ensures multiset(Place(key, sorted, x)) == multiset(sorted) + multiset{x}
    ensures forall y :: y in Place(key, sorted, x) ==> y in sorted || y == x
  {
    if sorted != [] && key(Last(sorted)) > key(x) {
      PlaceAdds(key, Front(sorted), x);
      assert sorted == Front(sorted) + [Last(sorted)];
    }
  }

  lemma {:induction false} PlaceKeeps<T>(key: T -> real, sorted: seq<T>, x: T)
    requires SortedBy(key, sorted)
    ensures SortedBy(key, Place(key, sorted, x))
  {
    if sorted != [] && key(Last(sorted)) > key(x) {
      PlaceKeeps(key, Front(sorted), x);
      PlaceAdds(key, Front(sorted), x);
      var placed := Place(key, Front(sorted), x);
      forall i | 0 <= i < |placed| ensures key(placed[i]) <= key(Last(sorted)) {
        assert placed[i] in placed;
      }
    }
  }

  /** Sorting orders the elements and keeps every one of them. */
  lemma {:induction false} SortBySorts<T>(key: T -> real, xs: seq<T>)
    ensures SortedBy(key, SortBy(key, xs))
    ensures multiset(SortBy(key, xs)) == multiset(xs) && |SortBy(key, xs)| == |xs|
  {
    if xs != [] {
      SortBySorts(key, Front(xs));
      PlaceKeeps(key, SortBy(key, Front(xs)), Last(xs));
      PlaceAdds(key, SortBy(key, Front(xs)), Last(xs));
      assert xs == Front(xs) + [Last(xs)];
    }
    assert |SortBy(key, xs)| == |multiset(SortBy(key, xs))| == |multiset(xs)| == |xs|;
  }

  lemma SortByMembers<T>(key: T -> real, xs: seq<T>)
    ensures forall x :: x in SortBy(key, xs) <==> x in xs
  {
    SortBySorts(key, xs);
    forall x ensures x in SortBy(key, xs) <==> x in xs {
      assert x in SortBy(key, xs) <==> x in multiset(SortBy(key, xs));
      assert x in xs <==> x in multiset(xs);
    }
  }
}
