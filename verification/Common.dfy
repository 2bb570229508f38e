/**
 Small vocabulary shared by the models: optional values, results, first and last elements, subsequences,
 filtered and flattened lists.
 */
module Common {

  datatype Option<+T> = None | Some(value: T)

  datatype Result<+T, +E> = Ok(value: T) | Err(error: E)

  function Last<T>(xs: seq<T>): T
    requires xs != []
  {
    xs[|xs| - 1]
  }

  function Front<T>(xs: seq<T>): seq<T>
    requires xs != []
  {
    xs[..|xs| - 1]
  }

  /** `a` can be read off `b` from left to right, each element of `b` used at most once. */
  predicate Subsequence<T(==)>(a: seq<T>, b: seq<T>)
    decreases |b|
  {
    a == []
    || (b != [] && ((Last(a) == Last(b) && Subsequence(Front(a), Front(b))) || Subsequence(a, Front(b))))
  }

  lemma {:induction false} SubsequenceMembers<T>(a: seq<T>, b: seq<T>, x: T)
    requires Subsequence(a, b) && x in a
    ensures x in b
    decreases |b|
  {
    if Last(a) == Last(b) && Subsequence(Front(a), Front(b)) {
      if x != Last(a) { SubsequenceMembers(Front(a), Front(b), x); }
    } else {
      SubsequenceMembers(a, Front(b), x);
    }
  }

  lemma SubsequenceGrows<T>(a: seq<T>, b: seq<T>, y: T)
    requires Subsequence(a, b)
    ensures Subsequence(a, b + [y])
  {
    assert Front(b + [y]) == b;
  }

  lemma SubsequenceTakes<T>(a: seq<T>, b: seq<T>, y: T)
    requires Subsequence(a, b)
    ensures Subsequence(a + [y], b + [y])
  {
    assert Front(b + [y]) == b && Front(a + [y]) == a;
  }

  lemma {:induction false} SubsequenceLonger<T>(a: seq<T>, b: seq<T>, more: seq<T>)
    requires Subsequence(a, b)
    ensures Subsequence(a, b + more)
    decreases |more|
  {
    if more == [] {
      assert b + more == b;
    } else {
      SubsequenceLonger(a, b, Front(more));
      assert b + more == (b + Front(more)) + [Last(more)];
      SubsequenceGrows(a, b + Front(more), Last(more));
    }
  }

  predicate Distinct<T(==)>(xs: seq<T>) {
    forall i, j :: 0 <= i < j < |xs| ==> xs[i] != xs[j]
  }

  /** Reading distinct things off in order cannot repeat one of them. */
  lemma {:induction false} SubsequenceOfDistinct<T>(a: seq<T>, b: seq<T>)
    requires Subsequence(a, b) && Distinct(b)
    ensures Distinct(a)
    decreases |b|
  {
    if a == [] {
    } else if Last(a) == Last(b) && Subsequence(Front(a), Front(b)) {
      SubsequenceOfDistinct(Front(a), Front(b));
      if Last(a) in Front(a) {
        SubsequenceMembers(Front(a), Front(b), Last(a));
      }
      forall i, j | 0 <= i < j < |a| ensures a[i] != a[j] {
        assert a[i] in Front(a);
        if j < |a| - 1 { assert Front(a)[i] != Front(a)[j]; }
      }
    } else {
      SubsequenceOfDistinct(a, Front(b));
    }
  }

  /** The pieces, one after the other. */
  function Flatten<T>(pieces: seq<seq<T>>): seq<T> {
    if pieces == [] then [] else Flatten(Front(pieces)) + Last(pieces)
  }

  lemma FlattenAdd<T>(pieces: seq<seq<T>>, piece: seq<T>)
    ensures Flatten(pieces + [piece]) == Flatten(pieces) + piece
  {
    assert Front(pieces + [piece]) == pieces;
  }

  lemma {:induction false} FlattenMembers<T>(pieces: seq<seq<T>>, i: nat, x: T)
    requires i < |pieces| && x in pieces[i]
    ensures x in Flatten(pieces)
  {
    if i < |pieces| - 1 { FlattenMembers(Front(pieces), i, x); }
  }

  /** `[x for x in xs if keep(x)]`. */
  function Keep<T(!new)>(xs: seq<T>, keep: T -> bool): (r: seq<T>)
    ensures forall x :: x in r <==> x in xs && keep(x)
  {
    if xs == [] then []
    else
      assert xs == [xs[0]] + xs[1..];
      (if keep(xs[0]) then [xs[0]] else []) + Keep(xs[1..], keep)
  }

  lemma {:induction false} KeepJoins<T(!new)>(a: seq<T>, b: seq<T>, keep: T -> bool)
    ensures Keep(a + b, keep) == Keep(a, keep) + Keep(b, keep)
  {
    if a == [] {
      assert a + b == b;
    } else {
      KeepJoins(a[1..], b, keep);
      HeadOfJoin(a, b);
    }
  }

  lemma HeadOfJoin<T>(a: seq<T>, b: seq<T>)
    requires a != []
    ensures a + b != [] && (a + b)[0] == a[0] && (a + b)[1..] == a[1..] + b
  {
  }
}
