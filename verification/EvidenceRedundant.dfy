/** Sources that fully repeat each other never add up to more than the strongest of them, whatever their signs. */
module EvidenceRedundant {
  import opened Common
  import opened Reals
  import opened Sums
  import opened Sorting
  import opened EvidenceWeights

  // ----- Over plain strengths

  function MinWith(x: real): real -> real {
    (y: real) => Min(x, y)
  }

  /** What a strength and all the others have in common. */
  function Overlap(strengths: seq<real>, x: real): real {
    SumOf(MinWith(x), strengths)
  }

  function Ratio(x: real, y: real): real { if y == 0.0 then 0.0 else x / y }

  /** What a source of strength `x` still moves: x squared over what it has in common with all. */
  function Credit(strengths: seq<real>): real -> real {
    (x: real) => Ratio(Times(x, x), Overlap(strengths, x))
  }

  /** The most the weaker sources, up to one of strength `x`, move: `sum` is their total, `n` how many are stronger. */
  function Bound(x: real, sum: real, n: nat): real {
    Ratio(Times(x, sum), sum + Times(n as real, x))
  }

  lemma CrossMultiplied(a: real, b: real, x: real, y: real, p: real, q: real)
    requires a * y == x && b * q == p && x * q <= p * y
    ensures a * (y * q) <= b * (y * q)
  {
    assert a * (y * q) == x * q && b * (y * q) == p * y;
  }

  lemma RatioOrder(x: real, y: real, p: real, q: real)
    requires y > 0.0 && q > 0.0 && x * q <= p * y
    ensures Ratio(x, y) <= Ratio(p, q)
  {
    var a, b := Ratio(x, y), Ratio(p, q);
    CrossMultiplied(a, b, x, y, p, q);
    ProductPositive(y, q);
    if a > b { LargerProduct(a, b, y * q); }
  }

  lemma CrossProducts(x: real, y: real, sum: real, c: real)
    requires x <= y
    ensures Times(x, sum) * (sum + Times(c, y)) <= Times(y, sum) * (sum + Times(c, x))
  {
    assert (y - x) * (sum * sum) >= 0.0;
    assert Times(y, sum) * (sum + Times(c, x)) - Times(x, sum) * (sum + Times(c, y)) == (y - x) * (sum * sum);
  }

  lemma AtLeastOne(n: nat, x: real)
    requires n >= 1 && x >= 0.0
    ensures Times(n as real, x) >= x
  {
    assert (n as real - 1.0) * x >= 0.0;
  }

  /** A stronger source in front of the same weaker ones leaves them no less room. */
  lemma BoundGrows(x: real, y: real, sum: real, n: nat)
    requires 0.0 < x <= y && x <= sum && n >= 1
    ensures Bound(x, sum, n) <= Ratio(Times(y, sum), sum + Times(n as real, y))
  {
    hide Times, Ratio;
    AtLeastOne(n, x);
    AtLeastOne(n, y);
    CrossProducts(x, y, sum, n as real);
    RatioOrder(Times(x, sum), sum + Times(n as real, x), Times(y, sum), sum + Times(n as real, y));
  }

  lemma SameOverlap(sum: real, y: real, n: nat)
    requires n >= 1
    ensures (sum + y) + Times((n - 1) as real, y) == sum + Times(n as real, y)
    ensures Times(y, sum + y) == Times(y, sum) + Times(y, y)
  {
  }

  lemma RatioAdds(a: real, b: real, c: real)
    requires c != 0.0
    ensures Ratio(a, c) + Ratio(b, c) == Ratio(a + b, c)
  {
  }

  lemma NothingBounds(sum: real, n: nat, y: real)
    requires sum >= 0.0 && y >= 0.0
    ensures Bound(0.0, sum, n) == 0.0 && Ratio(Times(0.0, 0.0), sum + y) == 0.0
    ensures y > 0.0 ==> Ratio(Times(y, sum), sum + Times(n as real, y)) >= 0.0
  {
    if y > 0.0 { NotNegative(Times(y, sum), sum + Times(n as real, y)); }
  }

  lemma NotNegative(x: real, y: real)
    requires x >= 0.0 && y >= 0.0
    ensures Ratio(x, y) >= 0.0
  {
  }

  /** One more source, no weaker than those before it. */
  lemma BoundStep(x: real, y: real, sum: real, n: nat)
    requires 0.0 <= x <= y && x <= sum && n >= 1
    ensures Bound(x, sum, n) + Ratio(Times(y, y), sum + Times(n as real, y)) <= Bound(y, sum + y, n - 1)
  {
    hide Times, Ratio;
    if y == 0.0 {
      StepAtZero(sum, n);
    } else {
      if x == 0.0 { NothingBounds(sum, n, y); } else { BoundGrows(x, y, sum, n); }
      AtLeastOne(n, y);
      SameOverlap(sum, y, n);
      RatioAdds(Times(y, sum), Times(y, y), sum + Times(n as real, y));
    }
  }

  lemma StepAtZero(sum: real, n: nat)
    requires sum >= 0.0 && n >= 1
    ensures Bound(0.0, sum, n) + Ratio(Times(0.0, 0.0), sum + Times(n as real, 0.0)) <= Bound(0.0, sum + 0.0, n - 1)
  {
  }

  // ----- Over sorted strengths

  /** The strongest of the first `i`. */
  function Strongest(sorted: seq<real>, i: nat): real
    requires i <= |sorted|
  {
    if i == 0 then 0.0 else sorted[i - 1]
  }

  predicate Strengths(xs: seq<real>) {
    Rising(xs) && forall i :: 0 <= i < |xs| ==> xs[i] >= 0.0
  }

  lemma WeakerInFull(sorted: seq<real>, i: nat)
    requires Strengths(sorted) && i < |sorted|
    ensures SumOf(MinWith(sorted[i]), sorted[..i]) == Sum(sorted[..i])
  {
    SumOfSame(MinWith(sorted[i]), Itself, sorted[..i]);
  }

  lemma TailStronger(sorted: seq<real>, i: nat)
    requires Strengths(sorted) && i < |sorted|
    ensures forall y :: y in sorted[i..] ==> y >= sorted[i]
  {
    forall y | y in sorted[i..] ensures y >= sorted[i] {
      var j :| 0 <= j < |sorted| - i && sorted[i..][j] == y;
      assert sorted[i + j] == y;
    }
  }

  lemma StrongerInPart(sorted: seq<real>, i: nat)
    requires Strengths(sorted) && i < |sorted|
    ensures SumOf(MinWith(sorted[i]), sorted[i..]) == Times((|sorted| - i) as real, sorted[i])
  {
    TailStronger(sorted, i);
    AllInPart(sorted[i..], sorted[i]);
  }

  lemma AllInPart(xs: seq<real>, x: real)
    requires forall y :: y in xs ==> y >= x
    ensures SumOf(MinWith(x), xs) == Times(|xs| as real, x)
  {
    SumOfConstant(MinWith(x), x, xs);
  }

  /** A strength has the weaker ones in full in common, and itself with every other. */
  lemma OverlapOf(sorted: seq<real>, i: nat)
    requires Strengths(sorted) && i < |sorted|
    ensures Overlap(sorted, sorted[i]) == Sum(sorted[..i]) + Times((|sorted| - i) as real, sorted[i])
  {
    WeakerInFull(sorted, i);
    StrongerInPart(sorted, i);
    SumOfConcat(MinWith(sorted[i]), sorted[..i], sorted[i..]);
    assert sorted[..i] + sorted[i..] == sorted;
  }

  lemma SumAtLeastLast(sorted: seq<real>, i: nat)
    requires Strengths(sorted) && i <= |sorted|
    ensures 0.0 <= Strongest(sorted, i) <= Sum(sorted[..i])
  {
    SumOfNonNegative(Itself, sorted[..i]);
    if i > 0 { assert Itself(sorted[..i][i - 1]) <= Sum(sorted[..i]); }
  }

  lemma CreditOf(sorted: seq<real>, i: nat)
    requires Strengths(sorted) && i < |sorted|
    ensures Credit(sorted)(sorted[i])
      == Ratio(Times(sorted[i], sorted[i]), Sum(sorted[..i]) + Times((|sorted| - i) as real, sorted[i]))
  {
    hide Ratio, Times;
    OverlapOf(sorted, i);
  }

  /** What the first `i` sources move, and the most they can. */
  predicate Bounded(sorted: seq<real>, i: nat)
    requires i <= |sorted|
  {
    SumOf(Credit(sorted), sorted[..i]) <= Bound(Strongest(sorted, i), Sum(sorted[..i]), |sorted| - i)
  }

  lemma BoundedStep(sorted: seq<real>, i: nat)
    requires Strengths(sorted) && i < |sorted| && Bounded(sorted, i)
    ensures Bounded(sorted, i + 1)
  {
    hide Ratio, Times, Bound, Credit;
    SumOfNext(Credit(sorted), sorted, i);
    SumOfNext(Itself, sorted, i);
    CreditOf(sorted, i);
    SumAtLeastLast(sorted, i);
    if i > 0 { assert sorted[i - 1] <= sorted[i]; }
    BoundStep(Strongest(sorted, i), sorted[i], Sum(sorted[..i]), |sorted| - i);
  }

  lemma BoundedAtStart(sorted: seq<real>)
    ensures Bounded(sorted, 0)
  {
    NothingBounds(0.0, |sorted|, 0.0);
    assert sorted[..0] == [];
  }

  /** The weaker sources together move no more than the strongest of them leaves room for. */
  lemma {:induction false} AllBounded(sorted: seq<real>, i: nat)
    requires Strengths(sorted) && i <= |sorted|
    ensures Bounded(sorted, i)
  {
    hide Bounded;
    if i == 0 {
      BoundedAtStart(sorted);
    } else {
      AllBounded(sorted, i - 1);
      BoundedStep(sorted, i - 1);
    }
  }

  lemma BoundAtEnd(x: real, sum: real)
    requires 0.0 <= x <= sum
    ensures Bound(x, sum, 0) <= x
  {
    if x > 0.0 { assert x * sum / sum == x; }
  }

  /** Together they move no more than the strongest alone. */
  lemma SortedTotal(sorted: seq<real>)
    requires Strengths(sorted) && sorted != []
    ensures SumOf(Credit(sorted), sorted) <= Last(sorted)
  {
    hide Credit, Bound;
    assert sorted[..|sorted|] == sorted;
    AllBounded(sorted, |sorted|);
    SumAtLeastLast(sorted, |sorted|);
    BoundAtEnd(Last(sorted), Sum(sorted));
  }

  // ----- Over a decision's sources

  function Strength(e: Entry): real { Abs(e.value) }

  function StrengthsOf(entries: seq<Entry>): (xs: seq<real>)
    ensures |xs| == |entries| && forall i :: 0 <= i < |xs| ==> xs[i] == Strength(entries[i])
  {
    seq(|entries|, i requires 0 <= i < |entries| => Strength(entries[i]))
  }

  lemma {:induction false} SumOfStrengths(f: real -> real, g: Entry -> real, entries: seq<Entry>)
    requires forall e :: e in entries ==> g(e) == f(Strength(e))
    ensures SumOf(g, entries) == SumOf(f, StrengthsOf(entries))
  {
    if entries != [] {
      assert Front(StrengthsOf(entries)) == StrengthsOf(Front(entries));
      SumOfStrengths(f, g, Front(entries));
    }
  }

  lemma SumOfLeft(f: real -> real, xs: seq<real>)
    ensures SumOf(f, xs) == SumOf(f, SortBy(Itself, xs)) && multiset(SortBy(Itself, xs)) == multiset(xs)
  {
    SortBySorts(Itself, xs);
    SumOfPermuted(f, xs, SortBy(Itself, xs));
  }

  /** The sources' strengths, weakest first, move as much as they do in any order. */
  lemma CreditIgnoresOrder(xs: seq<real>)
    ensures SumOf(Credit(xs), xs) == SumOf(Credit(SortBy(Itself, xs)), SortBy(Itself, xs))
  {
    var sorted := SortBy(Itself, xs);
    forall x | x in sorted ensures Credit(xs)(x) == Credit(sorted)(x) {
      SumOfLeft(MinWith(x), xs);
    }
    SumOfLeft(Credit(xs), xs);
    SumOfSame(Credit(xs), Credit(sorted), sorted);
  }

  lemma SortedStrengths(xs: seq<real>)
    requires forall x :: x in xs ==> x >= 0.0
    ensures Strengths(SortBy(Itself, xs)) && |SortBy(Itself, xs)| == |xs|
    ensures xs != [] ==> Last(SortBy(Itself, xs)) in xs
  {
    var sorted := SortBy(Itself, xs);
    SortBySorts(Itself, xs);
    SortByMembers(Itself, xs);
    forall i, j | 0 <= i < j < |sorted| ensures sorted[i] <= sorted[j] {
      assert Itself(sorted[i]) <= Itself(sorted[j]);
    }
    forall i | 0 <= i < |sorted| ensures sorted[i] >= 0.0 {
      assert sorted[i] in sorted;
    }
  }

  /** In any order, strengths that fully overlap move no more than the largest of them. */
  lemma CreditsAtMostStrongest(xs: seq<real>, top: real)
    requires forall x :: x in xs ==> 0.0 <= x <= top
    requires top >= 0.0
    ensures SumOf(Credit(xs), xs) <= top
  {
    hide Credit;
    if xs != [] {
      CreditIgnoresOrder(xs);
      SortedStrengths(xs);
      SortedTotal(SortBy(Itself, xs));
    }
  }

  /** What `own` has in common with each source. */
  function InCommon(own: Entry): Entry -> real {
    (e: Entry) => Min(Strength(own), Strength(e))
  }

  lemma MinByShare(x: real, y: real)
    requires x > 0.0 && y >= 0.0
    ensures Min(x, y) == x * Times(Max(0.0, 1.0), Min(1.0, Over(y, x)))
  {
    assert Over(y, x) * x == y;
    if y > x { assert Over(y, x) > 1.0; }
  }

  lemma InCommonWithOther(rho: Redundancy, own: Entry, other: Entry)
    requires own.value != 0.0 && other.source != own.source && rho(own.source, other.source) == 1.0
    ensures InCommon(own)(other) == Strength(own) * Repeated(rho, own)(other)
  {
    hide Times, Over;
    MinByShare(Strength(own), Strength(other));
  }

  lemma InCommonWithOthers(rho: Redundancy, own: Entry, others: seq<Entry>)
    requires own.value != 0.0 && SharedWith(rho, own, others, 1.0)
    ensures SumOf(InCommon(own), others) == Times(Strength(own), SumOf(Repeated(rho, own), others))
  {
    hide InCommon, Repeated;
    forall e | e in others ensures InCommon(own)(e) == Strength(own) * Repeated(rho, own)(e) {
      InCommonWithOther(rho, own, e);
    }
    SumOfScaled(Repeated(rho, own), InCommon(own), Strength(own), others);
  }

  lemma InCommonWithAll(rho: Redundancy, entries: seq<Entry>, i: nat)
    requires Mapping(entries) && i < |entries| && entries[i].value != 0.0 && CommonTo(rho, entries, 1.0)
    ensures var own := entries[i];
      SumOf(InCommon(own), entries) == Strength(own) + Times(Strength(own), SumOf(Repeated(rho, own), entries))
  {
    hide Repeated, CommonTo, SharedWith, Strength, Times;
    var own, others := entries[i], entries[..i] + entries[i + 1..];
    OthersDiffer(entries, i);
    OthersShare(rho, entries, i, 1.0);
    SumWithoutOwn(rho, entries, i);
    SumOfRemoved(InCommon(own), entries, i);
    InCommonWithOthers(rho, own, others);
  }

  /** R times a source's strength is what it has in common with all, itself included. */
  lemma DilutionIsOverlap(rho: Redundancy, entries: seq<Entry>, own: Entry)
    requires Mapping(entries) && own in entries && own.value != 0.0 && CommonTo(rho, entries, 1.0)
    ensures Overlap(StrengthsOf(entries), Strength(own)) == Times(Strength(own), Dilution(rho, entries, own))
  {
    hide Repeated, Strength, CommonTo, Times;
    var i :| 0 <= i < |entries| && entries[i] == own;
    InCommonWithAll(rho, entries, i);
    SumOfStrengths(MinWith(Strength(own)), InCommon(own), entries);
    Factor(Strength(own), SumOf(Repeated(rho, own), entries));
  }

  lemma Factor(x: real, y: real)
    ensures x + Times(x, y) == Times(x, 1.0 + y)
  {
  }

  lemma WeightedStrength(v: real, d: real)
    requires v != 0.0 && d >= 1.0
    ensures Abs(Times(Over(1.0, d), v)) == Ratio(Times(Abs(v), Abs(v)), Times(Abs(v), d))
  {
    var x := Abs(v);
    ProductPositive(x, d);
    assert (x * x) / (x * d) == x / d by {
      assert (x / d) * (x * d) == x * x;
      Cancel(x / d, (x * x) / (x * d), x * d);
    }
    assert Abs((1.0 / d) * v) == x / d;
  }

  lemma MoveIsCredit(rho: Redundancy, entries: seq<Entry>, e: Entry)
    requires Mapping(entries) && e in entries && CommonTo(rho, entries, 1.0)
    ensures Abs(Move(Some(rho), entries)(e)) == Credit(StrengthsOf(entries))(Strength(e))
  {
    if e.value == 0.0 {
      NothingPulls(Overlap(StrengthsOf(entries), 0.0));
    } else {
      hide Times, Over, Ratio, Overlap;
      DilutionIsOverlap(rho, entries, e);
      DilutionAtLeastOne(rho, entries, e);
      WeightedStrength(e.value, Dilution(rho, entries, e));
    }
  }

  lemma NothingPulls(overlap: real)
    ensures Ratio(Times(0.0, 0.0), overlap) == 0.0 && Times(1.0, 0.0) == 0.0
  {
  }

  /**
   Fully redundant sources, whatever their strengths and signs, never move the log odds more than the
   strongest one.
   */
  lemma RedundantAtMostStrongest(prior: real, entries: seq<Entry>, rho: Redundancy, top: real)
    requires Mapping(entries) && CommonTo(rho, entries, 1.0)
    requires top >= 0.0 && forall e :: e in entries ==> Strength(e) <= top
    ensures prior - top <= LogOdds(prior, entries, Some(rho)) <= prior + top
  {
    hide CommonTo, Credit, Move;
    var xs := StrengthsOf(entries);
    var credit := (e: Entry) => Credit(xs)(Strength(e));
    forall e | e in entries ensures -credit(e) <= Move(Some(rho), entries)(e) <= credit(e) {
      MoveIsCredit(rho, entries, e);
    }
    SumOfBounded(Move(Some(rho), entries), credit, entries);
    SumOfStrengths(Credit(xs), credit, entries);
    forall x | x in xs ensures 0.0 <= x <= top {
      var i :| 0 <= i < |xs| && xs[i] == x;
      assert entries[i] in entries;
    }
    CreditsAtMostStrongest(xs, top);
  }

  /**
   So sources that were never measured together, whatever else was, have no more to say than the strongest of
   them.
   */
  lemma UnmeasuredAtMostStrongest(prior: real, entries: seq<Entry>, pairs: Pairs, top: real)
    requires Mapping(entries) && Unmeasured(pairs, entries)
    requires top >= 0.0 && forall e :: e in entries ==> Strength(e) <= top
    ensures prior - top <= LogOdds(prior, entries, Some(Fitted(pairs))) <= prior + top
  {
    RedundantAtMostStrongest(prior, entries, Fitted(pairs), top);
  }
}
