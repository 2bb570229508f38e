/** Feature multipliers and weighted means. */
module FeatureWeights {
  import opened Common
  import opened Reals
  import opened Sums

  datatype Item = Item(score: real, quality: real, weight: real)

  function Mass(i: Item): real { i.quality * i.weight }

  function Pull(i: Item): real { i.score * i.quality * i.weight }

  function Quotient(x: real, y: real): Option<real> { if y > 0.0 then Some(x / y) else None }

  /** `sum(score * quality * weight) / sum(quality * weight)`, when anything carries weight. */
  function MeanOf(items: seq<Item>): Option<real> {
    Quotient(SumOf(Pull, items), SumOf(Mass, items))
  }

  /** `weighted_mean`. */
  method WeightedMean(items: seq<Item>) returns (r: Option<real>)
    ensures r == MeanOf(items)
  {
    var numerator, denominator := 0.0, 0.0;
    for k := 0 to |items|
      invariant numerator == SumOf(Pull, items[..k]) && denominator == SumOf(Mass, items[..k])
    {
      SumOfNext(Pull, items, k);
      SumOfNext(Mass, items, k);
      numerator := numerator + items[k].score * items[k].quality * items[k].weight;
      denominator := denominator + items[k].quality * items[k].weight;
    }
    assert items[..|items|] == items;
    r := if denominator > 0.0 then Some(numerator / denominator) else None;
  }

  /** `feature_weight`: 1 unless the rulebook says otherwise. */
  function FeatureWeight(weights: map<string, real>, feature: string): real {
    if feature in weights then weights[feature] else 1.0
  }

  function Rescaled(i: Item, c: real): Item { i.(weight := c * i.weight) }

  function Scaled(items: seq<Item>, c: real): (r: seq<Item>)
    ensures |r| == |items| && forall i :: 0 <= i < |r| ==> r[i] == Rescaled(items[i], c)
  {
    seq(|items|, i requires 0 <= i < |items| => Rescaled(items[i], c))
  }

  lemma RescaledItem(i: Item, c: real)
    ensures Mass(Rescaled(i, c)) == Times(c, Mass(i)) && Pull(Rescaled(i, c)) == Times(c, Pull(i))
  {
  }

  lemma {:induction false} SumsScale(items: seq<Item>, c: real)
    ensures SumOf(Mass, Scaled(items, c)) == Times(c, SumOf(Mass, items))
    ensures SumOf(Pull, Scaled(items, c)) == Times(c, SumOf(Pull, items))
  {
    if items == [] {
      TimesZero(c);
    } else {
      hide Mass, Pull, Rescaled, Times;
      var rest, last := Front(items), Last(items);
      SumsScale(rest, c);
      assert Front(Scaled(items, c)) == Scaled(rest, c);
      RescaledItem(last, c);
      TimesAdds(c, SumOf(Mass, rest), Mass(last));
      TimesAdds(c, SumOf(Pull, rest), Pull(last));
    }
  }

  lemma TimesQuotient(x: real, y: real, c: real)
    requires y != 0.0
    ensures Times(x / y, Times(c, y)) == Times(c, x)
  {
    var q := x / y;
    assert q * y == x;
    TimesRegroup(q, c, y);
  }

  lemma DividedBy(a: real, b: real, q: real)
    requires b != 0.0 && Times(q, b) == a
    ensures a / b == q
  {
    Cancel(a / b, q, b);
  }

  lemma CommonFactor(x: real, y: real, c: real)
    requires c > 0.0
    ensures Quotient(Times(c, x), Times(c, y)) == Quotient(x, y)
  {
    hide Times;
    TimesSign(c, y);
    if y > 0.0 {
      TimesQuotient(x, y, c);
      DividedBy(Times(c, x), Times(c, y), x / y);
    }
  }

  /** Only the weights' proportions matter. */
  lemma ProportionsMatter(items: seq<Item>, c: real)
    requires c > 0.0
    ensures MeanOf(Scaled(items, c)) == MeanOf(items)
  {
    hide Mass, Pull, Quotient, Times;
    SumsScale(items, c);
    CommonFactor(SumOf(Pull, items), SumOf(Mass, items), c);
  }

  lemma ItemWithin(i: Item, low: real, high: real)
    requires i.quality >= 0.0 && i.weight >= 0.0 && low <= i.score <= high
    ensures Times(low, Mass(i)) <= Pull(i) <= Times(high, Mass(i))
  {
    ProductNotNegative(i.quality, i.weight);
    ProductNotNegative(i.score - low, Mass(i));
    ProductNotNegative(high - i.score, Mass(i));
  }

  lemma {:induction false} SumsWithin(items: seq<Item>, low: real, high: real)
    requires forall i :: i in items ==> i.quality >= 0.0 && i.weight >= 0.0 && low <= i.score <= high
    ensures Times(low, SumOf(Mass, items)) <= SumOf(Pull, items) <= Times(high, SumOf(Mass, items))
  {
    if items == [] {
      TimesZero(low);
      TimesZero(high);
    } else {
      hide Mass, Pull, Times;
      var rest, last := Front(items), Last(items);
      SumsWithin(rest, low, high);
      ItemWithin(last, low, high);
      TimesAdds(low, SumOf(Mass, rest), Mass(last));
      TimesAdds(high, SumOf(Mass, rest), Mass(last));
    }
  }

  lemma QuotientBetween(x: real, y: real, low: real, high: real)
    requires y > 0.0 && Times(low, y) <= x <= Times(high, y)
    ensures low <= x / y <= high
  {
    var q := x / y;
    assert q * y == x;
    if q > high { LargerProduct(q, high, y); }
    if q < low { LargerProduct(low, q, y); }
  }

  /** A mean lies between the least and the greatest score, whatever the weights. */
  lemma MeanWithinScores(items: seq<Item>, low: real, high: real)
    requires forall i :: i in items ==> i.quality >= 0.0 && i.weight >= 0.0 && low <= i.score <= high
    ensures MeanOf(items).Some? ==> low <= MeanOf(items).value <= high
  {
    if MeanOf(items).Some? {
      hide Mass, Pull;
      SumsWithin(items, low, high);
      QuotientBetween(SumOf(Pull, items), SumOf(Mass, items), low, high);
    }
  }

  // ----- Replay

  /** A stored reading: one of the features of a block, or a contributor to the side. */
  datatype Stored = Stored(feature: Option<string>, block: string, score: Option<real>, quality: Option<real>,
      weight: Option<real>)

  function Name(s: Stored): string { if s.feature.Some? then s.feature.value else "None" }

  predicate Numbers(s: Stored) { s.score.Some? && s.quality.Some? }

  function ItemFor(s: Stored, weights: map<string, real>): Item
    requires Numbers(s)
  {
    Item(s.score.value, s.quality.value, FeatureWeight(weights, Name(s)))
  }

  /** The readings of one block that are numbers, with their multipliers. */
  function ItemsIn(features: seq<Stored>, weights: map<string, real>, block: string): seq<Item> {
    if features == [] then []
    else
      var s := Last(features);
      ItemsIn(Front(features), weights, block) + (if Numbers(s) && s.block == block then [ItemFor(s, weights)] else [])
  }

  /** A block's score in the replay: recomputed only if the rulebook re-weights one of its readings. */
  function ReplayedScore(recorded: real, items: seq<Item>): real {
    if (exists i :: i in items && i.weight != 1.0) && MeanOf(items).Some? then MeanOf(items).value else recorded
  }

  /** What `readings` holds once the first features are filed. */
  predicate Filed(byBlock: map<string, seq<Item>>, scores: map<string, real>, features: seq<Stored>,
      weights: map<string, real>) {
    && (forall b :: b in byBlock ==> b in scores)
    && (forall b :: b in scores ==> (if b in byBlock then byBlock[b] else []) == ItemsIn(features, weights, b))
  }

  lemma NothingFiled(scores: map<string, real>, weights: map<string, real>)
    ensures Filed(map[], scores, [], weights)
  {
  }

  lemma NextItem(front: seq<Stored>, weights: map<string, real>, s: Stored, block: string)
    ensures ItemsIn(front + [s], weights, block)
      == ItemsIn(front, weights, block) + (if Numbers(s) && s.block == block then [ItemFor(s, weights)] else [])
  {
    assert Front(front + [s]) == front;
  }

  lemma FiledNext(byBlock: map<string, seq<Item>>, scores: map<string, real>, front: seq<Stored>,
      weights: map<string, real>, s: Stored)
    requires Filed(byBlock, scores, front, weights)
    ensures var before := if s.block in byBlock then byBlock[s.block] else [];
      var after := if Numbers(s) && s.block in scores then byBlock[s.block := before + [ItemFor(s, weights)]]
        else byBlock;
      Filed(after, scores, front + [s], weights)
  {
    hide ItemsIn, ItemFor;
    forall b ensures ItemsIn(front + [s], weights, b)
      == ItemsIn(front, weights, b) + (if Numbers(s) && s.block == b then [ItemFor(s, weights)] else [])
    {
      NextItem(front, weights, s, b);
    }
    assert forall b :: ItemsIn(front, weights, b) + [] == ItemsIn(front, weights, b);
  }

  method FileReadings(scores: map<string, real>, features: seq<Stored>, weights: map<string, real>)
    returns (byBlock: map<string, seq<Item>>)
    ensures Filed(byBlock, scores, features, weights)
  {
    hide Filed;
    byBlock := map[];
    NothingFiled(scores, weights);
    assert features[..0] == [];
    for k := 0 to |features|
      invariant Filed(byBlock, scores, features[..k], weights)
    {
      assert features[..k + 1] == features[..k] + [features[k]];
      FiledNext(byBlock, scores, features[..k], weights, features[k]);
      var s := features[k];
      if Numbers(s) && s.block in scores {
        var before := if s.block in byBlock then byBlock[s.block] else [];
        byBlock := byBlock[s.block := before + [ItemFor(s, weights)]];
      }
    }
    assert features[..|features|] == features;
  }

  method ReplayBlock(recorded: real, items: seq<Item>) returns (score: real)
    ensures score == ReplayedScore(recorded, items)
  {
    score := recorded;
    if exists i :: i in items && i.weight != 1.0 {
      var recomputed := WeightedMean(items);
      if recomputed.Some? { score := recomputed.value; }
    }
  }

  /** The block scores of `reweighted_case`. */
  method ReweightedBlocks(scores: map<string, real>, features: seq<Stored>, weights: map<string, real>)
    returns (replayed: map<string, real>)
    ensures replayed.Keys == scores.Keys
    ensures forall b :: b in scores ==> replayed[b] == ReplayedScore(scores[b], ItemsIn(features, weights, b))
  {
    replayed := scores;
    if weights == map[] {
      forall b | b in scores ensures scores[b] == ReplayedScore(scores[b], ItemsIn(features, weights, b)) {
        NoWeightsAllOne(features, b);
      }
      return;
    }
    var byBlock := FileReadings(scores, features, weights);
    var left := byBlock.Keys;
    while left != {}
      invariant left <= byBlock.Keys && replayed.Keys == scores.Keys
      invariant forall b :: b in scores ==>
        replayed[b] == if b in byBlock && b !in left then ReplayedScore(scores[b], byBlock[b]) else scores[b]
    {
      var b :| b in left;
      var score := ReplayBlock(scores[b], byBlock[b]);
      replayed := replayed[b := score];
      left := left - {b};
    }
  }

  lemma {:induction false} NoWeightsAllOne(features: seq<Stored>, block: string)
    ensures forall i :: i in ItemsIn(features, map[], block) ==> i.weight == 1.0
  {
    if features != [] { NoWeightsAllOne(Front(features), block); }
  }

  /** A contributor as the replay writes it: the multiplier is kept only when it is not 1. */
  function Entry(s: Stored, weights: map<string, real>): Stored
    requires Numbers(s)
  {
    var w := FeatureWeight(weights, Name(s));
    Stored(s.feature, "", s.score, s.quality, if w != 1.0 then Some(w) else None)
  }

  function Entries(contributors: seq<Stored>, weights: map<string, real>): seq<Stored> {
    if contributors == [] then []
    else
      var s := Last(contributors);
      Entries(Front(contributors), weights) + (if Numbers(s) then [Entry(s, weights)] else [])
  }

  /** A contributor's own weight, 1 when none is written. */
  function OwnItem(s: Stored): Item {
    Item(if s.score.Some? then s.score.value else 0.0, if s.quality.Some? then s.quality.value else 0.0,
      if s.weight.Some? then s.weight.value else 1.0)
  }

  function OwnItems(entries: seq<Stored>): (items: seq<Item>)
    ensures |items| == |entries| && forall i :: 0 <= i < |items| ==> items[i] == OwnItem(entries[i])
  {
    seq(|entries|, i requires 0 <= i < |entries| => OwnItem(entries[i]))
  }

  /** The directional part of `reweighted_case`, once some feature is re-weighted. */
  method ReweightedDirectional(contributors: seq<Stored>, weights: map<string, real>)
    returns (entries: seq<Stored>, score: Option<real>)
    ensures entries == Entries(contributors, weights)
    ensures entries != [] ==> score == MeanOf(OwnItems(entries))
  {
    entries, score := [], None;
    for k := 0 to |contributors|
      invariant entries == Entries(contributors[..k], weights)
    {
      assert Front(contributors[..k + 1]) == contributors[..k];
      if Numbers(contributors[k]) { entries := entries + [Entry(contributors[k], weights)]; }
    }
    assert contributors[..|contributors|] == contributors;
    if entries != [] { score := WeightedMean(OwnItems(entries)); }
  }

  /** The multiplier the rulebook writes down for a feature, and one for every other. */
  predicate MultiplierIs(weights: map<string, real>, feature: string, w: real) {
    (feature in weights ==> w == weights[feature]) && (feature !in weights ==> w == 1.0)
  }

  /** The recomputed mean reads an entry as the contributor's own score and quality, weighed by its multiplier. */
  predicate ReadsAs(entry: Stored, s: Stored, weights: map<string, real>) {
    && Numbers(s) && entry.feature == s.feature
    && OwnItem(entry).score == s.score.value && OwnItem(entry).quality == s.quality.value
    && MultiplierIs(weights, Name(s), OwnItem(entry).weight)
  }

  lemma EntryReadsAs(s: Stored, weights: map<string, real>)
    requires Numbers(s)
    ensures ReadsAs(Entry(s, weights), s, weights)
  {
  }

  /**
   The entries are the contributors with numbers, each once and in order, whether the multiplier is written
   or not.
   */
  lemma {:induction false} EntriesCarryWeights(contributors: seq<Stored>, weights: map<string, real>)
    ensures var kept, entries := Keep(contributors, Numbers), Entries(contributors, weights);
      |entries| == |kept| && forall i :: 0 <= i < |entries| ==> ReadsAs(entries[i], kept[i], weights)
  {
    if contributors != [] {
      hide ReadsAs;
      var front, last := Front(contributors), Last(contributors);
      assert contributors == front + [last];
      EntriesCarryWeights(front, weights);
      KeepJoins(front, [last], Numbers);
      KeepOne(last);
      if Numbers(last) { EntryReadsAs(last, weights); }
    }
  }

  lemma KeepOne(s: Stored)
    ensures Keep([s], Numbers) == if Numbers(s) then [s] else []
  {
    assert [s][1..] == [];
  }

  /** A reading of a block weighs what the rulebook says too. */
  lemma ItemCarriesWeight(s: Stored, weights: map<string, real>)
    requires Numbers(s)
    ensures ItemFor(s, weights).score == s.score.value && ItemFor(s, weights).quality == s.quality.value
    ensures MultiplierIs(weights, Name(s), ItemFor(s, weights).weight)
  {
  }

  // ----- What quality and weight do to a mean

  lemma OneMoreItem(before: seq<Item>, i: Item, after: seq<Item>)
    ensures SumOf(Mass, before + [i] + after) == SumOf(Mass, before + after) + Mass(i)
    ensures SumOf(Pull, before + [i] + after) == SumOf(Pull, before + after) + Pull(i)
  {
    hide Mass, Pull;
    var all := before + [i] + after;
    assert all[..|before|] == before && all[|before| + 1..] == after && all[|before|] == i;
    SumOfRemoved(Mass, all, |before|);
    SumOfRemoved(Pull, all, |before|);
  }

  lemma PullIsTimes(i: Item)
    ensures Pull(i) == Times(i.quality * i.weight, i.score) && Mass(i) == i.quality * i.weight
  {
    assert (i.score * i.quality) * i.weight == (i.quality * i.weight) * i.score;
  }

  lemma MeanIsMixed(before: seq<Item>, i: Item, after: seq<Item>)
    requires SumOf(Mass, before + after) > 0.0 && i.quality * i.weight >= 0.0
    ensures MeanOf(before + [i] + after)
      == Some(Mixed(SumOf(Pull, before + after), SumOf(Mass, before + after), i.quality * i.weight, i.score))
  {
    PullIsTimes(i);
    OneMoreItem(before, i, after);
    hide Mass, Pull, Times;
  }

  /**
   Against others that carry weight, a reading with more quality times weight moves the mean strictly further
   towards its own score, and one with none does not move it.
   */
  lemma HeavierMovesMean(before: seq<Item>, i: Item, j: Item, after: seq<Item>)
    requires SumOf(Mass, before + after) > 0.0
    requires i.score == j.score && 0.0 <= i.quality * i.weight < j.quality * j.weight
    ensures var rest, less, more := MeanOf(before + after), MeanOf(before + [i] + after), MeanOf(before + [j] + after);
      && rest.Some? && less.Some? && more.Some?
      && (i.score > rest.value ==> rest.value <= less.value < more.value < i.score)
      && (i.score < rest.value ==> i.score < more.value < less.value <= rest.value)
      && (i.score == rest.value ==> less.value == i.score == more.value)
      && (i.quality * i.weight == 0.0 ==> less == rest)
  {
    var n, c, x, y := SumOf(Pull, before + after), SumOf(Mass, before + after), i.quality * i.weight,
      j.quality * j.weight;
    MeanIsMixed(before, i, after);
    MeanIsMixed(before, j, after);
    MixedNothing(n, c, i.score);
    hide Mixed, Pull, Mass;
    MixingMoves(n, c, x, y, i.score);
  }

  function ScoreOf(i: Item): real { i.score }

  /** Where all weigh the same and have the same quality, the mean is the plain average of the scores. */
  lemma PlainAverage(items: seq<Item>, quality: real, weight: real)
    requires items != [] && quality > 0.0 && weight > 0.0
    requires forall i :: i in items ==> i.quality == quality && i.weight == weight
    ensures MeanOf(items) == Some(SumOf(ScoreOf, items) / |items| as real)
  {
    ProductPositive(quality, weight);
    EvenSums(items, quality * weight);
    hide Mass, Pull, ScoreOf;
    AverageOf(SumOf(ScoreOf, items), |items| as real, quality * weight, SumOf(Pull, items), SumOf(Mass, items));
  }

  lemma EvenSums(items: seq<Item>, m: real)
    requires forall i :: i in items ==> i.quality * i.weight == m
    ensures SumOf(Mass, items) == |items| as real * m && SumOf(Pull, items) == m * SumOf(ScoreOf, items)
  {
    hide Times, Mass, Pull;
    forall i | i in items ensures Mass(i) == m && Pull(i) == m * ScoreOf(i) {
      PullIsTimes(i);
      OpenTimes(m, i.score);
    }
    hide ScoreOf;
    SumOfConstant(Mass, m, items);
    SumOfScaled(ScoreOf, Pull, m, items);
  }

  lemma OpenTimes(x: real, y: real)
    ensures Times(x, y) == x * y
  {
  }

  lemma AverageOf(sum: real, n: real, m: real, x: real, y: real)
    requires n > 0.0 && m > 0.0 && x == m * sum && y == n * m
    ensures Quotient(x, y) == Some(sum / n)
  {
    ProductPositive(n, m);
    var q := sum / n;
    assert q * n == sum;
    assert q * y == (q * n) * m;
    Cancel(x / y, q, y);
  }
}
