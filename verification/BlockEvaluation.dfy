/** Block scores and the cap on paper risk. */
module BlockEvaluation {
  import opened Common
  import opened Reals
  import opened Sums

  datatype Block = Block(name: string, weight: real)

  datatype Rulebook = Rulebook(weights: seq<Block>, caps: map<string, real>, base: real, unknown: real,
    minimum: real, maximum: real, enoughCoverage: real)

  /** What a validated rulebook keeps to. */
  predicate Valid(rb: Rulebook) {
    && (forall i, j :: 0 <= i < j < |rb.weights| ==> rb.weights[i].name != rb.weights[j].name)
    && (forall b :: b in rb.weights ==> b.weight >= 0.0)
    && rb.minimum <= rb.base <= rb.maximum
  }

  /** `_validate_named_values`: only configured blocks, each value in range. */
  predicate Named(values: map<string, real>, weights: seq<Block>, low: real, high: real) {
    forall name :: name in values ==> (exists b :: b in weights && b.name == name) && low <= values[name] <= high
  }

  /** How one block entered the score. */
  datatype Detail = Detail(block: string, weight: real, score: real, quality: real)

  function WeightedQuality(d: Detail): real { d.weight * d.quality }

  function Contribution(d: Detail): real { WeightedQuality(d) * d.score }

  /** A missing block has quality zero; one without a stated quality has quality one. */
  function DetailOf(b: Block, scores: map<string, real>, qualities: map<string, real>): Detail {
    if b.name !in scores then Detail(b.name, b.weight, 0.0, 0.0)
    else Detail(b.name, b.weight, scores[b.name], if b.name in qualities then qualities[b.name] else 1.0)
  }

  function DetailsOf(weights: seq<Block>, scores: map<string, real>, qualities: map<string, real>): (ds: seq<Detail>)
    ensures |ds| == |weights| && forall i :: 0 <= i < |ds| ==> ds[i] == DetailOf(weights[i], scores, qualities)
  {
    seq(|weights|, i requires 0 <= i < |weights| => DetailOf(weights[i], scores, qualities))
  }

  function Coverage(details: seq<Detail>): real { SumOf(WeightedQuality, details) }

  /** The quality-weighted blend of the blocks' scores; zero when nothing was covered. */
  function Blend(details: seq<Detail>): real {
    if Coverage(details) > 0.0 then SumOf(Contribution, details) / Coverage(details) else 0.0
  }

  function Missing(weights: seq<Block>, scores: map<string, real>): seq<string> {
    if weights == [] then []
    else Missing(Front(weights), scores) + (if Last(weights).name in scores then [] else [Last(weights).name])
  }

  // ----- Risk

  /** Each flag once, where it first stands. */
  function Once(flags: seq<string>): (r: seq<string>)
    ensures forall f :: f in r <==> f in flags
  {
    if flags == [] then []
    else
      var rest := Once(Front(flags));
      assert flags == Front(flags) + [Last(flags)];
      if Last(flags) in rest then rest else rest + [Last(flags)]
  }

  function WithFlag(flags: seq<string>, flag: string): seq<string> {
    if flag in flags then flags else flags + [flag]
  }

  const NO_COVERAGE: string := "no_data_coverage"
  const LOW_COVERAGE: string := "low_data_coverage"

  /** The flags that count: those given, and what the coverage itself flags. */
  function ActiveFlags(rb: Rulebook, given: seq<string>, coverage: real): seq<string> {
    if coverage == 0.0 then WithFlag(Once(given), NO_COVERAGE)
    else if coverage < rb.enoughCoverage then WithFlag(Once(given), LOW_COVERAGE)
    else Once(given)
  }

  function CapOf(rb: Rulebook, flag: string): real {
    if flag in rb.caps then rb.caps[flag] else rb.unknown
  }

  function LeastCap(rb: Rulebook, flags: seq<string>): real {
    if flags == [] then rb.base else Min(LeastCap(rb, Front(flags)), CapOf(rb, Last(flags)))
  }

  function Multiplier(rb: Rulebook, flags: seq<string>): real {
    Min(rb.maximum, Max(rb.minimum, LeastCap(rb, flags)))
  }

  lemma {:induction false} LeastCapIsLeast(rb: Rulebook, flags: seq<string>)
    ensures LeastCap(rb, flags) <= rb.base && forall f :: f in flags ==> LeastCap(rb, flags) <= CapOf(rb, f)
    ensures LeastCap(rb, flags) == rb.base || exists f :: f in flags && LeastCap(rb, flags) == CapOf(rb, f)
  {
    if flags != [] {
      LeastCapIsLeast(rb, Front(flags));
      assert flags == Front(flags) + [Last(flags)];
      assert Last(flags) in flags;
    }
  }

  /** The most conservative active cap wins, within the rulebook's limits. */
  lemma MostConservativeWins(rb: Rulebook, flags: seq<string>)
    requires Valid(rb)
    ensures rb.minimum <= Multiplier(rb, flags) <= rb.base
    ensures forall f :: f in flags ==> Multiplier(rb, flags) <= Max(rb.minimum, CapOf(rb, f))
    ensures Multiplier(rb, flags) == rb.base || Multiplier(rb, flags) == rb.minimum
      || exists f :: f in flags && Multiplier(rb, flags) == CapOf(rb, f)
  {
    LeastCapIsLeast(rb, flags);
  }

  /** No flag added, in whatever order, ever raises the multiplier. */
  lemma MoreFlagsNeverRaise(rb: Rulebook, some: seq<string>, more: seq<string>)
    requires forall f :: f in some ==> f in more
    ensures Multiplier(rb, more) <= Multiplier(rb, some)
  {
    LeastCapIsLeast(rb, some);
    LeastCapIsLeast(rb, more);
  }

  /** Nothing covered, or too little, caps the risk as its flag says, whatever flags were given. */
  lemma PoorCoverageCaps(rb: Rulebook, given: seq<string>, coverage: real)
    requires Valid(rb)
    ensures coverage == 0.0 ==>
      Multiplier(rb, ActiveFlags(rb, given, coverage)) <= Max(rb.minimum, CapOf(rb, NO_COVERAGE))
    ensures coverage != 0.0 && coverage < rb.enoughCoverage
      ==> Multiplier(rb, ActiveFlags(rb, given, coverage)) <= Max(rb.minimum, CapOf(rb, LOW_COVERAGE))
    ensures forall f :: f in given ==> Multiplier(rb, ActiveFlags(rb, given, coverage)) <= Max(rb.minimum, CapOf(rb, f))
  {
    MostConservativeWins(rb, ActiveFlags(rb, given, coverage));
  }

  // ----- The evaluation

  datatype Evaluation = Evaluation(score: real, coverage: real, multiplier: real, details: seq<Detail>,
    missing: seq<string>, flags: seq<string>)

  method ScoreBlocks(weights: seq<Block>, scores: map<string, real>, qualities: map<string, real>)
    returns (numerator: real, coverage: real, details: seq<Detail>, missing: seq<string>)
    ensures details == DetailsOf(weights, scores, qualities) && missing == Missing(weights, scores)
    ensures numerator == SumOf(Contribution, details) && coverage == Coverage(details)
  {
    hide WeightedQuality, Contribution;
    numerator, coverage, details, missing := 0.0, 0.0, [], [];
    for k := 0 to |weights|
      invariant details == DetailsOf(weights, scores, qualities)[..k] && missing == Missing(weights[..k], scores)
      invariant numerator == SumOf(Contribution, details) && coverage == Coverage(details)
    {
      assert Front(weights[..k + 1]) == weights[..k];
      var name, score, quality := weights[k].name, 0.0, 0.0;
      if name !in scores {
        missing := missing + [name];
      } else {
        score := scores[name];
        quality := if name in qualities then qualities[name] else 1.0;
      }
      var detail := Detail(name, weights[k].weight, score, quality);
      SumOfAdd(Contribution, details, detail);
      SumOfAdd(WeightedQuality, details, detail);
      numerator := numerator + Contribution(detail);
      coverage := coverage + WeightedQuality(detail);
      details := details + [detail];
    }
    assert weights[..|weights|] == weights;
  }

  /** Every flag given, once, in order; an empty one is refused. */
  method TakeFlags(given: seq<string>) returns (r: Result<seq<string>, string>)
    ensures r.Err? <==> "" in given
    ensures r.Ok? ==> r.value == Once(given)
  {
    var flags: seq<string> := [];
    for k := 0 to |given|
      invariant flags == Once(given[..k]) && "" !in given[..k]
    {
      assert Front(given[..k + 1]) == given[..k];
      if given[k] == "" { return Err("risk_flags must contain non-empty strings"); }
      if given[k] !in flags { flags := flags + [given[k]]; }
    }
    assert given[..|given|] == given;
    r := Ok(flags);
  }

  method CapRisk(rb: Rulebook, flags: seq<string>) returns (multiplier: real)
    ensures multiplier == Multiplier(rb, flags)
  {
    multiplier := rb.base;
    for k := 0 to |flags|
      invariant multiplier == LeastCap(rb, flags[..k])
    {
      assert Front(flags[..k + 1]) == flags[..k];
      multiplier := Min(multiplier, CapOf(rb, flags[k]));
    }
    assert flags[..|flags|] == flags;
    multiplier := Min(rb.maximum, Max(rb.minimum, multiplier));
  }

  /** `evaluate_blocks`. */
  method EvaluateBlocks(rb: Rulebook, scores: map<string, real>, qualities: map<string, real>, given: seq<string>)
    returns (r: Result<Evaluation, string>)
    ensures r.Ok? <==> Named(scores, rb.weights, -1.0, 1.0) && Named(qualities, rb.weights, 0.0, 1.0) && "" !in given
    ensures r.Ok? ==>
      var details := DetailsOf(rb.weights, scores, qualities);
      var flags := ActiveFlags(rb, given, Coverage(details));
      r.value == Evaluation(Blend(details), Coverage(details), Multiplier(rb, flags), details,
        Missing(rb.weights, scores), flags)
  {
    if !Named(scores, rb.weights, -1.0, 1.0) { return Err("block_scores"); }
    if !Named(qualities, rb.weights, 0.0, 1.0) { return Err("data_quality"); }
    var numerator, coverage, details, missing := ScoreBlocks(rb.weights, scores, qualities);
    var score := if coverage > 0.0 then numerator / coverage else 0.0;
    var taken := TakeFlags(given);
    if taken.Err? { return Err(taken.error); }
    var flags := taken.value;
    if coverage == 0.0 {
      if NO_COVERAGE !in flags { flags := flags + [NO_COVERAGE]; }
    } else if coverage < rb.enoughCoverage {
      if LOW_COVERAGE !in flags { flags := flags + [LOW_COVERAGE]; }
    }
    var multiplier := CapRisk(rb, flags);
    r := Ok(Evaluation(score, coverage, multiplier, details, missing, flags));
  }

  // ----- What the score is

  predicate InRange(d: Detail) {
    d.weight >= 0.0 && 0.0 <= d.quality <= 1.0 && -1.0 <= d.score <= 1.0
  }

  lemma DetailInRange(rb: Rulebook, scores: map<string, real>, qualities: map<string, real>, i: nat)
    requires Valid(rb) && i < |rb.weights| && Named(scores, rb.weights, -1.0, 1.0)
      && Named(qualities, rb.weights, 0.0, 1.0)
    ensures InRange(DetailOf(rb.weights[i], scores, qualities))
  {
    assert rb.weights[i] in rb.weights;
  }

  lemma ContributionWithin(d: Detail)
    requires InRange(d)
    ensures 0.0 <= WeightedQuality(d) && -WeightedQuality(d) <= Contribution(d) <= WeightedQuality(d)
  {
    ProductNotNegative(d.weight, d.quality);
    ProductWithin(WeightedQuality(d), d.score);
  }

  lemma ProductWithin(w: real, s: real)
    requires w >= 0.0 && -1.0 <= s <= 1.0
    ensures -w <= w * s <= w
  {
    ProductNotNegative(w, 1.0 - s);
    ProductNotNegative(w, s + 1.0);
  }

  /** A blend of scores between -1 and 1 stays between -1 and 1, and coverage is never negative. */
  lemma BlendInRange(rb: Rulebook, scores: map<string, real>, qualities: map<string, real>)
    requires Valid(rb) && Named(scores, rb.weights, -1.0, 1.0) && Named(qualities, rb.weights, 0.0, 1.0)
    ensures var details := DetailsOf(rb.weights, scores, qualities);
      Coverage(details) >= 0.0 && -1.0 <= Blend(details) <= 1.0
  {
    var details := DetailsOf(rb.weights, scores, qualities);
    forall d | d in details
      ensures WeightedQuality(d) >= 0.0 && -WeightedQuality(d) <= Contribution(d) <= WeightedQuality(d)
    {
      var i :| 0 <= i < |details| && details[i] == d;
      DetailInRange(rb, scores, qualities, i);
      ContributionWithin(d);
    }
    SumOfNonNegative(WeightedQuality, details);
    SumOfBounded(Contribution, WeightedQuality, details);
    if Coverage(details) > 0.0 { QuotientWithin(SumOf(Contribution, details), Coverage(details)); }
  }

  // ----- What the weights do

  /** A block that was scored, in full quality. */
  predicate InFull(b: Block, scores: map<string, real>, qualities: map<string, real>) {
    b.name in scores && (b.name in qualities ==> qualities[b.name] == 1.0)
  }

  function PresentWeight(scores: map<string, real>): Block -> real {
    (b: Block) => if b.name in scores then b.weight else 0.0
  }

  function WeightOf(b: Block): real { b.weight }

  lemma DetailsNext(weights: seq<Block>, scores: map<string, real>, qualities: map<string, real>)
    requires weights != []
    ensures DetailsOf(weights, scores, qualities)
      == DetailsOf(Front(weights), scores, qualities) + [DetailOf(Last(weights), scores, qualities)]
  {
  }

  lemma DetailsJoin(a: seq<Block>, b: seq<Block>, scores: map<string, real>, qualities: map<string, real>)
    ensures DetailsOf(a + b, scores, qualities) == DetailsOf(a, scores, qualities) + DetailsOf(b, scores, qualities)
  {
  }

  /** In full quality, the coverage is the weight of the blocks that were scored. */
  lemma {:induction false} CoverageIsPresentWeight(weights: seq<Block>, scores: map<string, real>,
      qualities: map<string, real>)
    requires forall b :: b in weights && b.name in scores ==> InFull(b, scores, qualities)
    ensures Coverage(DetailsOf(weights, scores, qualities)) == SumOf(PresentWeight(scores), weights)
  {
    if weights != [] {
      CoverageIsPresentWeight(Front(weights), scores, qualities);
      DetailsNext(weights, scores, qualities);
      SumOfAdd(WeightedQuality, DetailsOf(Front(weights), scores, qualities),
        DetailOf(Last(weights), scores, qualities));
      assert Last(weights) in weights;
    }
  }

  /** With every block scored in full quality, the coverage is the whole weight. */
  lemma FullCoverage(weights: seq<Block>, scores: map<string, real>, qualities: map<string, real>)
    requires forall b :: b in weights ==> InFull(b, scores, qualities)
    ensures Coverage(DetailsOf(weights, scores, qualities)) == SumOf(WeightOf, weights)
  {
    CoverageIsPresentWeight(weights, scores, qualities);
    SumOfSame(PresentWeight(scores), WeightOf, weights);
  }

  lemma OneMoreDetail(before: seq<Detail>, d: Detail, after: seq<Detail>)
    ensures Coverage(before + [d] + after) == Coverage(before + after) + WeightedQuality(d)
    ensures SumOf(Contribution, before + [d] + after) == SumOf(Contribution, before + after) + Contribution(d)
  {
    hide WeightedQuality, Contribution;
    var all := before + [d] + after;
    assert all[..|before|] == before && all[|before| + 1..] == after && all[|before|] == d;
    SumOfRemoved(WeightedQuality, all, |before|);
    SumOfRemoved(Contribution, all, |before|);
  }

  lemma DetailsWith(before: seq<Block>, b: Block, after: seq<Block>, scores: map<string, real>, qualities: map<string,
      real>)
    ensures DetailsOf(before + [b] + after, scores, qualities)
      == DetailsOf(before, scores, qualities) + [DetailOf(b, scores, qualities)] + DetailsOf(after, scores, qualities)
    ensures DetailsOf(before + after, scores, qualities)
      == DetailsOf(before, scores, qualities) + DetailsOf(after, scores, qualities)
  {
  }

  /** A block without weight moves neither the score nor the coverage. */
  lemma WeightlessMovesNothing(before: seq<Block>, b: Block, after: seq<Block>, scores: map<string, real>,
      qualities: map<string, real>)
    requires b.weight == 0.0
    ensures var with, without := DetailsOf(before + [b] + after, scores, qualities),
      DetailsOf(before + after, scores, qualities);
      Blend(with) == Blend(without) && Coverage(with) == Coverage(without)
  {
    var d := DetailOf(b, scores, qualities);
    DetailsWith(before, b, after, scores, qualities);
    OneMoreDetail(DetailsOf(before, scores, qualities), d, DetailsOf(after, scores, qualities));
    assert WeightedQuality(d) == 0.0;
  }

  function WeighedBy(b: Block, c: real): Block { b.(weight := Times(c, b.weight)) }

  function Reweighted(weights: seq<Block>, c: real): seq<Block> {
    if weights == [] then [] else Reweighted(Front(weights), c) + [WeighedBy(Last(weights), c)]
  }

  lemma OpenDetail(d: Detail)
    ensures WeightedQuality(d) == Times(d.weight, d.quality) && Contribution(d) == Times(WeightedQuality(d), d.score)
  {
  }

  lemma ReweightedDetail(b: Block, c: real, scores: map<string, real>, qualities: map<string, real>)
    ensures var d, e := DetailOf(b, scores, qualities), DetailOf(WeighedBy(b, c), scores, qualities);
      WeightedQuality(e) == Times(c, WeightedQuality(d)) && Contribution(e) == Times(c, Contribution(d))
  {
    hide Times, WeightedQuality, Contribution;
    var d := DetailOf(b, scores, qualities);
    OpenDetail(d);
    OpenDetail(DetailOf(WeighedBy(b, c), scores, qualities));
    TimesAssociates(c, d.weight, d.quality);
    TimesAssociates(c, WeightedQuality(d), d.score);
  }

  lemma ReweightedStep(ds: seq<Detail>, es: seq<Detail>, d: Detail, e: Detail, c: real)
    requires Coverage(es) == Times(c, Coverage(ds)) && SumOf(Contribution, es) == Times(c, SumOf(Contribution, ds))
    requires WeightedQuality(e) == Times(c, WeightedQuality(d)) && Contribution(e) == Times(c, Contribution(d))
    ensures Coverage(es + [e]) == Times(c, Coverage(ds + [d]))
    ensures SumOf(Contribution, es + [e]) == Times(c, SumOf(Contribution, ds + [d]))
  {
    hide Times, WeightedQuality, Contribution;
    SumOfAdd(WeightedQuality, ds, d);
    SumOfAdd(Contribution, ds, d);
    SumOfAdd(WeightedQuality, es, e);
    SumOfAdd(Contribution, es, e);
    TimesAdds(c, Coverage(ds), WeightedQuality(d));
    TimesAdds(c, SumOf(Contribution, ds), Contribution(d));
  }

  lemma DetailsAdd(front: seq<Block>, b: Block, scores: map<string, real>, qualities: map<string, real>)
    ensures DetailsOf(front + [b], scores, qualities)
      == DetailsOf(front, scores, qualities) + [DetailOf(b, scores, qualities)]
  {
  }

  lemma {:induction false} ReweightedSums(weights: seq<Block>, c: real, scores: map<string, real>,
      qualities: map<string, real>)
    ensures var ds, es := DetailsOf(weights, scores, qualities), DetailsOf(Reweighted(weights, c), scores, qualities);
      Coverage(es) == Times(c, Coverage(ds)) && SumOf(Contribution, es) == Times(c, SumOf(Contribution, ds))
  {
    if weights == [] {
      TimesZero(c);
    } else {
      hide Times, WeightedQuality, Contribution, DetailOf, DetailsOf, WeighedBy;
      var front, b := Front(weights), Last(weights);
      assert weights == front + [b];
      ReweightedSums(front, c, scores, qualities);
      ReweightedDetail(b, c, scores, qualities);
      DetailsAdd(front, b, scores, qualities);
      DetailsAdd(Reweighted(front, c), WeighedBy(b, c), scores, qualities);
      ReweightedStep(DetailsOf(front, scores, qualities), DetailsOf(Reweighted(front, c), scores, qualities),
        DetailOf(b, scores, qualities), DetailOf(WeighedBy(b, c), scores, qualities), c);
    }
  }

  lemma SameRatio(x: real, y: real, c: real)
    requires c > 0.0 && y > 0.0
    ensures Times(c, y) > 0.0 && Times(c, x) / Times(c, y) == x / y
  {
    TimesSign(c, y);
    var q := x / y;
    assert q * y == x;
    assert q * (c * y) == c * (q * y);
    Cancel(Times(c, x) / Times(c, y), q, Times(c, y));
  }

  /** Only the proportions of the weights matter to the score; the coverage scales with them. */
  lemma ScaledWeights(weights: seq<Block>, c: real, scores: map<string, real>, qualities: map<string, real>)
    requires c > 0.0
    ensures var ds, es := DetailsOf(weights, scores, qualities), DetailsOf(Reweighted(weights, c), scores, qualities);
      Blend(es) == Blend(ds) && Coverage(es) == Times(c, Coverage(ds))
  {
    hide Times;
    ReweightedSums(weights, c, scores, qualities);
    var ds := DetailsOf(weights, scores, qualities);
    TimesSign(c, Coverage(ds));
    if Coverage(ds) > 0.0 { SameRatio(SumOf(Contribution, ds), Coverage(ds), c); }
  }

  lemma BlendIsRatio(details: seq<Detail>)
    requires Coverage(details) > 0.0
    ensures Blend(details) == SumOf(Contribution, details) / Coverage(details)
  {
  }

  /** The score with one block at this weight. */
  function BlendWith(before: seq<Block>, b: Block, after: seq<Block>, w: real, scores: map<string, real>,
      qualities: map<string, real>): real
  {
    Blend(DetailsOf(before + [b.(weight := w)] + after, scores, qualities))
  }

  lemma BlendIsMixed(before: seq<Block>, b: Block, after: seq<Block>, w: real, q: real, scores: map<string, real>,
      qualities: map<string, real>)
    requires b.name in scores && q == (if b.name in qualities then qualities[b.name] else 1.0) && w >= 0.0 && q >= 0.0
    requires Coverage(DetailsOf(before + after, scores, qualities)) > 0.0
    ensures var others := DetailsOf(before + after, scores, qualities);
      Times(w, q) >= 0.0
      && BlendWith(before, b, after, w, scores, qualities)
        == Mixed(SumOf(Contribution, others), Coverage(others), Times(w, q), scores[b.name])
  {
    WeighsNotLess(w, q);
    DetailIs(b, w, q, scores, qualities);
    hide Mixed, Times, WeightedQuality, Contribution, DetailsOf, Coverage;
    OpenMixed(b.(weight := w), before, after, scores, qualities);
    MixedSums(SumOf(Contribution, DetailsOf(before + after, scores, qualities)),
      Coverage(DetailsOf(before + after, scores, qualities)), Times(w, q), scores[b.name]);
  }

  lemma WeighsNotLess(w: real, q: real)
    requires w >= 0.0 && q >= 0.0
    ensures Times(w, q) >= 0.0
  {
    ProductNotNegative(w, q);
  }

  lemma WeighsMore(w: real, more: real, q: real)
    requires w < more && q > 0.0
    ensures Times(w, q) < Times(more, q)
  {
    LargerProduct(more, w, q);
  }

  lemma DetailIs(b: Block, w: real, q: real, scores: map<string, real>, qualities: map<string, real>)
    requires b.name in scores && q == if b.name in qualities then qualities[b.name] else 1.0
    ensures var d := DetailOf(b.(weight := w), scores, qualities);
      WeightedQuality(d) == Times(w, q) && Contribution(d) == Times(Times(w, q), scores[b.name])
  {
  }

  lemma MixedSums(n: real, c: real, x: real, s: real)
    requires c + x > 0.0
    ensures Mixed(n, c, x, s) == (n + Times(x, s)) / (c + x)
  {
  }

  lemma OpenMixed(b: Block, before: seq<Block>, after: seq<Block>, scores: map<string, real>, qualities: map<string,
      real>)
    ensures var d, others, all := DetailOf(b, scores, qualities), DetailsOf(before + after, scores, qualities),
        DetailsOf(before + [b] + after, scores, qualities);
      && Coverage(all) == Coverage(others) + WeightedQuality(d)
      && SumOf(Contribution, all) == SumOf(Contribution, others) + Contribution(d)
  {
    var d := DetailOf(b, scores, qualities);
    DetailsWith(before, b, after, scores, qualities);
    OneMoreDetail(DetailsOf(before, scores, qualities), d, DetailsOf(after, scores, qualities));
  }

  /**
   A larger weight moves the score strictly towards the score of its block, from that of the others, and leaves it
   alone exactly where the two agree.
   */
  lemma HeavierMovesFurther(before: seq<Block>, b: Block, after: seq<Block>, w: real, more: real,
      scores: map<string, real>, qualities: map<string, real>)
    requires b.name in scores && (b.name in qualities ==> qualities[b.name] > 0.0) && 0.0 <= w < more
    requires Coverage(DetailsOf(before + after, scores, qualities)) > 0.0
    ensures var rest, s := Blend(DetailsOf(before + after, scores, qualities)), scores[b.name];
      var less, further := BlendWith(before, b, after, w, scores, qualities),
        BlendWith(before, b, after, more, scores, qualities);
      && (s > rest ==> rest <= less < further < s)
      && (s < rest ==> s < further < less <= rest)
      && (s == rest ==> less == s == further)
  {
    var q, others := if b.name in qualities then qualities[b.name]
      else 1.0, DetailsOf(before + after, scores, qualities);
    hide Mixed, Times, BlendWith, Contribution, WeightedQuality, DetailsOf, Coverage;
    BlendIsMixed(before, b, after, w, q, scores, qualities);
    BlendIsMixed(before, b, after, more, q, scores, qualities);
    WeighsMore(w, more, q);
    BlendIsRatio(others);
    MixingMoves(SumOf(Contribution, others), Coverage(others), Times(w, q), Times(more, q), scores[b.name]);
  }

  lemma NothingCollected(d: Detail)
    requires d.quality == 0.0
    ensures WeightedQuality(d) == 0.0 && Contribution(d) == 0.0
  {
  }

  /** A block that nothing was collected for moves neither the score nor the coverage. */
  lemma UncoveredBlockMovesNothing(before: seq<Detail>, d: Detail, after: seq<Detail>)
    requires d.quality == 0.0
    ensures Blend(before + [d] + after) == Blend(before + after)
      && Coverage(before + [d] + after) == Coverage(before + after)
  {
    hide WeightedQuality, Contribution;
    NothingCollected(d);
    SumOfConcat(WeightedQuality, before + [d], after);
    SumOfConcat(WeightedQuality, before, after);
    SumOfAdd(WeightedQuality, before, d);
    SumOfConcat(Contribution, before + [d], after);
    SumOfConcat(Contribution, before, after);
    SumOfAdd(Contribution, before, d);
  }
}
