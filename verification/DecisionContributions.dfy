/** One stored decision, divided among the readings and blocks that produced it. */
module DecisionContributions {
  import opened Common
  import opened Reals
  import opened Sums
  import opened FeatureWeights
  import BlockEvaluation

  datatype Role = Directional | Suitability

  datatype Contribution = Contribution(key: string, block: string, role: Role, score: real, quality: real, weight: real,
    contribution: real)

  function Amount(c: Contribution): real { c.contribution }

  // ----- Directional features

  /** A contributor that has a name and numbers. */
  predicate Readable(s: Stored) {
    s.feature.Some? && s.feature.value != "" && Numbers(s)
  }

  function BlockOf(blockOf: map<string, string>, feature: string): string {
    if feature in blockOf then blockOf[feature] else "unknown"
  }

  function PerMass(x: real, y: real): real { if y > 0.0 then x / y else 0.0 }

  lemma PerMassAdds(x: real, y: real, t: real)
    ensures PerMass(x, t) + PerMass(y, t) == PerMass(x + y, t) && PerMass(0.0, t) == 0.0
  {
  }

  function Directed(s: Stored, total: real, blockOf: map<string, string>): Contribution {
    var i, name := OwnItem(s), Name(s);
    Contribution(name, BlockOf(blockOf, name), Directional, i.score, i.quality, i.weight,
      PerMass(FeatureWeights.Pull(i), total))
  }

  function AllDirected(readings: seq<Stored>, total: real, blockOf: map<string, string>): (fs: seq<Contribution>)
    ensures |fs| == |readings| && forall i :: 0 <= i < |fs| ==> fs[i] == Directed(readings[i], total, blockOf)
  {
    seq(|readings|, i requires 0 <= i < |readings| => Directed(readings[i], total, blockOf))
  }

  /** `_directional_features`. */
  function DirectionalFeatures(contributors: seq<Stored>, blockOf: map<string, string>): seq<Contribution> {
    var readings := Keep(contributors, Readable);
    AllDirected(readings, SumOf(Mass, OwnItems(readings)), blockOf)
  }

  lemma {:induction false} SharesOfTotal(readings: seq<Stored>, total: real, blockOf: map<string, string>)
    ensures SumOf(Amount, AllDirected(readings, total, blockOf))
      == PerMass(SumOf(FeatureWeights.Pull, OwnItems(readings)), total)
  {
    hide PerMass, OwnItem;
    if readings == [] {
      PerMassAdds(0.0, 0.0, total);
    } else {
      var front, last := Front(readings), Last(readings);
      SharesOfTotal(front, total, blockOf);
      assert Front(AllDirected(readings, total, blockOf)) == AllDirected(front, total, blockOf);
      assert Front(OwnItems(readings)) == OwnItems(front);
      PerMassAdds(SumOf(FeatureWeights.Pull, OwnItems(front)), FeatureWeights.Pull(OwnItem(last)), total);
    }
  }

  function OrZero(x: Option<real>): real { if x.Some? then x.value else 0.0 }

  /** The directional shares add up to the weighted mean of the readings they were divided among. */
  lemma DirectionalSharesAddUp(contributors: seq<Stored>, blockOf: map<string, string>)
    ensures SumOf(Amount, DirectionalFeatures(contributors, blockOf))
      == OrZero(MeanOf(OwnItems(Keep(contributors, Readable))))
  {
    var readings := Keep(contributors, Readable);
    SharesOfTotal(readings, SumOf(Mass, OwnItems(readings)), blockOf);
  }

  lemma {:induction false} KeepAll<T(!new)>(xs: seq<T>, keep: T -> bool)
    requires forall x :: x in xs ==> keep(x)
    ensures Keep(xs, keep) == xs
  {
    if xs != [] { KeepAll(xs[1..], keep); }
  }

  /** After a replay whose contributors all have names, they add up to exactly the score it recomputed. */
  lemma ReplayedSharesAddUp(contributors: seq<Stored>, weights: map<string, real>, blockOf: map<string, string>)
    requires forall s :: s in Entries(contributors, weights) ==> Readable(s)
    ensures var entries := Entries(contributors, weights);
      SumOf(Amount, DirectionalFeatures(entries, blockOf)) == OrZero(MeanOf(OwnItems(entries)))
  {
    DirectionalSharesAddUp(Entries(contributors, weights), blockOf);
    KeepAll(Entries(contributors, weights), Readable);
  }

  // ----- A replay with contributors that have no name

  predicate Unnamed(s: Stored) { !Readable(s) }

  function OwnItemOf(f: Item -> real): Stored -> real {
    (s: Stored) => f(OwnItem(s))
  }

  lemma {:induction false} SumOfOwn(f: Item -> real, entries: seq<Stored>)
    ensures SumOf(f, OwnItems(entries)) == SumOf(OwnItemOf(f), entries)
  {
    if entries != [] {
      assert Front(OwnItems(entries)) == OwnItems(Front(entries));
      SumOfOwn(f, Front(entries));
    }
  }

  /** What has a name and what has none make up the whole. */
  lemma {:induction false} NamedAndUnnamed(f: Stored -> real, entries: seq<Stored>)
    ensures SumOf(f, entries) == SumOf(f, Keep(entries, Readable)) + SumOf(f, Keep(entries, Unnamed))
  {
    if entries != [] {
      var s, rest := entries[0], entries[1..];
      NamedAndUnnamed(f, rest);
      SumOfHead(f, entries);
      SumOfHead(f, [s] + Keep(rest, Readable));
      SumOfHead(f, [s] + Keep(rest, Unnamed));
      if Readable(s) {
        assert [] + Keep(rest, Unnamed) == Keep(rest, Unnamed);
      } else {
        assert [] + Keep(rest, Readable) == Keep(rest, Readable);
      }
    }
  }

  function PullAmong(entries: seq<Stored>): real { SumOf(FeatureWeights.Pull, OwnItems(entries)) }

  function MassAmong(entries: seq<Stored>): real { SumOf(Mass, OwnItems(entries)) }

  lemma TotalsSplit(entries: seq<Stored>)
    ensures PullAmong(entries) == PullAmong(Keep(entries, Readable)) + PullAmong(Keep(entries, Unnamed))
    ensures MassAmong(entries) == MassAmong(Keep(entries, Readable)) + MassAmong(Keep(entries, Unnamed))
  {
    hide FeatureWeights.Pull, Mass;
    forall some: seq<Stored>
      ensures PullAmong(some) == SumOf(OwnItemOf(FeatureWeights.Pull), some)
        && MassAmong(some) == SumOf(OwnItemOf(Mass), some)
    {
      SumOfOwn(FeatureWeights.Pull, some);
      SumOfOwn(Mass, some);
    }
    NamedAndUnnamed(OwnItemOf(FeatureWeights.Pull), entries);
    NamedAndUnnamed(OwnItemOf(Mass), entries);
  }

  /** When a mean stays where it is as a pull `q` over a mass `u` joins the pull `p` over the mass `n`. */
  predicate MeanStays(p: real, n: real, q: real, u: real) {
    if n > 0.0 then (if n + u > 0.0 then Times(q, n) == Times(p, u) else p == 0.0) else n + u > 0.0 ==> p + q == 0.0
  }

  lemma CrossEqual(a: real, b: real, p: real, n: real, q: real, u: real)
    requires n > 0.0 && n + u > 0.0 && a * n == p && b * (n + u) == p + q
    ensures a == b <==> Times(q, n) == Times(p, u)
  {
    ProductPositive(n, n + u);
    assert a * (n * (n + u)) == (a * n) * (n + u) == p * n + p * u;
    assert b * (n * (n + u)) == (b * (n + u)) * n == p * n + q * n;
    if Times(q, n) == Times(p, u) { Cancel(a, b, n * (n + u)); }
  }

  lemma ZeroQuotient(x: real, y: real)
    requires y > 0.0
    ensures x / y == 0.0 <==> x == 0.0
  {
    assert (x / y) * y == x;
  }

  lemma MeansEqual(p: real, n: real, q: real, u: real)
    ensures PerMass(p, n) == PerMass(p + q, n + u) <==> MeanStays(p, n, q, u)
  {
    if n > 0.0 && n + u > 0.0 {
      CrossEqual(p / n, (p + q) / (n + u), p, n, q, u);
    } else if n > 0.0 {
      ZeroQuotient(p, n);
    } else if n + u > 0.0 {
      ZeroQuotient(p + q, n + u);
    }
  }

  /**
   After a replay the shares add up to the recomputed score exactly when the contributors without a name, who
   count in that score and get no share, leave the mean of the others where it is.
   */
  lemma ReplayedSharesExactly(contributors: seq<Stored>, weights: map<string, real>, blockOf: map<string, string>)
    ensures var entries := Entries(contributors, weights);
      var named, unnamed := Keep(entries, Readable), Keep(entries, Unnamed);
      SumOf(Amount, DirectionalFeatures(entries, blockOf)) == OrZero(MeanOf(OwnItems(entries)))
      <==> MeanStays(PullAmong(named), MassAmong(named), PullAmong(unnamed), MassAmong(unnamed))
  {
    var entries := Entries(contributors, weights);
    var named, unnamed := Keep(entries, Readable), Keep(entries, Unnamed);
    DirectionalSharesAddUp(entries, blockOf);
    TotalsSplit(entries);
    MeanIsPerMass(entries);
    MeanIsPerMass(named);
    hide PerMass, MeanStays, DirectionalFeatures, MeanOf, PullAmong, MassAmong;
    MeansEqual(PullAmong(named), MassAmong(named), PullAmong(unnamed), MassAmong(unnamed));
  }

  lemma MeanIsPerMass(entries: seq<Stored>)
    ensures OrZero(MeanOf(OwnItems(entries))) == PerMass(PullAmong(entries), MassAmong(entries))
  {
  }

  /** One contributor without a name takes the whole score with it. */
  lemma UnnamedHasNoShare(score: real, quality: real, blockOf: map<string, string>)
    requires score != 0.0 && quality > 0.0
    ensures var entries := Entries([Stored(None, "", Some(score), Some(quality), None)], map[]);
      SumOf(Amount, DirectionalFeatures(entries, blockOf)) == 0.0 && MeanOf(OwnItems(entries)) == Some(score)
  {
    hide MeanOf;
    var s := Stored(None, "", Some(score), Some(quality), None);
    OneEntry(s);
    UnnamedDropped(s, blockOf);
    assert OwnItems([s]) == [Item(score, quality, 1.0)];
    OneReading(Item(score, quality, 1.0));
  }

  lemma OneEntry(s: Stored)
    requires s.feature.None? && s.block == "" && Numbers(s) && s.weight.None?
    ensures Entries([s], map[]) == [s]
  {
    assert Front([s]) == [];
  }

  lemma UnnamedDropped(s: Stored, blockOf: map<string, string>)
    requires Unnamed(s)
    ensures DirectionalFeatures([s], blockOf) == []
  {
    assert [s][1..] == [] && Keep([s], Readable) == (if Readable(s) then [s] else []) + Keep([s][1..], Readable);
  }

  lemma OneItem(f: Item -> real, item: Item)
    ensures SumOf(f, [item]) == f(item)
  {
    assert [] + [item] == [item];
    SumOfAdd(f, [], item);
  }

  lemma OwnQuotient(item: Item)
    requires item.quality > 0.0 && item.weight == 1.0
    ensures Quotient(FeatureWeights.Pull(item), Mass(item)) == Some(item.score)
  {
    var x, y := FeatureWeights.Pull(item), Mass(item);
    assert y == item.quality && x == item.score * item.quality;
    Cancel(x / y, item.score, y);
  }

  lemma OneReading(item: Item)
    requires item.quality > 0.0 && item.weight == 1.0
    ensures MeanOf([item]) == Some(item.score)
  {
    hide Mass, FeatureWeights.Pull, Quotient;
    OneItem(Mass, item);
    OneItem(FeatureWeights.Pull, item);
    OwnQuotient(item);
  }

  // ----- Suitability features

  /** A feature admitted for scoring. */
  datatype Admitted = Admitted(feature: string, block: string, score: real, quality: real)

  /** What a decision recorded of a block. */
  datatype BlockRecord = BlockRecord(name: string, score: Option<real>, quality: Option<real>, weight: Option<real>,
    weightedQuality: Option<real>)

  predicate DistinctNames(blocks: seq<BlockRecord>) {
    forall i, j :: 0 <= i < j < |blocks| ==> blocks[i].name != blocks[j].name
  }

  function CoveredBy(b: BlockRecord): real { OrZero(b.weightedQuality) }

  function Coverage(blocks: seq<BlockRecord>): real { SumOf(CoveredBy, blocks) }

  /** `blocks.get(name)`'s weighted quality, 0 when there is no such block. */
  function CoveredIn(blocks: seq<BlockRecord>, name: string): real {
    if blocks == [] then 0.0
    else if Last(blocks).name == name then CoveredBy(Last(blocks))
    else CoveredIn(Front(blocks), name)
  }

  function QualityIn(block: string): Admitted -> real {
    (a: Admitted) => if a.block == block then a.quality else 0.0
  }

  function PullOf(a: Admitted): real { a.score * a.quality }

  function PullIn(block: string): Admitted -> real {
    (a: Admitted) => if a.block == block then PullOf(a) else 0.0
  }

  /** A reading's part of its block's part of the score. */
  function Share(covered: real, blockTotal: real, coverage: real, pull: real): real {
    if coverage > 0.0 && blockTotal > 0.0 then covered * (pull / blockTotal) / coverage else 0.0
  }

  function SuitedWith(a: Admitted, covered: real, blockTotal: real, coverage: real): Contribution {
    Contribution(a.feature, a.block, Suitability, a.score, a.quality, 1.0,
      Share(covered, blockTotal, coverage, PullOf(a)))
  }

  function Suited(all: seq<Admitted>, blocks: seq<BlockRecord>, a: Admitted): Contribution {
    SuitedWith(a, CoveredIn(blocks, a.block), SumOf(QualityIn(a.block), all), Coverage(blocks))
  }

  /** The shares of the first features, each over all the admitted ones. */
  function SuitedOf(all: seq<Admitted>, blocks: seq<BlockRecord>, directional: set<string>,
      some: seq<Admitted>): seq<Contribution> {
    if some == [] then []
    else
      var a := Last(some);
      SuitedOf(all, blocks, directional, Front(some)) + 
        (if a.feature in directional then [] else [Suited(all, blocks, a)])
  }

  /** `in_block`: the admitted quality of each block. */
  method QualityByBlock(admitted: seq<Admitted>) returns (inBlock: map<string, real>)
    ensures forall b :: (if b in inBlock then inBlock[b] else 0.0) == SumOf(QualityIn(b), admitted)
  {
    inBlock := map[];
    for k := 0 to |admitted|
      invariant forall b :: (if b in inBlock then inBlock[b] else 0.0) == SumOf(QualityIn(b), admitted[..k])
    {
      var a := admitted[k];
      forall b ensures SumOf(QualityIn(b), admitted[..k + 1]) == SumOf(QualityIn(b), admitted[..k]) + QualityIn(b)(a) {
        SumOfNext(QualityIn(b), admitted, k);
      }
      inBlock := inBlock[a.block := (if a.block in inBlock then inBlock[a.block] else 0.0) + a.quality];
    }
    assert admitted[..|admitted|] == admitted;
  }

  /** `_suitability_features`. */
  method SuitabilityFeatures(admitted: seq<Admitted>, blocks: seq<BlockRecord>, directional: set<string>)
      returns (out: seq<Contribution>)
    ensures out == SuitedOf(admitted, blocks, directional, admitted)
  {
    hide Share;
    var coverage := Coverage(blocks);
    var inBlock := QualityByBlock(admitted);
    out := [];
    for k := 0 to |admitted|
      invariant out == SuitedOf(admitted, blocks, directional, admitted[..k])
    {
      assert Front(admitted[..k + 1]) == admitted[..k];
      var a := admitted[k];
      if a.feature !in directional {
        var total := if a.block in inBlock then inBlock[a.block] else 0.0;
        out := out + [SuitedWith(a, CoveredIn(blocks, a.block), total, coverage)];
      }
    }
    assert admitted[..|admitted|] == admitted;
  }

  function AmountIn(block: string): Contribution -> real {
    (c: Contribution) => if c.block == block then c.contribution else 0.0
  }

  lemma ShareAdds(covered: real, total: real, coverage: real, x: real, y: real)
    ensures Share(covered, total, coverage, x) + Share(covered, total, coverage, y)
      == Share(covered, total, coverage, x + y)
    ensures Share(covered, total, coverage, 0.0) == 0.0
  {
    if coverage > 0.0 && total > 0.0 {
      assert (x + y) / total == x / total + y / total;
      assert covered * (x / total + y / total) == covered * (x / total) + covered * (y / total);
    }
  }

  /** No admitted feature of the block set the side. */
  predicate NoneDirectional(admitted: seq<Admitted>, directional: set<string>, block: string) {
    forall a :: a in admitted && a.block == block ==> a.feature !in directional
  }

  lemma SuitedAmount(all: seq<Admitted>, blocks: seq<BlockRecord>, a: Admitted, block: string)
    ensures AmountIn(block)(Suited(all, blocks, a))
      == if a.block == block
        then Share(CoveredIn(blocks, block), SumOf(QualityIn(block), all), Coverage(blocks), PullIn(block)(a))
        else 0.0
  {
    hide Share, PullOf;
  }

  /** What one feature adds to its block's shares. */
  lemma SuitedNext(all: seq<Admitted>, blocks: seq<BlockRecord>, directional: set<string>, block: string,
      front: seq<Admitted>, a: Admitted)
    requires a.block == block ==> a.feature !in directional
    ensures SumOf(AmountIn(block), SuitedOf(all, blocks, directional, front + [a]))
      == SumOf(AmountIn(block), SuitedOf(all, blocks, directional, front))
        + if a.block == block
          then Share(CoveredIn(blocks, block), SumOf(QualityIn(block), all), Coverage(blocks), PullIn(block)(a))
          else 0.0
  {
    hide Share, PullOf, Suited, AmountIn;
    assert Front(front + [a]) == front;
    SuitedAmount(all, blocks, a, block);
    SumOfAdd(AmountIn(block), SuitedOf(all, blocks, directional, front), Suited(all, blocks, a));
    assert SuitedOf(all, blocks, directional, front) + [] == SuitedOf(all, blocks, directional, front);
  }

  lemma {:induction false} SuitedSharesOf(all: seq<Admitted>, blocks: seq<BlockRecord>, directional: set<string>,
      block: string, some: seq<Admitted>)
    requires NoneDirectional(some, directional, block)
    ensures SumOf(AmountIn(block), SuitedOf(all, blocks, directional, some))
      == Share(CoveredIn(blocks, block), SumOf(QualityIn(block), all), Coverage(blocks), SumOf(PullIn(block), some))
  {
    hide Share, PullOf, AmountIn, CoveredIn;
    var covered, total, coverage := CoveredIn(blocks, block), SumOf(QualityIn(block), all), Coverage(blocks);
    if some == [] {
      ShareAdds(covered, total, coverage, 0.0, 0.0);
    } else {
      var front, a := Front(some), Last(some);
      assert some == front + [a];
      SuitedSharesOf(all, blocks, directional, block, front);
      SuitedNext(all, blocks, directional, block, front, a);
      ShareAdds(covered, total, coverage, SumOf(PullIn(block), front), PullIn(block)(a));
    }
  }

  // ----- Blocks

  /** What a block weighs in the blended score. */
  function BlockShare(b: BlockRecord, coverage: real): real {
    if coverage > 0.0 then CoveredBy(b) * OrZero(b.score) / coverage else 0.0
  }

  /** A block with numbers and some quality has a stance. */
  predicate Stands(b: BlockRecord) {
    b.score.Some? && b.quality.Some? && b.quality.value > 0.0
  }

  function MemberOf(block: string): Contribution -> bool {
    (f: Contribution) => f.block == block && f.role == Directional
  }

  function Members(features: seq<Contribution>, block: string): seq<Contribution> {
    Keep(features, MemberOf(block))
  }

  function BlockContribution(b: BlockRecord, features: seq<Contribution>, coverage: real): Contribution
    requires Stands(b)
  {
    var members := Members(features, b.name);
    Contribution(b.name, b.name, 
      if members != [] then Directional else Suitability, b.score.value, b.quality.value, OrZero(b.weight),
      if members != [] then SumOf(Amount, members) else BlockShare(b, coverage))
  }

  function BlockContributionsOf(some: seq<BlockRecord>, features: seq<Contribution>,
      coverage: real): seq<Contribution> {
    if some == [] then []
    else
      var b := Last(some);
      BlockContributionsOf(Front(some), features, coverage) + 
        (if Stands(b) then [BlockContribution(b, features, coverage)] else [])
  }

  /** `_block_contributions`, the blocks in whatever order they are held. */
  method BlockContributions(blocks: seq<BlockRecord>, features: seq<Contribution>) returns (out: seq<Contribution>)
    ensures out == BlockContributionsOf(blocks, features, Coverage(blocks))
  {
    hide BlockShare;
    var coverage := Coverage(blocks);
    out := [];
    for k := 0 to |blocks|
      invariant out == BlockContributionsOf(blocks[..k], features, coverage)
    {
      assert Front(blocks[..k + 1]) == blocks[..k];
      var b := blocks[k];
      if !Stands(b) { continue; }
      var members := Members(features, b.name);
      var role, share := Suitability, BlockShare(b, coverage);
      if members != [] {
        role, share := Directional, SumOf(Amount, members);
      }
      out := out + [Contribution(b.name, b.name, role, b.score.value, b.quality.value, OrZero(b.weight), share)];
    }
    assert blocks[..|blocks|] == blocks;
  }

  lemma {:induction false} CoveredInIs(blocks: seq<BlockRecord>, i: nat)
    requires DistinctNames(blocks) && i < |blocks|
    ensures CoveredIn(blocks, blocks[i].name) == CoveredBy(blocks[i])
  {
    if i < |blocks| - 1 { CoveredInIs(Front(blocks), i); }
  }

  /** The recorded score is the quality-weighted mean of the block's admitted features. */
  predicate IsMeanOf(b: BlockRecord, admitted: seq<Admitted>) {
    var total := SumOf(QualityIn(b.name), admitted);
    total > 0.0 && b.score == Some(SumOf(PullIn(b.name), admitted) / total)
  }

  lemma ShareOfMean(b: BlockRecord, total: real, coverage: real, pull: real)
    requires total > 0.0 && b.score == Some(pull / total)
    ensures Share(CoveredBy(b), total, coverage, pull) == BlockShare(b, coverage)
  {
  }

  /** In a block that set no side, the features' shares add up to the block's. */
  lemma FeatureSharesAddUp(admitted: seq<Admitted>, blocks: seq<BlockRecord>, directional: set<string>, i: nat)
    requires DistinctNames(blocks) && i < |blocks| && IsMeanOf(blocks[i], admitted)
      && NoneDirectional(admitted, directional, blocks[i].name)
    ensures SumOf(AmountIn(blocks[i].name), SuitedOf(admitted, blocks, directional, admitted))
      == BlockShare(blocks[i], Coverage(blocks))
  {
    hide Share, BlockShare, AmountIn;
    var b := blocks[i];
    SuitedSharesOf(admitted, blocks, directional, b.name, admitted);
    CoveredInIs(blocks, i);
    ShareOfMean(b, SumOf(QualityIn(b.name), admitted), Coverage(blocks), SumOf(PullIn(b.name), admitted));
  }

  /** What the producer records of an evaluated block. */
  function RecordOf(d: BlockEvaluation.Detail): BlockRecord {
    BlockRecord(d.block, Some(d.score), Some(d.quality), Some(d.weight), Some(BlockEvaluation.WeightedQuality(d)))
  }

  function RecordsOf(details: seq<BlockEvaluation.Detail>): (blocks: seq<BlockRecord>)
    ensures |blocks| == |details| && forall i :: 0 <= i < |blocks| ==> blocks[i] == RecordOf(details[i])
  {
    seq(|details|, i requires 0 <= i < |details| => RecordOf(details[i]))
  }

  lemma RecordShare(d: BlockEvaluation.Detail, coverage: real)
    requires d.quality >= 0.0
    ensures BlockShare(RecordOf(d), coverage) == PerMass(BlockEvaluation.Contribution(d), coverage)
    ensures !Stands(RecordOf(d)) ==> BlockEvaluation.Contribution(d) == 0.0
  {
  }

  lemma NextBlock(front: seq<BlockRecord>, b: BlockRecord, coverage: real)
    ensures SumOf(Amount, BlockContributionsOf(front + [b], [], coverage))
      == SumOf(Amount, BlockContributionsOf(front, [], coverage)) + if Stands(b) then BlockShare(b, coverage) else 0.0
  {
    hide BlockShare, Stands;
    assert Front(front + [b]) == front;
    if Stands(b) {
      SumOfAdd(Amount, BlockContributionsOf(front, [], coverage), BlockContribution(b, [], coverage));
    } else {
      assert BlockContributionsOf(front, [], coverage) + [] == BlockContributionsOf(front, [], coverage);
    }
  }

  lemma {:induction false} SharesOfRecords(details: seq<BlockEvaluation.Detail>, coverage: real)
    requires forall d :: d in details ==> d.quality >= 0.0
    ensures SumOf(Amount, BlockContributionsOf(RecordsOf(details), [], coverage))
      == PerMass(SumOf(BlockEvaluation.Contribution, details), coverage)
  {
    hide BlockShare, PerMass, Stands;
    if details == [] {
      PerMassAdds(0.0, 0.0, coverage);
    } else {
      var front, d := Front(details), Last(details);
      assert RecordsOf(details) == RecordsOf(front) + [RecordOf(d)];
      SharesOfRecords(front, coverage);
      NextBlock(RecordsOf(front), RecordOf(d), coverage);
      RecordShare(d, coverage);
      PerMassAdds(SumOf(BlockEvaluation.Contribution, front), BlockEvaluation.Contribution(d), coverage);
    }
  }

  lemma {:induction false} CoverageOfRecords(details: seq<BlockEvaluation.Detail>)
    ensures Coverage(RecordsOf(details)) == BlockEvaluation.Coverage(details)
  {
    if details != [] {
      assert Front(RecordsOf(details)) == RecordsOf(Front(details));
      CoverageOfRecords(Front(details));
    }
  }

  /** With no directional feature at all, the blocks' shares add up to the score they were blended into. */
  lemma BlockSharesAddUp(details: seq<BlockEvaluation.Detail>)
    requires forall d :: d in details ==> d.quality >= 0.0
    ensures SumOf(Amount, BlockContributionsOf(RecordsOf(details), [], Coverage(RecordsOf(details))))
      == BlockEvaluation.Blend(details)
  {
    SharesOfRecords(details, BlockEvaluation.Coverage(details));
    CoverageOfRecords(details);
  }

  lemma NextMember(front: seq<Contribution>, f: Contribution, block: string)
    requires f.role == Directional
    ensures SumOf(Amount, Members(front + [f], block)) == SumOf(Amount, Members(front, block)) + AmountIn(block)(f)
  {
    KeepJoins(front, [f], MemberOf(block));
    SumOfConcat(Amount, Members(front, block), Members([f], block));
    OneMember(f, block);
  }

  lemma OneMember(f: Contribution, block: string)
    requires f.role == Directional
    ensures SumOf(Amount, Members([f], block)) == AmountIn(block)(f)
  {
    assert [f][1..] == [] && Front([f]) == [];
    assert MemberOf(block)(f) <==> f.block == block;
    assert Keep([f], MemberOf(block)) == (if MemberOf(block)(f) then [f] else []) + Keep([], MemberOf(block));
  }

  /** A block's directional pull is what its own features moved the directional score by. */
  lemma {:induction false} MembersPull(features: seq<Contribution>, block: string)
    requires forall f :: f in features ==> f.role == Directional
    ensures SumOf(Amount, Members(features, block)) == SumOf(AmountIn(block), features)
    decreases |features|, 1
  {
    if features == [] {
      assert Members(features, block) == [];
    } else {
      assert features == Front(features) + [Last(features)];
      MembersOfJoined(Front(features), Last(features), block);
    }
  }

  lemma {:induction false} MembersOfJoined(front: seq<Contribution>, f: Contribution, block: string)
    requires f.role == Directional && forall g :: g in front ==> g.role == Directional
    ensures SumOf(Amount, Members(front + [f], block)) == SumOf(AmountIn(block), front + [f])
    decreases |front| + 1, 0
  {
    hide Members, AmountIn;
    MembersPull(front, block);
    NextMember(front, f, block);
    SumOfAdd(AmountIn(block), front, f);
  }

  // ----- Which features get a share, and of what

  /** A part of the coverage: the block's own, split over what was admitted in the block. */
  predicate PartIs(c: real, a: Admitted, covered: real, blockTotal: real, coverage: real) {
    if coverage > 0.0 && blockTotal > 0.0 then (c * coverage) * blockTotal == covered * (a.score * a.quality)
      else c == 0.0
  }

  lemma ShareIsPart(a: Admitted, covered: real, blockTotal: real, coverage: real)
    ensures PartIs(Share(covered, blockTotal, coverage, PullOf(a)), a, covered, blockTotal, coverage)
  {
    if coverage > 0.0 && blockTotal > 0.0 {
      var q := PullOf(a) / blockTotal;
      assert q * blockTotal == PullOf(a);
      Divided(covered * q, coverage);
      Grouped(covered, q, blockTotal);
    }
  }

  lemma Divided(x: real, y: real)
    requires y != 0.0
    ensures (x / y) * y == x
  {
  }

  lemma Grouped(x: real, y: real, z: real)
    ensures (x * y) * z == x * (y * z)
  {
  }

  /** The share of an admitted feature: its own reading, in its block, with its part. */
  predicate SuitsAs(c: Contribution, a: Admitted, all: seq<Admitted>, blocks: seq<BlockRecord>) {
    && c.key == a.feature && c.block == a.block && c.role == Suitability
    && c.score == a.score && c.quality == a.quality && c.weight == 1.0
    && PartIs(c.contribution, a, CoveredIn(blocks, a.block), SumOf(QualityIn(a.block), all), Coverage(blocks))
  }

  lemma SuitedSuits(all: seq<Admitted>, blocks: seq<BlockRecord>, a: Admitted)
    ensures SuitsAs(Suited(all, blocks, a), a, all, blocks)
  {
    hide Share, PartIs, QualityIn;
    ShareIsPart(a, CoveredIn(blocks, a.block), SumOf(QualityIn(a.block), all), Coverage(blocks));
  }

  function SetNoSide(directional: set<string>): Admitted -> bool {
    (a: Admitted) => a.feature !in directional
  }

  /** Exactly the admitted features that set no side get a share of suitability, each once and in order. */
  lemma {:induction false} SuitedExactly(all: seq<Admitted>, blocks: seq<BlockRecord>, directional: set<string>,
      some: seq<Admitted>)
    ensures var kept, suited := Keep(some, SetNoSide(directional)), SuitedOf(all, blocks, directional, some);
      |suited| == |kept| && forall i :: 0 <= i < |suited| ==> SuitsAs(suited[i], kept[i], all, blocks)
    ensures forall c :: c in SuitedOf(all, blocks, directional, some) ==> c.key !in directional
  {
    if some != [] {
      hide SuitsAs;
      var front, a := Front(some), Last(some);
      assert some == front + [a];
      SuitedExactly(all, blocks, directional, front);
      KeepJoins(front, [a], SetNoSide(directional));
      KeepLast(a, directional);
      SuitedSuits(all, blocks, a);
      assert Suited(all, blocks, a).key == a.feature;
    }
  }

  lemma KeepLast(a: Admitted, directional: set<string>)
    ensures Keep([a], SetNoSide(directional)) == if a.feature in directional then [] else [a]
  {
    assert [a][1..] == [];
  }

  /** The block a feature was admitted for, the last time it was; "unknown" if it never was. */
  ghost predicate AdmittedIn(admitted: seq<Admitted>, feature: string, block: string) {
    if exists i :: 0 <= i < |admitted| && admitted[i].feature == feature then
      exists i :: 0 <= i < |admitted| && LastFor(admitted, feature, i) && admitted[i].block == block
    else block == "unknown"
  }

  predicate LastFor(admitted: seq<Admitted>, feature: string, i: nat)
    requires i < |admitted|
  {
    admitted[i].feature == feature && forall j :: i < j < |admitted| ==> admitted[j].feature != feature
  }

  lemma AdmittedLast(front: seq<Admitted>, a: Admitted)
    ensures AdmittedIn(front + [a], a.feature, a.block)
  {
    var all := front + [a];
    assert all[|front|] == a && LastFor(all, a.feature, |front|);
  }

  lemma AdmittedBefore(front: seq<Admitted>, a: Admitted, feature: string, block: string)
    requires AdmittedIn(front, feature, block) && a.feature != feature
    ensures AdmittedIn(front + [a], feature, block)
  {
    var all := front + [a];
    assert forall i :: 0 <= i < |front| ==> all[i] == front[i];
    if exists i :: 0 <= i < |front| && front[i].feature == feature {
      var i :| 0 <= i < |front| && LastFor(front, feature, i) && front[i].block == block;
      assert LastFor(all, feature, i) && all[i].block == block && all[i].feature == feature;
    }
  }

  lemma {:induction false} BlockMapIs(admitted: seq<Admitted>, feature: string)
    ensures AdmittedIn(admitted, feature, BlockOf(BlockMap(admitted), feature))
  {
    if admitted != [] {
      hide AdmittedIn;
      var front, a := Front(admitted), Last(admitted);
      assert admitted == front + [a];
      BlockMapIs(front, feature);
      if a.feature == feature {
        AdmittedLast(front, a);
      } else {
        AdmittedBefore(front, a, feature, BlockOf(BlockMap(front), feature));
      }
    }
  }

  /**
   A directional share: the contributor's own reading, in the block it was admitted for, with its part of the
   mean.
   */
  ghost predicate DirectsAs(c: Contribution, s: Stored, admitted: seq<Admitted>, total: real) {
    && Readable(s) && Some(c.key) == s.feature && c.role == Directional && AdmittedIn(admitted, c.key, c.block)
    && c.score == s.score.value && c.quality == s.quality.value
    && c.weight == (if s.weight.Some? then s.weight.value else 1.0)
    && if total > 0.0 then c.contribution * total == c.score * c.quality * c.weight else c.contribution == 0.0
  }

  lemma DirectedDirects(s: Stored, admitted: seq<Admitted>, total: real)
    requires Readable(s)
    ensures DirectsAs(Directed(s, total, BlockMap(admitted)), s, admitted, total)
  {
    BlockMapIs(admitted, Name(s));
    hide AdmittedIn, BlockMap, BlockOf;
    if total > 0.0 { Divided(FeatureWeights.Pull(OwnItem(s)), total); }
  }

  /** Exactly the readable contributors get a directional share, each once and in order. */
  lemma DirectedExactly(contributors: seq<Stored>, admitted: seq<Admitted>)
    ensures var kept, directed := Keep(contributors, Readable), DirectionalFeatures(contributors, BlockMap(admitted));
      |directed| == |kept| && forall i :: 0 <= i < |directed| ==>
        DirectsAs(directed[i], kept[i], admitted, SumOf(Mass, OwnItems(kept)))
  {
    hide DirectsAs;
    var kept := Keep(contributors, Readable);
    forall i | 0 <= i < |kept|
      ensures DirectsAs(DirectionalFeatures(contributors, BlockMap(admitted))[i], kept[i], admitted,
        SumOf(Mass, OwnItems(kept)))
    {
      assert kept[i] in kept;
      DirectedDirects(kept[i], admitted, SumOf(Mass, OwnItems(kept)));
    }
  }

  // ----- What the directional blocks add up to

  function DirectionalAmount(c: Contribution): real { if c.role == Directional then c.contribution else 0.0 }

  /** A block of that name has a stance. */
  predicate StandsIn(blocks: seq<BlockRecord>, name: string) {
    exists i :: 0 <= i < |blocks| && blocks[i].name == name && Stands(blocks[i])
  }

  /** What a feature moves, when its block has a stance. */
  function AmountWithin(blocks: seq<BlockRecord>): Contribution -> real {
    (c: Contribution) => if StandsIn(blocks, c.block) then c.contribution else 0.0
  }

  lemma StandsInNext(front: seq<BlockRecord>, b: BlockRecord, name: string)
    requires DistinctNames(front + [b])
    ensures StandsIn(front + [b], name) <==> StandsIn(front, name) || (b.name == name && Stands(b))
    ensures StandsIn(front, name) ==> name != b.name
  {
    var blocks := front + [b];
    assert blocks[|front|] == b;
    assert forall i :: 0 <= i < |front| ==> blocks[i] == front[i];
    if StandsIn(front, name) {
      var i :| 0 <= i < |front| && front[i].name == name && Stands(front[i]);
      assert blocks[i].name == name && blocks[i].name != blocks[|front|].name;
    }
  }

  lemma WithinNext(front: seq<BlockRecord>, b: BlockRecord, features: seq<Contribution>)
    requires DistinctNames(front + [b])
    ensures SumOf(AmountWithin(front + [b]), features)
      == SumOf(AmountWithin(front), features) + if Stands(b) then SumOf(AmountIn(b.name), features) else 0.0
  {
    hide Stands;
    forall f | f in features
      ensures AmountWithin(front + [b])(f) == AmountWithin(front)(f) + if Stands(b) then AmountIn(b.name)(f) else 0.0
    {
      hide StandsIn;
      StandsInNext(front, b, f.block);
    }
    if Stands(b) {
      SumOfBoth(AmountWithin(front), AmountIn(b.name), AmountWithin(front + [b]), features);
    } else {
      SumOfSame(AmountWithin(front), AmountWithin(front + [b]), features);
    }
  }

  lemma DirectionalPart(b: BlockRecord, features: seq<Contribution>, coverage: real)
    requires Stands(b) && forall f :: f in features ==> f.role == Directional
    ensures DirectionalAmount(BlockContribution(b, features, coverage)) == SumOf(AmountIn(b.name), features)
  {
    MembersPull(features, b.name);
    hide AmountIn, Members, BlockShare;
  }

  /** The directional blocks' pulls add up to what the directional features in blocks with a stance move. */
  lemma {:induction false} DirectionalPartsAddUp(blocks: seq<BlockRecord>, features: seq<Contribution>, coverage: real)
    requires DistinctNames(blocks) && forall f :: f in features ==> f.role == Directional
    ensures SumOf(DirectionalAmount, BlockContributionsOf(blocks, features, coverage))
      == SumOf(AmountWithin(blocks), features)
  {
    if blocks == [] {
      NoneWithin(features);
    } else {
      hide AmountIn, AmountWithin, Stands, DirectionalAmount;
      var front, b := Front(blocks), Last(blocks);
      assert blocks == front + [b];
      DirectionalPartsAddUp(front, features, coverage);
      WithinNext(front, b, features);
      if Stands(b) {
        DirectionalPart(b, features, coverage);
        SumOfAdd(DirectionalAmount, BlockContributionsOf(front, features, coverage),
          BlockContribution(b, features, coverage));
      } else {
        assert BlockContributionsOf(front, features, coverage) + [] == BlockContributionsOf(front, features, coverage);
      }
    }
  }

  lemma NoneWithin(features: seq<Contribution>)
    ensures SumOf(AmountWithin([]), features) == 0.0
  {
    SumOfConstant(AmountWithin([]), 0.0, features);
  }

  /** Every feature that set the side belongs to a block with a stance. */
  predicate AllStand(blocks: seq<BlockRecord>, features: seq<Contribution>) {
    forall f :: f in features ==> StandsIn(blocks, f.block)
  }

  lemma AllWithin(blocks: seq<BlockRecord>, features: seq<Contribution>)
    requires AllStand(blocks, features)
    ensures SumOf(AmountWithin(blocks), features) == SumOf(Amount, features)
  {
    SumOfSame(AmountWithin(blocks), Amount, features);
  }

  // ----- The whole decision

  function Admit(s: Stored): Admitted
    requires Readable(s)
  {
    Admitted(Name(s), if s.block == "" then "unknown" else s.block, s.score.value, s.quality.value)
  }

  /** The features admitted for scoring that have a name and numbers. */
  function AdmittedOf(features: seq<Stored>): seq<Admitted> {
    if features == [] then []
    else AdmittedOf(Front(features)) + (if Readable(Last(features)) then [Admit(Last(features))] else [])
  }

  /** An admitted feature: its own reading, in the block it names, or in "unknown" when it names none. */
  predicate AdmitsAs(a: Admitted, f: Stored) {
    && Readable(f) && f.feature == Some(a.feature) && f.score == Some(a.score) && f.quality == Some(a.quality)
    && (f.block != "" ==> a.block == f.block) && (f.block == "" ==> a.block == "unknown")
  }

  /** Exactly the readable features are admitted, each once and in order. */
  lemma {:induction false} AdmittedExactly(features: seq<Stored>)
    ensures var kept, admitted := Keep(features, Readable), AdmittedOf(features);
      |admitted| == |kept| && forall i :: 0 <= i < |admitted| ==> AdmitsAs(admitted[i], kept[i])
  {
    if features != [] {
      var front, last := Front(features), Last(features);
      assert features == front + [last];
      AdmittedExactly(front);
      KeepJoins(front, [last], Readable);
      KeepReadable(last);
    }
  }

  lemma KeepReadable(f: Stored)
    ensures Keep([f], Readable) == if Readable(f) then [f] else []
  {
    assert [f][1..] == [];
  }

  function BlockMap(admitted: seq<Admitted>): map<string, string> {
    if admitted == [] then map[] else BlockMap(Front(admitted))[Last(admitted).feature := Last(admitted).block]
  }

  function Names(features: seq<Contribution>): set<string> {
    set f | f in features :: f.key
  }

  method AdmitFeatures(features: seq<Stored>) returns (admitted: seq<Admitted>, blockOf: map<string, string>)
    ensures admitted == AdmittedOf(features) && blockOf == BlockMap(admitted)
  {
    admitted, blockOf := [], map[];
    for k := 0 to |features|
      invariant admitted == AdmittedOf(features[..k]) && blockOf == BlockMap(admitted)
    {
      assert Front(features[..k + 1]) == features[..k];
      if Readable(features[k]) {
        var a := Admit(features[k]);
        assert Front(admitted + [a]) == admitted;
        admitted, blockOf := admitted + [a], blockOf[a.feature := a.block];
      }
    }
    assert features[..|features|] == features;
  }

  /** What a decision's directional score is recomputed from. */
  function Decided(contributors: seq<Stored>): real {
    OrZero(MeanOf(OwnItems(Keep(contributors, Readable))))
  }

  /** Recorded block by block from an evaluation. */
  predicate Evaluated(blocks: seq<BlockRecord>, details: seq<BlockEvaluation.Detail>) {
    blocks == RecordsOf(details) && forall d :: d in details ==> d.quality >= 0.0
  }

  /** The features' shares add up to their block's, in a block that set no side. */
  predicate BlocksSplit(admitted: seq<Admitted>, blocks: seq<BlockRecord>, directional: seq<Contribution>,
      suitability: seq<Contribution>) {
    forall i ::
      0 <= i < |blocks| && IsMeanOf(blocks[i], admitted)
        && NoneDirectional(admitted, Names(directional), blocks[i].name)
      ==> SumOf(AmountIn(blocks[i].name), suitability) == BlockShare(blocks[i], Coverage(blocks))
  }

  /**
   The parts of a decision add back up to what was decided: the directional features to the directional score,
   and so the directional blocks when each of those features is in a block with a stance; the blocks of an
   evaluation to its blend, when nothing set a side; and the other features to their blocks.
   */
  ghost predicate Conserved(contributors: seq<Stored>, admitted: seq<Admitted>, blocks: seq<BlockRecord>,
      directional: seq<Contribution>,
      suitability: seq<Contribution>, parts: seq<Contribution>)
  {
    && SumOf(Amount, directional) == Decided(contributors)
    && SumOf(DirectionalAmount, parts) == SumOf(AmountWithin(blocks), directional)
    && (AllStand(blocks, directional) ==> SumOf(DirectionalAmount, parts) == Decided(contributors))
    && (directional == [] ==>
      forall details :: Evaluated(blocks, details) ==> SumOf(Amount, parts) == BlockEvaluation.Blend(details))
    && BlocksSplit(admitted, blocks, directional, suitability)
  }

  lemma PartsConserved(contributors: seq<Stored>, blockOf: map<string, string>, admitted: seq<Admitted>,
      blocks: seq<BlockRecord>)
    requires DistinctNames(blocks)
    ensures var directional := DirectionalFeatures(contributors, blockOf);
      Conserved(contributors, admitted, blocks, directional, SuitedOf(admitted, blocks, Names(directional), admitted),
        BlockContributionsOf(blocks, directional, Coverage(blocks)))
  {
    var directional := DirectionalFeatures(contributors, blockOf);
    DirectionalSharesAddUp(contributors, blockOf);
    assert forall f :: f in directional ==> f.role == Directional;
    hide BlockShare, AmountIn, AmountWithin, IsMeanOf, NoneDirectional, SuitedOf, DirectionalFeatures,
      BlockContributionsOf, MeanOf, StandsIn;
    DirectionalPartsAddUp(blocks, directional, Coverage(blocks));
    if AllStand(blocks, directional) { AllWithin(blocks, directional); }
    forall details | directional == [] && Evaluated(blocks, details)
      ensures SumOf(Amount, BlockContributionsOf(blocks, directional, Coverage(blocks)))
        == BlockEvaluation.Blend(details)
    {
      BlockSharesAddUp(details);
    }
    forall i | 0 <= i < |blocks| && IsMeanOf(blocks[i], admitted)
      && NoneDirectional(admitted, Names(directional), blocks[i].name)
      ensures SumOf(AmountIn(blocks[i].name), SuitedOf(admitted, blocks, Names(directional), admitted))
        == BlockShare(blocks[i], Coverage(blocks))
    {
      FeatureSharesAddUp(admitted, blocks, Names(directional), i);
    }
  }

  /** `contributions_from_decision`, the features and blocks in the order they are held. */
  method ContributionsFromDecision(contributors: seq<Stored>, features: seq<Stored>, blocks: seq<BlockRecord>)
    returns (directional: seq<Contribution>, suitability: seq<Contribution>, parts: seq<Contribution>)
    requires DistinctNames(blocks)
    ensures directional == DirectionalFeatures(contributors, BlockMap(AdmittedOf(features)))
    ensures suitability == SuitedOf(AdmittedOf(features), blocks, Names(directional), AdmittedOf(features))
    ensures parts == BlockContributionsOf(blocks, directional, Coverage(blocks))
    ensures Conserved(contributors, AdmittedOf(features), blocks, directional, suitability, parts)
  {
    hide Conserved;
    var admitted, blockOf := AdmitFeatures(features);
    directional := DirectionalFeatures(contributors, blockOf);
    suitability := SuitabilityFeatures(admitted, blocks, Names(directional));
    parts := BlockContributions(blocks, directional);
    PartsConserved(contributors, blockOf, admitted, blocks);
  }
}
