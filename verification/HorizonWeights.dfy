/** What a feature's states earn out of sample, and the lean that adds up to. */
module HorizonWeights {
  import opened Common
  import opened Reals
  import opened Sums
  import opened HorizonWindows
  import opened Sorting

  const EDGE: real := 0.05
  const MIN_LEARNED_WINDOWS: nat := 8
  const MIN_TEST_WINDOWS: nat := 12
  const SHRINK: nat := 30

  /** A feature's state on each day, and the return over the window that starts there. */
  datatype History = History(states: seq<Option<string>>, forward: seq<Option<real>>)

  /** The source indexes both lists by day. */
  predicate Valid(h: History) { |h.states| <= |h.forward| }

  predicate Usable(h: History, t: int)
    requires Valid(h)
  {
    0 <= t < |h.states| && h.states[t].Some? && h.forward[t].Some?
  }

  function Rises(h: History): int -> real {
    (t: int) => if 0 <= t < |h.forward| && h.forward[t].Some? && h.forward[t].value > 0.0 then 1.0 else 0.0
  }

  predicate InState(h: History, state: string, t: int) {
    0 <= t < |h.states| && h.states[t] == Some(state)
  }

  /** The days among these that start in a state, in order. */
  function DaysIn(h: History, state: string, days: seq<int>): (r: seq<int>)
    ensures forall t :: t in r <==> t in days && InState(h, state, t)
  {
    if days == [] then []
    else
      assert days == Front(days) + [Last(days)];
      DaysIn(h, state, Front(days)) + (if InState(h, state, Last(days)) then [Last(days)] else [])
  }

  function ShareUp(h: History, days: seq<int>): real
    requires days != []
  {
    SumOf(Rises(h), days) / |days| as real
  }

  /** +1 or -1 for a state whose windows rose more or less often than the base by the edge; 0 when thin or near it. */
  function LeanOf(h: History, days: seq<int>, steps: int, base: real, state: string): int {
    var own := DaysIn(h, state, days);
    if own == [] || Fitting(own, steps) < MIN_LEARNED_WINDOWS then 0
    else
      var share := ShareUp(h, own);
      if share - base >= EDGE then 1 else if share - base <= -EDGE then -1 else 0
  }

  /** The leans name exactly the states that lean, each with its direction. */
  ghost predicate LeansAre(leans: map<string, int>, h: History, days: seq<int>, steps: int, base: real) {
    forall state :: (state in leans <==> LeanOf(h, days, steps, base, state) != 0)
      && (state in leans ==> leans[state] == LeanOf(h, days, steps, base, state))
  }

  predicate AllUsable(h: History, days: seq<int>)
    requires Valid(h)
  {
    forall t :: t in days ==> Usable(h, t)
  }

  /** The grouping of the first `k` days by state: the states in the order met, each with its days. */
  ghost predicate Grouped(h: History, days: seq<int>, k: nat, order: seq<string>, byState: map<string, seq<int>>)
    requires k <= |days|
  {
    && (forall state :: state in byState <==> state in order)
    && (forall state :: state in order ==> byState[state] == DaysIn(h, state, days[..k]))
    && (forall state :: state !in order ==> DaysIn(h, state, days[..k]) == [])
  }

  lemma DaysInNext(h: History, state: string, days: seq<int>, k: nat)
    requires k < |days|
    ensures DaysIn(h, state, days[..k + 1])
      == if InState(h, state, days[k]) then DaysIn(h, state, days[..k]) + [days[k]] else DaysIn(h, state, days[..k])
  {
    assert Front(days[..k + 1]) == days[..k];
  }

  /** `by_state[state].append(t)`. */
  method FileDay(order: seq<string>, byState: map<string, seq<int>>, state: string, t: int)
    returns (nextOrder: seq<string>, next: map<string, seq<int>>)
    requires state in byState <==> state in order
    ensures forall s :: s in nextOrder <==> s in order || s == state
    ensures forall s :: s in next <==> s in byState || s == state
    ensures next[state] == (if state in byState then byState[state] else []) + [t]
    ensures forall s :: s in byState && s != state ==> next[s] == byState[s]
  {
    nextOrder, next := order, byState;
    if state !in next {
      nextOrder := nextOrder + [state];
      next := next[state := []];
    }
    next := next[state := next[state] + [t]];
  }

  lemma GroupedNext(h: History, days: seq<int>, k: nat, order: seq<string>, byState: map<string, seq<int>>,
      nextOrder: seq<string>, next: map<string, seq<int>>, state: string)
    requires k < |days| && Grouped(h, days, k, order, byState) && forall s :: InState(h, s, days[k]) <==> s == state
    requires forall s :: s in nextOrder <==> s in order || s == state
    requires forall s :: s in next <==> s in byState || s == state
    requires next[state] == (if state in byState then byState[state] else []) + [days[k]]
    requires forall s :: s in byState && s != state ==> next[s] == byState[s]
    ensures Grouped(h, days, k + 1, nextOrder, next)
  {
    forall s ensures DaysIn(h, s, days[..k + 1]) == DaysIn(h, s, days[..k]) + (if s == state then [days[k]] else []) {
      DaysInNext(h, s, days, k);
    }
  }

  method GroupByState(h: History, days: seq<int>) returns (order: seq<string>, byState: map<string, seq<int>>)
    requires Valid(h) && AllUsable(h, days)
    ensures Grouped(h, days, |days|, order, byState)
  {
    order, byState := [], map[];
    for k := 0 to |days|
      invariant Grouped(h, days, k, order, byState)
    {
      assert Usable(h, days[k]);
      var state := h.states[days[k]].value;
      var nextOrder, next := FileDay(order, byState, state, days[k]);
      GroupedNext(h, days, k, order, byState, nextOrder, next, state);
      order, byState := nextOrder, next;
    }
  }

  method LeanFrom(h: History, own: seq<int>, steps: int, base: real) returns (lean: int)
    requires own != []
    ensures lean == if Fitting(own, steps) < MIN_LEARNED_WINDOWS then 0
      else if ShareUp(h, own) - base >= EDGE then 1 else if ShareUp(h, own) - base <= -EDGE then -1 else 0
  {
    var fitting := IndependentWindows(own, steps);
    if fitting < MIN_LEARNED_WINDOWS { return 0; }
    var share := ShareUp(h, own);
    if share - base >= EDGE { return 1; }
    if share - base <= -EDGE { return -1; }
    return 0;
  }

  /** `state_leans`. */
  method StateLeans(h: History, days: seq<int>, steps: int, base: real) returns (leans: map<string, int>)
    requires Valid(h) && AllUsable(h, days)
    ensures LeansAre(leans, h, days, steps, base)
  {
    var order, byState := GroupByState(h, days);
    assert days[..|days|] == days;
    leans := map[];
    for i := 0 to |order|
      invariant forall state :: state in leans <==> state in order[..i] && LeanOf(h, days, steps, base, state) != 0
      invariant forall state :: state in leans ==> leans[state] == LeanOf(h, days, steps, base, state)
    {
      assert order[i] in order;
      var lean := 0;
      if byState[order[i]] != [] {
        lean := LeanFrom(h, byState[order[i]], steps, base);
      }
      if lean != 0 {
        leans := leans[order[i] := lean];
      }
      assert order[..i + 1] == order[..i] + [order[i]];
    }
  }

  /** What a state leaned is settled by the learning days alone: other days may say anything. */
  lemma LeansIgnoreOtherDays(h: History, other: History, days: seq<int>, steps: int, base: real, state: string)
    requires forall t :: t in days ==>
      InState(h, state, t) == InState(other, state, t) && Rises(h)(t) == Rises(other)(t)
    ensures LeanOf(h, days, steps, base, state) == LeanOf(other, days, steps, base, state)
  {
    SameDays(h, other, state, days);
    SumOfSame(Rises(h), Rises(other), DaysIn(h, state, days));
  }

  lemma {:induction false} SameDays(h: History, other: History, state: string, days: seq<int>)
    requires forall t :: t in days ==> InState(h, state, t) == InState(other, state, t)
    ensures DaysIn(h, state, days) == DaysIn(other, state, days)
  {
    if days != [] { SameDays(h, other, state, Front(days)); }
  }

  // ----- Learning days and test days

  lemma AscendsWith(xs: seq<int>, x: int)
    requires Ascending(xs) && forall y :: y in xs ==> y <= x
    ensures Ascending(xs + [x])
  {
    forall i | 0 <= i < |xs| ensures xs[i] <= x {
      assert xs[i] in xs;
    }
  }

  function UsableBefore(h: History, k: nat): (days: seq<int>)
    requires Valid(h) && k <= |h.states|
    ensures forall t :: t in days <==> Usable(h, t) && t < k
    ensures Ascending(days)
  {
    if k == 0 then []
    else if Usable(h, k - 1) then
      AscendsWith(UsableBefore(h, k - 1), k - 1);
      UsableBefore(h, k - 1) + [k - 1]
    else UsableBefore(h, k - 1)
  }

  /** `[t for t in range(len(states)) if ...]`. */
  function UsableDays(h: History): seq<int>
    requires Valid(h)
  {
    UsableBefore(h, |h.states|)
  }

  /** The first day of the test. */
  function CutDay(days: seq<int>, split: real): (cut: int)
    requires days != [] && 0.0 <= split < 1.0
    ensures cut in days
  {
    CutInRange(|days|, split);
    days[(|days| as real * split).Floor]
  }

  lemma CutInRange(n: nat, split: real)
    requires n > 0 && 0.0 <= split < 1.0
    ensures 0 <= (n as real * split).Floor < n
  {
    assert n as real * (1.0 - split) > 0.0;
    assert n as real * split >= 0.0;
  }

  function Learned(days: seq<int>, steps: int, cut: int): seq<int> {
    Keep(days, t => t + steps <= cut)
  }

  function Tested(days: seq<int>, cut: int): seq<int> {
    Keep(days, t => t >= cut)
  }

  predicate Leaning(h: History, leans: map<string, int>, t: int) {
    0 <= t < |h.states| && h.states[t].Some? && h.states[t].value in leans
  }

  /** The test days that start in a leaning state. */
  function LeaningDays(h: History, leans: map<string, int>, test: seq<int>): seq<int> {
    Keep(test, t => Leaning(h, leans, t))
  }

  /** The test windows scored: from each leaning day that is free, none overlapping. */
  function Scored(h: History, leans: map<string, int>, test: seq<int>, steps: int): seq<int> {
    Picked(LeaningDays(h, leans, test), steps, None)
  }

  lemma FreeFromStart(days: seq<int>, steps: int)
    requires forall t :: t in days ==> t >= 0
    ensures Picked(days, steps, Some(-1)) == Picked(days, steps, None)
    decreases days
  {
    if days != [] { assert days[0] in days; }
  }

  lemma PickedFirst(x: int, rest: seq<int>, steps: int, nextFree: int)
    ensures Picked([x] + rest, steps, Some(nextFree))
      == if x >= nextFree then [x] + Picked(rest, steps, Some(x + steps)) else Picked(rest, steps, Some(nextFree))
  {
    assert ([x] + rest)[1..] == rest;
  }

  function Remaining(h: History, leans: map<string, int>, test: seq<int>, k: nat, steps: int, nextFree: int): seq<int>
    requires k <= |test|
  {
    Picked(LeaningDays(h, leans, test[k..]), steps, Some(nextFree))
  }

  /** What is left to pick once day `k` has been looked at. */
  lemma NextTestDay(h: History, leans: map<string, int>, test: seq<int>, k: nat, steps: int, nextFree: int)
    requires k < |test|
    ensures Remaining(h, leans, test, k, steps, nextFree)
      == if test[k] >= nextFree && Leaning(h, leans, test[k])
         then [test[k]] + Remaining(h, leans, test, k + 1, steps, test[k] + steps)
         else Remaining(h, leans, test, k + 1, steps, nextFree)
  {
    assert test[k..][1..] == test[k + 1..];
    var rest := LeaningDays(h, leans, test[k + 1..]);
    if Leaning(h, leans, test[k]) {
      PickedFirst(test[k], rest, steps, nextFree);
    } else {
      assert [] + rest == rest;
    }
  }

  method PickTest(h: History, leans: map<string, int>, test: seq<int>, steps: int) returns (picked: seq<int>)
    requires forall t :: t in test ==> t >= 0
    ensures picked == Scored(h, leans, test, steps)
  {
    hide Remaining, Scored;
    AllRemaining(h, leans, test, steps);
    picked := [];
    var nextFree := -1;
    for k := 0 to |test|
      invariant picked + Remaining(h, leans, test, k, steps, nextFree) == Scored(h, leans, test, steps)
    {
      NextTestDay(h, leans, test, k, steps, nextFree);
      if test[k] >= nextFree && Leaning(h, leans, test[k]) {
        Regroup(picked, test[k], Remaining(h, leans, test, k + 1, steps, test[k] + steps));
        picked := picked + [test[k]];
        nextFree := test[k] + steps;
      }
    }
    NothingLeft(h, leans, test, steps, nextFree);
  }

  lemma AllRemaining(h: History, leans: map<string, int>, test: seq<int>, steps: int)
    requires forall t :: t in test ==> t >= 0
    ensures [] + Remaining(h, leans, test, 0, steps, -1) == Scored(h, leans, test, steps)
  {
    assert test[0..] == test;
    FreeFromStart(LeaningDays(h, leans, test), steps);
  }

  lemma Regroup(a: seq<int>, x: int, b: seq<int>)
    ensures a + ([x] + b) == (a + [x]) + b
  {
  }

  lemma NothingLeft(h: History, leans: map<string, int>, test: seq<int>, steps: int, nextFree: int)
    ensures Remaining(h, leans, test, |test|, steps, nextFree) == []
  {
  }

  lemma {:induction false} KeepAscends(xs: seq<int>, keep: int -> bool)
    requires Ascending(xs)
    ensures Ascending(Keep(xs, keep))
  {
    if xs != [] {
      KeepAscends(xs[1..], keep);
      var rest := Keep(xs[1..], keep);
      forall j | 0 <= j < |rest| ensures xs[0] <= rest[j] {
        assert rest[j] in xs[1..];
        var i :| 0 <= i < |xs| - 1 && xs[1..][i] == rest[j];
        assert xs[i + 1] == rest[j];
      }
    }
  }

  /** No learning window runs into the test; the windows scored are apart, lean, and are as many as can be. */
  lemma TestIsHeldOut(h: History, leans: map<string, int>, days: seq<int>, steps: int, cut: int)
    requires Ascending(days)
    ensures var scored := Scored(h, leans, Tested(days, cut), steps);
      && (forall a, b :: a in Learned(days, steps, cut) && b in scored ==> a + steps <= b)
      && Spaced(scored, steps) && (forall t :: t in scored ==> Leaning(h, leans, t))
      && |scored| == Fitting(LeaningDays(h, leans, Tested(days, cut)), steps)
  {
    var candidates := LeaningDays(h, leans, Tested(days, cut));
    KeepAscends(days, t => t >= cut);
    KeepAscends(Tested(days, cut), t => Leaning(h, leans, t));
    PickedIsSpaced(candidates, steps, None);
    SortedAlready(candidates);
  }

  lemma PlacedLast(xs: seq<int>, x: int)
    requires xs == [] || Last(xs) <= x
    ensures Place(AsReal, xs, x) == xs + [x]
  {
  }

  lemma {:induction false} SortedAlready(xs: seq<int>)
    requires Ascending(xs)
    ensures Sorted(xs) == xs
  {
    if xs != [] {
      var front, last := Front(xs), Last(xs);
      SortedAlready(front);
      PlacedLast(front, last);
      assert xs == front + [last];
    }
  }

  // ----- Skill and weight

  /** A window's return, signed by the lean of the state it started in. */
  function Signed(h: History, leans: map<string, int>): int -> real {
    (t: int) =>
      if Leaning(h, leans, t) && t < |h.forward| && h.forward[t].Some?
      then h.forward[t].value * leans[h.states[t].value] as real else 0.0
  }

  function Hit(h: History, leans: map<string, int>): int -> real {
    (t: int) => if Signed(h, leans)(t) > 0.0 then 1.0 else 0.0
  }

  function UpCall(h: History, leans: map<string, int>): int -> real {
    (t: int) => if Leaning(h, leans, t) && leans[h.states[t].value] > 0 then 1.0 else 0.0
  }

  function MeanOf(f: int -> real, days: seq<int>): real
    requires days != []
  {
    SumOf(f, days) / |days| as real
  }

  /** What the same calls would score if they were made at random in this test period. */
  function Chance(testUp: real, upCalls: real): real {
    testUp * upCalls + (1.0 - testUp) * (1.0 - upCalls)
  }

  function StandardError(root: real -> real, chance: real, n: nat): real
    requires n > 0
  {
    if 0.0 < chance < 1.0 then root(chance * (1.0 - chance) / n as real) else 0.0
  }

  function Score(skill: real, error: real): real {
    if error > 0.0 then skill / error else 0.0
  }

  function Shrunk(skill: real, n: nat): real
    requires n > 0
  {
    (if 2.0 * skill < 1.0 then 2.0 * skill else 1.0) * n as real / (n + SHRINK) as real
  }

  /** At least one standard error above chance, and less for few windows. */
  function Earned(root: real -> real, skill: real, chance: real, n: nat): real
    requires n > 0
  {
    if Score(skill, StandardError(root, chance, n)) >= 1.0 && skill > 0.0 then Shrunk(skill, n) else 0.0
  }

  datatype Measure = Measure(hitRate: real, chance: real, edge: real, weight: real)

  function MeasureOf(root: real -> real, h: History, leans: map<string, int>, test: seq<int>, scored: seq<int>): Measure
    requires test != [] && scored != []
  {
    var hitRate := MeanOf(Hit(h, leans), scored);
    var chance := Chance(ShareUp(h, test), MeanOf(UpCall(h, leans), scored));
    Measure(hitRate, chance, MeanOf(Signed(h, leans), scored), Earned(root, hitRate - chance, chance, |scored|))
  }

  datatype Status = TooLittleHistory | TooFewTestWindows | NoLeaningState | Measured

  datatype Skill = Skill(status: Status, learnedWindows: nat, testWindows: nat, leans: map<string, int>,
      measure: Option<Measure>)

  const NOTHING: Skill := Skill(TooLittleHistory, 0, 0, map[], None)

  /** What the leans earn on the test days. */
  function SkillOf(root: real -> real, h: History, steps: int, learned: nat, test: seq<int>,
      leans: map<string, int>): Skill
    requires test != []
  {
    var scored := Scored(h, leans, test, steps);
    if |scored| < MIN_TEST_WINDOWS
    then Skill(if leans == map[] then NoLeaningState else TooFewTestWindows, learned, |scored|, leans, None)
    else Skill(Measured, learned, |scored|, leans, Some(MeasureOf(root, h, leans, test, scored)))
  }

  /** What the result must be once there are learning days: the leans of those days, tested from the cut on. */
  ghost predicate TestedOn(root: real -> real, h: History, steps: int, learn: seq<int>, test: seq<int>, r: Skill)
    requires learn != [] && test != []
  {
    && LeansAre(r.leans, h, learn, steps, ShareUp(h, learn))
    && r == SkillOf(root, h, steps, Fitting(learn, steps), test, r.leans)
  }

  method TestSkill(root: real -> real, h: History, steps: int, learned: nat, test: seq<int>, leans: map<string, int>)
      returns (r: Skill)
    requires test != [] && forall t :: t in test ==> t >= 0
    ensures r == SkillOf(root, h, steps, learned, test, leans)
  {
    hide MeasureOf, Scored;
    var picked := PickTest(h, leans, test, steps);
    if |picked| < MIN_TEST_WINDOWS {
      return Skill(if leans == map[] then NoLeaningState else TooFewTestWindows, learned, |picked|, leans, None);
    }
    r := Skill(Measured, learned, |picked|, leans, Some(MeasureOf(root, h, leans, test, picked)));
  }

  method LearnAndTest(root: real -> real, h: History, steps: int, learn: seq<int>, test: seq<int>) returns (r: Skill)
    requires Valid(h) && AllUsable(h, learn) && AllUsable(h, test) && learn != [] && test != []
    ensures TestedOn(root, h, steps, learn, test, r)
  {
    hide LeansAre, ShareUp, Scored, MeasureOf, Fitting;
    var leans := StateLeans(h, learn, steps, ShareUp(h, learn));
    var learned := IndependentWindows(learn, steps);
    r := TestSkill(root, h, steps, learned, test, leans);
  }

  /** `held_out_skill`. */
  method HeldOutSkill(root: real -> real, h: History, steps: int, split: real) returns (r: Skill)
    requires Valid(h) && 0.0 <= split < 1.0
    ensures var days := UsableDays(h);
      if |days| < 2 * MIN_TEST_WINDOWS then r == NOTHING
      else
        var cut := CutDay(days, split);
        if Learned(days, steps, cut) == [] then r == NOTHING
        else cut in Tested(days, cut) && TestedOn(root, h, steps, Learned(days, steps, cut), Tested(days, cut), r)
  {
    hide TestedOn;
    var days := UsableDays(h);
    if |days| < 2 * MIN_TEST_WINDOWS {
      return NOTHING;
    }
    var cut := CutDay(days, split);
    if Learned(days, steps, cut) == [] {
      return NOTHING;
    }
    r := LearnAndTest(root, h, steps, Learned(days, steps, cut), Tested(days, cut));
  }

  lemma ErrorSquared(root: real -> real, chance: real, n: nat)
    requires SquareRoot(root) && n > 0 && 0.0 < chance < 1.0
    ensures var e := StandardError(root, chance, n); e > 0.0 && e * e * n as real == chance * (1.0 - chance)
  {
    var spread := chance * (1.0 - chance);
    assert spread > 0.0;
    QuotientPositive(spread, n as real);
    SquareTimes(root(spread / n as real), spread / n as real, n as real, spread);
  }

  lemma SquareTimes(e: real, q: real, n: real, x: real)
    requires e * e == q && q * n == x
    ensures e * e * n == x
  {
  }

  lemma ScoreAtLeastOne(skill: real, e: real)
    requires e > 0.0 && skill > 0.0
    ensures Score(skill, e) >= 1.0 <==> skill * skill >= e * e
  {
    assert Score(skill, e) * e == skill;
    if skill < e { SquareOrder(e, skill); }
    if skill > e { SquareOrder(skill, e); }
    if Score(skill, e) < 1.0 { ProductPositive(1.0 - Score(skill, e), e); }
    if Score(skill, e) >= 1.0 { ProductNotNegative(Score(skill, e) - 1.0, e); }
  }

  lemma ShrunkBelowOne(skill: real, n: nat)
    requires skill > 0.0 && n > 0
    ensures 0.0 < Shrunk(skill, n) < 1.0
  {
    var x := if 2.0 * skill < 1.0 then 2.0 * skill else 1.0;
    ProductPositive(x, n as real);
    ProductNotNegative(1.0 - x, n as real);
    QuotientBelowOne(x * n as real, (n + SHRINK) as real);
  }

  lemma ClearsOneError(root: real -> real, skill: real, chance: real, n: nat)
    requires SquareRoot(root) && n > 0 && skill > 0.0 && 0.0 < chance < 1.0
    ensures Score(skill, StandardError(root, chance, n)) >= 1.0 <==>
      skill * skill * n as real >= chance * (1.0 - chance)
  {
    hide Score, StandardError;
    var e := StandardError(root, chance, n);
    ErrorSquared(root, chance, n);
    ScoreAtLeastOne(skill, e);
    ScaledOrder(skill * skill, e * e, n as real);
  }

  /** A weight lies in [0, 1), and is earned exactly when skill clears one standard error of chance. */
  lemma WeightEarned(root: real -> real, skill: real, chance: real, n: nat)
    requires SquareRoot(root) && n > 0
    ensures 0.0 <= Earned(root, skill, chance, n) < 1.0
    ensures Earned(root, skill, chance, n) > 0.0
      <==> skill > 0.0 && 0.0 < chance < 1.0 && skill * skill * n as real >= chance * (1.0 - chance)
  {
    hide Score, StandardError, Shrunk;
    if skill > 0.0 {
      ShrunkBelowOne(skill, n);
      if 0.0 < chance < 1.0 {
        ClearsOneError(root, skill, chance, n);
      } else {
        NoErrorNoScore(root, skill, chance, n);
      }
    }
  }

  function Capped(skill: real): real { if 2.0 * skill < 1.0 then 2.0 * skill else 1.0 }

  lemma SharesGrow(n: nat, m: nat)
    requires 0 < n <= m
    ensures 0.0 < n as real / (n + SHRINK) as real <= m as real / (m + SHRINK) as real
    ensures n < m ==> n as real / (n + SHRINK) as real < m as real / (m + SHRINK) as real
  {
    var a, b := n as real / (n + SHRINK) as real, m as real / (m + SHRINK) as real;
    var k, x, y := SHRINK as real, (n + SHRINK) as real, (m + SHRINK) as real;
    QuotientPositive(n as real, x);
    Complement(n as real, k, x);
    Complement(m as real, k, y);
    if n < m { QuotientFalls(k, x, y); }
  }

  lemma Complement(n: real, k: real, x: real)
    requires x > 0.0 && n + k == x
    ensures n / x == 1.0 - k / x
  {
    assert (n / x) * x == n && (k / x) * x == k;
    Cancel(n / x + k / x, 1.0, x);
  }

  lemma ShrunkIsShare(skill: real, n: nat)
    requires n > 0
    ensures Shrunk(skill, n) == Times(Capped(skill), n as real / (n + SHRINK) as real)
  {
    var c, x := Capped(skill), (n + SHRINK) as real;
    var q := n as real / x;
    assert q * x == n as real;
    assert (c * q) * x == c * (q * x);
    Cancel(Shrunk(skill, n), c * q, x);
  }

  lemma TimesGrows(a: real, b: real, x: real, y: real)
    requires 0.0 <= a <= b && 0.0 < x <= y
    ensures Times(a, x) <= Times(b, y)
    ensures a < b ==> Times(a, x) < Times(b, y)
    ensures 0.0 < a && x < y ==> Times(a, x) < Times(b, y)
  {
    if a < b { LargerProduct(b, a, x); }
    if x < y && 0.0 < b { LargerProduct(y, x, b); }
  }

  /** What is earned grows with the skill, up to one half, and with the number of windows. */
  lemma ShrunkGrows(skill: real, more: real, n: nat, m: nat)
    requires 0.0 <= skill <= more && 0 < n <= m
    ensures Shrunk(skill, n) <= Shrunk(more, m)
    ensures skill < more && skill < 0.5 ==> Shrunk(skill, n) < Shrunk(more, m)
    ensures skill > 0.0 && n < m ==> Shrunk(skill, n) < Shrunk(more, m)
  {
    hide Shrunk, Times;
    ShrunkIsShare(skill, n);
    ShrunkIsShare(more, m);
    SharesGrow(n, m);
    TimesGrows(Capped(skill), Capped(more), n as real / (n + SHRINK) as real, m as real / (m + SHRINK) as real);
  }

  /** Thirty windows earn the skill itself, up to one half. */
  lemma ShrunkAtThirty(skill: real)
    requires 0.0 <= skill <= 0.5
    ensures Shrunk(skill, 30) == skill
  {
  }

  /** More skill against the same chance, over at least as many windows, never earns less. */
  lemma EarnedGrows(root: real -> real, skill: real, more: real, chance: real, n: nat, m: nat)
    requires SquareRoot(root) && 0 < n <= m && skill <= more
    ensures Earned(root, skill, chance, n) <= Earned(root, more, chance, m)
  {
    hide Score, StandardError, Shrunk, SquareRoot;
    WeightEarned(root, skill, chance, n);
    WeightEarned(root, more, chance, m);
    if Earned(root, skill, chance, n) > 0.0 {
      MoreClears(skill, more, chance, n, m);
      ShrunkGrows(skill, more, n, m);
    }
  }

  lemma MoreClears(skill: real, more: real, chance: real, n: nat, m: nat)
    requires 0.0 < skill <= more && n <= m && skill * skill * n as real >= chance * (1.0 - chance)
    ensures more * more * m as real >= chance * (1.0 - chance)
  {
    ProductNotNegative(more - skill, more + skill);
    assert more * more - skill * skill == (more - skill) * (more + skill);
    ProductNotNegative(more * more - skill * skill, n as real);
    ProductNotNegative(more, more);
    ProductNotNegative(more * more, (m - n) as real);
    assert more * more * m as real
      == skill * skill * n as real + (more * more - skill * skill) * n as real + more * more * (m - n) as real;
  }

  lemma NoErrorNoScore(root: real -> real, skill: real, chance: real, n: nat)
    requires n > 0 && !(0.0 < chance < 1.0)
    ensures Score(skill, StandardError(root, chance, n)) == 0.0
  {
  }

  lemma ScaledOrder(x: real, y: real, n: real)
    requires n > 0.0
    ensures x >= y <==> x * n >= y * n
  {
    if x >= y { assert (x - y) * n >= 0.0; }
    if x < y { assert (y - x) * n > 0.0; }
  }

  /** Every test day is scored, and every call points the same way. */
  predicate OneWay(h: History, leans: map<string, int>, test: seq<int>, way: int) {
    forall t :: t in test ==> Leaning(h, leans, t) && leans[h.states[t].value] == way
  }

  lemma OneWayCalls(h: History, leans: map<string, int>, test: seq<int>, way: int)
    requires test != [] && OneWay(h, leans, test, way) && (way == 1 || way == -1)
    ensures MeanOf(UpCall(h, leans), test) == if way == 1 then 1.0 else 0.0
  {
    SumOfConstant(UpCall(h, leans), if way == 1 then 1.0 else 0.0, test);
  }

  lemma SignedOneWay(h: History, leans: map<string, int>, test: seq<int>, way: int, t: int)
    requires t in test && OneWay(h, leans, test, way) && t < |h.forward| && h.forward[t].Some?
    ensures way == 1 ==> Signed(h, leans)(t) == h.forward[t].value
    ensures way == -1 ==> Signed(h, leans)(t) == -h.forward[t].value
  {
    assert Leaning(h, leans, t) && leans[h.states[t].value] == way;
  }

  lemma HitOneWay(h: History, leans: map<string, int>, test: seq<int>, way: int, t: int)
    requires t in test && OneWay(h, leans, test, way) && (way == 1 || way == -1)
    ensures way == 1 ==> Hit(h, leans)(t) == Rises(h)(t)
    ensures way == -1 ==> Hit(h, leans)(t) <= 1.0 - Rises(h)(t)
  {
    assert Leaning(h, leans, t);
    if t < |h.forward| && h.forward[t].Some? {
      SignedOneWay(h, leans, test, way, t);
      assert Rises(h)(t) == if h.forward[t].value > 0.0 then 1.0 else 0.0;
    } else {
      assert Rises(h)(t) == 0.0;
      assert Signed(h, leans)(t) == 0.0;
    }
    assert Hit(h, leans)(t) == if Signed(h, leans)(t) > 0.0 then 1.0 else 0.0;
  }

  lemma {:induction false} SumOfRest(f: int -> real, g: int -> real, days: seq<int>)
    requires forall t :: t in days ==> f(t) <= 1.0 - g(t)
    ensures SumOf(f, days) <= |days| as real - SumOf(g, days)
  {
    if days == [] {
      assert SumOf(f, days) == 0.0 && SumOf(g, days) == 0.0;
    } else {
      SumOfRest(f, g, Front(days));
      var t := Last(days);
      assert t in days;
      assert f(t) <= 1.0 - g(t);
      assert SumOf(f, days) == SumOf(f, Front(days)) + f(t);
      assert SumOf(g, days) == SumOf(g, Front(days)) + g(t);
      assert |days| as real == |Front(days)| as real + 1.0;
    }
  }

  lemma MeanOfRest(f: real, g: real, n: real)
    requires n > 0.0 && f <= n - g
    ensures f / n <= 1.0 - g / n
  {
    assert (f / n) * n == f && (1.0 - g / n) * n == n - g;
    if f / n > 1.0 - g / n { ProductPositive(f / n - (1.0 - g / n), n); }
  }

  lemma HitsOneWay(h: History, leans: map<string, int>, test: seq<int>, way: int)
    requires test != [] && OneWay(h, leans, test, way) && (way == 1 || way == -1)
    ensures MeanOf(Hit(h, leans), test) <= if way == 1 then ShareUp(h, test) else 1.0 - ShareUp(h, test)
  {
    hide Hit, Rises;
    forall t | t in test
      ensures way == 1 ==> Hit(h, leans)(t) == Rises(h)(t)
      ensures way == -1 ==> Hit(h, leans)(t) <= 1.0 - Rises(h)(t)
    {
      HitOneWay(h, leans, test, way, t);
    }
    if way == 1 {
      SumOfSame(Hit(h, leans), Rises(h), test);
    } else {
      SumOfRest(Hit(h, leans), Rises(h), test);
      MeanOfRest(SumOf(Hit(h, leans), test), SumOf(Rises(h), test), |test| as real);
    }
  }

  lemma ChanceOneWay(up: real)
    ensures Chance(up, 1.0) == up && Chance(up, 0.0) == 1.0 - up
  {
  }

  /** A market that simply went one way rewards no feature that always called that way. */
  lemma OneWayEarnsNothing(root: real -> real, h: History, leans: map<string, int>, test: seq<int>, way: int)
    requires test != [] && OneWay(h, leans, test, way) && (way == 1 || way == -1)
    ensures MeasureOf(root, h, leans, test, test).weight == 0.0
  {
    hide MeanOf, ShareUp, Chance, Score, StandardError, Shrunk, OneWay;
    OneWayCalls(h, leans, test, way);
    HitsOneWay(h, leans, test, way);
    ChanceOneWay(ShareUp(h, test));
  }

  function ForwardOn(h: History): int -> real {
    (t: int) => if 0 <= t < |h.forward| && h.forward[t].Some? then h.forward[t].value else 0.0
  }

  /** The edge of one-way calls is what the market did over the scored windows, with the sign of the calls. */
  lemma OneWayEdge(root: real -> real, h: History, leans: map<string, int>, test: seq<int>, scored: seq<int>, way: int)
    requires test != [] && scored != [] && OneWay(h, leans, scored, way) && (way == 1 || way == -1)
    requires forall t :: t in scored ==> 0 <= t < |h.forward| && h.forward[t].Some?
    ensures MeasureOf(root, h, leans, test, scored).edge == way as real * MeanOf(ForwardOn(h), scored)
  {
    hide Signed, OneWay;
    forall t | t in scored ensures Signed(h, leans)(t) == way as real * ForwardOn(h)(t) {
      SignedOneWay(h, leans, scored, way, t);
    }
    SumOfScaled(ForwardOn(h), Signed(h, leans), way as real, scored);
    hide ForwardOn;
    FactorOut(way as real, SumOf(ForwardOn(h), scored), |scored| as real);
  }

  lemma FactorOut(c: real, x: real, n: real)
    requires n > 0.0
    ensures (c * x) / n == c * (x / n)
  {
    assert (x / n) * n == x;
    assert (c * (x / n)) * n == c * ((x / n) * n);
    Cancel((c * x) / n, c * (x / n), n);
  }

  /** Every window of the test rose, or none did. */
  predicate Steady(h: History, test: seq<int>, up: bool) {
    forall t :: t in test ==> Rises(h)(t) == if up then 1.0 else 0.0
  }

  predicate Directions(leans: map<string, int>) {
    forall state :: state in leans ==> leans[state] == 1 || leans[state] == -1
  }

  lemma HitInSteady(h: History, leans: map<string, int>, t: int, up: bool)
    requires Leaning(h, leans, t) && Directions(leans) && Rises(h)(t) == if up then 1.0 else 0.0
    ensures up ==> Hit(h, leans)(t) == UpCall(h, leans)(t)
    ensures !up ==> Hit(h, leans)(t) <= 1.0 - UpCall(h, leans)(t)
  {
    if t < |h.forward| && h.forward[t].Some? {
      SignedByLean(h, leans, t);
      assert Rises(h)(t) == if h.forward[t].value > 0.0 then 1.0 else 0.0;
    } else {
      assert Rises(h)(t) == 0.0 && Signed(h, leans)(t) == 0.0;
    }
    assert Hit(h, leans)(t) == if Signed(h, leans)(t) > 0.0 then 1.0 else 0.0;
  }

  lemma SignedByLean(h: History, leans: map<string, int>, t: int)
    requires Leaning(h, leans, t) && Directions(leans) && t < |h.forward| && h.forward[t].Some?
    ensures Signed(h, leans)(t) == if leans[h.states[t].value] > 0 then h.forward[t].value else -h.forward[t].value
  {
  }

  lemma SteadyShare(h: History, test: seq<int>, up: bool)
    requires test != [] && Steady(h, test, up)
    ensures ShareUp(h, test) == if up then 1.0 else 0.0
  {
    SumOfConstant(Rises(h), if up then 1.0 else 0.0, test);
  }

  lemma HitsInSteady(h: History, leans: map<string, int>, scored: seq<int>, up: bool)
    requires scored != [] && Steady(h, scored, up) && Directions(leans)
    requires forall t :: t in scored ==> Leaning(h, leans, t)
    ensures var calls := MeanOf(UpCall(h, leans), scored);
      MeanOf(Hit(h, leans), scored) <= if up then calls else 1.0 - calls
  {
    hide Hit, UpCall, Leaning;
    forall t | t in scored
      ensures up ==> Hit(h, leans)(t) == UpCall(h, leans)(t)
      ensures !up ==> Hit(h, leans)(t) <= 1.0 - UpCall(h, leans)(t)
    {
      HitInSteady(h, leans, t, up);
    }
    if up {
      SumOfSame(Hit(h, leans), UpCall(h, leans), scored);
    } else {
      SumOfRest(Hit(h, leans), UpCall(h, leans), scored);
      MeanOfRest(SumOf(Hit(h, leans), scored), SumOf(UpCall(h, leans), scored), |scored| as real);
    }
  }

  lemma ChanceInSteady(calls: real)
    ensures Chance(1.0, calls) == calls && Chance(0.0, calls) == 1.0 - calls
  {
  }

  /** A market that only rose, or never rose, during the test rewards no feature, whatever it called and when. */
  lemma SteadyMarketEarnsNothing(root: real -> real, h: History, leans: map<string, int>, test: seq<int>,
      scored: seq<int>, up: bool)
    requires test != [] && Steady(h, test, up) && Directions(leans)
    requires scored != [] && forall t :: t in scored ==> t in test && Leaning(h, leans, t)
    ensures MeasureOf(root, h, leans, test, scored).weight == 0.0
  {
    hide MeanOf, ShareUp, Chance, Score, StandardError, Shrunk, Leaning, Rises;
    SteadyShare(h, test, up);
    HitsInSteady(h, leans, scored, up);
    ChanceInSteady(MeanOf(UpCall(h, leans), scored));
  }

  // ----- The combined lean

  const COMBINED_LEAN: real := 0.2
  const FULL_WEIGHT: real := 1.0

  datatype Feature = Feature(key: string, weight: Option<real>, lean: Option<int>)

  function WeightOf(f: Feature): real { if f.weight.Some? then f.weight.value else 0.0 }

  function WeightedLean(f: Feature): real {
    WeightOf(f) * (if f.lean.Some? then f.lean.value as real else 0.0)
  }

  predicate HasEarned(f: Feature) { WeightOf(f) > 0.0 }

  function EarnedOf(features: seq<Feature>): seq<Feature> {
    Keep(features, HasEarned)
  }

  datatype Lean = Up | Down | Balanced

  datatype Reading = Reading(score: real, lean: Lean, total: real, earned: seq<string>)

  function Keys(features: seq<Feature>): seq<string> {
    if features == [] then [] else Keys(Front(features)) + [Last(features).key]
  }

  /** `combined`: nothing, unless some feature earned weight. */
  function Combined(features: seq<Feature>): Option<Reading> {
    var earned := EarnedOf(features);
    var total := SumOf(WeightOf, earned);
    if total <= 0.0 then None
    else
      var score := SumOf(WeightedLean, earned) / (if total > FULL_WEIGHT then total else FULL_WEIGHT);
      var lean := if score >= COMBINED_LEAN then Up else if score <= -COMBINED_LEAN then Down else Balanced;
      Some(Reading(score, lean, total, Keys(earned)))
  }

  lemma LeanWithinWeight(f: Feature)
    requires WeightOf(f) > 0.0 && (f.lean.Some? ==> -1 <= f.lean.value <= 1)
    ensures -WeightOf(f) <= WeightedLean(f) <= WeightOf(f)
  {
    if f.lean.Some? {
      ProductNotNegative(WeightOf(f), 1.0 - f.lean.value as real);
      ProductNotNegative(WeightOf(f), f.lean.value as real + 1.0);
    }
  }

  lemma ScoreWithin(x: real, total: real)
    requires -total <= x <= total && total > 0.0
    ensures var y := x / (if total > 1.0 then total else 1.0); -total <= y <= total && -1.0 <= y <= 1.0
  {
    if total > 1.0 { QuotientWithin(x, total); }
  }

  /** The score is never past 1 either way, nor past the weight that was earned: thin evidence reads as thin. */
  lemma CombinedBounds(features: seq<Feature>)
    requires forall f :: f in features && f.lean.Some? ==> -1 <= f.lean.value <= 1
    ensures var r := Combined(features);
      && (r.Some? <==> exists f :: f in features && WeightOf(f) > 0.0)
      && (r.Some? ==> -1.0 <= r.value.score <= 1.0 && -r.value.total <= r.value.score <= r.value.total)
  {
    var earned := EarnedOf(features);
    forall f | f in earned ensures -WeightOf(f) <= WeightedLean(f) <= WeightOf(f) {
      LeanWithinWeight(f);
    }
    SumOfBounded(WeightedLean, WeightOf, earned);
    SumOfNonNegative(WeightOf, earned);
    SomeEarned(features);
    if SumOf(WeightOf, earned) > 0.0 { ScoreWithin(SumOf(WeightedLean, earned), SumOf(WeightOf, earned)); }
  }

  /** The weight that points up, or down. */
  function PointsTo(way: int): Feature -> real {
    (f: Feature) => if f.lean == Some(way) then WeightOf(f) else 0.0
  }

  predicate Leans(features: seq<Feature>) {
    forall f :: f in features && f.lean.Some? ==> f.lean.value in {-1, 0, 1}
  }

  lemma LeanPoints(f: Feature)
    requires f.lean.Some? ==> f.lean.value in {-1, 0, 1}
    ensures PointsTo(1)(f) == WeightedLean(f) + PointsTo(-1)(f)
  {
  }

  function AtLeastOne(x: real): real { if x > 1.0 then x else 1.0 }

  /**
   The score is the net weight that points up, over the total or one, whichever is larger; it reads as a lean from
   two tenths on.
   */
  lemma ScoreIsNetWeight(features: seq<Feature>)
    requires Leans(features) && Combined(features).Some?
    ensures var r, earned := Combined(features).value, EarnedOf(features);
      && r.total == SumOf(WeightOf, earned)
      && r.score * AtLeastOne(r.total) == SumOf(PointsTo(1), earned) - SumOf(PointsTo(-1), earned)
      && (r.lean == Up <==> r.score >= 0.2) && (r.lean == Down <==> r.score <= -0.2)
  {
    var earned := EarnedOf(features);
    forall f | f in earned ensures PointsTo(1)(f) == WeightedLean(f) + PointsTo(-1)(f) {
      LeanPoints(f);
    }
    SumOfBoth(WeightedLean, PointsTo(-1), PointsTo(1), earned);
    hide WeightedLean, WeightOf, EarnedOf, PointsTo;
    QuotientTimes(SumOf(WeightedLean, earned), AtLeastOne(SumOf(WeightOf, earned)));
  }

  lemma QuotientTimes(x: real, y: real)
    requires y != 0.0
    ensures (x / y) * y == x
  {
  }

  /** Where every earned feature leans one way, so does the score: by the whole weight, or by one where that is more. */
  lemma OneSidedScore(features: seq<Feature>, way: int)
    requires (way == 1 || way == -1) && Combined(features).Some?
    requires forall f :: f in features && WeightOf(f) > 0.0 ==> f.lean == Some(way)
    ensures var r := Combined(features).value;
      && (r.total <= 1.0 ==> r.score == way as real * r.total) && (r.total > 1.0 ==> r.score == way as real)
      && (way == 1 ==> r.score > 0.0) && (way == -1 ==> r.score < 0.0)
  {
    var earned := EarnedOf(features);
    AllOneWay(earned, way);
    hide WeightedLean, WeightOf, EarnedOf, Keys;
    OneSide(SumOf(WeightOf, earned), way);
  }

  lemma AllOneWay(earned: seq<Feature>, way: int)
    requires forall f :: f in earned ==> f.lean == Some(way)
    ensures SumOf(WeightedLean, earned) == way as real * SumOf(WeightOf, earned)
  {
    forall f | f in earned ensures WeightedLean(f) == way as real * WeightOf(f) {
    }
    SumOfScaled(WeightOf, WeightedLean, way as real, earned);
  }

  lemma OneSide(total: real, way: int)
    requires total > 0.0 && (way == 1 || way == -1)
    ensures var y := way as real * total / AtLeastOne(total);
      && (total <= 1.0 ==> y == way as real * total) && (total > 1.0 ==> y == way as real)
      && (way == 1 ==> y > 0.0) && (way == -1 ==> y < 0.0)
  {
    if total > 1.0 { Cancel(way as real * total / total, way as real, total); }
  }

  lemma SomeEarned(features: seq<Feature>)
    ensures SumOf(WeightOf, EarnedOf(features)) > 0.0 <==> exists f :: f in features && WeightOf(f) > 0.0
  {
    var earned := EarnedOf(features);
    SumOfNonNegative(WeightOf, earned);
    if earned == [] {
      assert forall f :: f in features && WeightOf(f) > 0.0 ==> f in earned;
    } else {
      assert Last(earned) in earned;
    }
  }

  /** A feature that earned nothing weighs nothing, whatever its lean reads today. */
  lemma UnearnedWeighsNothing(before: seq<Feature>, f: Feature, after: seq<Feature>)
    requires WeightOf(f) <= 0.0
    ensures Combined(before + [f] + after) == Combined(before + after)
  {
    KeepJoins(before + [f], after, HasEarned);
    KeepJoins(before, [f], HasEarned);
    KeepJoins(before, after, HasEarned);
    assert Keep([f], HasEarned) == [];
    assert Keep(before, HasEarned) + [] == Keep(before, HasEarned);
    assert EarnedOf(before + [f] + after) == EarnedOf(before + after);
  }
}
