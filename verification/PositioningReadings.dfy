/** Signed readings at entry, from sorted stores, and what they can and cannot know. */
module PositioningReadings {
  import opened Common
  import opened EntryFeatures
  import opened Reals
  import opened Sorting
  import FeatureStatistics

  // ----- One feature's samples, oldest first

  function Time(s: Sample): real { s.ts as real }

  /** `Series(points)`: the samples by time, equal times in the order given. */
  function Series(points: seq<Sample>): seq<Sample> {
    SortBy(Time, points)
  }

  predicate Chronological(samples: seq<Sample>) {
    forall i, j :: 0 <= i < j < |samples| ==> samples[i].ts <= samples[j].ts
  }

  lemma SeriesIsChronological(points: seq<Sample>)
    ensures Chronological(Series(points)) && multiset(Series(points)) == multiset(points)
  {
    SortBySorts(Time, points);
    var s := Series(points);
    forall i, j | 0 <= i < j < |s| ensures s[i].ts <= s[j].ts {
      assert Time(s[i]) <= Time(s[j]);
    }
  }

  /** `bisect_left` on the times: the first sample not before `t`. */
  function BisectLeft(samples: seq<Sample>, t: int): (i: nat)
    ensures i <= |samples| && (forall j :: 0 <= j < i ==> samples[j].ts < t) && (i < |samples| ==> samples[i].ts >= t)
  {
    if samples == [] || samples[0].ts >= t then 0 else 1 + BisectLeft(samples[1..], t)
  }

  /** `bisect_right` on the times: whole milliseconds, so the first sample not before the next one. */
  function BisectRight(samples: seq<Sample>, t: int): (i: nat)
    ensures i <= |samples| && (forall j :: 0 <= j < i ==> samples[j].ts <= t) && (i < |samples| ==> samples[i].ts > t)
  {
    BisectLeft(samples, t + 1)
  }

  function AsPoint(s: Sample): Point { Point(Some(s.ts), Some(s.value)) }

  function AsPoints(samples: seq<Sample>): (points: seq<Point>)
    ensures |points| == |samples| && forall i :: 0 <= i < |points| ==> points[i] == AsPoint(samples[i])
  {
    seq(|samples|, i requires 0 <= i < |samples| => AsPoint(samples[i]))
  }

  lemma FrontPoints(samples: seq<Sample>)
    requires samples != []
    ensures Front(AsPoints(samples)) == AsPoints(Front(samples)) && Last(AsPoints(samples)) == AsPoint(Last(samples))
  {
  }

  lemma {:induction false} SamplesOfPoints(samples: seq<Sample>)
    ensures Samples(AsPoints(samples)) == samples
  {
    if samples != [] {
      hide AsPoints;
      FrontPoints(samples);
      SamplesOfPoints(Front(samples));
    }
  }

  /** The samples that can matter: not older than the tolerance, and not after entry. */
  function Window(series: seq<Sample>, entry: int, tolerance: int): seq<Sample> {
    var low, high := BisectLeft(series, entry - tolerance), BisectRight(series, entry);
    if low <= high then series[low..high] else []
  }

  function AtEntryOf(r: EntryReading): Option<Sample> {
    if r.value.Some? && r.observedAt.Some? then Some(Sample(r.observedAt.value, r.value.value)) else None
  }

  /** What the entry rule gives, scanning these samples. */
  function Scanned(samples: seq<Sample>, entry: int, tolerance: int): Option<Sample> {
    AtEntryOf(ReadingOf(Newest(samples, entry), entry, tolerance))
  }

  // ----- The bisected slice against a scan of everything

  lemma BetterCommutes(best: Option<Sample>, a: Sample, b: Sample, entry: int)
    requires a.ts != b.ts
    ensures Better(Better(best, a, entry), b, entry) == Better(Better(best, b, entry), a, entry)
  {
  }

  lemma {:induction false} NewestOfPlaced(sorted: seq<Sample>, x: Sample, entry: int)
    ensures Newest(Place(Time, sorted, x), entry) == Better(Newest(sorted, entry), x, entry)
    decreases |sorted|
  {
    if sorted == [] || Time(Last(sorted)) <= Time(x) {
      NewestNext(sorted, x, entry);
    } else {
      NewestOfPlaced(Front(sorted), x, entry);
      NewestNext(Place(Time, Front(sorted), x), Last(sorted), entry);
      BetterCommutes(Newest(Front(sorted), entry), x, Last(sorted), entry);
    }
  }

  /** Sorting keeps the sample the scan finds, ties included. */
  lemma {:induction false} NewestOfSeries(points: seq<Sample>, entry: int)
    ensures Newest(Series(points), entry) == Newest(points, entry)
  {
    if points != [] {
      NewestOfSeries(Front(points), entry);
      NewestOfPlaced(Series(Front(points)), Last(points), entry);
    }
  }

  lemma {:induction false} LateIgnored(a: seq<Sample>, b: seq<Sample>, entry: int)
    requires forall j :: 0 <= j < |b| ==> b[j].ts > entry
    ensures Newest(a + b, entry) == Newest(a, entry)
  {
    if b == [] {
      assert a + b == a;
    } else {
      LateIgnored(a, Front(b), entry);
      assert Front(a + b) == a + Front(b);
    }
  }

  /** Samples older than every one that follows do not matter. */
  lemma {:induction false} OldIgnored(a: seq<Sample>, b: seq<Sample>, entry: int)
    requires b != [] && (forall j :: 0 <= j < |b| ==> b[j].ts <= entry)
    requires forall i, j :: 0 <= i < |a| && 0 <= j < |b| ==> a[i].ts < b[j].ts
    ensures Newest(a + b, entry) == Newest(b, entry) != None
  {
    assert Front(a + b) == a + Front(b);
    if |b| == 1 {
      assert a + Front(b) == a;
      NewestAmong(a, entry);
    } else {
      OldIgnored(a, Front(b), entry);
    }
  }

  lemma NewestAmong(samples: seq<Sample>, entry: int)
    ensures Newest(samples, entry).Some? ==> Newest(samples, entry).value in samples
  {
    NewestIsFound(samples, entry);
  }

  lemma {:induction false} BisectGrows(samples: seq<Sample>, t: int, u: int)
    requires t <= u
    ensures BisectLeft(samples, t) <= BisectLeft(samples, u)
  {
    if samples != [] && samples[0].ts < t { BisectGrows(samples[1..], t, u); }
  }

  lemma LateTail(series: seq<Sample>, entry: int)
    requires Chronological(series)
    ensures forall j :: BisectRight(series, entry) <= j < |series| ==> series[j].ts > entry
    ensures Newest(series, entry) == Newest(series[..BisectRight(series, entry)], entry)
  {
    var high := BisectRight(series, entry);
    assert series == series[..high] + series[high..];
    LateIgnored(series[..high], series[high..], entry);
  }

  lemma NewestOfSlice(series: seq<Sample>, low: nat, high: nat, entry: int, oldest: int)
    requires low < high <= |series| && Chronological(series)
    requires (forall j :: 0 <= j < low ==> series[j].ts < oldest)
      && (forall j :: low <= j < high ==> oldest <= series[j].ts <= entry)
    ensures Newest(series[..high], entry) == Newest(series[low..high], entry)
  {
    assert series[..high] == series[..low] + series[low..high];
    OldIgnored(series[..low], series[low..high], entry);
  }

  lemma FromBisect(series: seq<Sample>, t: int)
    requires Chronological(series)
    ensures forall j :: BisectLeft(series, t) <= j < |series| ==> series[j].ts >= t
  {
  }

  lemma WindowNewest(series: seq<Sample>, entry: int, tolerance: int)
    requires Chronological(series) && tolerance >= 0
    ensures Scanned(series, entry, tolerance) == Scanned(Window(series, entry, tolerance), entry, tolerance)
  {
    var low, high := BisectLeft(series, entry - tolerance), BisectRight(series, entry);
    BisectGrows(series, entry - tolerance, entry + 1);
    LateTail(series, entry);
    if low < high {
      FromBisect(series, entry - tolerance);
      NewestOfSlice(series, low, high, entry, entry - tolerance);
    } else {
      StaleScan(series[..high], entry, tolerance);
      assert series[low..high] == [];
    }
  }

  lemma StaleScan(samples: seq<Sample>, entry: int, tolerance: int)
    requires forall j :: 0 <= j < |samples| ==> samples[j].ts < entry - tolerance
    ensures Scanned(samples, entry, tolerance) == None
  {
    NewestAmong(samples, entry);
  }

  /** `Series.at_entry`: the rule over the bisected slice gives what it gives over every point ever stored. */
  method AtEntry(ghost points: seq<Sample>, series: seq<Sample>, entry: int, tolerance: int) returns (r: Option<Sample>)
    requires series == Series(points) && tolerance >= 0
    ensures r == Scanned(points, entry, tolerance)
  {
    SeriesIsChronological(points);
    BisectGrows(series, entry - tolerance, entry + 1);
    var low := BisectLeft(series, entry - tolerance);
    var high := BisectRight(series, entry);
    var reading := ReadingAtEntry(AsPoints(series[low..high]), entry, tolerance);
    SamplesOfPoints(series[low..high]);
    WindowNewest(series, entry, tolerance);
    NewestOfSeries(points, entry);
    r := AtEntryOf(reading);
  }

  // ----- Readings

  const CHANGE_WINDOW_MS: int := 4 * 3600000
  const CHANGE_MIN_SPAN_MS: int := 3 * 3600000 + 30 * 60000
  const RECORDED_AT_ENTRY: set<string> := {"binance_funding_rate_8h", "funding_spread_vs_binance_bps",
    "liq_map_skew_3pct"}
  const PRICE_FEATURE: string := "hl_return_1h_pct"

  datatype Kind = Raw | Z | Change | WithPrice | ChangeWithPrice

  datatype Reading = Reading(id: string, feature: string, kind: Kind, zMethod: string, zLookback: nat, zMinimum: nat)

  /** What one entry is read from; `root` is the square root a standard deviation takes. */
  datatype Inputs = Inputs(entry: int, recorded: map<string, Sample>, stores: map<string, seq<Sample>>,
    tolerance: string -> nat, root: real -> real)

  function Values(samples: seq<Sample>): (values: seq<real>)
    ensures |values| == |samples| && forall i :: 0 <= i < |values| ==> values[i] == samples[i].value
  {
    if samples == [] then [] else Values(Front(samples)) + [Last(samples).value]
  }

  /** The last `lookback` samples before a moment. */
  function Before(series: seq<Sample>, ts: int, lookback: nat): seq<Sample> {
    var end := BisectLeft(series, ts);
    series[if end > lookback then end - lookback else 0..end]
  }

  /** The history of a value: strictly before it, the newest there are, and no more than asked for. */
  lemma BeforeIsLatest(series: seq<Sample>, ts: int, lookback: nat)
    requires Chronological(series)
    ensures var h, end := Before(series, ts, lookback), BisectLeft(series, ts);
      && h == series[end - |h|..end] && (forall i :: 0 <= i < |h| ==> h[i].ts < ts)
      && |h| <= lookback && (|h| < lookback ==> |h| == end)
      && (forall i :: end <= i < |series| ==> series[i].ts >= ts)
  {
    FromBisect(series, ts);
  }

  /** `z_reading`: nothing where there are too few samples or the scorer refuses them. */
  function ZReading(root: real -> real, series: seq<Sample>, current: Sample, r: Reading): Option<real> {
    var selected := Values(Before(series, current.ts, r.zLookback));
    if |selected| < r.zMinimum then None else FeatureStatistics.ZScore(root, selected, current.value, r.zMethod)
  }

  /** The earliest sample in the four hours before, if it reaches back three and a half. */
  function ChangeBase(series: seq<Sample>, ts: int): (base: Option<Sample>)
    ensures base.Some? ==>
      base.value in series && ts - CHANGE_WINDOW_MS <= base.value.ts <= ts - CHANGE_MIN_SPAN_MS
        && base.value.value > 0.0
  {
    var i := BisectLeft(series, ts - CHANGE_WINDOW_MS);
    if i >= |series| || series[i].ts >= ts || series[i].ts > ts - CHANGE_MIN_SPAN_MS || series[i].value <= 0.0 then None
    else Some(series[i])
  }

  function Change4h(series: seq<Sample>, current: Sample): Option<real> {
    match ChangeBase(series, current.ts)
    case None => None
    case Some(base) => Some((current.value - base.value) / base.value * 100.0)
  }

  function EntryValue(x: Inputs, feature: string): Option<Sample> {
    if feature in RECORDED_AT_ENTRY then (if feature in x.recorded then Some(x.recorded[feature]) else None)
    else if feature in x.stores then Scanned(x.stores[feature], x.entry, x.tolerance(feature))
    else None
  }

  function PriceOf(x: Inputs): Option<real> {
    if PRICE_FEATURE in x.recorded then Some(x.recorded[PRICE_FEATURE].value) else None
  }

  function TimesPrice(x: Option<real>, price: Option<real>): Option<real> {
    if x.Some? && price.Some? then Some(x.value * price.value) else None
  }

  /** The signed number of one reading, from the value at entry. */
  function SignedFrom(x: Inputs, r: Reading, current: Sample): Option<real> {
    match r.kind
    case Raw => Some(current.value)
    case Z => if r.feature in x.stores then ZReading(x.root, Series(x.stores[r.feature]), current, r) else None
    case Change => if r.feature in x.stores then Change4h(Series(x.stores[r.feature]), current) else None
    case WithPrice => TimesPrice(Some(current.value), PriceOf(x))
    case ChangeWithPrice =>
      if r.feature in x.stores then TimesPrice(Change4h(Series(x.stores[r.feature]), current), PriceOf(x)) else None
  }

  function SignedOf(x: Inputs, r: Reading): Option<real> {
    match EntryValue(x, r.feature)
    case None => None
    case Some(current) => SignedFrom(x, r, current)
  }

  /** `reading_id -> signed value`; a reading that cannot be formed is absent. */
  function Signed(x: Inputs, readings: seq<Reading>): map<string, real> {
    if readings == [] then map[]
    else
      var r, rest := Last(readings), Signed(x, Front(readings));
      match SignedOf(x, r)
      case None => rest
      case Some(v) => rest[r.id := v]
  }

  lemma SignedNext(x: Inputs, readings: seq<Reading>, k: nat)
    requires k < |readings|
    ensures var rest, signed := Signed(x, readings[..k]), SignedOf(x, readings[k]);
      Signed(x, readings[..k + 1]) == if signed.Some? then rest[readings[k].id := signed.value] else rest
  {
    assert Front(readings[..k + 1]) == readings[..k];
  }

  /** `entry_value`, which remembers what it has found. */
  method EntryValueOnce(x: Inputs, memo: map<string, Option<Sample>>, feature: string)
    returns (value: Option<Sample>, next: map<string, Option<Sample>>)
    requires forall f :: f in memo ==> memo[f] == EntryValue(x, f)
    ensures value == EntryValue(x, feature) && forall f :: f in next ==> next[f] == EntryValue(x, f)
  {
    next := memo;
    if feature !in next {
      var found: Option<Sample> := None;
      if feature in RECORDED_AT_ENTRY {
        found := if feature in x.recorded then Some(x.recorded[feature]) else None;
      } else if feature in x.stores {
        found := AtEntry(x.stores[feature], Series(x.stores[feature]), x.entry, x.tolerance(feature));
      }
      next := next[feature := found];
    }
    value := next[feature];
  }

  /** `signed_readings`. */
  method SignedReadings(x: Inputs, readings: seq<Reading>) returns (out: map<string, real>)
    ensures out == Signed(x, readings)
    ensures DistinctIds(readings) ==> forall i :: 0 <= i < |readings| ==>
      Says(x, readings[i], Lookup(out, readings[i].id))
  {
    hide EntryValue;
    out := map[];
    var memo: map<string, Option<Sample>> := map[];
    for k := 0 to |readings|
      invariant out == Signed(x, readings[..k])
      invariant forall f :: f in memo ==> memo[f] == EntryValue(x, f)
    {
      SignedNext(x, readings, k);
      var current;
      current, memo := EntryValueOnce(x, memo, readings[k].feature);
      if current.Some? {
        var signed := SignedFrom(x, readings[k], current.value);
        if signed.Some? {
          out := out[readings[k].id := signed.value];
        }
      }
    }
    assert readings[..|readings|] == readings;
    if DistinctIds(readings) { ReadingsSay(x, readings); }
  }

  // ----- What each reading says

  /** Of the samples from a moment on, point `i` is the earliest; of those at one time, the first given. */
  predicate FirstFrom(points: seq<Sample>, from: int, i: nat) {
    && i < |points| && points[i].ts >= from
    && forall j :: 0 <= j < |points| && points[j].ts >= from ==>
      points[i].ts < points[j].ts || (points[i].ts == points[j].ts && i <= j)
  }

  lemma OnlyOneFirst(points: seq<Sample>, from: int, i: nat, j: nat)
    requires FirstFrom(points, from, i) && FirstFrom(points, from, j)
    ensures i == j
  {
  }

  function Sooner(best: Option<Sample>, s: Sample, from: int): Option<Sample> {
    if s.ts >= from && (best.None? || s.ts < best.value.ts) then Some(s) else best
  }

  function Earliest(points: seq<Sample>, from: int): Option<Sample> {
    if points == [] then None else Sooner(Earliest(Front(points), from), Last(points), from)
  }

  lemma EarliestNext(points: seq<Sample>, x: Sample, from: int)
    ensures Earliest(points + [x], from) == Sooner(Earliest(points, from), x, from)
  {
    assert Front(points + [x]) == points;
  }

  lemma StillFirst(front: seq<Sample>, x: Sample, from: int, i: nat)
    requires FirstFrom(front, from, i) && !(from <= x.ts < front[i].ts)
    ensures FirstFrom(front + [x], from, i)
  {
  }

  lemma NowFirst(front: seq<Sample>, x: Sample, from: int)
    requires x.ts >= from && forall j :: 0 <= j < |front| && front[j].ts >= from ==> x.ts < front[j].ts
    ensures FirstFrom(front + [x], from, |front|)
  {
  }

  lemma {:induction false} EarliestIsFirst(points: seq<Sample>, from: int) returns (i: nat)
    ensures Earliest(points, from).None? ==> forall j :: 0 <= j < |points| ==> points[j].ts < from
    ensures Earliest(points, from).Some? ==> FirstFrom(points, from, i) && points[i] == Earliest(points, from).value
  {
    i := 0;
    if points != [] {
      var front, x := Front(points), Last(points);
      assert points == front + [x];
      i := EarliestIsFirst(front, from);
      if x.ts >= from && (Earliest(front, from).None? || x.ts < front[i].ts) {
        NowFirst(front, x, from);
        i := |front|;
      } else if Earliest(front, from).Some? {
        StillFirst(front, x, from, i);
      }
    }
  }

  lemma SoonerCommutes(best: Option<Sample>, a: Sample, b: Sample, from: int)
    requires a.ts != b.ts
    ensures Sooner(Sooner(best, a, from), b, from) == Sooner(Sooner(best, b, from), a, from)
  {
  }

  lemma {:induction false} EarliestOfPlaced(sorted: seq<Sample>, x: Sample, from: int)
    ensures Earliest(Place(Time, sorted, x), from) == Sooner(Earliest(sorted, from), x, from)
    decreases |sorted|
  {
    if sorted == [] || Time(Last(sorted)) <= Time(x) {
      EarliestNext(sorted, x, from);
    } else {
      hide Sooner;
      EarliestOfPlaced(Front(sorted), x, from);
      EarliestNext(Place(Time, Front(sorted), x), Last(sorted), from);
      SoonerCommutes(Earliest(Front(sorted), from), x, Last(sorted), from);
    }
  }

  /** Sorting keeps the earliest sample, ties included. */
  lemma {:induction false} EarliestOfSeries(points: seq<Sample>, from: int)
    ensures Earliest(Series(points), from) == Earliest(points, from)
  {
    if points != [] {
      EarliestOfSeries(Front(points), from);
      EarliestOfPlaced(Series(Front(points)), Last(points), from);
    }
  }

  lemma BisectIsFirst(series: seq<Sample>, from: int)
    requires Chronological(series)
    ensures var i := BisectLeft(series, from);
      if i < |series| then FirstFrom(series, from, i) else forall j :: 0 <= j < |series| ==> series[j].ts < from
  {
    FromBisect(series, from);
  }

  /** What a bisection of the sorted store finds is the earliest sample from that moment on. */
  lemma BisectFindsEarliest(points: seq<Sample>, from: int)
    ensures var series := Series(points); var i := BisectLeft(series, from);
      Earliest(points, from) == if i < |series| then Some(series[i]) else None
  {
    var series := Series(points);
    SeriesIsChronological(points);
    EarliestOfSeries(points, from);
    BisectIsFirst(series, from);
    var i := EarliestIsFirst(series, from);
    hide Series, Earliest;
    if Earliest(series, from).Some? && BisectLeft(series, from) < |series| {
      OnlyOneFirst(series, from, i, BisectLeft(series, from));
    }
  }

  /** The sample a change is taken from: the earliest of the last four hours, three and a half hours old, positive. */
  predicate IsBase(points: seq<Sample>, ts: int, i: nat) {
    FirstFrom(points, ts - 14400000, i) && points[i].ts <= ts - 12600000 && points[i].value > 0.0
  }

  ghost predicate HasBase(points: seq<Sample>, ts: int) {
    exists i :: 0 <= i < |points| && IsBase(points, ts, i)
  }

  lemma BaseIsEarliest(points: seq<Sample>, ts: int)
    ensures ChangeBase(Series(points), ts).Some? <==> HasBase(points, ts)
    ensures forall i :: 0 <= i < |points| && IsBase(points, ts, i) ==> ChangeBase(Series(points), ts) == Some(points[i])
  {
    BisectFindsEarliest(points, ts - 14400000);
    var i := EarliestIsFirst(points, ts - 14400000);
    forall j | 0 <= j < |points| && IsBase(points, ts, j) ensures ChangeBase(Series(points), ts) == Some(points[j]) {
      OnlyOneFirst(points, ts - 14400000, i, j);
    }
    if ChangeBase(Series(points), ts).Some? { assert IsBase(points, ts, i); }
  }

  /** A change in percent: a hundred and the change is to a hundred as the value is to the base. */
  predicate ChangeOf(c: real, base: real, value: real) {
    && base * (100.0 + c) == 100.0 * value
    && (c > 0.0 <==> value > base) && (c < 0.0 <==> value < base)
  }

  lemma PercentIsChange(base: real, value: real)
    requires base > 0.0
    ensures ChangeOf((value - base) / base * 100.0, base, value)
  {
    var q := (value - base) / base;
    assert q * base == value - base;
    assert base * (100.0 + q * 100.0) == 100.0 * base + 100.0 * (q * base);
    if value > base { QuotientPositive(value - base, base); }
    if value < base {
      QuotientPositive(base - value, base);
      Negated(base - value, base);
    }
  }

  /** There is a change exactly when there is a base, and it is the change from that base. */
  ghost predicate ChangeSays(points: seq<Sample>, current: Sample, c: Option<real>) {
    && (c.Some? <==> HasBase(points, current.ts))
    && forall i :: 0 <= i < |points| && IsBase(points, current.ts, i) ==>
      c.Some? && ChangeOf(c.value, points[i].value, current.value)
  }

  lemma ChangeIsSaid(points: seq<Sample>, current: Sample)
    ensures ChangeSays(points, current, Change4h(Series(points), current))
  {
    BaseIsEarliest(points, current.ts);
    hide ChangeBase, Series, IsBase, HasBase;
    if ChangeBase(Series(points), current.ts).Some? {
      PercentIsChange(ChangeBase(Series(points), current.ts).value.value, current.value);
    }
  }

  /** A product there is exactly when there are both, positive exactly when they agree in sign. */
  predicate ProductSays(a: Option<real>, b: Option<real>, v: Option<real>) {
    && (v.Some? <==> a.Some? && b.Some?)
    && (v.Some? ==>
      && v.value == a.value * b.value
      && (v.value > 0.0 <==> (a.value > 0.0 && b.value > 0.0) || (a.value < 0.0 && b.value < 0.0)))
  }

  lemma ProductIsSaid(a: Option<real>, b: Option<real>)
    ensures ProductSays(a, b, TimesPrice(a, b))
  {
    if a.Some? && b.Some? { ProductSign(a.value, b.value); }
  }

  lemma ProductSign(x: real, y: real)
    ensures x * y > 0.0 <==> (x > 0.0 && y > 0.0) || (x < 0.0 && y < 0.0)
  {
    if x > 0.0 && y > 0.0 { ProductPositive(x, y); }
    if x < 0.0 && y < 0.0 { ProductPositive(-x, -y); }
    if x >= 0.0 && y <= 0.0 { ProductNotNegative(x, -y); }
    if x <= 0.0 && y >= 0.0 { ProductNotNegative(-x, y); }
  }

  /** The newest samples strictly before a moment, as many as asked for or all there are. */
  ghost predicate IsHistory(series: seq<Sample>, ts: int, lookback: nat, h: seq<Sample>) {
    exists end :: |h| <= end <= |series| && EndsBefore(series, ts, end) && h == series[end - |h|..end]
      && |h| <= lookback && (|h| < lookback ==> |h| == end)
  }

  predicate EndsBefore(series: seq<Sample>, ts: int, end: nat)
    requires end <= |series|
  {
    (forall i :: 0 <= i < end ==> series[i].ts < ts) && forall i :: end <= i < |series| ==> series[i].ts >= ts
  }

  /** The score of the value against the values of that history, if they are enough. */
  ghost predicate ScoreSays(root: real -> real, points: seq<Sample>, current: Sample, r: Reading, v: Option<real>) {
    exists h :: IsHistory(Series(points), current.ts, r.zLookback, h)
      && v == if |h| < r.zMinimum then None else FeatureStatistics.ZScore(root, Values(h), current.value, r.zMethod)
  }

  lemma ScoreIsSaid(root: real -> real, points: seq<Sample>, current: Sample, r: Reading)
    ensures ScoreSays(root, points, current, r, ZReading(root, Series(points), current, r))
  {
    var series := Series(points);
    SeriesIsChronological(points);
    hide Series, FeatureStatistics.ZScore;
    BeforeIsLatest(series, current.ts, r.zLookback);
    assert EndsBefore(series, current.ts, BisectLeft(series, current.ts));
    assert IsHistory(series, current.ts, r.zLookback, Before(series, current.ts, r.zLookback));
  }

  function PointsOf(x: Inputs, feature: string): seq<Sample> {
    if feature in x.stores then x.stores[feature] else []
  }

  /** What the number of a reading is, kind by kind. */
  ghost predicate Says(x: Inputs, r: Reading, v: Option<real>) {
    match EntryValue(x, r.feature)
    case None => v == None
    case Some(current) =>
      var points := PointsOf(x, r.feature);
      match r.kind
      case Raw => v == Some(current.value)
      case Z => if r.feature in x.stores then ScoreSays(x.root, points, current, r, v) else v == None
      case Change => ChangeSays(points, current, v)
      case WithPrice => ProductSays(Some(current.value), PriceOf(x), v)
      case ChangeWithPrice => exists c :: ChangeSays(points, current, c) && ProductSays(c, PriceOf(x), v)
  }

  lemma NoStoreNoChange(current: Sample)
    ensures ChangeSays([], current, None)
  {
  }

  lemma SignedSays(x: Inputs, r: Reading)
    ensures Says(x, r, SignedOf(x, r))
  {
    hide EntryValue, ChangeSays, ProductSays, ScoreSays, Change4h, ZReading, Series, TimesPrice;
    if EntryValue(x, r.feature).Some? {
      var current, points := EntryValue(x, r.feature).value, PointsOf(x, r.feature);
      ProductIsSaid(Some(current.value), PriceOf(x));
      NoStoreNoChange(current);
      ProductIsSaid(None, PriceOf(x));
      NoProduct(PriceOf(x));
      if r.feature in x.stores {
        ChangeIsSaid(points, current);
        ScoreIsSaid(x.root, points, current, r);
        ProductIsSaid(Change4h(Series(points), current), PriceOf(x));
      }
    }
  }

  lemma NoProduct(price: Option<real>)
    ensures TimesPrice(None, price) == None
  {
  }

  function Lookup(out: map<string, real>, id: string): Option<real> {
    if id in out then Some(out[id]) else None
  }

  /** Under distinct ids the map holds for each reading what it says, and nothing where it says nothing. */
  lemma ReadingsSay(x: Inputs, readings: seq<Reading>)
    requires DistinctIds(readings)
    ensures forall i :: 0 <= i < |readings| ==> Says(x, readings[i], Lookup(Signed(x, readings), readings[i].id))
  {
    hide Says, SignedOf, Signed;
    forall i | 0 <= i < |readings| ensures Says(x, readings[i], Lookup(Signed(x, readings), readings[i].id)) {
      SignedAt(x, readings, i);
      SignedSays(x, readings[i]);
    }
  }

  // ----- No hindsight

  predicate Early(entry: int, s: Sample) { s.ts <= entry }

  /** The samples taken by entry, in the order the store gives them. */
  function KnownBy(points: seq<Sample>, entry: int): seq<Sample> {
    Keep(points, (s: Sample) => Early(entry, s))
  }

  lemma KnownJoins(a: seq<Sample>, x: Sample, entry: int)
    ensures KnownBy(a + [x], entry) == if Early(entry, x) then KnownBy(a, entry) + [x] else KnownBy(a, entry)
  {
    KeepJoins(a, [x], (s: Sample) => Early(entry, s));
  }

  lemma {:induction false} AllKnown(a: seq<Sample>, entry: int)
    requires forall s :: s in a ==> s.ts <= entry
    ensures KnownBy(a, entry) == a
  {
    if a != [] { AllKnown(a[1..], entry); }
  }

  lemma PlaceLast(sorted: seq<Sample>, last: Sample, x: Sample)
    ensures Place(Time, sorted + [last], x) == if last.ts <= x.ts then sorted + [last] + [x]
      else Place(Time, sorted, x) + [last]
  {
    assert Front(sorted + [last]) == sorted;
  }

  lemma AllEarly(sorted: seq<Sample>, x: Sample, entry: int)
    requires Chronological(sorted) && (sorted != [] ==> Last(sorted).ts <= x.ts) && x.ts <= entry
    ensures KnownBy(sorted, entry) == sorted
  {
    forall s | s in sorted ensures s.ts <= entry {
      var i :| 0 <= i < |sorted| && sorted[i] == s;
      assert s.ts <= Last(sorted).ts;
    }
    AllKnown(sorted, entry);
  }

  /** Placing a sample and then forgetting the late ones, or the other way round. */
  lemma {:induction false} KnownOfPlaced(sorted: seq<Sample>, x: Sample, entry: int)
    requires Chronological(sorted)
    ensures KnownBy(Place(Time, sorted, x), entry)
      == if Early(entry, x) then Place(Time, KnownBy(sorted, entry), x) else KnownBy(sorted, entry)
    decreases |sorted|
  {
    if sorted == [] || Last(sorted).ts <= x.ts {
      KnownJoins(sorted, x, entry);
      if Early(entry, x) { AllEarly(sorted, x, entry); }
    } else {
      var front, last := Front(sorted), Last(sorted);
      assert sorted == front + [last];
      KnownOfPlaced(front, x, entry);
      KnownJoins(front, last, entry);
      KnownJoins(Place(Time, front, x), last, entry);
      PlaceLast(KnownBy(front, entry), last, x);
    }
  }

  /** Sorting and then forgetting the late samples, or the other way round. */
  lemma {:induction false} KnownOfSeries(points: seq<Sample>, entry: int)
    ensures KnownBy(Series(points), entry) == Series(KnownBy(points, entry))
  {
    if points != [] {
      var front, last := Front(points), Last(points);
      assert points == front + [last];
      KnownOfSeries(front, entry);
      KnownJoins(front, last, entry);
      SeriesIsChronological(front);
      KnownOfPlaced(Series(front), last, entry);
      SeriesAdds(KnownBy(front, entry), last);
    }
  }

  lemma SeriesAdds(points: seq<Sample>, x: Sample)
    ensures Series(points + [x]) == Place(Time, Series(points), x)
  {
    assert Front(points + [x]) == points;
  }

  lemma {:induction false} NoneKnown(a: seq<Sample>, entry: int)
    requires forall s :: s in a ==> s.ts > entry
    ensures KnownBy(a, entry) == []
  {
    if a != [] { NoneKnown(a[1..], entry); }
  }

  /** In a sorted store what was known by entry is a prefix. */
  lemma KnownIsPrefix(series: seq<Sample>, entry: int)
    requires Chronological(series)
    ensures KnownBy(series, entry) == series[..BisectRight(series, entry)]
  {
    var high := BisectRight(series, entry);
    KeepJoins(series[..high], series[high..], (s: Sample) => Early(entry, s));
    assert series == series[..high] + series[high..];
    LateTail(series, entry);
    AllKnown(series[..high], entry);
    NoneKnown(series[high..], entry);
  }

  /** The place of a moment in the first samples of a store. */
  lemma {:induction false} BisectOfPrefix(series: seq<Sample>, high: nat, t: int)
    requires high <= |series|
    ensures BisectLeft(series[..high], t) == if BisectLeft(series, t) < high then BisectLeft(series, t) else high
  {
    if high > 0 && series[0].ts < t {
      BisectOfPrefix(series[1..], high - 1, t);
      assert series[..high][1..] == series[1..][..high - 1];
    }
  }

  lemma BeforeIsKnown(series: seq<Sample>, entry: int, ts: int, lookback: nat)
    requires ts <= entry + 1
    ensures Before(series, ts, lookback) == Before(series[..BisectRight(series, entry)], ts, lookback)
  {
    BisectGrows(series, ts, entry + 1);
    BisectOfPrefix(series, BisectRight(series, entry), ts);
  }

  /**
   Whether a sample taken after entry can be the base of a change: none known by entry is recent enough, and
   one after entry is old enough.
   */
  predicate LateBase(samples: seq<Sample>, entry: int, ts: int) {
    entry < ts - CHANGE_MIN_SPAN_MS && forall s :: s in samples && s.ts <= entry ==> s.ts < ts - CHANGE_WINDOW_MS
  }

  lemma ChangeBaseIsKnown(series: seq<Sample>, entry: int, ts: int)
    requires Chronological(series) && !LateBase(series, entry, ts)
    ensures ChangeBase(series, ts) == ChangeBase(series[..BisectRight(series, entry)], ts)
  {
    var high, i := BisectRight(series, entry), BisectLeft(series, ts - CHANGE_WINDOW_MS);
    BisectOfPrefix(series, high, ts - CHANGE_WINDOW_MS);
    if i >= high {
      LateTail(series, entry);
      forall s | s in series && s.ts <= entry ensures s.ts < ts - CHANGE_WINDOW_MS {
        var j :| 0 <= j < |series| && series[j] == s;
      }
    }
  }

  /** Two stores that agree on what was known by entry have the same part known by entry. */
  lemma SameKnown(a: seq<Sample>, b: seq<Sample>, entry: int)
    requires KnownBy(a, entry) == KnownBy(b, entry)
    ensures Series(a)[..BisectRight(Series(a), entry)] == Series(b)[..BisectRight(Series(b), entry)]
  {
    KnownOfSeries(a, entry);
    KnownOfSeries(b, entry);
    SeriesIsChronological(a);
    SeriesIsChronological(b);
    KnownIsPrefix(Series(a), entry);
    KnownIsPrefix(Series(b), entry);
  }

  lemma {:induction false} NewestIsKnown(points: seq<Sample>, entry: int)
    ensures Newest(points, entry) == Newest(KnownBy(points, entry), entry)
  {
    if points != [] {
      NewestIsKnown(Front(points), entry);
      KnownJoins(Front(points), Last(points), entry);
      assert points == Front(points) + [Last(points)];
      if Early(entry, Last(points)) { NewestNext(KnownBy(Front(points), entry), Last(points), entry); }
    }
  }

  /** The same but for what the stores observed after entry. */
  ghost predicate AgreeUpToEntry(a: Inputs, b: Inputs) {
    && a.entry == b.entry && a.recorded == b.recorded && a.tolerance == b.tolerance && a.root == b.root
    && a.stores.Keys == b.stores.Keys
    && forall f :: f in a.stores ==> KnownBy(a.stores[f], a.entry) == KnownBy(b.stores[f], a.entry)
  }

  /** Whether the history a z-score asks for can be long enough for one, under a known method. */
  predicate CanScore(r: Reading) {
    r.zLookback >= 2 && r.zLookback >= r.zMinimum
      && (r.zMethod == FeatureStatistics.ORDINARY || r.zMethod == FeatureStatistics.ROBUST)
  }

  /** Whether a sample taken after entry can decide a reading: only through the stamp of a recorded value. */
  predicate CanReadAhead(x: Inputs, r: Reading) {
    && r.feature in RECORDED_AT_ENTRY && r.feature in x.recorded && r.feature in x.stores
    && match r.kind
       case Raw => false
       case Z => x.recorded[r.feature].ts > x.entry + 1 && CanScore(r)
       case Change => LateBase(x.stores[r.feature], x.entry, x.recorded[r.feature].ts)
       case WithPrice => false
       case ChangeWithPrice => LateBase(x.stores[r.feature], x.entry, x.recorded[r.feature].ts) && PriceOf(x).Some?
  }

  // ----- What cannot be read ahead

  lemma EntryValueInTime(x: Inputs, feature: string)
    requires feature !in RECORDED_AT_ENTRY && EntryValue(x, feature).Some?
    ensures EntryValue(x, feature).value.ts <= x.entry
  {
    NewestIsFound(x.stores[feature], x.entry);
  }

  lemma SameEntryValue(a: Inputs, b: Inputs, feature: string)
    requires AgreeUpToEntry(a, b)
    ensures EntryValue(a, feature) == EntryValue(b, feature)
    ensures feature in a.stores <==> feature in b.stores
  {
    assert feature in a.stores.Keys <==> feature in b.stores.Keys;
    if feature in a.stores {
      NewestIsKnown(a.stores[feature], a.entry);
      NewestIsKnown(b.stores[feature], a.entry);
    }
  }

  lemma SameHistory(a: seq<Sample>, b: seq<Sample>, entry: int, ts: int, lookback: nat)
    requires KnownBy(a, entry) == KnownBy(b, entry) && ts <= entry + 1
    ensures Before(Series(a), ts, lookback) == Before(Series(b), ts, lookback)
  {
    SameKnown(a, b, entry);
    BeforeIsKnown(Series(a), entry, ts, lookback);
    BeforeIsKnown(Series(b), entry, ts, lookback);
  }

  lemma SameLateBase(a: seq<Sample>, b: seq<Sample>, entry: int, ts: int)
    requires KnownBy(a, entry) == KnownBy(b, entry)
    ensures LateBase(a, entry, ts) == LateBase(b, entry, ts)
    ensures LateBase(Series(a), entry, ts) == LateBase(a, entry, ts)
  {
    assert forall s :: s in a && s.ts <= entry <==> s in KnownBy(a, entry);
    assert forall s :: s in b && s.ts <= entry <==> s in KnownBy(b, entry);
    SortByMembers(Time, a);
  }

  lemma SameBase(a: seq<Sample>, b: seq<Sample>, entry: int, ts: int)
    requires KnownBy(a, entry) == KnownBy(b, entry) && !LateBase(a, entry, ts)
    ensures ChangeBase(Series(a), ts) == ChangeBase(Series(b), ts)
  {
    hide LateBase, ChangeBase;
    SameKnown(a, b, entry);
    SameLateBase(a, b, entry, ts);
    SameLateBase(b, b, entry, ts);
    SeriesIsChronological(a);
    SeriesIsChronological(b);
    ChangeBaseIsKnown(Series(a), entry, ts);
    ChangeBaseIsKnown(Series(b), entry, ts);
  }

  lemma SameChange(a: seq<Sample>, b: seq<Sample>, entry: int, current: Sample)
    requires KnownBy(a, entry) == KnownBy(b, entry) && !LateBase(a, entry, current.ts)
    ensures Change4h(Series(a), current) == Change4h(Series(b), current)
  {
    hide ChangeBase, LateBase, Series, KnownBy;
    SameBase(a, b, entry, current.ts);
  }

  lemma {:induction false} ValuesLength(samples: seq<Sample>)
    ensures |Values(samples)| == |samples|
  {
    if samples != [] { ValuesLength(Front(samples)); }
  }

  lemma NeverScores(root: real -> real, series: seq<Sample>, current: Sample, r: Reading)
    requires !CanScore(r)
    ensures ZReading(root, series, current, r) == None
  {
    ValuesLength(Before(series, current.ts, r.zLookback));
  }

  lemma SameScore(a: seq<Sample>, b: seq<Sample>, root: real -> real, entry: int, current: Sample, r: Reading)
    requires KnownBy(a, entry) == KnownBy(b, entry) && (current.ts <= entry + 1 || !CanScore(r))
    ensures ZReading(root, Series(a), current, r) == ZReading(root, Series(b), current, r)
  {
    hide CanScore, Before, Series, KnownBy;
    if !CanScore(r) {
      NeverScores(root, Series(a), current, r);
      NeverScores(root, Series(b), current, r);
    } else {
      SameHistory(a, b, entry, current.ts, r.zLookback);
    }
  }

  /** A value no later than entry reaches no sample taken after it. */
  lemma InTimeNoBase(samples: seq<Sample>, entry: int, ts: int)
    requires ts <= entry + 1
    ensures !LateBase(samples, entry, ts)
  {
  }

  lemma SameSignedFrom(a: Inputs, b: Inputs, r: Reading, current: Sample)
    requires AgreeUpToEntry(a, b)
    requires r.feature in a.stores && r.kind == Z ==> current.ts <= a.entry + 1 || !CanScore(r)
    requires r.feature in a.stores && r.kind == Change ==> !LateBase(a.stores[r.feature], a.entry, current.ts)
    requires r.feature in a.stores && r.kind == ChangeWithPrice && PriceOf(a).Some? ==>
      !LateBase(a.stores[r.feature], a.entry, current.ts)
    ensures SignedFrom(a, r, current) == SignedFrom(b, r, current)
  {
    hide KnownBy, Change4h, ZReading, LateBase, CanScore, Series;
    assert r.feature in a.stores.Keys <==> r.feature in b.stores.Keys;
    if r.feature in a.stores {
      var x, y := a.stores[r.feature], b.stores[r.feature];
      match r.kind
      case Z => SameScore(x, y, a.root, a.entry, current, r);
      case Change => SameChange(x, y, a.entry, current);
      case ChangeWithPrice => if PriceOf(a).Some? { SameChange(x, y, a.entry, current); }
      case _ =>
    }
  }

  lemma SameSigned(a: Inputs, b: Inputs, r: Reading)
    requires AgreeUpToEntry(a, b) && !CanReadAhead(a, r)
    ensures SignedOf(a, r) == SignedOf(b, r)
  {
    hide SignedFrom, CanScore, LateBase, KnownBy;
    SameEntryValue(a, b, r.feature);
    if EntryValue(a, r.feature).Some? {
      var current := EntryValue(a, r.feature).value;
      if r.feature !in RECORDED_AT_ENTRY {
        EntryValueInTime(a, r.feature);
        InTimeNoBase(a.stores[r.feature], a.entry, current.ts);
      }
      SameSignedFrom(a, b, r, current);
    }
  }

  /** Readings that cannot read ahead know nothing that was observed after entry. */
  lemma {:induction false} SameReadings(a: Inputs, b: Inputs, readings: seq<Reading>)
    requires AgreeUpToEntry(a, b) && forall r :: r in readings ==> !CanReadAhead(a, r)
    ensures Signed(a, readings) == Signed(b, readings)
  {
    hide AgreeUpToEntry, CanReadAhead, SignedOf;
    if readings != [] {
      SameReadings(a, b, Front(readings));
      SameSigned(a, b, Last(readings));
    }
  }

  /** No recorded value is stamped past the first millisecond after entry. */
  predicate RecordedInTime(x: Inputs) {
    forall f :: f in x.recorded ==> x.recorded[f].ts <= x.entry + 1
  }

  lemma InTimeNotAhead(x: Inputs, r: Reading)
    requires RecordedInTime(x)
    ensures !CanReadAhead(x, r)
  {
  }

  /** With such stamps no reading knows anything that was observed after entry. */
  lemma NoHindsight(a: Inputs, b: Inputs, readings: seq<Reading>)
    requires AgreeUpToEntry(a, b) && RecordedInTime(a)
    ensures Signed(a, readings) == Signed(b, readings)
  {
    hide AgreeUpToEntry, CanReadAhead, RecordedInTime;
    forall r | r in readings ensures !CanReadAhead(a, r) {
      InTimeNotAhead(a, r);
    }
    SameReadings(a, b, readings);
  }

  // ----- What can

  lemma PlacedLast(sorted: seq<Sample>, x: Sample)
    requires forall s :: s in sorted ==> s.ts <= x.ts
    ensures Place(Time, sorted, x) == sorted + [x]
  {
    if sorted != [] { assert Last(sorted) in sorted; }
  }

  lemma {:induction false} SortedLast(points: seq<Sample>, late: seq<Sample>, entry: int, at: int)
    requires (forall s :: s in points ==> s.ts <= entry) && entry < at && forall s :: s in late ==> s.ts == at
    ensures Series(points + late) == Series(points) + late
  {
    if late == [] {
      assert points + late == points;
    } else {
      hide Series;
      var front, last := Front(late), Last(late);
      assert late == front + [last];
      SortedLast(points, front, entry, at);
      assert points + late == (points + front) + [last];
      SeriesAdds(points + front, last);
      SeriesMembers(points);
      PlacedLast(Series(points) + front, last);
      assert Series(points) + late == (Series(points) + front) + [last];
    }
  }

  lemma SeriesMembers(points: seq<Sample>)
    ensures forall s :: s in Series(points) <==> s in points
  {
    SortByMembers(Time, points);
  }

  /** Where a moment stands in a store whose last samples were all taken at one time after entry. */
  lemma LateBisect(points: seq<Sample>, late: seq<Sample>, entry: int, at: int, t: int)
    requires (forall s :: s in points ==> s.ts <= entry) && entry < at && forall s :: s in late ==> s.ts == at
    ensures at < t ==> BisectLeft(Series(points + late), t) == |points| + |late|
    ensures (forall s :: s in points ==> s.ts < t) && t <= at ==> BisectLeft(Series(points + late), t) == |points|
    ensures |Series(points)| == |points|
  {
    var series := Series(points + late);
    SortedLast(points, late, entry, at);
    SortByMembers(Time, points);
    SortBySorts(Time, points);
    var i := BisectLeft(series, t);
    if i < |series| { assert series[i] in Series(points) || series[i] in late; }
    if i > |points| { assert series[i - 1] == late[i - 1 - |points|]; }
  }

  /** `x` with only what was known by entry of one feature, and some samples taken after it. */
  function With(x: Inputs, feature: string, late: seq<Sample>): Inputs
    requires feature in x.stores
  {
    x.(stores := x.stores[feature := KnownBy(x.stores[feature], x.entry) + late])
  }

  lemma WithAgrees(x: Inputs, feature: string, late: seq<Sample>)
    requires feature in x.stores && forall s :: s in late ==> s.ts > x.entry
    ensures AgreeUpToEntry(x, With(x, feature, late))
  {
    var known := KnownBy(x.stores[feature], x.entry);
    KeepJoins(known, late, (s: Sample) => Early(x.entry, s));
    AllKnown(known, x.entry);
    NoneKnown(late, x.entry);
  }

  /** One sample after entry can be the base of a change. */
  lemma LateSampleIsBase(points: seq<Sample>, entry: int, ts: int) returns (late: Sample)
    requires (forall s :: s in points ==> s.ts <= entry) && LateBase(points, entry, ts)
    ensures late.ts > entry && ChangeBase(Series(points + [late]), ts) == Some(late)
  {
    hide Series;
    var from := ts - CHANGE_WINDOW_MS;
    late := Sample(if entry + 1 < from then from else entry + 1, 1.0);
    LateBisect(points, [late], entry, late.ts, from);
    SortedLast(points, [late], entry, late.ts);
    assert (Series(points) + [late])[|points|] == late;
  }

  lemma NoKnownBase(points: seq<Sample>, entry: int, ts: int)
    requires (forall s :: s in points ==> s.ts <= entry) && LateBase(points, entry, ts)
    ensures ChangeBase(Series(points + []), ts) == None
  {
    hide Series;
    LateBisect(points, [], entry, if ts > entry then ts else entry + 1, ts - CHANGE_WINDOW_MS);
    SortedLast(points, [], entry, entry + 1);
  }

  /** Values of any kind can stand right after entry. */
  function LateSamples(values: seq<real>, at: int): (late: seq<Sample>)
    ensures |late| == |values| && forall s :: s in late ==> s.ts == at
  {
    seq(|values|, i requires 0 <= i < |values| => Sample(at, values[i]))
  }

  lemma {:induction false} ValuesOfLate(values: seq<real>, at: int)
    ensures Values(LateSamples(values, at)) == values
  {
    if values != [] {
      assert Front(LateSamples(values, at)) == LateSamples(Front(values), at);
      ValuesOfLate(Front(values), at);
      assert values == Front(values) + [Last(values)];
    }
  }

  /** Late samples can fill the whole history of a value stamped after them. */
  lemma LateHistory(points: seq<Sample>, values: seq<real>, entry: int, ts: int)
    requires (forall s :: s in points ==> s.ts <= entry) && ts > entry + 1
    ensures Values(Before(Series(points + LateSamples(values, entry + 1)), ts, |values|)) == values
  {
    var late := LateSamples(values, entry + 1);
    LateBisect(points, late, entry, entry + 1, ts);
    SortedLast(points, late, entry, entry + 1);
    ValuesOfLate(values, entry + 1);
    assert (Series(points) + late)[|points|..|points| + |late|] == late;
  }

  /** A history of any length from two on that scores a value otherwise than some other does. */
  lemma OtherScore(root: real -> real, n: nat, current: real, m: string, other: Option<real>) returns (xs: seq<real>)
    requires SquareRoot(root) && n >= 2 && (m == FeatureStatistics.ORDINARY || m == FeatureStatistics.ROBUST)
    ensures |xs| == n && FeatureStatistics.ZScore(root, xs, current, m) != other
  {
    xs := seq(n, i requires 0 <= i < n => i as real);
    assert xs[1] != xs[0];
    var ys := seq(n, i requires 0 <= i < n => i as real + 1.0);
    FeatureStatistics.MovedScoresDifferently(root, xs, ys, current, m);
    if FeatureStatistics.ZScore(root, xs, current, m) == other { xs := ys; }
  }

  lemma KnownIsEarly(points: seq<Sample>, entry: int)
    ensures forall s :: s in KnownBy(points, entry) ==> s.ts <= entry
  {
  }

  /** A recorded value read against a history that was all observed after entry. */
  lemma ScoreOfLate(a: Inputs, r: Reading, values: seq<real>)
    requires r.kind == Z && CanReadAhead(a, r) && |values| == r.zLookback
    ensures var b := With(a, r.feature, LateSamples(values, a.entry + 1));
      SignedOf(b, r) == FeatureStatistics.ZScore(a.root, values, a.recorded[r.feature].value, r.zMethod)
  {
    hide Before, Values, Series, KnownBy, LateSamples, LateBase, Change4h, FeatureStatistics.ZScore;
    KnownIsEarly(a.stores[r.feature], a.entry);
    LateHistory(KnownBy(a.stores[r.feature], a.entry), values, a.entry, a.recorded[r.feature].ts);
  }

  lemma ScoresAhead(a: Inputs, r: Reading) returns (b: Inputs)
    requires SquareRoot(a.root) && r.kind == Z && CanReadAhead(a, r)
    ensures AgreeUpToEntry(a, b) && SignedOf(a, r) != SignedOf(b, r)
  {
    hide AgreeUpToEntry, SignedOf, SquareRoot, With, FeatureStatistics.ZScore;
    var values := OtherScore(a.root, r.zLookback, a.recorded[r.feature].value, r.zMethod, SignedOf(a, r));
    b := With(a, r.feature, LateSamples(values, a.entry + 1));
    WithAgrees(a, r.feature, LateSamples(values, a.entry + 1));
    ScoreOfLate(a, r, values);
  }

  lemma ChangesAhead(a: Inputs, r: Reading) returns (b: Inputs)
    requires (r.kind == Change || r.kind == ChangeWithPrice) && CanReadAhead(a, r)
    ensures AgreeUpToEntry(a, b) && SignedOf(a, r) != SignedOf(b, r)
  {
    var current, known := a.recorded[r.feature], KnownBy(a.stores[r.feature], a.entry);
    var late := LateSampleIsBase(known, a.entry, current.ts);
    NoKnownBase(known, a.entry, current.ts);
    b := With(a, r.feature, if SignedOf(a, r).None? then [late] else []);
    WithAgrees(a, r.feature, [late]);
    WithAgrees(a, r.feature, []);
    hide ChangeBase, Series, KnownBy, LateBase;
    assert Change4h(Series(b.stores[r.feature]), current).Some? <==> SignedOf(a, r).None?;
  }

  /**
   A reading is decided by what was known at entry, whatever was observed later, exactly when it cannot read
   ahead.
   */
  lemma KnownAtEntryExactly(a: Inputs, r: Reading)
    requires SquareRoot(a.root)
    ensures (forall b :: AgreeUpToEntry(a, b) ==> SignedOf(a, r) == SignedOf(b, r)) <==> !CanReadAhead(a, r)
  {
    hide AgreeUpToEntry, SignedOf;
    if CanReadAhead(a, r) {
      var b;
      if r.kind == Z { b := ScoresAhead(a, r); } else { b := ChangesAhead(a, r); }
      assert AgreeUpToEntry(a, b) && SignedOf(a, r) != SignedOf(b, r);
    } else {
      forall b | AgreeUpToEntry(a, b) ensures SignedOf(a, r) == SignedOf(b, r) {
        SameSigned(a, b, r);
      }
    }
  }

  predicate DistinctIds(readings: seq<Reading>) {
    forall i, j :: 0 <= i < j < |readings| ==> readings[i].id != readings[j].id
  }

  lemma {:induction false} SignedAt(x: Inputs, readings: seq<Reading>, i: nat)
    requires DistinctIds(readings) && i < |readings|
    ensures SignedOf(x, readings[i]) == if readings[i].id in Signed(x, readings)
      then Some(Signed(x, readings)[readings[i].id]) else None
  {
    hide SignedOf;
    if i < |readings| - 1 {
      SignedAt(x, Front(readings), i);
    } else {
      SignedIds(x, Front(readings));
    }
  }

  lemma {:induction false} SignedIds(x: Inputs, readings: seq<Reading>)
    ensures forall id :: id in Signed(x, readings) ==> exists i :: 0 <= i < |readings| && readings[i].id == id
  {
    if readings != [] {
      hide SignedOf;
      SignedIds(x, Front(readings));
      forall id | id in Signed(x, readings) ensures exists i :: 0 <= i < |readings| && readings[i].id == id {
        if id == Last(readings).id {
          assert readings[|readings| - 1].id == id;
        } else {
          assert id in Signed(x, Front(readings));
          var i :| 0 <= i < |Front(readings)| && Front(readings)[i].id == id;
          assert readings[i].id == id;
        }
      }
    }
  }

  /** So are all the readings of an entry, exactly when none of them can read ahead. */
  lemma AllKnownAtEntryExactly(a: Inputs, readings: seq<Reading>)
    requires SquareRoot(a.root) && DistinctIds(readings)
    ensures (forall b :: AgreeUpToEntry(a, b) ==> Signed(a, readings) == Signed(b, readings))
      <==> forall r :: r in readings ==> !CanReadAhead(a, r)
  {
    hide AgreeUpToEntry, SignedOf, CanReadAhead, Signed, SquareRoot;
    if forall r :: r in readings ==> !CanReadAhead(a, r) {
      forall b | AgreeUpToEntry(a, b) ensures Signed(a, readings) == Signed(b, readings) {
        SameReadings(a, b, readings);
      }
    } else {
      var i :| 0 <= i < |readings| && CanReadAhead(a, readings[i]);
      KnownAtEntryExactly(a, readings[i]);
      var b :| AgreeUpToEntry(a, b) && SignedOf(a, readings[i]) != SignedOf(b, readings[i]);
      SignedAt(a, readings, i);
      SignedAt(b, readings, i);
      assert Signed(a, readings) != Signed(b, readings);
    }
  }

  /** `proxy_points`: a whole second stands at its last millisecond. */
  function ProxyPoints(pairs: seq<(int, real)>): seq<Sample> {
    Series(seq(|pairs|, i requires 0 <= i < |pairs| => Sample(pairs[i].0 * 1000 + 999, pairs[i].1)))
  }

  /** A sample whose second is all that is known is read only if that whole second was over by entry. */
  lemma ProxyNeverEarly(pairs: seq<(int, real)>, entry: int, s: Sample)
    requires s in ProxyPoints(pairs) && s.ts <= entry
    ensures exists p :: p in pairs && s.value == p.1 && p.0 * 1000 + 999 <= entry
  {
    var placed := seq(|pairs|, i requires 0 <= i < |pairs| => Sample(pairs[i].0 * 1000 + 999, pairs[i].1));
    SortByMembers(Time, placed);
    var i :| 0 <= i < |placed| && placed[i] == s;
    assert pairs[i] in pairs;
  }
}
