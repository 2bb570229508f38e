/** What a feature said at the moment an opportunity fired. */
module EntryFeatures {
  import opened Common

  /** A stored point; `None` where the store holds something that is not a number. */
  datatype Point = Point(ts: Option<int>, value: Option<real>)

  datatype Sample = Sample(ts: int, value: real)

  datatype Reason = Present | NothingBefore | TooOld

  datatype EntryReading = EntryReading(value: Option<real>, observedAt: Option<int>, age: Option<int>, reason: Reason)

  /** `_positive_number`. */
  function PositiveNumber(x: Option<real>): Option<int> {
    if x.None? || x.value <= 0.0 then None else Some(x.value.Floor)
  }

  /** `tolerance_ms`: one sampling bucket, and then as long as a reading stays fresh. */
  function ToleranceMs(freshAfter: Option<real>, interval: Option<real>): (r: Result<int, string>)
    ensures r.Err? <==> (freshAfter.None? || freshAfter.value <= 0.0) && (interval.None? || interval.value <= 0.0)
    ensures r.Ok? ==> r.value >= 0
  {
    var staleAfter, sampling := PositiveNumber(freshAfter), PositiveNumber(interval);
    if staleAfter.None? && sampling.None? then Err("feature spec has neither fresh_after_ms nor sampling_interval_ms")
    else Ok((if staleAfter.Some? then staleAfter.value else 0) + (if sampling.Some? then sampling.value else 0))
  }

  /** One setting alone is taken in whole milliseconds. */
  lemma ToleranceAlone(x: real)
    requires x > 0.0
    ensures ToleranceMs(Some(x), None).Ok? && ToleranceMs(None, Some(x)) == ToleranceMs(Some(x), None)
    ensures x - 1.0 < ToleranceMs(Some(x), None).value as real <= x
  {
  }

  /**
   Two settings tolerate as long as both together: at least as long as each alone. A setting that is not
   positive counts for nothing.
   */
  lemma ToleranceIsSum(freshAfter: Option<real>, interval: Option<real>)
    requires ToleranceMs(freshAfter, None).Ok? && ToleranceMs(None, interval).Ok?
    ensures var both := ToleranceMs(freshAfter, interval);
      var alone, sampling := ToleranceMs(freshAfter, None).value, ToleranceMs(None, interval).value;
      both.Ok? && both.value == alone + sampling >= alone && both.value >= sampling
  {
  }

  lemma NothingTolerated(freshAfter: Option<real>, interval: Option<real>, none: real)
    requires none <= 0.0
    ensures ToleranceMs(freshAfter, Some(none)) == ToleranceMs(freshAfter, None)
    ensures ToleranceMs(Some(none), interval) == ToleranceMs(None, interval)
  {
  }

  /** The tolerance grows with each setting. */
  lemma ToleranceGrows(freshAfter: real, interval: real, moreFresh: real, moreInterval: real)
    requires 0.0 < freshAfter <= moreFresh && 0.0 < interval <= moreInterval
    ensures ToleranceMs(Some(freshAfter), Some(interval)).value <= ToleranceMs(Some(moreFresh),
      Some(moreInterval)).value
    ensures moreFresh >= freshAfter + 1.0 || moreInterval >= interval + 1.0
      ==> ToleranceMs(Some(freshAfter), Some(interval)).value < ToleranceMs(Some(moreFresh), Some(moreInterval)).value
  {
  }

  /** The points that are samples, in order. */
  function Samples(points: seq<Point>): seq<Sample> {
    if points == [] then []
    else
      var p := Last(points);
      Samples(Front(points)) + (if p.ts.Some? && p.value.Some? then [Sample(p.ts.value, p.value.value)] else [])
  }

  // ----- The newest sample observed by a moment

  /** A sample replaces the best so far when it was observed by then and is strictly newer. */
  function Better(best: Option<Sample>, s: Sample, entry: int): Option<Sample> {
    if s.ts <= entry && (best.None? || s.ts > best.value.ts) then Some(s) else best
  }

  function Newest(samples: seq<Sample>, entry: int): Option<Sample> {
    if samples == [] then None else Better(Newest(Front(samples), entry), Last(samples), entry)
  }

  /** Sample `i` was observed by then, none observed by then is newer, and none before it in the list is as new. */
  predicate IsNewest(samples: seq<Sample>, entry: int, i: nat) {
    && i < |samples| && samples[i].ts <= entry
    && (forall j :: 0 <= j < |samples| && samples[j].ts <= entry ==> samples[j].ts <= samples[i].ts)
    && (forall j :: 0 <= j < i && samples[j].ts <= entry ==> samples[j].ts < samples[i].ts)
  }

  /** No sample was observed by then. */
  predicate NoneBy(samples: seq<Sample>, entry: int) {
    forall j :: 0 <= j < |samples| ==> samples[j].ts > entry
  }

  /** `best` is what a scan of the samples must find. */
  ghost predicate Found(samples: seq<Sample>, entry: int, best: Option<Sample>) {
    match best
    case None => NoneBy(samples, entry)
    case Some(s) => exists i: nat :: IsNewest(samples, entry, i) && samples[i] == s
  }

  lemma FoundNext(front: seq<Sample>, s: Sample, entry: int, best: Option<Sample>)
    requires Found(front, entry, best)
    ensures Found(front + [s], entry, Better(best, s, entry))
  {
    var all := front + [s];
    if best.Some? {
      var i: nat :| IsNewest(front, entry, i) && front[i] == best.value;
      if Better(best, s, entry) == best && !(s.ts <= entry && s.ts > best.value.ts) {
        assert IsNewest(all, entry, i) && all[i] == best.value;
      } else {
        assert IsNewest(all, entry, |front|) && all[|front|] == s;
      }
    } else if s.ts <= entry {
      assert IsNewest(all, entry, |front|) && all[|front|] == s;
    }
  }

  lemma {:induction false} NewestIsFound(samples: seq<Sample>, entry: int)
    ensures Found(samples, entry, Newest(samples, entry))
  {
    if samples != [] {
      NewestIsFound(Front(samples), entry);
      FoundNext(Front(samples), Last(samples), entry, Newest(Front(samples), entry));
      assert samples == Front(samples) + [Last(samples)];
    }
  }

  /** A reading that is current, stale or missing. */
  function ReadingOf(best: Option<Sample>, entry: int, maxAge: int): EntryReading {
    if best.None? then EntryReading(None, None, None, NothingBefore)
    else
      var age := entry - best.value.ts;
      if age > maxAge then EntryReading(None, Some(best.value.ts), Some(age), TooOld)
      else EntryReading(Some(best.value.value), Some(best.value.ts), Some(age), Present)
  }

  lemma SamplesNext(points: seq<Point>, k: nat)
    requires k < |points|
    ensures Samples(points[..k + 1])
      == if points[k].ts.Some? && points[k].value.Some?
         then Samples(points[..k]) + [Sample(points[k].ts.value, points[k].value.value)] else Samples(points[..k])
  {
    assert Front(points[..k + 1]) == points[..k];
  }

  lemma NewestNext(samples: seq<Sample>, s: Sample, entry: int)
    ensures Newest(samples + [s], entry) == Better(Newest(samples, entry), s, entry)
  {
    assert Front(samples + [s]) == samples;
  }

  /** `reading_at_entry`. */
  method ReadingAtEntry(points: seq<Point>, entry: int, maxAge: int) returns (r: EntryReading)
    ensures r == ReadingOf(Newest(Samples(points), entry), entry, maxAge)
  {
    var bestTs: Option<int> := None;
    var bestValue: Option<real> := None;
    for k := 0 to |points|
      invariant bestTs.Some? <==> bestValue.Some?
      invariant Newest(Samples(points[..k]), entry)
        == if bestTs.None? then None else Some(Sample(bestTs.value, bestValue.value))
    {
      SamplesNext(points, k);
      var point := points[k];
      if point.ts.None? || point.value.None? { continue; }
      NewestNext(Samples(points[..k]), Sample(point.ts.value, point.value.value), entry);
      if point.ts.value > entry { continue; }
      if bestTs.None? || point.ts.value > bestTs.value {
        bestTs, bestValue := point.ts, point.value;
      }
    }
    assert points[..|points|] == points;
    if bestTs.None? {
      return EntryReading(None, None, None, NothingBefore);
    }
    var age := entry - bestTs.value;
    if age > maxAge {
      return EntryReading(None, bestTs, Some(age), TooOld);
    }
    r := EntryReading(bestValue, bestTs, Some(age), Present);
  }
}
