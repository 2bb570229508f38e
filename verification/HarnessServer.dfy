/** The kill switch's server side: one control row, and an audit log that only grows. */
module HarnessServer {
  import opened Common

  type Id = string

  datatype Desired = Running | Stopped

  datatype Kind = Requested | Applying | Applied | Failed

  datatype Event = Event(kind: Kind, id: Id, desired: Desired)

  /** What an operator asked for. */
  datatype Command = Command(id: Id, desired: Desired)

  datatype Report = Report(id: Id, ok: bool)

  datatype Server = Server(desired: Desired, current: Option<Id>, claimed: Option<Id>, result: Option<Report>,
      log: seq<Event>)

  datatype ClaimVerdict = Unknown | Reported | Superseded | AlreadyClaimed | Claimed

  datatype ReportVerdict = NoSuchCommand | Duplicate | Recorded

  datatype HostStatus = Nothing | Pending | BeingApplied | Finished(ok: bool)

  const SEED := Server(Running, None, None, None, [])

  const RESULTS: set<Kind> := {Applied, Failed}

  function Kinds(s: Server, id: Id): set<Kind> {
    set e | e in s.log && e.id == id :: e.kind
  }

  predicate Known(s: Server, id: Id) {
    Requested in Kinds(s, id)
  }

  predicate HasResult(s: Server, id: Id) {
    Kinds(s, id) * RESULTS != {}
  }

  function Request(s: Server, c: Command): Server {
    s.(desired := c.desired, current := Some(c.id), log := s.log + [Event(Requested, c.id, c.desired)])
  }

  function JudgeClaim(s: Server, id: Id): ClaimVerdict {
    if !Known(s, id) then Unknown
    else if HasResult(s, id) then Reported
    else if s.current != Some(id) then Superseded
    else if Applying in Kinds(s, id) then AlreadyClaimed
    else Claimed
  }

  function Claim(s: Server, id: Id): Server {
    if JudgeClaim(s, id) == Claimed then
      s.(claimed := Some(id), log := s.log + [Event(Applying, id, s.desired)])
    else s
  }

  function JudgeReport(s: Server, id: Id): ReportVerdict {
    if !Known(s, id) then NoSuchCommand
    else if HasResult(s, id) then Duplicate
    else Recorded
  }

  predicate KeepsCurrentResult(s: Server, id: Id) {
    s.current != Some(id) && s.result.Some? && Some(s.result.value.id) == s.current
  }

  /** The state the command's request asked for. */
  function RequestedState(log: seq<Event>, id: Id): Desired {
    if log == [] then Running
    else if log[0].id == id && log[0].kind == Requested then log[0].desired
    else RequestedState(log[1..], id)
  }

  lemma {:induction false} RequestedStateIsAsked(log: seq<Event>, id: Id)
    requires exists e :: e in log && e.id == id && e.kind == Requested
    ensures Event(Requested, id, RequestedState(log, id)) in log
  {
    if !(log[0].id == id && log[0].kind == Requested) {
      var e :| e in log && e.id == id && e.kind == Requested;
      assert e in log[1..];
      RequestedStateIsAsked(log[1..], id);
    }
  }

  function Record(s: Server, id: Id, ok: bool): Server {
    if JudgeReport(s, id) != Recorded then s
    else
      var event := Event(if ok then Applied else Failed, id, RequestedState(s.log, id));
      var result := if KeepsCurrentResult(s, id) then s.result else Some(Report(id, ok));
      s.(result := result, log := s.log + [event])
  }

  function StatusOf(s: Server): HostStatus {
    if s.current.None? then Nothing
    else if s.result.Some? && s.result.value.id == s.current.value then Finished(s.result.value.ok)
    else if s.claimed == s.current then BeingApplied
    else Pending
  }

  /** The host's poll: the current command while it has no result. */
  function Handed(s: Server): Option<Command> {
    if StatusOf(s).Pending? || StatusOf(s).BeingApplied? then Some(Command(s.current.value, s.desired)) else None
  }

  lemma KindsGrow(s: Server, t: Server, e: Event)
    requires t.log == s.log + [e]
    ensures forall id :: Kinds(t, id) == Kinds(s, id) + (if e.id == id then {e.kind} else {})
  {
    forall id ensures Kinds(t, id) == Kinds(s, id) + (if e.id == id then {e.kind} else {}) {
      forall k | k in Kinds(s, id) + (if e.id == id then {e.kind} else {}) ensures k in Kinds(t, id) {
        if k in Kinds(s, id) {
          var f :| f in s.log && f.id == id && f.kind == k;
          assert f in t.log;
        } else {
          assert e in t.log;
        }
      }
    }
  }

  /** Two audit rows that the unique index treats as the same thing. */
  predicate SameSlot(e: Event, f: Event) {
    e.id == f.id && (e.kind == f.kind || (e.kind in RESULTS && f.kind in RESULTS))
  }

  /** What the row and the log say about each other, in every state the server reaches. */
  ghost predicate Consistent(s: Server) {
    && (forall id :: Kinds(s, id) != {} ==> Known(s, id))
    && (forall i, j :: 0 <= i < j < |s.log| ==> !SameSlot(s.log[i], s.log[j]))
    && (s.claimed.Some? ==> Applying in Kinds(s, s.claimed.value))
    && (s.result.Some? ==> (if s.result.value.ok then Applied else Failed) in Kinds(s, s.result.value.id))
    && (s.current.Some? ==>
          && Known(s, s.current.value)
          && (Applying in Kinds(s, s.current.value) ==> s.claimed == s.current)
          && (HasResult(s, s.current.value) ==> s.result.Some? && s.result.value.id == s.current.value))
  }

  lemma SlotTaken(s: Server, e: Event)
    requires Consistent(s)
    requires if e.kind in RESULTS then !HasResult(s, e.id) else e.kind !in Kinds(s, e.id)
    ensures var log := s.log + [e]; forall i, j :: 0 <= i < j < |log| ==> !SameSlot(log[i], log[j])
  {
    forall i | 0 <= i < |s.log|
      ensures s.log[i].kind in Kinds(s, s.log[i].id)
      ensures s.log[i].kind in RESULTS ==> HasResult(s, s.log[i].id)
    {
      assert s.log[i] in s.log;
      if s.log[i].kind in RESULTS { assert s.log[i].kind in Kinds(s, s.log[i].id) * RESULTS; }
    }
  }

  lemma RequestKeeps(s: Server, c: Command)
    requires Consistent(s) && Kinds(s, c.id) == {}
    ensures Consistent(Request(s, c))
  {
    var e := Event(Requested, c.id, c.desired);
    KindsGrow(s, Request(s, c), e);
    SlotTaken(s, e);
  }

  lemma ClaimKeeps(s: Server, id: Id)
    requires Consistent(s)
    ensures Consistent(Claim(s, id))
  {
    if JudgeClaim(s, id) == Claimed {
      var e := Event(Applying, id, s.desired);
      KindsGrow(s, Claim(s, id), e);
      SlotTaken(s, e);
    }
  }

  lemma RecordKeeps(s: Server, id: Id, ok: bool)
    requires Consistent(s)
    ensures Consistent(Record(s, id, ok))
  {
    if JudgeReport(s, id) == Recorded {
      var t := Record(s, id, ok);
      KindsGrow(s, t, Last(t.log));
      SlotTaken(s, Last(t.log));
    }
  }

  /** The row's status is exactly what the audit log says of the current command. */
  lemma StatusAgreesWithLog(s: Server)
    requires Consistent(s) && s.current.Some?
    ensures StatusOf(s).Finished? <==> HasResult(s, s.current.value)
    ensures StatusOf(s).BeingApplied? <==> Applying in Kinds(s, s.current.value) && !HasResult(s, s.current.value)
    ensures StatusOf(s).Finished? ==> (if StatusOf(s).ok then Applied else Failed) in Kinds(s, s.current.value)
    ensures StatusOf(s).Pending? <==> JudgeClaim(s, s.current.value) == Claimed
    ensures forall id :: JudgeClaim(s, id) == Claimed ==> Some(id) == s.current
  {
    if StatusOf(s).Finished? {
      assert (if s.result.value.ok then Applied else Failed) in Kinds(s, s.current.value) * RESULTS;
    }
  }

  /** A late result for an older command never hides the current command's own result. */
  lemma LateResultIsOnlyAudited(s: Server, id: Id, ok: bool)
    requires Consistent(s) && StatusOf(s).Finished? && JudgeReport(s, id) == Recorded
    ensures StatusOf(Record(s, id, ok)) == StatusOf(s)
    ensures (if ok then Applied else Failed) in Kinds(Record(s, id, ok), id)
  {
    StatusAgreesWithLog(s);
    var t := Record(s, id, ok);
    KindsGrow(s, t, Last(t.log));
  }
}
