/** A pass in which nothing fails. */
module HarnessRecovery {
  // Whatever earlier passes left behind, interrupted, unsaved or unreported, one pass without failures
  // settles: it closes, reports, applies what is pending and nothing else, and reports that too.

  import opened Common
  import opened HarnessServer
  import opened HarnessHost
  import opened HarnessProtocol

  // ----- The pass

  function StillClosing(s: Sys): nat { if s.pc.Closing? then |s.pc.left| else 0 }

  function StillSending(s: Sys): nat { if s.pc.Sending? then |s.pc.left| else 0 }

  /** Closes every entry that is left to close. */
  function AllClosed(s: Sys): Sys
    decreases StillClosing(s)
  {
    if StillClosing(s) == 0 then s else AllClosed(Stepped(s, Close(true)))
  }

  function SentOne(s: Sys): Sys {
    Stepped(Stepped(s, Send(false)), Mark(true))
  }

  /** Reports every entry that is left to report. */
  function AllSent(s: Sys): Sys
    decreases StillSending(s)
  {
    if StillSending(s) == 0 then s else AllSent(SentOne(s))
  }

  function Polled(s: Sys): Sys {
    Stepped(Stepped(AllSent(Stepped(AllClosed(Stepped(s, Start)), Next)), Next), Poll)
  }

  /** What the poll handed over is run, or, if it was being applied, recorded as not run again. */
  function Handled(s: Sys, ok: bool): Sys {
    if !s.pc.Judging? then s
    else if HasEntry(s.mem, s.pc.c.id) || s.pc.shownApplying then Stepped(s, Judge(true))
    else Stepped(Stepped(Stepped(Stepped(s, Take(false)), Begin(true)), Effect(ok, false)), Conclude(true))
  }

  function Passed(s: Sys, ok: bool): Sys {
    var t := Handled(Polled(s), ok);
    if t.pc.Sending? then Stepped(AllSent(t), Next) else t
  }

  // ----- Closing

  /** What the entries say of a command the server has not settled stays what it was. */
  ghost predicate SaysTheSame(s: Sys, t: Sys) {
    forall id :: !Settled(s, id) ==> (Succeeded(t.mem, id) <==> Succeeded(s.mem, id))
  }

  /** Closing and reporting change nothing but the entries, the file and what the server knows of results. */
  predicate SameWorld(s: Sys, t: Sys) {
    t.issued == s.issued && t.applied == s.applied
  }

  lemma CloseKeepsSuccess(s: Sys, id: Id, e: Entry)
    requires OneEach(s.mem) && UnderwayIn(s.mem, id) && e in s.mem && e.phase != Underway && !e.reported
    ensures e in Trimmed(Completed(s.mem, id, Outcome(false, Interrupted)))
  {
    var ts := Completed(s.mem, id, Outcome(false, Interrupted));
    CompletedOnly(s.mem, id, Outcome(false, Interrupted));
    TrimKeeps(ts);
    var running :| running in s.mem && running.id == id && running.phase == Underway;
    if e.id == id { OneEntryPerId(s.mem, e, running); }
    var i :| 0 <= i < |s.mem| && s.mem[i] == e;
    assert ts[i] == e;
  }

  lemma CloseAddsNoSuccess(s: Sys, id: Id, e: Entry)
    requires OneEach(s.mem) && e in Trimmed(Completed(s.mem, id, Outcome(false, Interrupted)))
    requires e.result.Some? && e.result.value.ok
    ensures e in s.mem
  {
    var ts := Completed(s.mem, id, Outcome(false, Interrupted));
    CompletedOnly(s.mem, id, Outcome(false, Interrupted));
    TrimKeeps(ts);
    var i :| 0 <= i < |ts| && ts[i] == e;
    assert s.mem[i] == e;
  }

  /** A result the server has not settled is complete and not reported. */
  lemma SuccessIsOwed(s: Sys, e: Entry)
    requires EntriesOk(s, s.mem) && e in s.mem && e.result.Some? && !Settled(s, e.id)
    ensures Owed(e)
  {
    assert EntryOk(s, e);
  }

  lemma CloseSaysTheSame(s: Sys, id: Id, other: Id)
    requires EntriesOk(s, s.mem) && UnderwayIn(s.mem, id) && !Settled(s, other)
    ensures Succeeded(Trimmed(Completed(s.mem, id, Outcome(false, Interrupted))), other) <==> Succeeded(s.mem, other)
  {
    var ts := Trimmed(Completed(s.mem, id, Outcome(false, Interrupted)));
    assert OneEach(s.mem);
    hide EntriesOk, Settled, Trimmed, Completed, UnderwayIn, OneEach;
    if Succeeded(s.mem, other) {
      var e :| e in s.mem && e.id == other && e.result.Some? && e.result.value.ok;
      SuccessIsOwed(s, e);
      CloseKeepsSuccess(s, id, e);
    }
    if Succeeded(ts, other) {
      var e :| e in ts && e.id == other && e.result.Some? && e.result.value.ok;
      CloseAddsNoSuccess(s, id, e);
    }
  }

  lemma CloseOne(s: Sys)
    requires Inv(s) && StillClosing(s) > 0
    ensures var t := Stepped(s, Close(true));
      Inv(t) && t.pc == Closing(s.pc.left[1..]) && t.server == s.server && SameWorld(s, t) && SaysTheSame(s, t)
  {
    StepKeepsInv(s, Close(true));
    assert s.pc.left[0] in s.pc.left;
    forall other | !Settled(s, other)
      ensures Succeeded(Stepped(s, Close(true)).mem, other) <==> Succeeded(s.mem, other)
    {
      CloseSaysTheSame(s, s.pc.left[0], other);
    }
  }

  lemma {:induction false} ClosesAll(s: Sys)
    requires Inv(s) && s.pc.Closing?
    ensures var t := AllClosed(s);
      Inv(t) && t.pc == Closing([]) && t.server == s.server && SameWorld(s, t) && SaysTheSame(s, t)
    decreases StillClosing(s)
  {
    hide Inv, SaysTheSame;
    if s.pc.left == [] {
      SaysItself(s);
    } else {
      CloseOne(s);
      var t := Stepped(s, Close(true));
      ClosesAll(t);
      SaysTheSameOn(s, t, AllClosed(t));
    }
  }

  lemma SaysItself(s: Sys)
    ensures SaysTheSame(s, s)
  {
  }

  lemma SaysTheSameOn(s: Sys, t: Sys, u: Sys)
    requires SaysTheSame(s, t) && SaysTheSame(t, u) && s.server == t.server && SameWorld(s, t)
    ensures SaysTheSame(s, u)
  {
    forall id ensures Settled(s, id) == Settled(t, id) {
    }
  }

  // ----- Reporting

  /** What reporting one result does to what the server shows. */
  lemma RecordShows(server: Server, id: Id, ok: bool)
    requires Consistent(server) && (StatusOf(server).Pending? ==> server.current != Some(id))
    ensures var t := Record(server, id, ok);
      && t.current == server.current && t.desired == server.desired
      && StatusOf(t) ==
        if StatusOf(server).BeingApplied? && server.current == Some(id) then HostStatus.Finished(ok)
        else StatusOf(server)
  {
    if server.current.Some? { StatusAgreesWithLog(server); }
  }

  /** Everything that is owed is queued. */
  predicate AllQueued(s: Sys) {
    s.pc.Sending? && forall e :: e in s.mem && Owed(e) ==> e.id in s.pc.left
  }

  lemma MarkedOwesOther(es: seq<Entry>, id: Id, e: Entry)
    requires OneEach(es) && e in Trimmed(MarkedReported(es, id)) && Owed(e)
    ensures e in es && e.id != id
  {
    var ts := MarkedReported(es, id);
    MarkedOnly(es, id);
    TrimKeeps(ts);
    hide Trimmed, MarkedReported;
    var i :| 0 <= i < |ts| && ts[i] == e;
    assert es[i] == e;
  }

  lemma MarkedOwes(es: seq<Entry>, id: Id, left: seq<Id>)
    requires OneEach(es) && left != [] && left[0] == id && forall e :: e in es && Owed(e) ==> e.id in left
    ensures forall e :: e in Trimmed(MarkedReported(es, id)) && Owed(e) ==> e.id in left[1..]
  {
    assert left == [id] + left[1..];
    forall e | e in Trimmed(MarkedReported(es, id)) && Owed(e) ensures e.id in left[1..] {
      MarkedOwesOther(es, id, e);
    }
  }

  lemma MarkedSaysTheSame(es: seq<Entry>, id: Id, other: Id)
    requires OneEach(es) && OwedIn(es, other) && other != id
    ensures Succeeded(Trimmed(MarkedReported(es, id)), other) <==> Succeeded(es, other)
  {
    var ts := MarkedReported(es, id);
    MarkedOnly(es, id);
    TrimKeeps(ts);
    var owed :| owed in es && owed.id == other && Owed(owed);
    var i :| 0 <= i < |es| && es[i] == owed;
    assert ts[i] == owed;
    if Succeeded(es, other) {
      var e :| e in es && e.id == other && e.result.Some? && e.result.value.ok;
      OneEntryPerId(es, e, owed);
    }
    if Succeeded(Trimmed(ts), other) {
      var e :| e in Trimmed(ts) && e.id == other && e.result.Some? && e.result.value.ok;
      OneEntryPerId(ts, e, owed);
    }
  }

  lemma QueuedIsNotPending(s: Sys, id: Id)
    requires Inv(s) && s.pc.Sending? && id in s.pc.left
    ensures OwedIn(s.mem, id) && (StatusOf(s.server).Pending? ==> s.server.current != Some(id))
  {
    var e :| e in s.mem && e.id == id && Owed(e);
    assert EntryOk(s, e);
    if s.server.current.Some? { StatusAgreesWithLog(s.server); }
  }

  lemma SentOneIs(s: Sys)
    requires StillSending(s) > 0
    ensures var id := s.pc.left[0]; var es := Trimmed(MarkedReported(s.mem, id));
      SentOne(s) == s.(server := Record(s.server, id, Succeeded(s.mem, id)), mem := es, disk := es,
        pc := Sending(s.pc.left[1..], s.pc.onward))
  {
  }

  lemma SendOne(s: Sys)
    requires Inv(s) && AllQueued(s) && s.pc.left != []
    ensures var t, id := SentOne(s), s.pc.left[0];
      && Inv(t) && AllQueued(t) && t.pc == Sending(s.pc.left[1..], s.pc.onward) && SameWorld(s, t)
      && t.server == Record(s.server, id, Succeeded(s.mem, id))
      && forall other :: other in s.pc.left[1..] ==>
        other != id && (Succeeded(t.mem, other) <==> Succeeded(s.mem, other))
  {
    var id, rest := s.pc.left[0], s.pc.left[1..];
    assert s.pc.left == [id] + rest;
    StepKeepsInv(s, Send(false));
    StepKeepsInv(Stepped(s, Send(false)), Mark(true));
    SentOneIs(s);
    MarkedOwes(s.mem, id, s.pc.left);
    DistinctBehind(id, rest);
    forall other | other in rest
      ensures other != id && (Succeeded(SentOne(s).mem, other) <==> Succeeded(s.mem, other))
    {
      assert other in s.pc.left;
      MarkedSaysTheSame(s.mem, id, other);
    }
  }

  /** What the server shows once everything queued is reported. */
  function ShownAfter(s: Sys): HostStatus
    requires s.pc.Sending?
  {
    if StatusOf(s.server).BeingApplied? && s.server.current.value in s.pc.left then
      HostStatus.Finished(Succeeded(s.mem, s.server.current.value))
    else StatusOf(s.server)
  }

  predicate SameRow(s: Sys, t: Sys) {
    t.server.current == s.server.current && t.server.desired == s.server.desired
  }

  lemma SendOneShows(s: Sys)
    requires Inv(s) && AllQueued(s) && s.pc.left != []
    ensures SentOne(s).pc.Sending? && SameRow(s, SentOne(s)) && ShownAfter(SentOne(s)) == ShownAfter(s)
  {
    assert Consistent(s.server);
    hide Inv, AllQueued, SentOne, Consistent, StatusOf;
    SendOne(s);
    var id, rest := s.pc.left[0], s.pc.left[1..];
    assert s.pc.left == [id] + rest;
    QueuedIsNotPending(s, id);
    RecordShows(s.server, id, Succeeded(s.mem, id));
  }

  predicate AllReported(es: seq<Entry>) {
    forall e :: e in es ==> e.phase == Complete && e.reported
  }

  lemma {:induction false} SendsAll(s: Sys)
    requires Inv(s) && AllQueued(s)
    ensures var t := AllSent(s);
      && Inv(t) && t.pc == Sending([], s.pc.onward) && SameWorld(s, t) && SameRow(s, t)
      && AllReported(t.mem) && StatusOf(t.server) == ShownAfter(s)
    decreases StillSending(s)
  {
    if s.pc.left == [] {
      NothingOwed(s);
    } else {
      SendOne(s);
      SendOneShows(s);
      hide Inv, AllQueued, ShownAfter, SentOne, AllReported;
      SendsAll(SentOne(s));
    }
  }

  lemma NothingOwed(s: Sys)
    requires Inv(s) && AllQueued(s) && s.pc.left == []
    ensures AllReported(s.mem)
  {
    forall e | e in s.mem ensures e.phase == Complete && e.reported {
      assert EntryOk(s, e);
    }
  }

  // ----- Up to the poll

  /** What the host's own entries make of the status the server shows. */
  function Reported(s: Sys): HostStatus {
    if StatusOf(s.server).BeingApplied? then HostStatus.Finished(Succeeded(s.mem, s.server.current.value))
    else StatusOf(s.server)
  }

  /** Still shown as being applied, and nothing here says it succeeded. */
  predicate LeftApplying(s: Sys, shown: HostStatus) {
    shown == StatusOf(s.server) && shown.BeingApplied? && Reported(s) == HostStatus.Finished(false)
  }

  /**
   Where the pass stands when it polls: all reported, and a command still shown as being applied did not
   succeed here.
   */
  ghost predicate ReadyToPoll(s: Sys, t: Sys) {
    && Inv(t) && t.pc.Polling? && AllReported(t.mem) && SameWorld(s, t) && SameRow(s, t)
    && (StatusOf(t.server) == Reported(s) || LeftApplying(s, StatusOf(t.server)))
  }

  lemma ApplyingNotSettled(s: Sys)
    requires Consistent(s.server) && StatusOf(s.server).BeingApplied?
    ensures !Settled(s, s.server.current.value)
  {
    StatusAgreesWithLog(s.server);
  }

  /** An unsettled command that succeeded here is owed. */
  lemma SucceededIsOwed(s: Sys, id: Id)
    requires EntriesOk(s, s.mem) && !Settled(s, id) && Succeeded(s.mem, id)
    ensures OwedIn(s.mem, id)
  {
    var e :| e in s.mem && e.id == id && e.result.Some? && e.result.value.ok;
    SuccessIsOwed(s, e);
  }

  /** After closing, everything owed is queued. */
  lemma QueuesAll(s: Sys)
    requires Inv(s) && s.pc == Closing([])
    ensures var t := Stepped(s, Next); Inv(t) && AllQueued(t) && t == s.(pc := Sending(Unreported(s.mem), ToPoll))
  {
    StepKeepsInv(s, Next);
  }

  lemma ShownIsReported(s: Sys, t: Sys)
    requires Inv(s) && Inv(t) && SaysTheSame(s, t) && t.server == s.server && t.issued == s.issued && AllQueued(t)
    ensures ShownAfter(t) == Reported(s) || LeftApplying(s, ShownAfter(t))
  {
    if StatusOf(s.server).BeingApplied? {
      ApplyingNotSettled(s);
      ApplyingNotSettled(t);
      var id := s.server.current.value;
      if Succeeded(t.mem, id) { SucceededIsOwed(t, id); }
    }
  }

  lemma ReachesPoll(s: Sys)
    requires Inv(s) && s.pc.Resting?
    ensures ReadyToPoll(s, Stepped(AllSent(Stepped(AllClosed(Stepped(s, Start)), Next)), Next))
  {
    hide Inv, AllQueued, AllReported, AllClosed, AllSent, Settled, Succeeded, Underways, Unreported, StatusOf;
    Starts(s);
    var s1 := Stepped(s, Start);
    ClosesAll(s1);
    var s2 := AllClosed(s1);
    QueuesAll(s2);
    var s3 := Stepped(s2, Next);
    ShownIsReported(s1, s3);
    SendsAll(s3);
    GoesOnToPoll(AllSent(s3));
  }

  lemma Starts(s: Sys)
    requires Inv(s) && s.pc.Resting?
    ensures Inv(Stepped(s, Start)) && Stepped(s, Start) == s.(pc := Closing(Underways(s.mem)))
  {
    StepKeepsInv(s, Start);
  }

  lemma GoesOnToPoll(s: Sys)
    requires Inv(s) && s.pc == Sending([], ToPoll)
    ensures Inv(Stepped(s, Next)) && Stepped(s, Next) == s.(pc := Polling)
  {
    StepKeepsInv(s, Next);
  }

  // ----- What was handed over

  lemma EntryIsSettled(s: Sys, id: Id)
    requires Inv(s) && AllReported(s.mem)
    ensures HasEntry(s.mem, id) ==> Settled(s, id)
  {
    if HasEntry(s.mem, id) {
      var e :| e in s.mem && e.id == id;
      assert EntryOk(s, e);
    }
  }

  lemma HandedNotSettled(s: Sys)
    requires Inv(s) && Handed(s.server).Some?
    ensures !Settled(s, s.server.current.value)
  {
    StatusAgreesWithLog(s.server);
  }

  /** A command with an entry that is reported is not handed over. */
  lemma HandedHasNoEntry(s: Sys)
    requires Inv(s) && AllReported(s.mem) && Handed(s.server).Some?
    ensures !HasEntry(s.mem, s.server.current.value)
  {
    hide Inv, AllReported, HasEntry, Settled;
    HandedNotSettled(s);
    EntryIsSettled(s, s.server.current.value);
  }

  lemma AddedIsOnlyDebt(es: seq<Entry>, e: Entry)
    requires AllReported(es) && !e.reported
    ensures e in Trimmed(es + [e]) && forall f :: f in Trimmed(es + [e]) && !f.reported ==> f == e
  {
    TrimKeeps(es + [e]);
    assert (es + [e])[|es|] == e;
  }

  /** The one entry that is owed is queued, and says what happened. */
  ghost predicate OwesOne(t: Sys, id: Id, ok: bool) {
    Inv(t) && AllQueued(t) && t.pc.onward == ToRest && id in t.pc.left && (Succeeded(t.mem, id) <==> ok)
  }

  lemma NotRunAgain(s: Sys, c: Command)
    requires Inv(s) && s.pc == Judging(c, true) && AllReported(s.mem) && !HasEntry(s.mem, c.id)
    ensures var t := Stepped(s, Judge(true)); OwesOne(t, c.id, false) && t.server == s.server && SameWorld(s, t)
  {
    hide Trimmed, ServerOk, EffectsOk, FileOk, PcOk;
    StepKeepsInv(s, Judge(true));
    AddedIsOnlyDebt(s.mem, Unrun(c));
    TrimKeeps(s.mem + [Unrun(c)]);
    var ts := Trimmed(s.mem + [Unrun(c)]);
    forall e | e in ts && e.id == c.id ensures e == Unrun(c) {
    }
  }

  lemma TakenStep(s: Sys, c: Command)
    requires s.pc == Judging(c, false) && !HasEntry(s.mem, c.id) && JudgeClaim(s.server, c.id) == Claimed
    ensures Stepped(s, Take(false)) == s.(server := Claim(s.server, c.id), pc := Granted(c))
  {
  }

  lemma NotedStep(s: Sys, c: Command)
    requires s.pc == Granted(c)
    ensures var es := Trimmed(s.mem + [Begun(c)]); Stepped(s, Begin(true)) == s.(mem := es, disk := es, pc := Noted(c))
  {
  }

  lemma EffectStep(s: Sys, c: Command, ok: bool)
    requires s.pc == Noted(c)
    ensures Stepped(s, Effect(ok, false)) == s.(applied := s.applied + [c], pc := Returned(c, ok))
  {
  }

  /** Taken, noted and applied. */
  lemma AppliedSteps(s: Sys, c: Command, ok: bool)
    requires Inv(s) && s.pc == Judging(c, false) && !HasEntry(s.mem, c.id) && JudgeClaim(s.server, c.id) == Claimed
    ensures var es := Trimmed(s.mem + [Begun(c)]);
      var t := Stepped(Stepped(Stepped(s, Take(false)), Begin(true)), Effect(ok, false));
      && Inv(t)
      && t == s.(server := Claim(s.server, c.id), mem := es, disk := es, applied := s.applied + [c],
        pc := Returned(c, ok))
  {
    hide Inv, Stepped, Trimmed, Claim, JudgeClaim, HasEntry;
    StepKeepsInv(s, Take(false));
    TakenStep(s, c);
    var s1 := Stepped(s, Take(false));
    StepKeepsInv(s1, Begin(true));
    NotedStep(s1, c);
    var s2 := Stepped(s1, Begin(true));
    StepKeepsInv(s2, Effect(ok, false));
    EffectStep(s2, c, ok);
  }

  lemma ConcludedSays(es: seq<Entry>, c: Command, outcome: Outcome)
    requires OneEach(es) && Begun(c) in es
    ensures var ts := Trimmed(Completed(es, c.id, outcome));
      OwedIn(ts, c.id) && (Succeeded(ts, c.id) <==> outcome.ok)
  {
    var ts := Completed(es, c.id, outcome);
    CompletedOnly(es, c.id, outcome);
    TrimKeeps(ts);
    var i :| 0 <= i < |es| && es[i] == Begun(c);
    var done := ts[i];
    assert done in ts && Owed(done) && done in Trimmed(ts);
    forall e | e in Trimmed(ts) && e.id == c.id ensures e == done {
      OneEntryPerId(ts, e, done);
    }
  }

  lemma ConcludeOwes(s: Sys, c: Command, ok: bool)
    requires Inv(s) && s.pc == Returned(c, ok)
    ensures var t := Stepped(s, Conclude(true)); OwesOne(t, c.id, ok) && t.server == s.server && SameWorld(s, t)
  {
    hide Stepped, Trimmed, Completed, Unreported;
    StepKeepsInv(s, Conclude(true));
    ConcludedStep(s, c, ok);
    ReturnedHolds(s, c, ok);
    hide Inv;
    ConcludedSays(s.mem, c, Outcome(ok, Ran));
  }

  lemma ReturnedHolds(s: Sys, c: Command, ok: bool)
    requires Inv(s) && s.pc == Returned(c, ok)
    ensures OneEach(s.mem) && Begun(c) in s.mem
  {
  }

  lemma ConcludedStep(s: Sys, c: Command, ok: bool)
    requires s.pc == Returned(c, ok)
    ensures var es := Trimmed(Completed(s.mem, c.id, Outcome(ok, Ran)));
      Stepped(s, Conclude(true)) == s.(mem := es, disk := es, pc := Sending(Unreported(es), ToRest))
  {
    hide Trimmed, Completed, Unreported;
  }

  lemma ClaimShowsApplying(server: Server)
    requires Consistent(server) && StatusOf(server).Pending?
    ensures var t := Claim(server, server.current.value);
      t.current == server.current && StatusOf(t).BeingApplied?
  {
    StatusAgreesWithLog(server);
    ClaimKeeps(server, server.current.value);
  }

  /** What the pass applies: the current command, if it was pending. */
  function ToApply(s: Sys): seq<Command> {
    if StatusOf(s.server).Pending? then [Command(s.server.current.value, s.server.desired)] else []
  }

  /** What one pass without failures leaves. */
  ghost predicate Settles(s: Sys, t: Sys, applied: seq<Command>, shown: HostStatus) {
    Inv(t) && t.pc.Resting? && AllReported(t.mem) && t.issued == s.issued && t.applied == applied
      && StatusOf(t.server) == shown
  }

  lemma GoesToRest(s: Sys)
    requires Inv(s) && s.pc == Sending([], ToRest)
    ensures Inv(Stepped(s, Next)) && Stepped(s, Next) == s.(pc := Resting)
  {
    StepKeepsInv(s, Next);
  }

  lemma DebtIsPaid(s: Sys, id: Id, ok: bool)
    requires OwesOne(s, id, ok) && s.server.current == Some(id) && StatusOf(s.server).BeingApplied?
    ensures Settles(s, Stepped(AllSent(s), Next), s.applied, HostStatus.Finished(ok))
  {
    hide Inv, AllQueued, AllReported, AllSent;
    SendsAll(s);
    GoesToRest(AllSent(s));
  }

  lemma PendingIsRun(s: Sys, ok: bool)
    requires Inv(s) && s.pc.Polling? && AllReported(s.mem) && StatusOf(s.server).Pending?
    ensures var t := Handled(Stepped(s, Poll), ok);
      t.pc.Sending? && Settles(s, Stepped(AllSent(t), Next), s.applied + ToApply(s), HostStatus.Finished(ok))
  {
    var c := Command(s.server.current.value, s.server.desired);
    StepKeepsInv(s, Poll);
    HandedHasNoEntry(s);
    StatusAgreesWithLog(s.server);
    var s1 := Stepped(s, Poll);
    AppliedSteps(s1, c, ok);
    var s2 := Stepped(Stepped(Stepped(s1, Take(false)), Begin(true)), Effect(ok, false));
    ConcludeOwes(s2, c, ok);
    ClaimShowsApplying(s.server);
    DebtIsPaid(Stepped(s2, Conclude(true)), c.id, ok);
  }

  lemma ApplyingIsClosed(s: Sys, ok: bool)
    requires Inv(s) && s.pc.Polling? && AllReported(s.mem) && StatusOf(s.server).BeingApplied?
    ensures var t := Handled(Stepped(s, Poll), ok);
      t.pc.Sending? && Settles(s, Stepped(AllSent(t), Next), s.applied, HostStatus.Finished(false))
  {
    var c := Command(s.server.current.value, s.server.desired);
    StepKeepsInv(s, Poll);
    HandedHasNoEntry(s);
    var s1 := Stepped(s, Poll);
    NotRunAgain(s1, c);
    DebtIsPaid(Stepped(s1, Judge(true)), c.id, false);
  }

  lemma NothingHanded(s: Sys, ok: bool)
    requires Inv(s) && s.pc.Polling? && AllReported(s.mem) && Handed(s.server).None?
    ensures var t := Handled(Stepped(s, Poll), ok); !t.pc.Sending? && Settles(s, t, s.applied, StatusOf(s.server))
  {
    StepKeepsInv(s, Poll);
  }

  /** What the server shows after the pass. */
  function ShownByPass(s: Sys, ok: bool): HostStatus {
    if StatusOf(s.server).Pending? then HostStatus.Finished(ok) else Reported(s)
  }

  /**
   From any state between two passes, whatever crashes, lost replies and failed saves came before: a pass in
   which nothing fails ends with every entry complete and reported. It applies the current command exactly if
   that was pending, once, and nothing else. The server then shows that outcome; or, for a command it showed as
   being applied, success exactly if the host holds a result that says so; or what it showed before.
   */
  lemma HealthyPass(s: Sys, ok: bool)
    requires Inv(s) && s.pc.Resting?
    ensures Settles(s, Passed(s, ok), s.applied + ToApply(s), ShownByPass(s, ok))
  {
    hide Inv, AllSent, AllClosed, Stepped, Handled, AllReported;
    ReachesPoll(s);
    var t := Stepped(AllSent(Stepped(AllClosed(Stepped(s, Start)), Next)), Next);
    if StatusOf(t.server).Pending? {
      PendingIsRun(t, ok);
    } else if StatusOf(t.server).BeingApplied? {
      ApplyingIsClosed(t, ok);
      assert s.applied + [] == s.applied;
    } else {
      NothingHanded(t, ok);
      assert s.applied + [] == s.applied;
    }
  }

  // ----- The parts of the pass

  /** What the poll hands over when nothing has failed: the pending command, or one still shown as being applied. */
  lemma PollDecides(s: Sys)
    requires Inv(s) && s.pc.Resting?
    ensures var p := Polled(s);
      && (p.pc.Resting? || p.pc.Judging?)
      && (StatusOf(s.server).Pending? <==> p.pc.Judging? && !p.pc.shownApplying)
      && (p.pc.Judging? ==> !HasEntry(p.mem, p.pc.c.id))
      && (p.pc.Judging? && !p.pc.shownApplying ==> JudgeClaim(p.server, p.pc.c.id) == Claimed)
  {
    hide Inv, AllSent, AllClosed, AllReported, HasEntry, JudgeClaim;
    ReachesPoll(s);
    var t := Stepped(AllSent(Stepped(AllClosed(Stepped(s, Start)), Next)), Next);
    if Handed(t.server).Some? {
      HandedHasNoEntry(t);
      ServerIsConsistent(t);
      StatusAgreesWithLog(t.server);
    }
  }

  lemma ServerIsConsistent(s: Sys)
    requires Inv(s)
    ensures Consistent(s.server)
  {
  }

  lemma PassedIdle(s: Sys)
    requires Polled(s).pc.Resting?
    ensures forall ok :: Passed(s, ok) == Polled(s)
  {
    hide Polled, AllSent;
  }

  lemma PassedUnrun(s: Sys)
    requires Inv(s) && s.pc.Resting? && Polled(s).pc.Judging? && Polled(s).pc.shownApplying
    ensures forall ok :: Passed(s, ok) == Stepped(AllSent(Stepped(Polled(s), Judge(true))), Next)
  {
    PollDecides(s);
    JudgedSends(Polled(s));
    hide Polled, AllSent, Stepped;
  }

  lemma JudgedSends(p: Sys)
    requires p.pc.Judging? && p.pc.shownApplying && !HasEntry(p.mem, p.pc.c.id)
    ensures Stepped(p, Judge(true)).pc.Sending?
  {
    hide Trimmed, Unreported;
  }

  lemma PassedApplied(s: Sys, ok: bool)
    requires Inv(s) && s.pc.Resting? && Polled(s).pc.Judging? && !Polled(s).pc.shownApplying
    ensures Passed(s, ok) == Stepped(AllSent(
      Stepped(Stepped(Stepped(Stepped(Polled(s), Take(false)), Begin(true)), Effect(ok, false)), Conclude(true))), Next)
  {
    PollDecides(s);
    AppliedSends(Polled(s), ok);
    hide Polled, AllSent, Stepped;
  }

  lemma AppliedSends(p: Sys, ok: bool)
    requires p.pc.Judging? && !p.pc.shownApplying && !HasEntry(p.mem, p.pc.c.id)
    requires JudgeClaim(p.server, p.pc.c.id) == Claimed
    ensures var applied := Stepped(Stepped(Stepped(p, Take(false)), Begin(true)), Effect(ok, false));
      Stepped(applied, Conclude(true)).pc.Sending?
  {
    hide Stepped;
    var c := p.pc.c;
    TakenStep(p, c);
    NotedStep(Stepped(p, Take(false)), c);
    EffectStep(Stepped(Stepped(p, Take(false)), Begin(true)), c, ok);
    ConcludedStep(Stepped(Stepped(Stepped(p, Take(false)), Begin(true)), Effect(ok, false)), c, ok);
  }

  // ----- The pass as a run of steps

  lemma OneMoreStep(steps: seq<Step>, step: Step)
    ensures After(steps + [step]) == Stepped(After(steps), step)
  {
    assert Front(steps + [step]) == steps;
  }

  lemma OneLessToClose(s: Sys)
    requires StillClosing(s) > 0
    ensures StillClosing(Stepped(s, Close(true))) < StillClosing(s)
  {
    hide Trimmed, Completed;
  }

  lemma OneLessToSend(s: Sys)
    requires StillSending(s) > 0
    ensures StillSending(SentOne(s)) < StillSending(s)
  {
    hide Trimmed, MarkedReported, Record, Succeeded;
  }

  lemma {:induction false} ClosingRun(steps: seq<Step>) returns (run: seq<Step>)
    ensures steps <= run && After(run) == AllClosed(After(steps))
    decreases StillClosing(After(steps))
  {
    run := steps;
    if StillClosing(After(steps)) > 0 {
      hide Stepped, After;
      OneLessToClose(After(steps));
      OneMoreStep(steps, Close(true));
      run := ClosingRun(steps + [Close(true)]);
    }
  }

  lemma {:induction false} SendingRun(steps: seq<Step>) returns (run: seq<Step>)
    ensures steps <= run && After(run) == AllSent(After(steps))
    decreases StillSending(After(steps))
  {
    run := steps;
    if StillSending(After(steps)) > 0 {
      hide Stepped, After;
      OneLessToSend(After(steps));
      OneMoreStep(steps, Send(false));
      OneMoreStep(steps + [Send(false)], Mark(true));
      run := SendingRun(steps + [Send(false)] + [Mark(true)]);
    }
  }

  lemma PollingRun(steps: seq<Step>) returns (run: seq<Step>)
    ensures steps <= run && After(run) == Polled(After(steps))
  {
    hide Stepped;
    OneMoreStep(steps, Start);
    run := ClosingRun(steps + [Start]);
    OneMoreStep(run, Next);
    run := SendingRun(run + [Next]);
    OneMoreStep(run, Next);
    OneMoreStep(run + [Next], Poll);
    run := run + [Next] + [Poll];
  }

  lemma HandlingRun(steps: seq<Step>, ok: bool) returns (run: seq<Step>)
    ensures steps <= run && After(run) == Handled(After(steps), ok)
  {
    hide Stepped;
    var s := After(steps);
    run := steps;
    if s.pc.Judging? {
      if HasEntry(s.mem, s.pc.c.id) || s.pc.shownApplying {
        OneMoreStep(run, Judge(true));
        run := run + [Judge(true)];
      } else {
        OneMoreStep(run, Take(false));
        run := run + [Take(false)];
        OneMoreStep(run, Begin(true));
        run := run + [Begin(true)];
        OneMoreStep(run, Effect(ok, false));
        run := run + [Effect(ok, false)];
        OneMoreStep(run, Conclude(true));
        run := run + [Conclude(true)];
      }
    }
  }

  /** So any run that ends between two passes can be continued by a pass that settles everything. */
  lemma AnyRunRecovers(steps: seq<Step>, ok: bool) returns (run: seq<Step>)
    requires After(steps).pc.Resting?
    ensures steps <= run && After(run) == Passed(After(steps), ok)
    ensures var s := After(steps); Settles(s, After(run), s.applied + ToApply(s), ShownByPass(s, ok))
  {
    hide Stepped, Handled, Polled, AllSent, Settles;
    run := PollingRun(steps);
    run := HandlingRun(run, ok);
    if After(run).pc.Sending? {
      run := SendingRun(run);
      OneMoreStep(run, Next);
      run := run + [Next];
    }
    Reachable(steps);
    HealthyPass(After(steps), ok);
  }
}
