/** The kill switch. */
module HarnessProtocol {
  // The kill switch as a step system: the server, the host process, its state file and the gateway.
  //
  // Each step is one effect of the host's pass, or something that happens around it: an operator's
  // request, the server's tables being dropped and seeded again, the process dying or starting, the
  // state file being lost, an exception leaving the pass, a reply that never arrives, a save that fails.
  // A step whose guard does not hold changes nothing, so every sequence of steps is a run.

  import opened Common
  import opened HarnessServer
  import opened HarnessHost

  datatype AfterSending = ToPoll | ToRest

  /** Where the host process is in its pass. */
  datatype Pc =
    | Down
    | Resting
    | Closing(left: seq<Id>)
    | Sending(left: seq<Id>, onward: AfterSending)
    | Answered(id: Id, left: seq<Id>, onward: AfterSending)
    | Polling
    | Judging(c: Command, shownApplying: bool)
    | Granted(c: Command)
    | Noted(c: Command)
    | Returned(c: Command, ok: bool)

  /** `issued` and `applied` are history: every request in order, and every call of `gateway.apply` in order. */
  datatype Sys = Sys(server: Server, mem: seq<Entry>, disk: seq<Entry>, pc: Pc, issued: seq<Command>,
      applied: seq<Command>)

  datatype Step =
    | Ask(c: Command)
    | Forget
    | LoseFile
    | Crash
    | Boot
    | Raise
    | Start
    | Close(saved: bool)
    | Next
    | Send(replyLost: bool)
    | Mark(saved: bool)
    | Poll
    | Judge(saved: bool)
    | Take(replyLost: bool)
    | Begin(saved: bool)
    | Effect(ok: bool, raised: bool)
    | Conclude(saved: bool)

  const START := Sys(SEED, [], [], Down, [], [])

  predicate Issued(s: Sys, id: Id) {
    exists c :: c in s.issued && c.id == id
  }

  predicate WasApplied(s: Sys, id: Id) {
    exists c :: c in s.applied && c.id == id
  }

  predicate Succeeded(es: seq<Entry>, id: Id) {
    exists e :: e in es && e.id == id && e.result.Some? && e.result.value.ok
  }

  function Stored(s: Sys, es: seq<Entry>, saved: bool, pc: Pc): Sys {
    s.(mem := Trimmed(es), disk := if saved then Trimmed(es) else s.disk, pc := if saved then pc else Resting)
  }

  predicate Enabled(s: Sys, step: Step) {
    match step
    case Ask(c) => !Issued(s, c.id)
    case Forget => true
    case LoseFile => true
    case Crash => true
    case Boot => s.pc.Down?
    case Raise => !s.pc.Down?
    case Start => s.pc.Resting?
    case Close(_) => s.pc.Closing? && s.pc.left != []
    case Next => (s.pc.Closing? || s.pc.Sending?) && s.pc.left == []
    case Send(_) => s.pc.Sending? && s.pc.left != []
    case Mark(_) => s.pc.Answered?
    case Poll => s.pc.Polling?
    case Judge(_) => s.pc.Judging? && (HasEntry(s.mem, s.pc.c.id) || s.pc.shownApplying)
    case Take(_) => s.pc.Judging? && !HasEntry(s.mem, s.pc.c.id) && !s.pc.shownApplying
    case Begin(_) => s.pc.Granted?
    case Effect(_, _) => s.pc.Noted?
    case Conclude(_) => s.pc.Returned?
  }

  function Do(s: Sys, step: Step): Sys
    requires Enabled(s, step)
  {
    match step
    case Ask(c) => s.(server := Request(s.server, c), issued := s.issued + [c])
    case Forget => s.(server := SEED)
    case LoseFile => s.(disk := [])
    case Crash => s.(pc := Down, mem := [])
    case Boot => s.(pc := Resting, mem := s.disk)
    case Raise => s.(pc := Resting)
    case Start => s.(pc := Closing(Underways(s.mem)))
    case Close(saved) =>
      Stored(s, Completed(s.mem, s.pc.left[0], Outcome(false, Interrupted)), saved, Closing(s.pc.left[1..]))
    case Next =>
      s.(pc := if s.pc.Closing? then Sending(Unreported(s.mem), ToPoll)
        else if s.pc.onward == ToPoll then Polling else Resting)
    case Send(replyLost) =>
      var id := s.pc.left[0];
      s.(server := Record(s.server, id, Succeeded(s.mem, id)),
         pc := if replyLost then Resting else Answered(id, s.pc.left[1..], s.pc.onward))
    case Mark(saved) =>
      Stored(s, MarkedReported(s.mem, s.pc.id), saved, Sending(s.pc.left, s.pc.onward))
    case Poll =>
      s.(pc := match Handed(s.server)
               case None => Resting
               case Some(c) => Judging(c, StatusOf(s.server).BeingApplied?))
    case Judge(saved) =>
      if HasEntry(s.mem, s.pc.c.id) then s.(pc := Resting)
      else
        var es := s.mem + [Unrun(s.pc.c)];
        Stored(s, es, saved, Sending(Unreported(Trimmed(es)), ToRest))
    case Take(replyLost) =>
      s.(server := Claim(s.server, s.pc.c.id),
         pc := if replyLost || JudgeClaim(s.server, s.pc.c.id) != Claimed then Resting else Granted(s.pc.c))
    case Begin(saved) => Stored(s, s.mem + [Begun(s.pc.c)], saved, Noted(s.pc.c))
    case Effect(ok, raised) =>
      s.(applied := s.applied + [s.pc.c], pc := if raised then Resting else Returned(s.pc.c, ok))
    case Conclude(saved) =>
      var es := Completed(s.mem, s.pc.c.id, Outcome(s.pc.ok, Ran));
      Stored(s, es, saved, Sending(Unreported(Trimmed(es)), ToRest))
  }

  function Stepped(s: Sys, step: Step): Sys {
    if Enabled(s, step) then Do(s, step) else s
  }

  function After(steps: seq<Step>): Sys {
    if steps == [] then START else Stepped(After(Front(steps)), Last(steps))
  }

  // ----- What every step keeps

  /** The claim route will never grant this id again. */
  ghost predicate Spent(s: Sys, id: Id) {
    Issued(s, id) && (!Known(s.server, id) || Applying in Kinds(s.server, id) || HasResult(s.server, id))
  }

  /** The server has this command's result, or answers 404 for it. */
  ghost predicate Settled(s: Sys, id: Id) {
    Issued(s, id) && (!Known(s.server, id) || HasResult(s.server, id))
  }

  ghost predicate ServerOk(s: Sys) {
    && (forall i, j :: 0 <= i < j < |s.issued| ==> s.issued[i].id != s.issued[j].id)
    && Consistent(s.server)
    && (forall id :: Known(s.server, id) ==> Issued(s, id))
    && (s.server.current.Some? ==>
      s.issued != [] && Last(s.issued) == Command(s.server.current.value, s.server.desired))
    && (forall id :: Applied in Kinds(s.server, id) ==> WasApplied(s, id))
  }

  ghost predicate EffectsOk(s: Sys) {
    && Subsequence(s.applied, s.issued)
    && (forall c :: c in s.applied ==> Spent(s, c.id))
  }

  ghost predicate EntryOk(s: Sys, e: Entry) {
    && Spent(s, e.id)
    && (e.phase == Complete <==> e.result.Some?)
    && (e.reported ==> e.phase == Complete && Settled(s, e.id))
    && (e.result.Some? && e.result.value.ok ==> WasApplied(s, e.id))
  }

  ghost predicate EntriesOk(s: Sys, es: seq<Entry>) {
    && OneEach(es)
    && (forall e :: e in es ==> EntryOk(s, e))
    && (forall e, f :: e in es && f in es && e.phase == Underway && f.phase == Underway ==> e.id == f.id)
  }

  ghost predicate FileOk(s: Sys) {
    && (|s.disk| <= KEEP || !AnyReported(s.disk))
    && (!s.pc.Down? ==> forall e :: e in s.disk ==> HasEntry(s.mem, e.id) || Settled(s, e.id))
  }

  predicate NoneUnderway(es: seq<Entry>) {
    forall e :: e in es ==> e.phase != Underway
  }

  predicate UnderwayIn(es: seq<Entry>, id: Id) {
    exists e :: e in es && e.id == id && e.phase == Underway
  }

  predicate OwedIn(es: seq<Entry>, id: Id) {
    exists e :: e in es && e.id == id && Owed(e)
  }

  predicate Queue(es: seq<Entry>, left: seq<Id>) {
    Distinct(left) && (forall id :: id in left ==> OwedIn(es, id)) && NoneUnderway(es)
  }

  /** `c` is a request later than every command applied so far. */
  ghost predicate NextInLine(s: Sys, c: Command) {
    exists k :: 0 <= k < |s.issued| && s.issued[k] == c && Subsequence(s.applied, s.issued[..k])
  }

  ghost predicate PcOk(s: Sys) {
    match s.pc
    case Down => s.mem == []
    case Resting => true
    case Closing(left) =>
      && Distinct(left)
      && (forall id :: id in left ==> UnderwayIn(s.mem, id))
      && (forall e :: e in s.mem && e.phase == Underway ==> e.id in left)
    case Sending(left, _) => Queue(s.mem, left)
    case Answered(id, left, _) => Queue(s.mem, [id] + left) && Settled(s, id)
    case Polling => NoneUnderway(s.mem)
    case Judging(c, shownApplying) => NoneUnderway(s.mem) && c in s.issued && (shownApplying ==> Spent(s, c.id))
    case Granted(c) => NoneUnderway(s.mem) && !HasEntry(s.mem, c.id) && Spent(s, c.id) && NextInLine(s, c)
    case Noted(c) => Begun(c) in s.mem && NextInLine(s, c)
    case Returned(c, ok) => Begun(c) in s.mem && c in s.applied
  }

  ghost predicate Inv(s: Sys) {
    ServerOk(s) && EffectsOk(s) && EntriesOk(s, s.mem) && EntriesOk(s, s.disk) && FileOk(s) && PcOk(s)
  }

  /** Nothing known about the past is ever unlearned. */
  ghost predicate Extends(s: Sys, t: Sys) {
    && (forall id :: Issued(s, id) ==> Issued(t, id))
    && (forall id :: WasApplied(s, id) ==> WasApplied(t, id))
    && (forall id :: Spent(s, id) ==> Spent(t, id))
    && (forall id :: Settled(s, id) ==> Settled(t, id))
  }

  lemma IssuedGrows(s: Sys, t: Sys, c: Command)
    requires t.issued == s.issued + [c]
    ensures forall id :: Issued(t, id) <==> Issued(s, id) || id == c.id
  {
    assert c in t.issued;
    forall id | Issued(s, id) ensures Issued(t, id) {
      var d :| d in s.issued && d.id == id;
      assert d in t.issued;
    }
  }

  lemma AppliedGrows(s: Sys, t: Sys, c: Command)
    requires t.applied == s.applied + [c]
    ensures forall id :: WasApplied(t, id) <==> WasApplied(s, id) || id == c.id
  {
    assert c in t.applied;
    forall id | WasApplied(s, id) ensures WasApplied(t, id) {
      var d :| d in s.applied && d.id == id;
      assert d in t.applied;
    }
  }

  lemma AskExtends(s: Sys, c: Command)
    requires ServerOk(s) && Enabled(s, Ask(c))
    ensures Extends(s, Do(s, Ask(c)))
  {
    var t := Do(s, Ask(c));
    IssuedGrows(s, t, c);
    KindsGrow(s.server, t.server, Last(t.server.log));
  }

  /** A claim or a result, once in the log, stays there. */
  lemma LogExtends(s: Sys, t: Sys)
    requires t.server.log != [] && t.server.log == s.server.log + [Last(t.server.log)]
    requires !Last(t.server.log).kind.Requested? && t.issued == s.issued && t.applied == s.applied
    ensures Extends(s, t)
  {
    KindsGrow(s.server, t.server, Last(t.server.log));
  }

  lemma EffectExtends(s: Sys, t: Sys, c: Command)
    requires t.server == s.server && t.issued == s.issued && t.applied == s.applied + [c]
    ensures Extends(s, t)
  {
    AppliedGrows(s, t, c);
  }

  lemma ForgetExtends(s: Sys)
    ensures Extends(s, Do(s, Forget))
  {
  }

  lemma SameExtends(s: Sys, t: Sys)
    requires t.server == s.server && t.issued == s.issued && t.applied == s.applied
    ensures Extends(s, t)
  {
  }

  lemma StepExtends(s: Sys, step: Step)
    requires ServerOk(s) && Enabled(s, step)
    ensures Extends(s, Do(s, step))
  {
    hide Extends, ServerOk, Trimmed, Kinds;
    var t := Do(s, step);
    match step
    case Ask(c) => AskExtends(s, c);
    case Forget => ForgetExtends(s);
    case Effect(_, _) => EffectExtends(s, t, s.pc.c);
    case _ => if t.server == s.server { SameExtends(s, t); } else { LogExtends(s, t); }
  }

  lemma AskKeepsServer(s: Sys, c: Command)
    requires ServerOk(s) && Enabled(s, Ask(c))
    ensures ServerOk(Do(s, Ask(c)))
  {
    var t := Do(s, Ask(c));
    IssuedGrows(s, t, c);
    KindsGrow(s.server, t.server, Last(t.server.log));
    assert !Known(s.server, c.id);
    RequestKeeps(s.server, c);
  }

  lemma SendKeepsServer(s: Sys, replyLost: bool)
    requires Inv(s) && Enabled(s, Send(replyLost))
    ensures ServerOk(Do(s, Send(replyLost)))
  {
    var t := Do(s, Send(replyLost));
    var id := s.pc.left[0];
    if t.server != s.server {
      KindsGrow(s.server, t.server, Last(t.server.log));
      RecordKeeps(s.server, id, Succeeded(s.mem, id));
    }
  }

  lemma TakeKeepsServer(s: Sys, replyLost: bool)
    requires Inv(s) && Enabled(s, Take(replyLost))
    ensures ServerOk(Do(s, Take(replyLost)))
  {
    var t := Do(s, Take(replyLost));
    if t.server != s.server {
      KindsGrow(s.server, t.server, Last(t.server.log));
      ClaimKeeps(s.server, s.pc.c.id);
    }
  }

  lemma SameKeepsServer(s: Sys, t: Sys)
    requires ServerOk(s) && t.server == s.server && t.issued == s.issued && t.applied == s.applied
    ensures ServerOk(t)
  {
    assert forall id :: WasApplied(s, id) <==> WasApplied(t, id);
  }

  lemma EffectKeepsServer(s: Sys, t: Sys, c: Command)
    requires ServerOk(s) && t.server == s.server && t.issued == s.issued && t.applied == s.applied + [c]
    ensures ServerOk(t)
  {
    AppliedGrows(s, t, c);
  }

  lemma ForgetKeepsServer(s: Sys)
    requires ServerOk(s)
    ensures ServerOk(Do(s, Forget))
  {
  }

  lemma StepKeepsServer(s: Sys, step: Step)
    requires Inv(s) && Enabled(s, step)
    ensures ServerOk(Do(s, step))
  {
    hide ServerOk, EffectsOk, EntriesOk, FileOk, PcOk, Trimmed;
    match step
    case Ask(c) => AskKeepsServer(s, c);
    case Send(replyLost) => SendKeepsServer(s, replyLost);
    case Take(replyLost) => TakeKeepsServer(s, replyLost);
    case Effect(_, _) => EffectKeepsServer(s, Do(s, step), s.pc.c);
    case Forget => ForgetKeepsServer(s);
    case _ => SameKeepsServer(s, Do(s, step));
  }

  /** The gateway is changed only for a request later than every request applied before it. */
  lemma EffectKeepsOrder(s: Sys, c: Command)
    requires NextInLine(s, c)
    ensures Subsequence(s.applied + [c], s.issued)
  {
    var k :| 0 <= k < |s.issued| && s.issued[k] == c && Subsequence(s.applied, s.issued[..k]);
    SubsequenceTakes(s.applied, s.issued[..k], c);
    SubsequenceLonger(s.applied + [c], s.issued[..k] + [c], s.issued[k + 1..]);
    assert s.issued == s.issued[..k] + [c] + s.issued[k + 1..];
  }

  lemma StepKeepsEffects(s: Sys, step: Step)
    requires Inv(s) && Enabled(s, step)
    ensures EffectsOk(Do(s, step))
  {
    var t := Do(s, step);
    StepExtends(s, step);
    if step.Ask? {
      SubsequenceGrows(s.applied, s.issued, step.c);
    } else if step.Effect? {
      EffectKeepsOrder(s, s.pc.c);
      assert EntryOk(s, Begun(s.pc.c));
    } else {
      assert t.issued == s.issued && t.applied == s.applied;
    }
  }

  lemma EntriesCarry(s: Sys, t: Sys, es: seq<Entry>)
    requires EntriesOk(s, es) && Extends(s, t)
    ensures EntriesOk(t, es)
  {
    forall e | e in es ensures EntryOk(t, e) {
      assert EntryOk(s, e);
    }
  }

  /** A save, successful or not, keeps the entries sound and evicts only what the server has settled. */
  lemma StoredOk(s: Sys, es: seq<Entry>, saved: bool, pc: Pc)
    requires EntriesOk(s, es) && EntriesOk(s, s.disk)
    requires |s.disk| <= KEEP || !AnyReported(s.disk)
    requires forall e :: e in s.disk ==> HasEntry(es, e.id) || Settled(s, e.id)
    ensures var t := Stored(s, es, saved, pc);
      && EntriesOk(t, t.mem) && EntriesOk(t, t.disk) && FileOk(t)
      && (forall e :: e in s.disk && !HasEntry(t.disk, e.id) ==> Settled(t, e.id))
  {
    var t := Stored(s, es, saved, pc);
    TrimKeeps(es);
    EntriesCarry(s, t, es);
    EntriesCarry(s, t, s.disk);
    forall id | HasEntry(es, id) ensures HasEntry(t.mem, id) || Settled(t, id) {
      var e :| e in es && e.id == id;
      if !e.reported { assert e in t.mem; }
    }
  }

  /** Changing entries in place, one for one, keeps them sound when each new entry is and none comes alive. */
  lemma ReplacedOk(s: Sys, es: seq<Entry>, ts: seq<Entry>)
    requires EntriesOk(s, es) && |ts| == |es|
    requires forall i :: 0 <= i < |es| ==> ts[i].id == es[i].id && EntryOk(s, ts[i])
    requires forall i :: 0 <= i < |es| ==> ts[i].phase == Underway ==> es[i].phase == Underway
    ensures EntriesOk(s, ts)
    ensures forall id :: HasEntry(es, id) ==> HasEntry(ts, id)
  {
    forall id | HasEntry(es, id) ensures HasEntry(ts, id) {
      var i :| 0 <= i < |es| && es[i].id == id;
      assert ts[i] in ts;
    }
    forall e, f | e in ts && f in ts && e.phase == Underway && f.phase == Underway ensures e.id == f.id {
      var i :| 0 <= i < |ts| && ts[i] == e;
      var j :| 0 <= j < |ts| && ts[j] == f;
      assert es[i] in es && es[j] in es;
    }
  }

  lemma OneEntryPerId(es: seq<Entry>, e: Entry, f: Entry)
    requires OneEach(es) && e in es && f in es && e.id == f.id
    ensures e == f
  {
  }

  lemma CompletedOk(s: Sys, id: Id, outcome: Outcome)
    requires EntriesOk(s, s.mem) && UnderwayIn(s.mem, id) && (outcome.ok ==> WasApplied(s, id))
    ensures EntriesOk(s, Completed(s.mem, id, outcome))
    ensures forall other :: HasEntry(s.mem, other) ==> HasEntry(Completed(s.mem, id, outcome), other)
  {
    var es := Completed(s.mem, id, outcome);
    CompletedOnly(s.mem, id, outcome);
    var running :| running in s.mem && running.id == id && running.phase == Underway;
    forall i | 0 <= i < |es| ensures EntryOk(s, es[i]) {
      assert EntryOk(s, s.mem[i]);
      if s.mem[i].id == id { OneEntryPerId(s.mem, s.mem[i], running); }
    }
    ReplacedOk(s, s.mem, es);
  }

  lemma MarkedOk(s: Sys, id: Id)
    requires EntriesOk(s, s.mem) && OwedIn(s.mem, id) && Settled(s, id)
    ensures EntriesOk(s, MarkedReported(s.mem, id))
    ensures forall other :: HasEntry(s.mem, other) ==> HasEntry(MarkedReported(s.mem, id), other)
  {
    var es := MarkedReported(s.mem, id);
    MarkedOnly(s.mem, id);
    var owed :| owed in s.mem && owed.id == id && Owed(owed);
    forall i | 0 <= i < |es| ensures EntryOk(s, es[i]) {
      assert EntryOk(s, s.mem[i]);
      if s.mem[i].id == id { OneEntryPerId(s.mem, s.mem[i], owed); }
    }
    ReplacedOk(s, s.mem, es);
  }

  lemma AddedOk(s: Sys, e: Entry)
    requires EntriesOk(s, s.mem) && NoneUnderway(s.mem) && !HasEntry(s.mem, e.id) && EntryOk(s, e)
    ensures EntriesOk(s, s.mem + [e]) && (forall other :: HasEntry(s.mem, other) ==> HasEntry(s.mem + [e], other))
  {
    forall other | HasEntry(s.mem, other) ensures HasEntry(s.mem + [e], other) {
      var f :| f in s.mem && f.id == other;
      assert f in s.mem + [e];
    }
  }

  ghost predicate RecordsOk(s: Sys) {
    EntriesOk(s, s.mem) && EntriesOk(s, s.disk) && FileOk(s)
  }

  /** Whatever leaves the state file in this step, the server has settled; only losing the file breaks this. */
  ghost predicate EvictsSettled(s: Sys, t: Sys) {
    forall e :: e in s.disk && !HasEntry(t.disk, e.id) ==> Settled(t, e.id)
  }

  /** The new list of entries a step hands to `_save`, if it saves at all. */
  function Handing(s: Sys, step: Step): Option<seq<Entry>>
    requires Enabled(s, step)
  {
    match step
    case Close(_) => Some(Completed(s.mem, s.pc.left[0], Outcome(false, Interrupted)))
    case Mark(_) => Some(MarkedReported(s.mem, s.pc.id))
    case Judge(_) => if HasEntry(s.mem, s.pc.c.id) then None else Some(s.mem + [Unrun(s.pc.c)])
    case Begin(_) => Some(s.mem + [Begun(s.pc.c)])
    case Conclude(_) => Some(Completed(s.mem, s.pc.c.id, Outcome(s.pc.ok, Ran)))
    case _ => None
  }

  lemma HandingOk(s: Sys, step: Step)
    requires Inv(s) && Enabled(s, step) && Handing(s, step).Some?
    ensures EntriesOk(s, Handing(s, step).value)
    ensures forall other :: HasEntry(s.mem, other) ==> HasEntry(Handing(s, step).value, other)
  {
    match step
    case Close(_) => CompletedOk(s, s.pc.left[0], Outcome(false, Interrupted));
    case Mark(_) => assert s.pc.id in [s.pc.id] + s.pc.left; MarkedOk(s, s.pc.id);
    case Judge(_) => AddedOk(s, Unrun(s.pc.c));
    case Begin(_) => AddedOk(s, Begun(s.pc.c));
    case Conclude(_) =>
      assert Begun(s.pc.c) in s.mem;
      CompletedOk(s, s.pc.c.id, Outcome(s.pc.ok, Ran));
    case _ =>
  }

  lemma SaveKeepsRecords(s: Sys, step: Step)
    requires Inv(s) && Enabled(s, step) && Handing(s, step).Some?
    ensures RecordsOk(Do(s, step)) && EvictsSettled(s, Do(s, step))
  {
    HandingOk(s, step);
    StoredOk(s, Handing(s, step).value, step.saved, Do(s, step).pc);
  }

  lemma StepKeepsRecords(s: Sys, step: Step)
    requires Inv(s) && Enabled(s, step)
    ensures RecordsOk(Do(s, step))
    ensures !step.LoseFile? ==> EvictsSettled(s, Do(s, step))
  {
    var t := Do(s, step);
    StepExtends(s, step);
    if Handing(s, step).Some? {
      SaveKeepsRecords(s, step);
    } else {
      EntriesCarry(s, t, s.mem);
      EntriesCarry(s, t, s.disk);
    }
  }

  // ----- Where the pass stands

  lemma DistinctAhead<T>(x: T, xs: seq<T>)
    requires Distinct(xs) && x !in xs
    ensures Distinct([x] + xs)
  {
  }

  lemma {:induction false} UnderwaysDistinct(es: seq<Entry>)
    requires OneEach(es)
    ensures Distinct(Underways(es))
  {
    if es != [] {
      UnderwaysDistinct(es[1..]);
      assert es[0].id !in Underways(es[1..]);
      DistinctAhead(es[0].id, Underways(es[1..]));
    }
  }

  lemma {:induction false} UnreportedDistinct(es: seq<Entry>)
    requires OneEach(es)
    ensures Distinct(Unreported(es))
  {
    if es != [] {
      UnreportedDistinct(es[1..]);
      assert es[0].id !in Unreported(es[1..]);
      DistinctAhead(es[0].id, Unreported(es[1..]));
    }
  }

  /** Deliveries are owed exactly the entries still unreported. */
  lemma QueueOfUnreported(es: seq<Entry>)
    requires OneEach(es) && NoneUnderway(es)
    ensures Queue(es, Unreported(es))
  {
    UnreportedDistinct(es);
    forall id | id in Unreported(es) ensures OwedIn(es, id) {
      var e :| e in es && e.id == id && Owed(e);
    }
  }

  lemma StartKeepsPc(s: Sys)
    requires Inv(s) && Enabled(s, Start)
    ensures PcOk(Do(s, Start))
  {
    UnderwaysDistinct(s.mem);
    forall id | id in Underways(s.mem) ensures UnderwayIn(s.mem, id) {
      var e :| e in s.mem && e.id == id && e.phase == Underway;
    }
  }

  lemma CompletingLeavesUnderway(es: seq<Entry>, id: Id, outcome: Outcome, other: Id)
    requires OneEach(es) && UnderwayIn(es, other) && other != id
    requires forall e :: e in es && e.phase == Underway ==> !e.reported
    ensures UnderwayIn(Trimmed(Completed(es, id, outcome)), other)
  {
    CompletedOnly(es, id, outcome);
    TrimKeeps(Completed(es, id, outcome));
    var e :| e in es && e.id == other && e.phase == Underway;
    var i :| 0 <= i < |es| && es[i] == e;
    assert Completed(es, id, outcome)[i] == e;
  }

  lemma CompletingWakesNoOther(es: seq<Entry>, id: Id, outcome: Outcome)
    requires OneEach(es)
    ensures forall e :: e in Trimmed(Completed(es, id, outcome)) && e.phase == Underway ==> e in es && e.id != id
  {
    var ts := Completed(es, id, outcome);
    CompletedOnly(es, id, outcome);
    TrimKeeps(ts);
    forall e | e in Trimmed(ts) && e.phase == Underway ensures e in es && e.id != id {
      var i :| 0 <= i < |ts| && ts[i] == e;
      assert es[i] in es;
    }
  }

  lemma CloseKeepsPc(s: Sys, saved: bool)
    requires Inv(s) && Enabled(s, Close(saved))
    ensures PcOk(Do(s, Close(saved)))
  {
    var id, rest := s.pc.left[0], s.pc.left[1..];
    var outcome := Outcome(false, Interrupted);
    assert s.pc.left == [id] + rest;
    DistinctBehind(id, rest);
    assert forall e :: e in s.mem && e.phase == Underway ==> EntryOk(s, e);
    CompletingWakesNoOther(s.mem, id, outcome);
    forall other | other in rest ensures UnderwayIn(Trimmed(Completed(s.mem, id, outcome)), other) {
      assert other in s.pc.left;
      CompletingLeavesUnderway(s.mem, id, outcome, other);
    }
  }

  lemma SendKeepsPc(s: Sys, replyLost: bool)
    requires Inv(s) && Enabled(s, Send(replyLost))
    ensures PcOk(Do(s, Send(replyLost)))
  {
    var t := Do(s, Send(replyLost));
    var id := s.pc.left[0];
    assert [id] + s.pc.left[1..] == s.pc.left;
    assert OwedIn(s.mem, id);
    var e :| e in s.mem && e.id == id && Owed(e);
    assert EntryOk(s, e);
    if JudgeReport(s.server, id) == ReportVerdict.Recorded {
      KindsGrow(s.server, t.server, Last(t.server.log));
      assert Last(t.server.log).kind in Kinds(t.server, id) * RESULTS;
    }
  }

  lemma DistinctBehind<T>(x: T, xs: seq<T>)
    requires Distinct([x] + xs)
    ensures Distinct(xs) && x !in xs
  {
    forall j | 0 <= j < |xs| ensures xs[j] != x && ([x] + xs)[j + 1] == xs[j] {
      assert ([x] + xs)[0] != ([x] + xs)[j + 1];
    }
  }

  lemma MarkingLeavesOwed(es: seq<Entry>, id: Id, other: Id)
    requires OneEach(es) && OwedIn(es, other) && other != id
    ensures OwedIn(Trimmed(MarkedReported(es, id)), other)
  {
    MarkedOnly(es, id);
    TrimKeeps(MarkedReported(es, id));
    var e :| e in es && e.id == other && Owed(e);
    var i :| 0 <= i < |es| && es[i] == e;
    assert MarkedReported(es, id)[i] == e;
  }

  lemma MarkingWakesNone(es: seq<Entry>, id: Id)
    requires OneEach(es) && NoneUnderway(es)
    ensures NoneUnderway(Trimmed(MarkedReported(es, id)))
  {
    var ts := MarkedReported(es, id);
    MarkedOnly(es, id);
    TrimKeeps(ts);
    forall e | e in Trimmed(ts) ensures e.phase != Underway {
      var i :| 0 <= i < |ts| && ts[i] == e;
      assert es[i] in es;
    }
  }

  lemma MarkKeepsPc(s: Sys, saved: bool)
    requires Inv(s) && Enabled(s, Mark(saved))
    ensures PcOk(Do(s, Mark(saved)))
  {
    var id, left := s.pc.id, s.pc.left;
    DistinctBehind(id, left);
    MarkingWakesNone(s.mem, id);
    forall other | other in left ensures OwedIn(Trimmed(MarkedReported(s.mem, id)), other) {
      assert other in [id] + left;
      MarkingLeavesOwed(s.mem, id, other);
    }
  }

  lemma PollKeepsPc(s: Sys)
    requires Inv(s) && Enabled(s, Poll)
    ensures PcOk(Do(s, Poll))
  {
    if Handed(s.server).Some? {
      StatusAgreesWithLog(s.server);
      assert Last(s.issued) == Handed(s.server).value;
    }
  }

  lemma AddingWakesNone(es: seq<Entry>, e: Entry)
    requires NoneUnderway(es) && e.phase != Underway
    ensures NoneUnderway(Trimmed(es + [e]))
  {
    TrimKeeps(es + [e]);
  }

  lemma JudgeKeepsPc(s: Sys, saved: bool)
    requires Inv(s) && Enabled(s, Judge(saved)) && RecordsOk(Do(s, Judge(saved)))
    ensures PcOk(Do(s, Judge(saved)))
  {
    hide ServerOk, EffectsOk, FileOk, Queue, NoneUnderway, Trimmed, Spent;
    AddingWakesNone(s.mem, Unrun(s.pc.c));
    var t := Do(s, Judge(saved));
    if t.pc.Sending? { QueueOfUnreported(t.mem); }
  }

  /** A granted claim means this very request is the newest one, and nothing of it has been applied. */
  lemma TakeKeepsPc(s: Sys, replyLost: bool)
    requires Inv(s) && Enabled(s, Take(replyLost))
    ensures PcOk(Do(s, Take(replyLost)))
  {
    var t := Do(s, Take(replyLost));
    var c := s.pc.c;
    if t.pc.Granted? {
      KindsGrow(s.server, t.server, Last(t.server.log));
      var k := |s.issued| - 1;
      assert s.issued[k] == c;
      assert !Spent(s, c.id);
      assert c !in s.applied;
      assert Front(s.issued) == t.issued[..k];
      assert NextInLine(t, c);
    }
  }

  lemma BeginKeepsPc(s: Sys, saved: bool)
    requires Inv(s) && Enabled(s, Begin(saved))
    ensures PcOk(Do(s, Begin(saved)))
  {
    var es := s.mem + [Begun(s.pc.c)];
    assert es[|s.mem|] in es;
    TrimKeeps(es);
  }

  lemma ConcludeKeepsPc(s: Sys, saved: bool)
    requires Inv(s) && Enabled(s, Conclude(saved)) && RecordsOk(Do(s, Conclude(saved)))
    ensures PcOk(Do(s, Conclude(saved)))
  {
    var t := Do(s, Conclude(saved));
    assert Begun(s.pc.c) in s.mem;
    CompletingWakesNoOther(s.mem, s.pc.c.id, Outcome(s.pc.ok, Ran));
    if t.pc.Sending? { QueueOfUnreported(t.mem); }
  }

  /** The world around the host may move on while the pass is anywhere. */
  lemma WorldKeepsPc(s: Sys, t: Sys)
    requires PcOk(s) && Extends(s, t) && t.pc == s.pc && t.mem == s.mem && t.applied == s.applied
    requires t.issued == s.issued || exists c :: t.issued == s.issued + [c]
    ensures PcOk(t)
  {
    if s.pc.Granted? || s.pc.Noted? {
      var k :| 0 <= k < |s.issued| && s.issued[k] == s.pc.c && Subsequence(s.applied, s.issued[..k]);
      assert t.issued[k] == s.pc.c && t.issued[..k] == s.issued[..k];
    }
  }

  lemma StepKeepsPc(s: Sys, step: Step)
    requires Inv(s) && Enabled(s, step) && RecordsOk(Do(s, step))
    ensures PcOk(Do(s, step))
  {
    hide ServerOk, EffectsOk, FileOk, Extends, Trimmed, Spent, Settled, NextInLine, Completed;
    match step
    case Ask(c) => StepExtends(s, step); WorldKeepsPc(s, Do(s, step));
    case Forget => StepExtends(s, step); WorldKeepsPc(s, Do(s, step));
    case LoseFile => StepExtends(s, step); WorldKeepsPc(s, Do(s, step));
    case Start => StartKeepsPc(s);
    case Close(saved) => CloseKeepsPc(s, saved);
    case Next => if s.pc.Closing? { QueueOfUnreported(s.mem); }
    case Send(replyLost) => SendKeepsPc(s, replyLost);
    case Mark(saved) => MarkKeepsPc(s, saved);
    case Poll => PollKeepsPc(s);
    case Judge(saved) => JudgeKeepsPc(s, saved);
    case Take(replyLost) => TakeKeepsPc(s, replyLost);
    case Begin(saved) => BeginKeepsPc(s, saved);
    case Conclude(saved) => ConcludeKeepsPc(s, saved);
    case _ =>
  }

  /** Every step of the host, the server and the world keeps the invariant. */
  lemma StepKeepsInv(s: Sys, step: Step)
    requires Inv(s)
    ensures Inv(Stepped(s, step))
  {
    if Enabled(s, step) {
      StepKeepsServer(s, step);
      StepKeepsEffects(s, step);
      StepKeepsRecords(s, step);
      StepKeepsPc(s, step);
    }
  }

  lemma {:induction false} Reachable(steps: seq<Step>)
    ensures Inv(After(steps))
  {
    if steps != [] {
      Reachable(Front(steps));
      StepKeepsInv(After(Front(steps)), Last(steps));
    }
  }

  // ----- What holds over every run

  /**
   Each command is applied at most once, and the gateway sees them in the order they were asked for.
   */
  lemma AppliedAtMostOnce(steps: seq<Step>)
    ensures var s := After(steps);
      && Subsequence(s.applied, s.issued)
      && (forall i, j :: 0 <= i < j < |s.issued| ==> s.issued[i].id != s.issued[j].id)
      && (forall i, j :: 0 <= i < j < |s.applied| ==> s.applied[i].id != s.applied[j].id)
  {
    Reachable(steps);
    var s := After(steps);
    SubsequenceOfDistinct(s.applied, s.issued);
    forall i, j | 0 <= i < j < |s.applied| ensures s.applied[i].id != s.applied[j].id {
      SubsequenceMembers(s.applied, s.issued, s.applied[i]);
      SubsequenceMembers(s.applied, s.issued, s.applied[j]);
    }
  }

  /** The pass holds a granted claim on this command and is on its way to apply it. */
  predicate AboutToApply(s: Sys, id: Id) {
    (s.pc.Granted? || s.pc.Noted?) && s.pc.c.id == id
  }

  /** The host has a record of the command, or the server already shows it as being applied. */
  ghost predicate SeenBefore(s: Sys, id: Id) {
    HasEntry(s.mem, id) || HasEntry(s.disk, id) || (s.pc.Judging? && s.pc.c.id == id && s.pc.shownApplying)
    || Applying in Kinds(s.server, id)
  }

  lemma SeenIsSpent(s: Sys, id: Id)
    requires Inv(s) && SeenBefore(s, id)
    ensures Spent(s, id)
  {
    if HasEntry(s.mem, id) {
      var e :| e in s.mem && e.id == id;
      assert EntryOk(s, e);
    } else if HasEntry(s.disk, id) {
      var e :| e in s.disk && e.id == id;
      assert EntryOk(s, e);
    }
  }

  lemma EffectKeepsRetired(s: Sys, t: Sys, c: Command, id: Id)
    requires t.applied == s.applied + [c] && c.id != id
    ensures WasApplied(t, id) <==> WasApplied(s, id)
  {
    AppliedGrows(s, t, c);
  }

  /** Only a claim the server grants puts a pass on its way to apply. */
  lemma NotAboutTo(s: Sys, step: Step, id: Id)
    requires Enabled(s, step) && Spent(s, id) && !AboutToApply(s, id)
    ensures !AboutToApply(Do(s, step), id)
  {
    hide Trimmed;
  }

  lemma StepKeepsRetired(s: Sys, step: Step, id: Id)
    requires Inv(s) && Spent(s, id) && !AboutToApply(s, id)
    ensures var t := Stepped(s, step);
      Spent(t, id) && !AboutToApply(t, id) && (WasApplied(t, id) <==> WasApplied(s, id))
  {
    if Enabled(s, step) {
      hide Spent, ServerOk, EffectsOk, EntriesOk, FileOk, PcOk, WasApplied, Trimmed;
      StepExtends(s, step);
      NotAboutTo(s, step, id);
      if step.Effect? {
        EffectKeepsRetired(s, Do(s, step), s.pc.c, id);
      } else {
        SameApplied(s, Do(s, step), id);
      }
    }
  }

  lemma SameApplied(s: Sys, t: Sys, id: Id)
    requires t.applied == s.applied
    ensures WasApplied(t, id) <==> WasApplied(s, id)
  {
  }

  lemma {:induction false} RunAfter(steps: seq<Step>, more: seq<Step>)
    requires more != []
    ensures After(steps + more) == Stepped(After(steps + Front(more)), Last(more))
  {
    assert Front(steps + more) == steps + Front(more);
  }

  /**
   A command with a record on the host, or already shown as being applied, is never applied from then
   on: not after a crash, a lost file, an eviction, a lost reply or a reseeded server.
   */
  lemma {:induction false} NeverAppliedAgain(steps: seq<Step>, more: seq<Step>, id: Id)
    requires SeenBefore(After(steps), id) && !AboutToApply(After(steps), id)
    ensures WasApplied(After(steps + more), id) <==> WasApplied(After(steps), id)
    ensures Spent(After(steps + more), id) && !AboutToApply(After(steps + more), id)
    decreases |more|
  {
    Reachable(steps);
    SeenIsSpent(After(steps), id);
    if more == [] {
      assert steps + more == steps;
    } else {
      NeverAppliedAgain(steps, Front(more), id);
      Reachable(steps + Front(more));
      StepKeepsRetired(After(steps + Front(more)), Last(more), id);
      RunAfter(steps, more);
    }
  }

  /** Every line of the audit log names a command that was asked for, with the state it asked for. */
  ghost predicate LogTells(s: Sys) {
    forall e :: e in s.server.log ==> Command(e.id, e.desired) in s.issued
  }

  lemma LogGrows(s: Sys, t: Sys, e: Event)
    requires LogTells(s) && s.issued <= t.issued && t.server.log == s.server.log + [e]
    requires Command(e.id, e.desired) in t.issued
    ensures LogTells(t)
  {
  }

  lemma SendKeepsLog(s: Sys, id: Id, ok: bool)
    requires LogTells(s) && JudgeReport(s.server, id) == ReportVerdict.Recorded
    ensures var e := Last(Record(s.server, id, ok).log); Command(e.id, e.desired) in s.issued
  {
    RequestedStateIsAsked(s.server.log, id);
    assert Event(Requested, id, RequestedState(s.server.log, id)) in s.server.log;
  }

  lemma TakeKeepsLog(s: Sys, id: Id)
    requires Inv(s) && JudgeClaim(s.server, id) == Claimed
    ensures Command(id, s.server.desired) in s.issued
  {
    assert Last(s.issued) == Command(id, s.server.desired);
  }

  lemma StepKeepsLog(s: Sys, step: Step)
    requires Inv(s) && LogTells(s)
    ensures LogTells(Stepped(s, step))
  {
    var t := Stepped(s, step);
    if Enabled(s, step) && t.server.log != s.server.log && !step.Forget? {
      match step
      case Ask(c) => LogGrows(s, t, Event(Requested, c.id, c.desired));
      case Send(_) =>
        SendKeepsLog(s, s.pc.left[0], Succeeded(s.mem, s.pc.left[0]));
        LogGrows(s, t, Last(t.server.log));
      case Take(_) =>
        TakeKeepsLog(s, s.pc.c.id);
        LogGrows(s, t, Last(t.server.log));
      case _ =>
    }
  }

  /** Over every run the audit log says of each command what was asked, when it is claimed and when it is reported. */
  lemma {:induction false} LogTellsWhatWasAsked(steps: seq<Step>)
    ensures LogTells(After(steps))
  {
    if steps != [] {
      LogTellsWhatWasAsked(Front(steps));
      Reachable(Front(steps));
      StepKeepsLog(After(Front(steps)), Last(steps));
    }
  }

  /** The server never shows a command as applied unless the gateway really was changed for it. */
  lemma ReportsAreTrue(steps: seq<Step>, id: Id)
    requires Applied in Kinds(After(steps).server, id)
    ensures WasApplied(After(steps), id)
  {
    Reachable(steps);
  }

  /** The host's records: one per command, at most one under way, reported only when the server has settled it. */
  lemma RecordsAreSound(steps: seq<Step>)
    ensures var s := After(steps);
      && OneEach(s.mem) && OneEach(s.disk)
      && (forall e, f :: e in s.mem && f in s.mem && e.phase == Underway && f.phase == Underway ==> e == f)
      && (forall e, f :: e in s.disk && f in s.disk && e.phase == Underway && f.phase == Underway ==> e == f)
      && (forall e :: (e in s.mem || e in s.disk) && e.reported ==> Settled(s, e.id))
      && (|s.disk| <= KEEP || !AnyReported(s.disk))
  {
    Reachable(steps);
    var s := After(steps);
    forall e | (e in s.mem || e in s.disk) && e.reported ensures Settled(s, e.id) {
      assert EntryOk(s, e);
    }
  }

  /** A result leaves the state file only once the server has it or answers 404 for it. */
  lemma FileForgetsOnlySettled(steps: seq<Step>, step: Step, e: Entry)
    requires !step.LoseFile?
    requires e in After(steps).disk && !HasEntry(After(steps + [step]).disk, e.id)
    ensures Settled(After(steps + [step]), e.id)
  {
    Reachable(steps);
    assert Front(steps + [step]) == steps;
    assert HasEntry(After(steps).disk, e.id);
    StepKeepsRecords(After(steps), step);
  }

  /**
   The server's one row and its audit log agree, and each command has one request, one claim and one result
   at most.
   */
  lemma ServerStaysConsistent(steps: seq<Step>)
    ensures Consistent(After(steps).server)
  {
    Reachable(steps);
  }
}
