/** The host's pass. */
module HarnessSession {
  // The host's pass as the imperative code it is, run against a world that may move, fail or stop it
  // between any two effects. Every state it goes through is a state of the step system.

  import opened Common
  import opened HarnessServer
  import opened HarnessHost
  import opened HarnessProtocol
  import HarnessRecovery

  datatype PassOutcome = Died | Raised | Idle | Handled | NotRunAgain | NotClaimed | Applied(ok: bool)

  // ----- What the answers of a pass mean, in the steps it took

  /** The poll was answered, and the server handed nothing out. */
  ghost predicate NothingHanded(steps: seq<Step>) {
    steps != [] && Last(steps) == Poll
    && After(Front(steps)).pc == Polling && Handed(After(Front(steps)).server).None?
  }

  /** The poll was answered, and the host has an entry for the command that was handed out. */
  ghost predicate HandedAndKnown(steps: seq<Step>) {
    && |steps| >= 2 && steps[|steps| - 2] == Poll && Last(steps) == Judge(true)
    && After(Front(steps)).pc.Judging? && HasEntry(After(Front(steps)).mem, After(Front(steps)).pc.c.id)
  }

  /** The claim was answered, and not granted. */
  ghost predicate ClaimRefused(steps: seq<Step>) {
    && steps != [] && Last(steps) == Take(false) && After(Front(steps)).pc.Judging?
    && JudgeClaim(After(Front(steps)).server, After(Front(steps)).pc.c.id) != Claimed
  }

  /** Since `before`, a command shown as being applied, of which the host had no entry, was written down as not run. */
  ghost predicate WrittenUnrun(before: seq<Step>, steps: seq<Step>) {
    exists k :: |before| <= k < |steps| && UnrunAt(steps, k)
  }

  ghost predicate UnrunAt(steps: seq<Step>, k: nat)
    requires k < |steps|
  {
    var s := After(steps[..k]);
    steps[k] == Judge(true) && s.pc.Judging? && s.pc.shownApplying && !HasEntry(s.mem, s.pc.c.id)
  }

  lemma UnrunStays(before: seq<Step>, steps: seq<Step>, later: seq<Step>, k: nat)
    requires |before| <= k < |steps| && UnrunAt(steps, k) && steps <= later
    ensures WrittenUnrun(before, later)
  {
    assert later[..k] == steps[..k];
    assert UnrunAt(later, k);
  }

  lemma ClosingHas(s: Sys, id: Id, rest: seq<Id>)
    requires Inv(s) && s.pc == Closing([id] + rest)
    ensures HasEntry(s.mem, id)
  {
    assert id in [id] + rest;
    assert UnderwayIn(s.mem, id);
  }

  lemma AnsweredHas(s: Sys)
    requires Inv(s) && s.pc.Answered?
    ensures HasEntry(s.mem, s.pc.id)
  {
    assert s.pc.id in [s.pc.id] + s.pc.left;
    assert OwedIn(s.mem, s.pc.id);
  }

  lemma ClosedNext(s: Sys)
    requires s.pc.Closing? && s.pc.left != []
    ensures HarnessRecovery.AllClosed(s) == HarnessRecovery.AllClosed(Stepped(s, Close(true)))
  {
    hide Stepped;
  }

  lemma NothingToClose(s: Sys)
    requires s.pc == Closing([])
    ensures HarnessRecovery.AllClosed(s) == s
  {
  }

  // ----- The effects of a pass in which nothing fails

  function Taking(s: Sys): Sys { Stepped(s, Take(false)) }

  function Noting(s: Sys): Sys { Stepped(s, Begin(true)) }

  function Effecting(s: Sys, ok: bool): Sys { Stepped(s, Effect(ok, false)) }

  function Concluding(s: Sys): Sys { Stepped(s, Conclude(true)) }

  function Reporting(s: Sys): Sys { Stepped(HarnessRecovery.AllSent(s), Next) }

  /** How a pass ends from the state in which it has polled. */
  predicate EndsFrom(p: Sys, t: Sys, outcome: PassOutcome) {
    match outcome
    case Idle => p.pc.Resting? && t == p
    case NotRunAgain => p.pc.Judging? && p.pc.shownApplying && t == Reporting(Stepped(p, Judge(true)))
    case Applied(ok) =>
      p.pc.Judging? && !p.pc.shownApplying && t == Reporting(Concluding(Effecting(Noting(Taking(p)), ok)))
    case _ => false
  }

  /** What such a pass did, whatever was left behind before it. */
  lemma SmoothPass(s: Sys, t: Sys, outcome: PassOutcome)
    requires Inv(s) && s.pc.Resting? && EndsFrom(HarnessRecovery.Polled(s), t, outcome)
    ensures outcome.Applied? <==> StatusOf(s.server).Pending?
    ensures t.applied == s.applied + HarnessRecovery.ToApply(s)
    ensures HarnessRecovery.AllReported(t.mem) && t.issued == s.issued
    ensures StatusOf(t.server) ==
      if outcome.Applied? then HostStatus.Finished(outcome.ok) else HarnessRecovery.Reported(s)
  {
    hide Inv, Stepped, StatusOf, HarnessRecovery.Polled, HarnessRecovery.AllSent, HarnessRecovery.AllReported;
    HarnessRecovery.PollDecides(s);
    match outcome
    case Idle => HarnessRecovery.PassedIdle(s); HarnessRecovery.HealthyPass(s, false);
    case NotRunAgain => HarnessRecovery.PassedUnrun(s); HarnessRecovery.HealthyPass(s, false);
    case Applied(ok) => HarnessRecovery.PassedApplied(s, ok); HarnessRecovery.HealthyPass(s, ok);
    case _ =>
  }

  class Session {
    var host: HostState
    var server: Server
    /** Every request issued and every call of `gateway.apply`, oldest first. */
    var issued: seq<Command>
    var applied: seq<Command>
    ghost var pc: Pc
    ghost var steps: seq<Step>
    /** How many requests, saves and applies have failed, and how often the world moved or the process died. */
    ghost var failures: nat
    ghost var disturbances: nat

    ghost function Now(): Sys
      reads this, host
    {
      Sys(server, host.entries, host.disk, pc, issued, applied)
    }

    ghost predicate Tracks()
      reads this, host
    {
      After(steps) == Now()
    }

    constructor ()
      ensures Tracks() && pc == Down && fresh(host)
    {
      host := new HostState([]);
      failures, disturbances := 0, 0;
      server, issued, applied := SEED, [], [];
      pc, steps := Down, [];
    }

    twostate predicate Counts()
      reads this
    {
      failures >= old(failures) && disturbances >= old(disturbances)
    }

    /** Nothing failed since, the world stood still and the process lived. */
    twostate predicate Smooth()
      reads this
    {
      failures == old(failures) && disturbances == old(disturbances)
    }

    /** Whether a request, a reply, a save or an apply succeeds. */
    method Succeeds() returns (yes: bool)
      modifies this`failures
      ensures failures == old(failures) + if yes then 0 else 1
    {
      yes := *;
      if !yes { failures := failures + 1; }
    }

    /** Records that the fields now hold what this step makes of the last recorded state. */
    ghost method Note(step: Step)
      requires Enabled(After(steps), step)
      requires Do(After(steps), step) == Now().(pc := Do(After(steps), step).pc)
      modifies this`pc, this`steps
      ensures steps == old(steps) + [step] && pc == Do(After(old(steps)), step).pc
      ensures Tracks()
    {
      pc := Do(After(steps), step).pc;
      steps := steps + [step];
      assert Front(steps) == old(steps);
    }

    /** Operators ask, the tables are reseeded, the file is lost: any number of times, in any order. */
    method World()
      requires Tracks()
      modifies this, host
      ensures Tracks() && pc == old(pc) && host == old(host) && host.entries == old(host.entries)
      ensures applied == old(applied) && old(steps) <= steps
      ensures Counts() && failures == old(failures) && (Smooth() ==> Now() == old(Now()) && steps == old(steps))
    {
      var n: nat :| n >= 0;
      for i := 0 to n
        invariant Tracks() && pc == old(pc) && host == old(host) && host.entries == old(host.entries)
        invariant applied == old(applied) && old(steps) <= steps
        invariant failures == old(failures) && disturbances == old(disturbances) + i
        invariant i == 0 ==> Now() == old(Now()) && steps == old(steps)
      {
        Moves();
      }
    }

    /** One of these, or none. */
    method Moves()
      requires Tracks()
      modifies this, host
      ensures Tracks() && pc == old(pc) && host == old(host) && host.entries == old(host.entries)
      ensures applied == old(applied) && old(steps) <= steps
      ensures failures == old(failures) && disturbances == old(disturbances) + 1
    {
      hide After;
      disturbances := disturbances + 1;
      if * {
        var c: Command := *;
        if forall d <- issued :: d.id != c.id {
          server, issued := Request(server, c), issued + [c];
          Note(Ask(c));
        }
      } else if * {
        server := SEED;
        Note(Forget);
      } else {
        host.disk := [];
        Note(LoseFile);
      }
    }

    /** Whatever happens before the next effect, which may include the end of the process. */
    method Survives() returns (alive: bool)
      requires Tracks()
      modifies this, host
      ensures Tracks() && host == old(host) && applied == old(applied) && old(steps) <= steps
      ensures alive ==> pc == old(pc) && host.entries == old(host.entries)
      ensures !alive ==> pc == Down && disturbances > old(disturbances)
      ensures Counts() && failures == old(failures)
      ensures Smooth() ==> alive && Now() == old(Now()) && steps == old(steps)
    {
      World();
      alive := *;
      if !alive {
        host.entries, disturbances := [], disturbances + 1;
        Note(Crash);
      }
    }

    /** A new process reads the state file. */
    method Boot()
      requires Tracks() && pc == Down
      modifies this
      ensures Tracks() && pc == Resting && fresh(host) && host.entries == old(host.disk)
      ensures applied == old(applied) && issued == old(issued) && server == old(server)
    {
      host := new HostState(host.disk);
      Note(Step.Boot);
    }

    /** An exception leaves the pass; memory stays as it is. */
    ghost method GiveUp()
      requires Tracks() && pc != Down
      modifies this`pc, this`steps
      ensures Tracks() && pc == Resting && steps == old(steps) + [Raise]
    {
      Note(Raise);
    }

    /** Why a part of a pass gave up: the process died, or something failed and raised. */
    twostate predicate StoppedBy(new failed: Option<PassOutcome>)
      reads this
    {
      failed.Some? ==>
        Explained(failed.value)
        && ((failed.value == Died && pc == Down) || (failed.value == Raised && pc == Resting))
    }

    /** A pass raises only when something failed, and dies only with its process. */
    twostate predicate Explained(new outcome: PassOutcome)
      reads this
    {
      (outcome == Raised ==> failures > old(failures)) && (outcome == Died ==> disturbances > old(disturbances))
    }

    method CloseOne(id: Id, ghost rest: seq<Id>) returns (saved: bool)
      requires Tracks() && pc == Closing([id] + rest)
      modifies this, host
      ensures Tracks() && host == old(host) && applied == old(applied) && old(steps) <= steps
      ensures pc == if saved then Closing(rest) else Resting
      ensures Counts() && disturbances == old(disturbances) && (saved <==> failures == old(failures))
      ensures saved ==> Now() == Stepped(old(Now()), Close(true))
    {
      hide Inv, Trimmed, Completed, Underways;
      Reachable(steps);
      ClosingHas(Now(), id, rest);
      var writable := Succeeds();
      saved := host.Finish(id, Outcome(false, Interrupted), writable);
      assert ([id] + rest)[1..] == rest;
      Note(Close(saved));
    }

    /** One report: it may never arrive, its reply may be lost, or it is answered (recorded, duplicate or 404). */
    method SendOne(id: Id, ghost rest: seq<Id>, ghost onward: AfterSending) returns (answered: bool)
      requires Tracks() && pc == Sending([id] + rest, onward)
      modifies this
      ensures Tracks() && host == old(host) && applied == old(applied) && old(steps) <= steps
      ensures pc == if answered then Answered(id, rest, onward) else Resting
      ensures Counts() && disturbances == old(disturbances) && (answered <==> failures == old(failures))
      ensures answered ==> Now() == Stepped(old(Now()), Send(false))
    {
      assert ([id] + rest)[1..] == rest;
      var arrives := Succeeds();
      if !arrives {
        GiveUp();
        return false;
      }
      server := Record(server, id, Succeeded(host.entries, id));
      answered := Succeeds();
      Note(Send(!answered));
    }

    method MarkOne(id: Id, ghost rest: seq<Id>, ghost onward: AfterSending) returns (saved: bool)
      requires Tracks() && pc == Answered(id, rest, onward)
      modifies this, host
      ensures Tracks() && host == old(host) && applied == old(applied) && old(steps) <= steps
      ensures pc == if saved then Sending(rest, onward) else Resting
      ensures Counts() && disturbances == old(disturbances) && (saved <==> failures == old(failures))
      ensures saved ==> Now() == Stepped(old(Now()), Mark(true))
    {
      hide Inv, Trimmed, MarkedReported, Unreported;
      Reachable(steps);
      AnsweredHas(Now());
      var writable := Succeeds();
      saved := host.MarkReported(id, writable);
      Note(Mark(saved));
    }

    /** One result sent and marked. */
    method DeliverOne(id: Id, ghost rest: seq<Id>, ghost onward: AfterSending) returns (failed: Option<PassOutcome>)
      requires Tracks() && pc == Sending([id] + rest, onward)
      modifies this, host
      ensures Tracks() && host == old(host) && applied == old(applied) && old(steps) <= steps
      ensures failed.None? ==> pc == Sending(rest, onward)
      ensures Counts() && StoppedBy(failed)
      ensures Smooth() ==> failed.None? && Now() == HarnessRecovery.SentOne(old(Now()))
    {
      hide Stepped;
      var alive := Survives();
      if !alive { return Some(Died); }
      var answered := SendOne(id, rest, onward);
      if !answered { return Some(Raised); }
      alive := Survives();
      if !alive { return Some(Died); }
      var saved := MarkOne(id, rest, onward);
      if !saved { return Some(Raised); }
      return None;
    }

    /** `deliver`: sends every result state-api has not recorded yet; a failure leaves it for the next poll. */
    method Deliver(left: seq<Id>, ghost onward: AfterSending) returns (failed: Option<PassOutcome>)
      requires Tracks() && pc == Sending(left, onward)
      modifies this, host
      ensures Tracks() && host == old(host) && applied == old(applied) && old(steps) <= steps
      ensures failed.None? ==> pc == if onward == ToPoll then Polling else Resting
      ensures Counts() && StoppedBy(failed)
      ensures Smooth() ==> failed.None? && Now() == Stepped(HarnessRecovery.AllSent(old(Now())), Next)
    {
      hide HarnessRecovery.SentOne;
      var queue := left;
      while queue != []
        invariant Tracks() && pc == Sending(queue, onward) && host == old(host) && applied == old(applied)
        invariant old(steps) <= steps && Counts()
        invariant Smooth() ==> HarnessRecovery.AllSent(Now()) == HarnessRecovery.AllSent(old(Now()))
        decreases |queue|
      {
        var id, rest := queue[0], queue[1..];
        assert queue == [id] + rest;
        failed := DeliverOne(id, rest, onward);
        if failed.Some? { return; }
        queue := rest;
      }
      Note(Next);
      return None;
    }

    /** One entry closed. */
    method CloseNext(id: Id, ghost rest: seq<Id>) returns (failed: Option<PassOutcome>)
      requires Tracks() && pc == Closing([id] + rest)
      modifies this, host
      ensures Tracks() && host == old(host) && applied == old(applied) && old(steps) <= steps
      ensures failed.None? ==> pc == Closing(rest)
      ensures Counts() && StoppedBy(failed)
      ensures Smooth() ==>
        failed.None? && HarnessRecovery.AllClosed(Now()) == HarnessRecovery.AllClosed(old(Now()))
    {
      hide Stepped, HarnessRecovery.AllClosed;
      ClosedNext(Now());
      var alive := Survives();
      if !alive { return Some(Died); }
      var saved := CloseOne(id, rest);
      if !saved { return Some(Raised); }
      return None;
    }

    /** Closes what an earlier process left under way, as failed and without running it. */
    method CloseInterrupted() returns (failed: Option<PassOutcome>)
      requires Tracks() && pc == Resting
      modifies this, host
      ensures Tracks() && host == old(host) && applied == old(applied) && old(steps) <= steps
      ensures failed.None? ==> pc == Sending(Unreported(host.entries), ToPoll)
      ensures Counts() && StoppedBy(failed)
      ensures Smooth() ==>
        failed.None? && Now() == Stepped(HarnessRecovery.AllClosed(Stepped(old(Now()), Start)), Next)
    {
      hide After, HarnessRecovery.AllClosed, Underways, Unreported;
      var queue := Underways(host.entries);
      Note(Start);
      ghost var started := Now();
      assert started == Stepped(old(Now()), Start);
      while queue != []
        invariant Tracks() && pc == Closing(queue) && host == old(host) && applied == old(applied)
        invariant old(steps) <= steps && Counts()
        invariant Smooth() ==> HarnessRecovery.AllClosed(Now()) == HarnessRecovery.AllClosed(started)
        decreases |queue|
      {
        var id, rest := queue[0], queue[1..];
        assert queue == [id] + rest;
        failed := CloseNext(id, rest);
        if failed.Some? { return; }
        queue := rest;
      }
      NothingToClose(Now());
      Note(Next);
      return None;
    }

    /** The poll: no answer raises; otherwise the server's command, if it hands one out. */
    method PollOnce() returns (answer: Option<Option<(Command, bool)>>)
      requires Tracks() && pc == Polling
      modifies this
      ensures Tracks() && host == old(host) && applied == old(applied) && host.entries == old(host.entries)
      ensures answer.Some? && answer.value.Some? ==> pc == Judging(answer.value.value.0, answer.value.value.1)
      ensures answer.None? || answer.value.None? ==> pc == Resting
      ensures Counts() && disturbances == old(disturbances) && (answer.Some? <==> failures == old(failures))
      ensures answer.Some? ==> Now() == Stepped(old(Now()), Poll) && steps == old(steps) + [Poll]
      ensures answer.Some? ==> server == old(server) && (answer.value.None? <==> Handed(server).None?)
      ensures answer.None? ==> old(steps) <= steps
    {
      var arrives := Succeeds();
      if !arrives {
        GiveUp();
        return None;
      }
      Note(Poll);
      return Some(match Handed(server)
                  case None => None
                  case Some(c) => Some((c, StatusOf(server).BeingApplied?)));
    }

    /** Claim, write down, apply, write down the result, report. Nothing runs unless the claim was granted. */
    method ClaimAndApply(c: Command) returns (outcome: PassOutcome)
      requires Tracks() && pc == Judging(c, false) && !HasEntry(host.entries, c.id)
      modifies this, host
      ensures Tracks() && host == old(host) && old(steps) <= steps
      ensures if outcome == Died then pc == Down else pc == Resting
      ensures applied == old(applied) || applied == old(applied) + [c]
      ensures outcome in {Died, Raised, NotClaimed} || outcome.Applied?
      ensures outcome.NotClaimed? ==> applied == old(applied) && ClaimRefused(steps)
      ensures outcome.Applied? ==> applied == old(applied) + [c]
      ensures Counts() && Explained(outcome)
      ensures Smooth() ==> if JudgeClaim(old(server), c.id) != Claimed then outcome == NotClaimed else
        outcome.Applied? && Now() == Reporting(Concluding(Effecting(Noting(Taking(old(Now()))), outcome.ok)))
    {
      hide Reporting, Concluding, Effecting, Noting, Stepped, JudgeClaim, HasEntry;
      var alive := Survives();
      if !alive { return Died; }
      var verdict := AskClaim(c);
      if verdict.None? { return Raised; }
      if verdict.value != Claimed { return NotClaimed; }
      outcome := NoteAndApply(c);
    }

    /** The claim: no answer raises; otherwise the server's verdict. */
    method AskClaim(c: Command) returns (verdict: Option<ClaimVerdict>)
      requires Tracks() && pc == Judging(c, false) && !HasEntry(host.entries, c.id)
      modifies this
      ensures Tracks() && host == old(host) && applied == old(applied) && host.entries == old(host.entries)
      ensures Counts() && disturbances == old(disturbances) && (verdict.Some? <==> failures == old(failures))
      ensures verdict.None? ==> pc == Resting && old(steps) <= steps
      ensures verdict.Some? ==> Now() == Taking(old(Now())) && steps == old(steps) + [Take(false)]
      ensures verdict.Some? ==> verdict.value == JudgeClaim(old(server), c.id)
      ensures verdict.Some? ==> pc == if verdict.value == Claimed then Granted(c) else Resting
      ensures verdict.Some? && verdict.value != Claimed ==> ClaimRefused(steps)
    {
      hide JudgeClaim, Claim;
      var arrives := Succeeds();
      if !arrives {
        GiveUp();
        return None;
      }
      var judged := JudgeClaim(server, c.id);
      server := Claim(server, c.id);
      var answered := Succeeds();
      Note(Take(!answered));
      assert Front(steps) == old(steps);
      return if answered then Some(judged) else None;
    }

    /** A granted command is written down before it is run. */
    method NoteAndApply(c: Command) returns (outcome: PassOutcome)
      requires Tracks() && pc == Granted(c)
      modifies this, host
      ensures Tracks() && host == old(host) && old(steps) <= steps
      ensures if outcome == Died then pc == Down else pc == Resting
      ensures applied == old(applied) || applied == old(applied) + [c]
      ensures outcome in {Died, Raised} || outcome.Applied?
      ensures outcome.Applied? ==> applied == old(applied) + [c]
      ensures Counts() && Explained(outcome)
      ensures Smooth() ==>
        outcome.Applied? && Now() == Reporting(Concluding(Effecting(Noting(old(Now())), outcome.ok)))
    {
      hide Reporting, Concluding, Effecting, Stepped;
      var alive := Survives();
      if !alive { return Died; }
      var saved := NoteOne(c);
      if !saved { return Raised; }
      outcome := ApplyAndReport(c);
    }

    method NoteOne(c: Command) returns (saved: bool)
      requires Tracks() && pc == Granted(c)
      modifies this, host
      ensures Tracks() && host == old(host) && applied == old(applied) && old(steps) <= steps
      ensures pc == if saved then Noted(c) else Resting
      ensures Counts() && disturbances == old(disturbances) && (saved <==> failures == old(failures))
      ensures saved ==> Now() == Noting(old(Now()))
    {
      hide Trimmed;
      var writable := Succeeds();
      saved := host.Begin(c, writable);
      Note(Begin(saved));
    }

    method ApplyAndReport(c: Command) returns (outcome: PassOutcome)
      requires Tracks() && pc == Noted(c)
      modifies this, host
      ensures Tracks() && host == old(host) && old(steps) <= steps
      ensures outcome in {Died, Raised} || outcome.Applied?
      ensures if outcome == Died then pc == Down else pc == Resting
      ensures applied == old(applied) || applied == old(applied) + [c]
      ensures outcome.Applied? ==> applied == old(applied) + [c]
      ensures Counts() && Explained(outcome)
      ensures Smooth() ==> outcome.Applied? && Now() == Reporting(Concluding(Effecting(old(Now()), outcome.ok)))
    {
      hide Reporting, Concluding, Stepped;
      var alive := Survives();
      if !alive { return Died; }
      var result := ApplyOne(c);
      if result.None? { return Raised; }
      outcome := ConcludeAndReport(c, result.value);
    }

    /** `gateway.apply`: it may raise; otherwise it says whether it worked. */
    method ApplyOne(c: Command) returns (result: Option<bool>)
      requires Tracks() && pc == Noted(c)
      modifies this
      ensures Tracks() && host == old(host) && host.entries == old(host.entries) && old(steps) <= steps
      ensures applied == old(applied) + [c]
      ensures pc == if result.Some? then Returned(c, result.value) else Resting
      ensures Counts() && disturbances == old(disturbances) && (result.Some? <==> failures == old(failures))
      ensures result.Some? ==> Now() == Effecting(old(Now()), result.value)
    {
      applied := applied + [c];
      var ok: bool := *;
      var returned := Succeeds();
      Note(Effect(ok, !returned));
      return if returned then Some(ok) else None;
    }

    /** Writes down what came of it, and reports. */
    method ConcludeAndReport(c: Command, ok: bool) returns (outcome: PassOutcome)
      requires Tracks() && pc == Returned(c, ok)
      modifies this, host
      ensures Tracks() && host == old(host) && applied == old(applied) && old(steps) <= steps
      ensures outcome in {Died, Raised, PassOutcome.Applied(ok)}
      ensures if outcome == Died then pc == Down else pc == Resting
      ensures Counts() && Explained(outcome)
      ensures Smooth() ==> outcome == PassOutcome.Applied(ok) && Now() == Reporting(Concluding(old(Now())))
    {
      hide Stepped, HarnessRecovery.AllSent;
      var alive := Survives();
      if !alive { return Died; }
      var saved := ConcludeOne(c, ok);
      if !saved { return Raised; }
      var failed := Deliver(Unreported(host.entries), ToRest);
      return if failed.Some? then failed.value else PassOutcome.Applied(ok);
    }

    method ConcludeOne(c: Command, ok: bool) returns (saved: bool)
      requires Tracks() && pc == Returned(c, ok)
      modifies this, host
      ensures Tracks() && host == old(host) && applied == old(applied) && old(steps) <= steps
      ensures pc == if saved then Sending(Unreported(host.entries), ToRest) else Resting
      ensures Counts() && disturbances == old(disturbances) && (saved <==> failures == old(failures))
      ensures saved ==> Now() == Concluding(old(Now()))
    {
      hide Inv, Trimmed, Completed;
      Reachable(steps);
      HarnessRecovery.ReturnedHolds(Now(), c, ok);
      assert HasEntry(host.entries, Begun(c).id);
      var writable := Succeeds();
      saved := host.Finish(c.id, Outcome(ok, Ran), writable);
      Note(Conclude(saved));
    }

    /** A command already being applied, of which this host has no record, is written down as failed and not run. */
    method RefuseToRerun(c: Command) returns (outcome: PassOutcome)
      requires Tracks() && pc == Judging(c, true) && !HasEntry(host.entries, c.id)
      modifies this, host
      ensures Tracks() && host == old(host) && applied == old(applied) && old(steps) <= steps
      ensures outcome in {Died, Raised, NotRunAgain} && (outcome == NotRunAgain ==> WrittenUnrun(old(steps), steps))
      ensures if outcome == Died then pc == Down else pc == Resting
      ensures Counts() && Explained(outcome)
      ensures Smooth() ==> outcome == NotRunAgain && Now() == Reporting(Stepped(old(Now()), Judge(true)))
    {
      hide Stepped, HarnessRecovery.AllSent, UnrunAt, WrittenUnrun;
      var alive := Survives();
      if !alive { return Died; }
      ghost var judging := |steps|;
      var saved := WriteUnrun(c);
      if !saved { return Raised; }
      ghost var judged := steps;
      var failed := Deliver(Unreported(host.entries), ToRest);
      UnrunStays(old(steps), judged, steps, judging);
      return if failed.Some? then failed.value else NotRunAgain;
    }

    method WriteUnrun(c: Command) returns (saved: bool)
      requires Tracks() && pc == Judging(c, true) && !HasEntry(host.entries, c.id)
      modifies this, host
      ensures Tracks() && host == old(host) && applied == old(applied) && old(steps) <= steps
      ensures pc == if saved then Sending(Unreported(host.entries), ToRest) else Resting
      ensures Counts() && disturbances == old(disturbances) && (saved <==> failures == old(failures))
      ensures saved ==> Now() == Stepped(old(Now()), Judge(true))
      ensures saved ==> |steps| == |old(steps)| + 1 && UnrunAt(steps, |old(steps)|)
    {
      hide Trimmed;
      var writable := Succeeds();
      saved := host.RecordUnrun(c, writable);
      Note(Judge(saved));
      assert steps[..|old(steps)|] == old(steps);
    }

    /** From the start of a pass to its poll: closes, reports, and asks. */
    method AskServer() returns (failed: Option<PassOutcome>, answer: Option<(Command, bool)>)
      requires Tracks() && pc == Resting
      modifies this, host
      ensures Tracks() && host == old(host) && applied == old(applied) && old(steps) <= steps
      ensures Counts() && StoppedBy(failed)
      ensures failed.None? ==> steps != [] && Last(steps) == Poll && Now() == Stepped(After(Front(steps)), Poll)
      ensures failed.None? ==> pc == (match answer case None => Resting case Some(a) => Judging(a.0, a.1))
      ensures failed.None? ==> After(Front(steps)).pc == Polling
      ensures failed.None? ==> (answer.None? <==> Handed(After(Front(steps)).server).None?)
      ensures Smooth() ==> failed.None? && Now() == HarnessRecovery.Polled(old(Now()))
    {
      hide Stepped, Handed, StatusOf, HarnessRecovery.AllSent, HarnessRecovery.AllClosed;
      answer := None;
      failed := CloseInterrupted();
      if failed.Some? { return; }
      failed := Deliver(Unreported(host.entries), ToPoll);
      if failed.Some? { return; }
      var alive := Survives();
      if !alive { return Some(Died), None; }
      ghost var asking := steps;
      var polled := PollOnce();
      if polled.None? { return Some(Raised), None; }
      answer := polled.value;
      assert Front(steps) == asking;
    }

    /**
     `run_pass`: one poll. It answers `Idle` only when the server handed nothing out, `Handled` only when the host
     has an entry for what was handed out, `NotClaimed` only when the claim was answered and not granted, and it
     raises only when a request, a save or the apply failed. If nothing fails and the world stands still, the
     pending command is applied, and no other, every entry is reported, and the server shows what came of it.
     */
    method RunPass() returns (outcome: PassOutcome)
      requires Tracks() && pc == Resting
      modifies this, host
      ensures Tracks() && host == old(host)
      ensures if outcome == Died then pc == Down else pc == Resting
      ensures outcome.Applied? ==> |applied| == |old(applied)| + 1
      ensures applied != old(applied) ==> outcome.Applied? || outcome in {Died, Raised}
      ensures outcome == Idle ==> NothingHanded(steps)
      ensures outcome == Handled ==> HandedAndKnown(steps)
      ensures outcome == NotClaimed ==> ClaimRefused(steps)
      ensures outcome == NotRunAgain ==> WrittenUnrun(old(steps), steps)
      ensures Counts() && Explained(outcome)
      ensures Smooth() ==> outcome.Applied? || outcome in {Idle, NotRunAgain}
      ensures Smooth() ==> (outcome.Applied? <==> StatusOf(old(server)).Pending?)
      ensures Smooth() ==> applied == old(applied) + HarnessRecovery.ToApply(old(Now()))
      ensures Smooth() ==> HarnessRecovery.AllReported(host.entries) && issued == old(issued)
      ensures Smooth() && outcome.Applied? ==> StatusOf(server) == HostStatus.Finished(outcome.ok)
      ensures Smooth() && !outcome.Applied? ==> StatusOf(server) == HarnessRecovery.Reported(old(Now()))
    {
      hide Stepped, Handed, StatusOf, Reporting, Inv, JudgeClaim, HasEntry;
      hide HarnessRecovery.AllReported, HarnessRecovery.Polled;
      ghost var before := Now();
      Reachable(steps);
      HarnessRecovery.PollDecides(before);
      var failed, answer := AskServer();
      if failed.Some? { return failed.value; }
      if answer.None? {
        outcome := Idle;
      } else {
        outcome := Judged(answer.value.0, answer.value.1);
      }
      if Smooth() { SmoothPass(before, Now(), outcome); }
    }

    /** What becomes of a command that was handed out. */
    method Judged(c: Command, applying: bool) returns (outcome: PassOutcome)
      requires Tracks() && pc == Judging(c, applying) && steps != [] && Last(steps) == Poll
      modifies this, host
      ensures Tracks() && host == old(host) && old(steps) <= steps
      ensures if outcome == Died then pc == Down else pc == Resting
      ensures applied == old(applied) || applied == old(applied) + [c]
      ensures outcome.Applied? <==> applied != old(applied) && outcome !in {Died, Raised}
      ensures outcome == Handled ==> HandedAndKnown(steps)
      ensures outcome == NotClaimed ==> ClaimRefused(steps)
      ensures outcome == NotRunAgain ==> WrittenUnrun(old(steps), steps)
      ensures outcome != Idle && Counts() && Explained(outcome)
      ensures Smooth() && !HasEntry(old(host.entries), c.id) && (!applying ==> JudgeClaim(old(server), c.id) == Claimed)
        ==> EndsFrom(old(Now()), Now(), outcome)
    {
      var at := host.Find(c.id);
      if at.Some? {
        Note(Judge(true));
        assert Front(steps) == old(steps);
        return Handled;
      }
      if applying {
        outcome := RefuseToRerun(c);
      } else {
        outcome := ClaimAndApply(c);
      }
    }

    /** The logon task: processes start, poll, die and start again. Whatever happens, no command runs twice. */
    method Run(polls: nat)
      requires Tracks() && pc == Down
      modifies this, host
      ensures Tracks()
      ensures Subsequence(applied, issued)
      ensures forall i, j :: 0 <= i < j < |applied| ==> applied[i].id != applied[j].id
    {
      var up := false;
      for i := 0 to polls
        invariant Tracks() && pc == (if up then Resting else Down)
        invariant host == old(host) || fresh(host)
      {
        if up {
          var outcome := RunPass();
          up := outcome != Died;
        } else {
          World();
          Boot();
          up := true;
        }
      }
      AppliedAtMostOnce(steps);
    }
  }
}
