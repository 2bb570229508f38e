/** The host's own record of the commands it has handled, kept in a state file. */
module HarnessHost {
  import opened Common
  import opened HarnessServer

  const KEEP: nat := 20

  datatype Phase = Underway | Complete

  /** Why an entry says what it says: the command ran, stopped half way, or was never run here. */
  datatype Note = Ran | Interrupted | NotRerun

  datatype Outcome = Outcome(ok: bool, note: Note)

  datatype Entry = Entry(id: Id, desired: Desired, phase: Phase, result: Option<Outcome>, reported: bool)

  function Underways(es: seq<Entry>): (ids: seq<Id>)
    ensures forall id :: id in ids <==> exists e :: e in es && e.id == id && e.phase == Underway
  {
    if es == [] then []
    else (if es[0].phase == Underway then [es[0].id] else []) + Underways(es[1..])
  }

  predicate Owed(e: Entry) {
    e.phase == Complete && !e.reported
  }

  function Unreported(es: seq<Entry>): (ids: seq<Id>)
    ensures forall id :: id in ids <==> exists e :: e in es && e.id == id && Owed(e)
  {
    if es == [] then []
    else (if Owed(es[0]) then [es[0].id] else []) + Unreported(es[1..])
  }

  predicate HasEntry(es: seq<Entry>, id: Id) {
    exists e :: e in es && e.id == id
  }

  predicate OneEach(es: seq<Entry>) {
    forall i, j :: 0 <= i < j < |es| ==> es[i].id != es[j].id
  }

  predicate AnyReported(es: seq<Entry>) {
    exists e :: e in es && e.reported
  }

  function FirstReported(es: seq<Entry>): (i: nat)
    requires AnyReported(es)
    ensures i < |es| && es[i].reported && forall j :: 0 <= j < i ==> !es[j].reported
  {
    if es[0].reported then 0 else 1 + FirstReported(es[1..])
  }

  function WithoutFirstReported(es: seq<Entry>): (rest: seq<Entry>)
    requires AnyReported(es)
    ensures |rest| == |es| - 1
  {
    es[..FirstReported(es)] + es[FirstReported(es) + 1..]
  }

  /** What a save keeps: the oldest reported entries go first, and only while there are too many. */
  function Trimmed(es: seq<Entry>): seq<Entry>
    decreases |es|
  {
    if |es| > KEEP && AnyReported(es) then Trimmed(WithoutFirstReported(es)) else es
  }

  function DropReported(es: seq<Entry>, k: nat): seq<Entry> {
    if es == [] || k == 0 then es
    else if es[0].reported then DropReported(es[1..], k - 1)
    else [es[0]] + DropReported(es[1..], k)
  }

  function CountReported(es: seq<Entry>): nat {
    if es == [] then 0 else (if es[0].reported then 1 else 0) + CountReported(es[1..])
  }

  lemma {:induction false} DropFirstReported(es: seq<Entry>, i: nat, k: nat)
    requires i < |es| && es[i].reported && forall j :: 0 <= j < i ==> !es[j].reported
    ensures CountReported(es) == 1 + CountReported(es[..i] + es[i + 1..])
    ensures DropReported(es, k + 1) == DropReported(es[..i] + es[i + 1..], k)
  {
    var rest := es[..i] + es[i + 1..];
    if i == 0 {
      assert rest == es[1..];
    } else {
      DropFirstReported(es[1..], i - 1, k);
      assert rest[1..] == es[1..][..i - 1] + es[1..][i..];
    }
  }

  lemma {:induction false} NoneReported(es: seq<Entry>)
    ensures AnyReported(es) <==> CountReported(es) > 0
  {
    if es != [] { NoneReported(es[1..]); }
  }

  function Least(a: nat, b: nat): nat { if a < b then a else b }

  /** How many entries a save has to evict, if it can. */
  function Excess(es: seq<Entry>): nat {
    if |es| > KEEP then |es| - KEEP else 0
  }

  lemma DropFirst(es: seq<Entry>, k: nat)
    requires AnyReported(es)
    ensures CountReported(es) == 1 + CountReported(WithoutFirstReported(es))
    ensures DropReported(es, k + 1) == DropReported(WithoutFirstReported(es), k)
  {
    DropFirstReported(es, FirstReported(es), k);
  }

  /** How many entries a save evicts. */
  function Evictions(es: seq<Entry>): nat {
    Least(Excess(es), CountReported(es))
  }

  lemma EvictionsStep(es: seq<Entry>, rest: seq<Entry>)
    requires |es| > KEEP && |rest| + 1 == |es| && CountReported(es) == 1 + CountReported(rest)
    ensures Evictions(es) == Evictions(rest) + 1
  {
  }

  lemma OneFewer(es: seq<Entry>)
    requires AnyReported(es)
    ensures |WithoutFirstReported(es)| + 1 == |es|
  {
  }

  lemma TrimStep(es: seq<Entry>, rest: seq<Entry>)
    requires |es| > KEEP && AnyReported(es) && rest == WithoutFirstReported(es)
    requires Trimmed(rest) == DropReported(rest, Evictions(rest))
    ensures Trimmed(es) == DropReported(es, Evictions(es))
  {
    OneFewer(es);
    hide CountReported, DropReported, WithoutFirstReported, Evictions;
    DropFirst(es, Evictions(rest));
    EvictionsStep(es, rest);
  }

  lemma NothingTrimmed(es: seq<Entry>)
    requires |es| <= KEEP || !AnyReported(es)
    ensures Trimmed(es) == DropReported(es, Evictions(es))
  {
    NoneReported(es);
  }

  /** A save evicts the oldest reported entries, exactly as many as the excess and no more. */
  lemma {:induction false} TrimDropsOldestReported(es: seq<Entry>)
    ensures Trimmed(es) == DropReported(es, Evictions(es))
    decreases |es|
  {
    if |es| > KEEP && AnyReported(es) {
      OneFewer(es);
      hide Trimmed, DropReported, Evictions, WithoutFirstReported;
      TrimDropsOldestReported(WithoutFirstReported(es));
      TrimStep(es, WithoutFirstReported(es));
    } else {
      NothingTrimmed(es);
    }
  }

  lemma RestKeeps(es: seq<Entry>)
    requires AnyReported(es)
    ensures var rest := WithoutFirstReported(es);
      && (forall e :: e in rest ==> e in es)
      && (forall e :: e in es && !e.reported ==> e in rest)
      && (OneEach(es) ==> OneEach(rest))
  {
    var i, rest := FirstReported(es), WithoutFirstReported(es);
    forall e | e in es && !e.reported ensures e in rest {
      var j :| 0 <= j < |es| && es[j] == e;
      assert if j < i then rest[j] == e else rest[j - 1] == e;
    }
  }

  /** A save loses no entry that has not been reported, and leaves at most KEEP entries or nothing reported. */
  lemma {:induction false} TrimKeeps(es: seq<Entry>)
    ensures forall e :: e in Trimmed(es) ==> e in es
    ensures forall e :: e in es && !e.reported ==> e in Trimmed(es)
    ensures OneEach(es) ==> OneEach(Trimmed(es))
    ensures |Trimmed(es)| <= KEEP || !AnyReported(Trimmed(es))
    decreases |es|
  {
    if |es| > KEEP && AnyReported(es) {
      RestKeeps(es);
      TrimKeeps(WithoutFirstReported(es));
    }
  }

  /** `self.find(id).update(...)`: the first entry with this id is replaced. */
  function Completed(es: seq<Entry>, id: Id, outcome: Outcome): seq<Entry> {
    if es == [] then []
    else if es[0].id == id then [es[0].(phase := Complete, result := Some(outcome))] + es[1..]
    else [es[0]] + Completed(es[1..], id, outcome)
  }

  function MarkedReported(es: seq<Entry>, id: Id): seq<Entry> {
    if es == [] then []
    else if es[0].id == id then [es[0].(reported := true)] + es[1..]
    else [es[0]] + MarkedReported(es[1..], id)
  }

  lemma {:induction false} CompletedOnly(es: seq<Entry>, id: Id, outcome: Outcome)
    requires OneEach(es)
    ensures |Completed(es, id, outcome)| == |es|
    ensures forall i :: 0 <= i < |es| ==>
      Completed(es, id, outcome)[i] == if es[i].id == id then es[i].(phase := Complete, result := Some(outcome))
        else es[i]
    ensures OneEach(Completed(es, id, outcome))
  {
    if es != [] && es[0].id != id { CompletedOnly(es[1..], id, outcome); }
  }

  lemma {:induction false} MarkedOnly(es: seq<Entry>, id: Id)
    requires OneEach(es)
    ensures |MarkedReported(es, id)| == |es|
    ensures forall i :: 0 <= i < |es| ==>
      MarkedReported(es, id)[i] == if es[i].id == id then es[i].(reported := true) else es[i]
    ensures OneEach(MarkedReported(es, id))
  {
    if es != [] && es[0].id != id { MarkedOnly(es[1..], id); }
  }

  function Begun(c: Command): Entry {
    Entry(c.id, c.desired, Underway, None, false)
  }

  function Unrun(c: Command): Entry {
    Entry(c.id, c.desired, Complete, Some(Outcome(false, NotRerun)), false)
  }

  /** The entries in memory and what the state file decodes to; an absent or unreadable file decodes to nothing. */
  class HostState {
    var entries: seq<Entry>
    var disk: seq<Entry>

    constructor (file: seq<Entry>)
      ensures entries == file && disk == file
    {
      entries, disk := file, file;
    }

    /** `_save`. The file is replaced in one step or, when writing fails, not at all. */
    method Save(writable: bool) returns (saved: bool)
      modifies this
      ensures saved == writable
      ensures entries == Trimmed(old(entries))
      ensures disk == if saved then entries else old(disk)
    {
      while |entries| > KEEP && AnyReported(entries)
        invariant Trimmed(entries) == Trimmed(old(entries)) && disk == old(disk)
        decreases |entries|
      {
        var i := 0;
        while !entries[i].reported
          invariant 0 <= i < |entries| && i <= FirstReported(entries)
          decreases |entries| - i
        {
          i := i + 1;
        }
        entries := entries[..i] + entries[i + 1..];
      }
      if writable {
        disk := entries;
      }
      saved := writable;
    }

    method Find(id: Id) returns (at: Option<nat>)
      ensures at.Some? <==> HasEntry(entries, id)
      ensures at.Some? ==> at.value < |entries| && entries[at.value].id == id
      ensures at.Some? ==> forall j :: 0 <= j < at.value ==> entries[j].id != id
    {
      var i := 0;
      while i < |entries|
        invariant 0 <= i <= |entries|
        invariant forall j :: 0 <= j < i ==> entries[j].id != id
      {
        if entries[i].id == id {
          return Some(i);
        }
        i := i + 1;
      }
      return None;
    }

    method Begin(c: Command, writable: bool) returns (saved: bool)
      modifies this
      ensures saved == writable
      ensures entries == Trimmed(old(entries) + [Begun(c)])
      ensures disk == if saved then entries else old(disk)
    {
      entries := entries + [Begun(c)];
      saved := Save(writable);
    }

    /** The lookup must succeed: updating an entry that is not there would raise. */
    method Finish(id: Id, outcome: Outcome, writable: bool) returns (saved: bool)
      requires HasEntry(entries, id)
      modifies this
      ensures saved == writable
      ensures entries == Trimmed(Completed(old(entries), id, outcome))
      ensures disk == if saved then entries else old(disk)
    {
      var at := Find(id);
      CompletedAt(entries, at.value, id, outcome);
      entries := entries[at.value := entries[at.value].(phase := Complete, result := Some(outcome))];
      saved := Save(writable);
    }

    method RecordUnrun(c: Command, writable: bool) returns (saved: bool)
      modifies this
      ensures saved == writable
      ensures entries == Trimmed(old(entries) + [Unrun(c)])
      ensures disk == if saved then entries else old(disk)
    {
      entries := entries + [Unrun(c)];
      saved := Save(writable);
    }

    method MarkReported(id: Id, writable: bool) returns (saved: bool)
      requires HasEntry(entries, id)
      modifies this
      ensures saved == writable
      ensures entries == Trimmed(MarkedReported(old(entries), id))
      ensures disk == if saved then entries else old(disk)
    {
      var at := Find(id);
      MarkedAt(entries, at.value, id);
      entries := entries[at.value := entries[at.value].(reported := true)];
      saved := Save(writable);
    }
  }

  lemma {:induction false} CompletedAt(es: seq<Entry>, i: nat, id: Id, outcome: Outcome)
    requires i < |es| && es[i].id == id && forall j :: 0 <= j < i ==> es[j].id != id
    ensures Completed(es, id, outcome) == es[i := es[i].(phase := Complete, result := Some(outcome))]
  {
    if i > 0 { CompletedAt(es[1..], i - 1, id, outcome); }
  }

  lemma {:induction false} MarkedAt(es: seq<Entry>, i: nat, id: Id)
    requires i < |es| && es[i].id == id && forall j :: 0 <= j < i ==> es[j].id != id
    ensures MarkedReported(es, id) == es[i := es[i].(reported := true)]
  {
    if i > 0 { MarkedAt(es[1..], i - 1, id); }
  }
}
