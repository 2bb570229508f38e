/** The ledger bridge. */
module LedgerBridge {
  // The bridge that posts the lines appended to two append-only ledgers.
  //
  // Others append bytes before, between and after any two effects of a pass: the size taken of a ledger, its
  // read, each post and each save. A post may fail with or without having been stored, and saving the cursors
  // may fail. A ghost log holds the effects, and what was settled is a function of that log.

  import opened ByteLines
  import opened Common

  const BATCH: nat := 500

  predicate WholeLines(data: seq<Byte>) {
    data == [] || Last(data) == NEWLINE
  }

  /** Reading lines: what whole lines say does not depend on what follows or comes before them. */
  ghost predicate LineByLine<Row(!new)>(rows: seq<Byte> -> seq<Row>) {
    rows([]) == [] && forall a, b :: WholeLines(a) && WholeLines(b) ==> rows(a + b) == rows(a) + rows(b)
  }

  function Parsed<Row>(parse: seq<Byte> -> Option<Row>, lines: seq<seq<Byte>>): seq<Row> {
    if lines == [] then []
    else (match parse(lines[0]) case Some(row) => [row] case None => []) + Parsed(parse, lines[1..])
  }

  /** `parse_lines` of the complete lines: a line that is not a row is passed over. */
  function ParseLines<Row>(parse: seq<Byte> -> Option<Row>): seq<Byte> -> seq<Row> {
    (data: seq<Byte>) => Parsed(parse, Front(Split(data)))
  }

  lemma {:induction false} ParsedJoins<Row>(parse: seq<Byte> -> Option<Row>, a: seq<seq<Byte>>, b: seq<seq<Byte>>)
    ensures Parsed(parse, a + b) == Parsed(parse, a) + Parsed(parse, b)
  {
    if a == [] {
      assert a + b == b;
    } else {
      ParsedJoins(parse, a[1..], b);
      HeadOfJoin(a, b);
    }
  }

  lemma {:induction false} WholeLinesSplit(a: seq<Byte>)
    requires WholeLines(a) && a != []
    ensures |Split(a)| >= 2
  {
    if |a| > 1 { WholeLinesSplit(a[1..]); }
  }

  /** A byte in front of the pieces: a newline is a piece of its own, another byte starts the first. */
  function Prepend(x: Byte, pieces: seq<seq<Byte>>): seq<seq<Byte>>
    requires pieces != []
  {
    if x == NEWLINE then [[]] + pieces else [[x] + pieces[0]] + pieces[1..]
  }

  lemma PrependJoins(x: Byte, a: seq<seq<Byte>>, b: seq<seq<Byte>>)
    requires b != [] && a != [] && (x == NEWLINE || |a| >= 2)
    ensures Prepend(x, Front(a) + b) == Front(Prepend(x, a)) + b
  {
  }

  lemma {:induction false} SplitJoins(a: seq<Byte>, b: seq<Byte>)
    requires WholeLines(a)
    ensures Split(a + b) == Front(Split(a)) + Split(b)
  {
    if a == [] {
      assert a + b == b;
    } else {
      SplitJoins(a[1..], b);
      HeadOfJoin(a, b);
      if a[0] != NEWLINE { WholeLinesSplit(a[1..]); }
      assert Split(a) == Prepend(a[0], Split(a[1..])) && Split(a + b) == Prepend(a[0], Split(a[1..] + b));
      PrependJoins(a[0], Split(a[1..]), Split(b));
    }
  }

  /** With newline the only separator, lines are read one by one. */
  lemma ParsesLineByLine<Row(!new)>(parse: seq<Byte> -> Option<Row>)
    ensures LineByLine(ParseLines(parse))
  {
    forall a: seq<Byte>, b: seq<Byte> | WholeLines(a) && WholeLines(b)
      ensures ParseLines(parse)(a + b) == ParseLines(parse)(a) + ParseLines(parse)(b)
    {
      SplitJoins(a, b);
      assert Front(Front(Split(a)) + Split(b)) == Front(Split(a)) + Front(Split(b));
      ParsedJoins(parse, Front(Split(a)), Front(Split(b)));
    }
  }

  // ----- Reading what was appended

  /** Where reading starts: a file shorter than its cursor was replaced, and is read from the start. */
  function StartAt(file: seq<Byte>, cursor: nat): (start: nat)
    ensures start <= |file|
  {
    if |file| < cursor then 0 else cursor
  }

  lemma RFindCompletes(data: seq<Byte>)
    ensures CompleteLength(data) == RFind(data) + 1
  {
  }

  /**
   `read_appended`: the complete lines since the cursor within the size first taken, though the file has
   grown since.
   */
  method ReadAppended(file: seq<Byte>, size: nat, cursor: nat) returns (data: seq<Byte>, next: nat)
    requires size <= |file|
    ensures var seen := file[..size]; var start := StartAt(seen, cursor);
      && start <= next <= size && data == seen[start..next] && WholeLines(data)
      && next == start + CompleteLength(seen[start..])
  {
    var offset := cursor;
    if size < offset {
      offset := 0;
    }
    if size == offset {
      return [], offset;
    }
    var appended := file[offset..size];
    assert appended == file[..size][offset..];
    RFindCompletes(appended);
    var end := RFind(appended);
    if end < 0 {
      return [], offset;
    }
    data, next := appended[..end + 1], offset + end + 1;
  }

  /** A cursor at 0 or just past a newline of the file. */
  predicate AtLineEnd(file: seq<Byte>, cursor: nat) {
    cursor <= |file| && WholeLines(file[..cursor])
  }

  /** From a good cursor, reading reaches the end of the last complete line, and no partial line is read or passed. */
  lemma {:induction false} ReadsToLastLine(file: seq<Byte>, cursor: nat)
    requires AtLineEnd(file, cursor)
    ensures cursor + CompleteLength(file[cursor..]) == CompleteLength(file)
  {
    var n := CompleteLength(file[cursor..]);
    var tail := file[cursor + n..];
    assert forall j :: 0 <= j < |tail| ==> tail[j] == file[cursor..][n + j];
    assert file == file[..cursor + n] + tail;
    if n > 0 { assert Last(file[..cursor + n]) == file[cursor..][n - 1]; }
    else { assert file[..cursor + n] == file[..cursor]; }
    CompleteLengthOf(file[..cursor + n], tail);
  }

  /** The complete lines within the size first taken, though the file has grown since. */
  lemma ReadReachesEnd(seen: seq<Byte>, file: seq<Byte>, cursor: nat)
    requires AtLineEnd(seen, cursor) && seen <= file
    ensures file[..|seen|] == seen && StartAt(seen, cursor) == cursor <= |seen|
    ensures cursor + CompleteLength(seen[cursor..]) == CompleteLength(seen)
  {
    ReadsToLastLine(seen, cursor);
  }

  /** What a good cursor reads next continues what came before it. */
  lemma RowsContinue<Row(!new)>(rows: seq<Byte> -> seq<Row>, file: seq<Byte>, cursor: nat, next: nat)
    requires LineByLine(rows) && AtLineEnd(file, cursor) && cursor <= next <= |file| && WholeLines(file[cursor..next])
    ensures AtLineEnd(file, next) && rows(file[..next]) == rows(file[..cursor]) + rows(file[cursor..next])
  {
    assert file[..next] == file[..cursor] + file[cursor..next];
  }

  lemma CompleteGrows(file: seq<Byte>, more: seq<Byte>)
    ensures CompleteLength(file) <= CompleteLength(file + more)
  {
    var n := CompleteLength(file);
    if n > 0 { assert (file + more)[n - 1] == NEWLINE; }
  }

  // ----- The two ledgers

  datatype Kind = Signals | Outcomes

  datatype PerKind<T> = PerKind(signals: T, outcomes: T) {
    function Get(kind: Kind): T {
      if kind == Signals then signals else outcomes
    }

    function Set(kind: Kind, x: T): (r: PerKind<T>)
      ensures r.Get(kind) == x && forall k :: k != kind ==> r.Get(k) == Get(k)
    {
      if kind == Signals then PerKind(x, outcomes) else PerKind(signals, x)
    }
  }

  /** What happens to the server's storage and to the state file. */
  datatype Event<Row> =
    | Began(kind: Kind)
    | Stored(kind: Kind, rows: seq<Row>)
    | CursorSaved(kind: Kind)
    | StateLost

  /** The rows of one ledger the server stored, in the order they arrived, repeats included. */
  function Sent<Row>(log: seq<Event<Row>>, kind: Kind): seq<Row> {
    if log == [] then []
    else match Last(log)
      case Stored(k, rows) => if k == kind then Sent(Front(log), kind) + rows else Sent(Front(log), kind)
      case _ => Sent(Front(log), kind)
  }

  /** The rows stored since work on this ledger last began, while its cursor has not been saved. */
  function Unsaved<Row>(log: seq<Event<Row>>, kind: Kind): seq<Row> {
    if log == [] then []
    else match Last(log)
      case Began(k) => if k == kind then [] else Unsaved(Front(log), kind)
      case Stored(k, rows) => if k == kind then Unsaved(Front(log), kind) + rows else Unsaved(Front(log), kind)
      case CursorSaved(k) => if k == kind then [] else Unsaved(Front(log), kind)
      case StateLost => Unsaved(Front(log), kind)
  }

  /** What the passes that saved had posted, since the state file was last lost. */
  function Settled<Row>(log: seq<Event<Row>>, kind: Kind): seq<Row> {
    if log == [] then []
    else match Last(log)
      case CursorSaved(k) => if k == kind then Settled(Front(log), kind) + Unsaved(Front(log), kind)
        else Settled(Front(log), kind)
      case StateLost => []
      case _ => Settled(Front(log), kind)
  }

  lemma LogAdds<Row>(log: seq<Event<Row>>, e: Event<Row>)
    ensures Front(log + [e]) == log && Last(log + [e]) == e
  {
  }

  lemma {:induction false} SubsequenceWithout<T>(a: seq<T>, b: seq<T>, s: seq<T>)
    requires Subsequence(a + b, s)
    ensures Subsequence(a, s) && Subsequence(b, s)
    decreases |s|
  {
    if b == [] {
      assert a + b == a;
    } else if Last(a + b) == Last(s) && Subsequence(Front(a + b), Front(s)) {
      assert Front(a + b) == a + Front(b);
      SubsequenceWithout(a, Front(b), Front(s));
    } else {
      SubsequenceWithout(a, b, Front(s));
    }
  }

  lemma {:induction false} SubsequenceJoins<T>(a: seq<T>, b: seq<T>, more: seq<T>)
    requires Subsequence(a, b)
    ensures Subsequence(a + more, b + more)
    decreases |more|
  {
    if more == [] {
      assert a + more == a && b + more == b;
    } else {
      SubsequenceJoins(a, b, Front(more));
      SubsequenceTakes(a + Front(more), b + Front(more), Last(more));
      assert (a + Front(more)) + [Last(more)] == a + more && (b + Front(more)) + [Last(more)] == b + more;
    }
  }

  lemma SubsequenceAdded<T>(a: seq<T>, b: seq<T>, s: seq<T>, more: seq<T>)
    requires Subsequence(a + b, s)
    ensures Subsequence(a + (b + more), s + more)
  {
    SubsequenceJoins(a + b, s, more);
    assert (a + b) + more == a + (b + more);
  }

  lemma SubsequenceParts<T>(a: seq<T>, b: seq<T>, s: seq<T>)
    requires Subsequence(a + b, s)
    ensures Subsequence(a + [], s) && Subsequence([] + b, s) && Subsequence((a + b) + [], s)
  {
    SubsequenceWithout(a, b, s);
    assert a + [] == a && [] + b == b && (a + b) + [] == a + b;
  }

  lemma SettledAfter<Row>(log: seq<Event<Row>>, kind: Kind, a: seq<Row>, b: seq<Row>, s: seq<Row>)
    requires log != [] && a == Settled(Front(log), kind) && b == Unsaved(Front(log), kind)
      && s == Sent(Front(log), kind)
    requires Subsequence(a + b, s)
    ensures Subsequence(Settled(log, kind) + Unsaved(log, kind), Sent(log, kind))
  {
    hide Subsequence;
    SubsequenceParts(a, b, s);
    match Last(log)
    case Stored(k, rows) => SubsequenceAdded(a, b, s, rows);
    case _ =>
  }

  /** Nothing counts as settled, or twice, that the server did not store as often, in that order. */
  lemma {:induction false} SettledWasSent<Row>(log: seq<Event<Row>>, kind: Kind)
    ensures Subsequence(Settled(log, kind) + Unsaved(log, kind), Sent(log, kind))
  {
    if log != [] {
      hide Subsequence;
      SettledWasSent(Front(log), kind);
      SettledAfter(log, kind, Settled(Front(log), kind), Unsaved(Front(log), kind), Sent(Front(log), kind));
    }
  }

  predicate Batched<Row>(log: seq<Event<Row>>) {
    forall i :: 0 <= i < |log| && log[i].Stored? ==> 0 < |log[i].rows| <= BATCH
  }

  /** `after` goes on from `before`, the state file not being lost in between. */
  predicate Continues<Row(==)>(before: seq<Event<Row>>, after: seq<Event<Row>>) {
    before <= after && forall i :: |before| <= i < |after| ==> !after[i].StateLost?
  }

  /** Since `before`, the server stored these rows of one ledger and nothing else happened. */
  predicate OnlyStored<Row(==)>(before: seq<Event<Row>>, after: seq<Event<Row>>, kind: Kind, rows: seq<Row>) {
    && Batched(after) && Continues(before, after)
    && Sent(after, kind) == Sent(before, kind) + rows && Unsaved(after, kind) == Unsaved(before, kind) + rows
    && (forall k :: k != kind ==> Sent(after, k) == Sent(before, k))
    && forall k :: Settled(after, k) == Settled(before, k)
  }

  /** Nothing was stored, and nothing was settled or lost. */
  predicate NothingStored<Row(==)>(before: seq<Event<Row>>, after: seq<Event<Row>>) {
    Batched(after) && Continues(before, after)
    && forall k :: Sent(after, k) == Sent(before, k) && Settled(after, k) == Settled(before, k)
  }

  lemma AddStored<Row>(log: seq<Event<Row>>, kind: Kind, rows: seq<Row>)
    requires Batched(log) && 0 < |rows| <= BATCH
    ensures OnlyStored(log, log + [Stored(kind, rows)], kind, rows)
  {
    LogAdds(log, Stored(kind, rows));
  }

  lemma AddNothing<Row>(log: seq<Event<Row>>, kind: Kind)
    requires Batched(log)
    ensures OnlyStored(log, log, kind, [])
  {
  }

  lemma StoredJoins<Row>(a: seq<Event<Row>>, b: seq<Event<Row>>, c: seq<Event<Row>>, kind: Kind, first: seq<Row>,
      second: seq<Row>)
    requires OnlyStored(a, b, kind, first) && OnlyStored(b, c, kind, second)
    ensures OnlyStored(a, c, kind, first + second)
  {
    hide Sent, Settled, Unsaved, Batched;
    ContinuesJoins(a, b, c);
    assert (Sent(a, kind) + first) + second == Sent(a, kind) + (first + second);
    assert (Unsaved(a, kind) + first) + second == Unsaved(a, kind) + (first + second);
  }

  lemma ContinuesJoins<Row>(a: seq<Event<Row>>, b: seq<Event<Row>>, c: seq<Event<Row>>)
    requires Continues(a, b) && Continues(b, c)
    ensures Continues(a, c)
  {
    assert forall i :: |a| <= i < |b| ==> c[i] == b[i];
  }

  lemma AddBegan<Row>(log: seq<Event<Row>>, kind: Kind)
    requires Batched(log)
    ensures NothingStored(log, log + [Began(kind)]) && Unsaved(log + [Began(kind)], kind) == []
  {
    LogAdds(log, Began(kind));
  }

  lemma AddSaved<Row>(log: seq<Event<Row>>, kind: Kind)
    requires Batched(log)
    ensures var after := log + [CursorSaved(kind)];
      && Batched(after) && Continues(log, after) && (forall k :: Sent(after, k) == Sent(log, k))
      && Settled(after, kind) == Settled(log, kind) + Unsaved(log, kind)
      && forall k :: k != kind ==> Settled(after, k) == Settled(log, k)
  {
    LogAdds(log, CursorSaved(kind));
  }

  lemma AddLost<Row>(log: seq<Event<Row>>)
    requires Batched(log)
    ensures Batched(log + [StateLost]) && forall k :: Settled(log + [StateLost], k) == []
  {
    LogAdds(log, StateLost);
  }

  // ----- A ledger and its cursor

  /** A file that others only append to. */
  predicate Grew(before: Option<seq<Byte>>, after: Option<seq<Byte>>) {
    before.Some? ==> after.Some? && before.value <= after.value
  }

  function Bytes(file: Option<seq<Byte>>): seq<Byte> {
    if file.Some? then file.value else []
  }

  /** A ledger, its saved cursor, the rows stored of it and those settled. */
  datatype Ledger<Row> = Ledger(bytes: seq<Byte>, cursor: nat, sent: seq<Row>, settled: seq<Row>)

  /**
   The cursor stands at a line end, and what the saving passes posted is exactly the rows before it, once, in
   order.
   */
  ghost predicate Good<Row(!new)>(rows: seq<Byte> -> seq<Row>, l: Ledger<Row>) {
    AtLineEnd(l.bytes, l.cursor) && l.settled == rows(l.bytes[..l.cursor])
  }

  /** The rows of the complete lines past the cursor. */
  function Unread<Row(!new)>(rows: seq<Byte> -> seq<Row>, bytes: seq<Byte>, cursor: nat): seq<Row> {
    if cursor <= CompleteLength(bytes) then rows(bytes[cursor..CompleteLength(bytes)]) else []
  }

  lemma GoodAfterAppend<Row(!new)>(rows: seq<Byte> -> seq<Row>, l: Ledger<Row>, bytes: seq<Byte>)
    requires Good(rows, l) && l.bytes <= bytes
    ensures Good(rows, l.(bytes := bytes)) && CompleteLength(l.bytes) <= CompleteLength(bytes)
  {
    assert bytes[..l.cursor] == l.bytes[..l.cursor];
    assert bytes == l.bytes + bytes[|l.bytes|..];
    CompleteGrows(l.bytes, bytes[|l.bytes|..]);
  }

  lemma PendingIsWhole(file: seq<Byte>, cursor: nat)
    requires AtLineEnd(file, cursor)
    ensures cursor <= CompleteLength(file) && WholeLines(file[cursor..CompleteLength(file)])
  {
    ReadsToLastLine(file, cursor);
  }

  /** Saving the place reached in the bytes that were seen, whatever has been appended since. */
  lemma SeenToSaved<Row(!new)>(rows: seq<Byte> -> seq<Row>, l: Ledger<Row>, seen: seq<Byte>)
    requires LineByLine(rows) && Good(rows, l) && l.cursor <= CompleteLength(seen) && seen <= l.bytes
    ensures Good(rows, l.(cursor := CompleteLength(seen), settled := l.settled + Unread(rows, seen, l.cursor)))
  {
    var next := CompleteLength(seen);
    assert seen[..l.cursor] == l.bytes[..l.cursor] && l.bytes[..next] == seen[..next];
    PendingIsWhole(seen, l.cursor);
    RowsContinue(rows, seen, l.cursor, next);
  }

  lemma GoodFromNothing<Row(!new)>(rows: seq<Byte> -> seq<Row>, l: Ledger<Row>)
    requires LineByLine(rows) && l.cursor == 0 && l.settled == []
    ensures Good(rows, l)
  {
    assert l.bytes[..0] == [];
  }

  /** What a pass makes of one ledger: it saw `seen`, and the server stored the first `n` rows waiting there. */
  predicate Passes<Row(==, !new)>(rows: seq<Byte> -> seq<Row>, before: Ledger<Row>, seen: seq<Byte>, n: nat,
      saves: bool, after: Ledger<Row>) {
    var waiting := Unread(rows, seen, before.cursor);
    && before.bytes <= seen <= after.bytes
    && n <= |waiting| && after.sent == before.sent + waiting[..n]
    && if saves then
         n == |waiting| && after.settled == before.settled + waiting
           && before.cursor <= after.cursor == CompleteLength(seen)
       else
         after.settled == before.settled && after.cursor == before.cursor
  }

  /** Nothing happened to a ledger but appends. */
  predicate OnlyGrew<Row(==)>(before: Ledger<Row>, after: Ledger<Row>) {
    before.bytes <= after.bytes && after == before.(bytes := after.bytes)
  }

  lemma PostingPasses<Row(!new)>(rows: seq<Byte> -> seq<Row>, before: Ledger<Row>, seen: seq<Byte>, n: nat,
      after: Ledger<Row>)
    requires n <= |Unread(rows, seen, before.cursor)| && before.bytes <= seen <= after.bytes
    requires after.cursor == before.cursor && after.sent == before.sent + Unread(rows, seen, before.cursor)[..n]
      && after.settled == before.settled
    ensures Passes(rows, before, seen, n, false, after)
  {
  }

  lemma SavingPasses<Row(!new)>(rows: seq<Byte> -> seq<Row>, a: Ledger<Row>, seen: seq<Byte>, n: nat, b: Ledger<Row>,
      c: Ledger<Row>)
    requires Passes(rows, a, seen, n, false, b) && n == |Unread(rows, seen, a.cursor)|
      && a.cursor <= CompleteLength(seen)
    requires c == Ledger(b.bytes, CompleteLength(seen), b.sent, b.settled + Unread(rows, seen, a.cursor))
    ensures Passes(rows, a, seen, n, true, c)
  {
  }

  /** A pass that saves settles every line that was complete when it began. */
  lemma SavingReaches<Row(!new)>(rows: seq<Byte> -> seq<Row>, before: Ledger<Row>, seen: seq<Byte>, n: nat,
      after: Ledger<Row>)
    requires Passes(rows, before, seen, n, true, after)
    ensures after.cursor >= CompleteLength(before.bytes)
  {
    assert seen == before.bytes + seen[|before.bytes|..];
    CompleteGrows(before.bytes, seen[|before.bytes|..]);
  }

  lemma NothingPasses<Row(!new)>(rows: seq<Byte> -> seq<Row>, before: Ledger<Row>, after: Ledger<Row>)
    requires OnlyGrew(before, after)
    ensures Passes(rows, before, after.bytes, 0, false, after)
  {
    assert before.sent + [] == before.sent;
  }

  lemma GrewThenPasses<Row(!new)>(rows: seq<Byte> -> seq<Row>, a: Ledger<Row>, b: Ledger<Row>, seen: seq<Byte>, n: nat,
      saves: bool, c: Ledger<Row>)
    requires OnlyGrew(a, b) && Passes(rows, b, seen, n, saves, c)
    ensures Passes(rows, a, seen, n, saves, c)
  {
    hide Unread;
  }

  lemma PassesThenGrew<Row(!new)>(rows: seq<Byte> -> seq<Row>, a: Ledger<Row>, seen: seq<Byte>, n: nat, saves: bool,
      b: Ledger<Row>, c: Ledger<Row>)
    requires Passes(rows, a, seen, n, saves, b) && OnlyGrew(b, c)
    ensures Passes(rows, a, seen, n, saves, c)
  {
    hide Unread;
  }

  class Bridge<Row(==, !new)> {
    const rows: seq<Byte> -> seq<Row>
    var files: PerKind<Option<seq<Byte>>>
    var saved: PerKind<nat>
    ghost var log: seq<Event<Row>>

    ghost function View(kind: Kind): Ledger<Row>
      reads this
    {
      Ledger(Bytes(files.Get(kind)), saved.Get(kind), Sent(log, kind), Settled(log, kind))
    }

    ghost predicate Valid()
      reads this
    {
      LineByLine(rows) && Batched(log) && forall k :: Good(rows, View(k))
    }

    constructor (rows: seq<Byte> -> seq<Row>, files: PerKind<Option<seq<Byte>>>)
      requires LineByLine(rows)
      ensures Valid() && this.rows == rows && this.files == files && log == [] && saved == PerKind(0, 0)
    {
      this.rows, this.files, this.saved := rows, files, PerKind(0, 0);
      this.log := [];
      new;
      forall k ensures Good(rows, View(k)) {
        GoodFromNothing(rows, View(k));
      }
    }

    /** The lab appends. */
    method OthersAppend(kind: Kind, more: seq<Byte>)
      requires Valid()
      modifies this`files
      ensures Valid() && files == old(files).Set(kind, Some(Bytes(old(files.Get(kind))) + more))
    {
      hide Good, LineByLine;
      GoodAfterAppend(rows, View(kind), Bytes(files.Get(kind)) + more);
      files := files.Set(kind, Some(Bytes(files.Get(kind)) + more));
      forall k ensures Good(rows, View(k)) {
        if k != kind { assert View(k) == old(View(k)); }
      }
    }

    /** The lab appends, any number of times, to either ledger. */
    method OthersWrite()
      requires Valid()
      modifies this`files
      ensures Valid() && forall k :: Grew(old(files.Get(k)), files.Get(k)) && OnlyGrew(old(View(k)), View(k))
    {
      hide Valid;
      var appends: seq<(Kind, seq<Byte>)> := *;
      for i := 0 to |appends|
        invariant Valid() && forall k :: Grew(old(files.Get(k)), files.Get(k)) && OnlyGrew(old(View(k)), View(k))
      {
        OthersAppend(appends[i].0, appends[i].1);
      }
    }

    /** The state file is lost or unreadable: every cursor reads as 0, and what was settled has to be posted again. */
    method LoseState()
      requires Valid()
      modifies this`saved, this`log
      ensures Valid() && saved == PerKind(0, 0) && log == old(log) + [StateLost]
    {
      hide Good, LineByLine;
      AddLost(log);
      saved, log := PerKind(0, 0), log + [StateLost];
      forall k ensures Good(rows, View(k)) {
        GoodFromNothing(rows, View(k));
      }
    }

    /** Storing rows leaves every ledger and cursor as they are. */
    lemma StillValid(kind: Kind, before: seq<Event<Row>>, more: seq<Row>)
      requires LineByLine(rows) && OnlyStored(before, log, kind, more)
      requires forall k :: Good(rows, Ledger(Bytes(files.Get(k)), saved.Get(k), Sent(before, k), Settled(before, k)))
      ensures Valid()
    {
    }

    /** One request. It may be stored and still fail, but it does not succeed without being stored. */
    method PostBatch(kind: Kind, batch: seq<Row>) returns (ok: bool, ghost stored: bool)
      requires Valid() && 0 < |batch| <= BATCH
      modifies this`log
      ensures Valid() && OnlyStored(old(log), log, kind, if stored then batch else []) && (ok ==> stored)
    {
      hide LineByLine, OnlyStored, Batched, Sent, Settled;
      var lost: bool, refused: bool := *, *;
      stored := !lost;
      AddNothing(log, kind);
      if !lost {
        AddStored(log, kind, batch);
        log := log + [Stored(kind, batch)];
      }
      assert forall k ::
        old(View(k)) == Ledger(Bytes(files.Get(k)), saved.Get(k), Sent(old(log), k), Settled(old(log), k));
      StillValid(kind, old(log), if stored then batch else []);
      ok := !lost && !refused;
    }

    /** The batches of one ledger, in order, up to the first that fails. The lab may append before each of them. */
    method PostRows(kind: Kind, pending: seq<Row>, dryRun: bool) returns (ok: bool, ghost stored: nat)
      requires Valid()
      modifies this`log, this`files
      ensures Valid() && forall k :: Grew(old(files.Get(k)), files.Get(k))
      ensures stored <= |pending| && OnlyStored(old(log), log, kind, pending[..stored])
      ensures dryRun ==> ok && log == old(log) && stored == 0
      ensures ok && !dryRun ==> stored == |pending|
    {
      ok, stored := true, 0;
      AddNothing(log, kind);
      hide OnlyStored, Valid, OnlyGrew;
      assert pending[..0] == [];
      if dryRun { return; }
      var start := 0;
      while start < |pending|
        invariant start <= |pending| && stored == start && OnlyStored(old(log), log, kind, pending[..start])
        invariant Valid() && forall k :: Grew(old(files.Get(k)), files.Get(k))
      {
        OthersWrite();
        var end := if start + BATCH < |pending| then start + BATCH else |pending|;
        ghost var was, kept := log, false;
        var answered;
        answered, kept := PostBatch(kind, pending[start..end]);
        stored := if kept then end else start;
        assert pending[..start] + pending[start..end] == pending[..end] && pending[..start] + [] == pending[..start];
        StoredJoins(old(log), was, log, kind, pending[..start], if kept then pending[start..end] else []);
        if !answered {
          return false, stored;
        }
        start := end;
      }
      assert pending[..|pending|] == pending;
    }

    /** Takes a ledger's size, reads what was appended up to there, and posts it. */
    method ReadAndPost(kind: Kind, cursor: nat, dryRun: bool)
        returns (ok: bool, next: nat, ghost seen: seq<Byte>, ghost n: nat)
      requires Valid() && files.Get(kind).Some? && cursor == saved.Get(kind)
      modifies this`log, this`files
      ensures Valid() && forall k :: Grew(old(files.Get(k)), files.Get(k))
      ensures seen == Bytes(old(files.Get(kind))) && cursor <= next == CompleteLength(seen)
      ensures n <= |Unread(rows, seen, cursor)| && OnlyStored(old(log), log, kind, Unread(rows, seen, cursor)[..n])
      ensures dryRun ==> ok && log == old(log) && n == 0
      ensures ok && !dryRun ==> n == |Unread(rows, seen, cursor)|
    {
      seen := files.Get(kind).value;
      assert AtLineEnd(seen, cursor) by { assert Good(rows, View(kind)); }
      hide Valid, OnlyStored, Batched, OnlyGrew, AtLineEnd, WholeLines;
      var size := |files.Get(kind).value|;
      OthersWrite();
      assert Grew(old(files.Get(kind)), files.Get(kind));
      var data;
      data, next := ReadAppended(files.Get(kind).value, size, cursor);
      ReadReachesEnd(seen, files.Get(kind).value, cursor);
      ok, n := PostRows(kind, rows(data), dryRun);
    }

    /** Saves the cursor reached once the rows before it are posted. Saving may fail, and then nothing is saved. */
    method SaveCursor(kind: Kind, cursors: PerKind<nat>, next: nat, ghost seen: seq<Byte>) returns (ok: bool)
      requires Valid() && cursors == saved && saved.Get(kind) <= next == CompleteLength(seen)
        && seen <= Bytes(files.Get(kind))
      requires Unsaved(log, kind) == Unread(rows, seen, saved.Get(kind))
      modifies this`saved, this`log
      ensures Valid() && Continues(old(log), log)
      ensures !ok ==> saved == old(saved) && log == old(log)
      ensures ok ==> saved == cursors.Set(kind, next) && log == old(log) + [CursorSaved(kind)]
      ensures Sent(log, kind) == old(Sent(log, kind)) && forall k :: k != kind ==> View(k) == old(View(k))
      ensures ok ==> Settled(log, kind) == old(Settled(log, kind)) + Unread(rows, seen, old(saved.Get(kind)))
    {
      hide Good, LineByLine, Sent, Settled, Unsaved, Unread;
      ok := *;
      if ok {
        SeenToSaved(rows, View(kind), seen);
        AddSaved(log, kind);
        saved, log := cursors.Set(kind, next), log + [CursorSaved(kind)];
        assert View(kind)
          == old(View(kind)).(cursor := next, settled := old(Settled(log, kind)) + old(Unsaved(log, kind)));
        forall k ensures Good(rows, View(k)) {
          if k != kind { assert View(k) == old(View(k)); }
        }
      }
    }

    /** Work on a ledger begins. */
    ghost method Begin(kind: Kind)
      requires Valid()
      modifies this`log
      ensures Valid() && Continues(old(log), log) && Unsaved(log, kind) == [] && forall k :: View(k) == old(View(k))
    {
      hide LineByLine, Good, Sent, Settled, Unsaved;
      AddBegan(log, kind);
      log := log + [Began(kind)];
      forall k ensures View(k) == old(View(k)) {
      }
    }

    /** One ledger of a pass: read, post, and only then save the cursor. A missing ledger stops the pass. */
    method PassLedger(kind: Kind, cursors: PerKind<nat>, dryRun: bool)
      returns (ok: bool, next: PerKind<nat>, ghost seen: seq<Byte>, ghost n: nat)
      requires Valid() && cursors == saved
      modifies this
      ensures Valid() && Continues(old(log), log) && forall k :: Grew(old(files.Get(k)), files.Get(k))
      ensures Passes(rows, old(View(kind)), seen, n, ok && !dryRun, View(kind))
      ensures forall k :: k != kind ==> OnlyGrew(old(View(k)), View(k))
      ensures dryRun ==> n == 0
      ensures ok ==> next == saved && files.Get(kind).Some?
    {
      hide Valid, Unread, Passes, Sent, Settled, Unsaved, Batched;
      next, n := cursors, 0;
      OthersWrite();
      seen := Bytes(files.Get(kind));
      if files.Get(kind).None? {
        ok := false;
        NothingPasses(rows, old(View(kind)), View(kind));
        return;
      }
      Begin(kind);
      ghost var was := View(kind);
      var offset;
      ok, offset, seen, n := ReadAndPost(kind, cursors.Get(kind), dryRun);
      OthersWrite();
      PostingPasses(rows, was, seen, n, View(kind));
      GrewThenPasses(rows, old(View(kind)), was, seen, n, false, View(kind));
      if !ok || dryRun {
        return;
      }
      was := View(kind);
      next := cursors.Set(kind, offset);
      ok := SaveCursor(kind, cursors, offset, seen);
      if ok { SavingPasses(rows, old(View(kind)), seen, n, was, View(kind)); }
    }

    /** `run_pass`, over the two ledgers. What follows them may still fail. */
    method RunPass(dryRun: bool)
        returns (ok: bool, ghost seen: PerKind<seq<Byte>>, ghost n: PerKind<nat>, ghost saves: PerKind<bool>)
      requires Valid()
      modifies this
      ensures Valid() && Continues(old(log), log) && forall k :: Grew(old(files.Get(k)), files.Get(k))
      ensures forall k :: Passes(rows, old(View(k)), seen.Get(k), n.Get(k), saves.Get(k), View(k))
      ensures dryRun ==> n == PerKind(0, 0) && saves == PerKind(false, false)
      ensures ok && !dryRun ==>
        saves == PerKind(true, true) && forall k :: saved.Get(k) >= CompleteLength(Bytes(old(files.Get(k))))
    {
      hide Valid, Passes, OnlyGrew, Sent, Settled;
      var cursors := saved;
      ghost var first, second, p, q, stood;
      ok, cursors, first, p := PassLedger(Signals, cursors, dryRun);
      stood := View(Outcomes);
      if !ok {
        NothingPasses(rows, old(View(Outcomes)), stood);
        seen, n, saves := PerKind(first, stood.bytes), PerKind(p, 0), PerKind(false, false);
        return;
      }
      ghost var done := View(Signals);
      ok, cursors, second, q := PassLedger(Outcomes, cursors, dryRun);
      PassesThenGrew(rows, old(View(Signals)), first, p, !dryRun, done, View(Signals));
      GrewThenPasses(rows, old(View(Outcomes)), stood, second, q, ok && !dryRun, View(Outcomes));
      seen, n, saves := PerKind(first, second), PerKind(p, q), PerKind(!dryRun, ok && !dryRun);
      if ok && !dryRun {
        SavingReaches(rows, old(View(Signals)), first, p, View(Signals));
        SavingReaches(rows, old(View(Outcomes)), second, q, View(Outcomes));
      }
      var rest: bool := *;
      ok := ok && rest;
    }

    /** Anything that can happen: appends, lost state files, passes that fail anywhere, dry runs. */
    method AnyRun(steps: nat)
      requires Valid()
      modifies this
      ensures old(log) <= log && forall k :: Grew(old(files.Get(k)), files.Get(k))
      ensures forall k ::
        AtLineEnd(Bytes(files.Get(k)), saved.Get(k)) && Settled(log, k) == rows(Bytes(files.Get(k))[..saved.Get(k)])
      ensures forall k :: Subsequence(Settled(log, k), Sent(log, k))
      ensures Continues(old(log), log) ==> forall k :: saved.Get(k) >= old(saved.Get(k))
      ensures Valid()
    {
      for i := 0 to steps
        invariant Valid() && old(log) <= log && forall k :: Grew(old(files.Get(k)), files.Get(k))
        invariant Continues(old(log), log) ==> forall k :: saved.Get(k) >= old(saved.Get(k))
      {
        Anything();
      }
      forall k
        ensures AtLineEnd(Bytes(files.Get(k)), saved.Get(k))
          && Settled(log, k) == rows(Bytes(files.Get(k))[..saved.Get(k)])
        ensures Subsequence(Settled(log, k), Sent(log, k))
      {
        assert Good(rows, View(k));
        SettledWasSent(log, k);
        SubsequenceWithout(Settled(log, k), Unsaved(log, k), Sent(log, k));
      }
    }

    /** One thing that can happen. */
    method Anything()
      requires Valid()
      modifies this
      ensures Valid() && old(log) <= log && forall k :: Grew(old(files.Get(k)), files.Get(k))
      ensures Continues(old(log), log) ==> forall k :: saved.Get(k) >= old(saved.Get(k))
    {
      hide Valid, Sent, Settled, Unread;
      if {
        case true =>
          OthersWrite();
        case true =>
          LoseState();
          assert log[|log| - 1].StateLost?;
        case true =>
          var dryRun: bool := *;
          var ok;
          ghost var seen, n, saves;
          ok, seen, n, saves := RunPass(dryRun);
          forall k ensures saved.Get(k) >= old(saved.Get(k)) {
            assert Passes(rows, old(View(k)), seen.Get(k), n.Get(k), saves.Get(k), View(k));
          }
      }
    }
  }
}
