/** The journal. */
module DurableJournal {
  // An append-only journal of one JSON line per record, on a disk that may lose power at any moment.
  //
  // JSON is a pair of functions with the two laws the journal relies on: the text of a record holds no
  // newline, and reading it back gives the record. The disk remembers, beside the file everyone sees,
  // every file a power cut could leave behind now: the effects since the last sync, cut off anywhere.

  import opened ByteLines
  import opened Common

  const MAX_RECORD_BYTES: nat := 4096
  const CHUNK: nat := 4096

  datatype Codec<!R> = Codec(encode: R -> Option<seq<Byte>>, decode: seq<Byte> -> Option<R>)

  ghost predicate Lawful<R(!new)>(codec: Codec<R>) {
    forall r: R :: codec.encode(r).Some? ==>
      NEWLINE !in codec.encode(r).value && codec.decode(codec.encode(r).value) == Some(r)
  }

  predicate Storable<R>(codec: Codec<R>, r: R) {
    codec.encode(r).Some? && |codec.encode(r).value| + 1 <= MAX_RECORD_BYTES
  }

  function Line<R>(codec: Codec<R>, r: R): seq<Byte>
    requires Storable(codec, r)
  {
    codec.encode(r).value + [NEWLINE]
  }

  // ----- Finding the last newline

  /** `_cut_torn_tail`'s walk back to the last newline, in blocks of any size. */
  method ScanBack(data: seq<Byte>, chunk: nat) returns (keep: nat)
    requires chunk > 0
    ensures keep == CompleteLength(data)
  {
    var position := |data|;
    keep := 0;
    while position > 0
      invariant 0 <= position <= |data| && keep == 0
      invariant forall j :: position <= j < |data| ==> data[j] != NEWLINE
      decreases position
    {
      var start := if position > chunk then position - chunk else 0;
      var block := data[start..position];
      var index := RFind(block);
      assert forall j :: index < j < |block| ==> data[start + j] == block[j];
      if index >= 0 {
        keep := start + index + 1;
        assert forall j :: keep <= j < position ==> data[j] == block[j - start];
        break;
      }
      assert forall j :: start <= j < position ==> data[j] == block[j - start];
      position := start;
    }
  }

  // ----- What a file says

  function Image<R>(codec: Codec<R>, rs: seq<R>): seq<Byte>
    requires forall r :: r in rs ==> Storable(codec, r)
  {
    if rs == [] then [] else Image(codec, Front(rs)) + Line(codec, Last(rs))
  }

  lemma {:induction false} ImageEndsLine<R>(codec: Codec<R>, rs: seq<R>)
    requires forall r :: r in rs ==> Storable(codec, r)
    ensures Image(codec, rs) == [] || Last(Image(codec, rs)) == NEWLINE
  {
    if rs != [] { assert Last(Line(codec, Last(rs))) == NEWLINE; }
  }

  lemma {:induction false} ImageFromFront<R>(codec: Codec<R>, rs: seq<R>)
    requires rs != [] && forall r :: r in rs ==> Storable(codec, r)
    ensures Image(codec, rs) == Line(codec, rs[0]) + Image(codec, rs[1..])
  {
    if |rs| > 1 {
      ImageFromFront(codec, Front(rs));
      assert Front(rs)[1..] == Front(rs[1..]);
    }
  }

  /** `records`: the complete lines, each decoded; the number of the first line that is not a record otherwise. */
  function Decoded<R>(codec: Codec<R>, lines: seq<seq<Byte>>, number: nat): Result<seq<R>, nat> {
    if lines == [] then Ok([])
    else match codec.decode(lines[0])
      case None => Err(number)
      case Some(r) =>
        match Decoded(codec, lines[1..], number + 1)
        case Err(n) => Err(n)
        case Ok(rs) => Ok([r] + rs)
  }

  function RecordsOf<R>(codec: Codec<R>, data: seq<Byte>): Result<seq<R>, nat> {
    Decoded(codec, Front(Split(data)), 1)
  }

  /** Reading back what was written gives what was written, whatever torn tail follows it. */
  lemma {:induction false} ReadsBack<R(!new)>(codec: Codec<R>, rs: seq<R>, tail: seq<Byte>, number: nat)
    requires Lawful(codec) && (forall r :: r in rs ==> Storable(codec, r)) && NEWLINE !in tail
    ensures Decoded(codec, Front(Split(Image(codec, rs) + tail)), number) == Ok(rs)
  {
    if rs == [] {
      assert Image(codec, rs) + tail == tail;
      SplitTail(tail);
    } else {
      ImageFromFront(codec, rs);
      assert rs[0] in rs;
      var body := codec.encode(rs[0]).value;
      var rest := Image(codec, rs[1..]) + tail;
      assert Image(codec, rs) + tail == body + [NEWLINE] + rest;
      SplitPiece(body, rest);
      assert Front([body] + Split(rest)) == [body] + Front(Split(rest));
      ReadsBack(codec, rs[1..], tail, number + 1);
      assert [rs[0]] + rs[1..] == rs;
    }
  }

  /** `records` refuses a file exactly when some complete line of it is not a record, and names the first one. */
  lemma {:induction false} RefusesAtFirstBadLine<R>(codec: Codec<R>, lines: seq<seq<Byte>>, number: nat)
    ensures match Decoded(codec, lines, number)
      case Ok(rs) => |rs| == |lines| && forall i :: 0 <= i < |lines| ==> codec.decode(lines[i]) == Some(rs[i])
      case Err(n) =>
        && number <= n < number + |lines| && codec.decode(lines[n - number]).None?
        && forall i :: 0 <= i < n - number ==> codec.decode(lines[i]).Some?
  {
    if lines != [] { RefusesAtFirstBadLine(codec, lines[1..], number + 1); }
  }

  // ----- What was asked of the journal

  /** One call of `append` that got past its checks, and whether it returned. */
  datatype Attempt<+R> = Attempt(record: R, returned: bool)

  /** `rs` holds every record whose append returned, and otherwise only records whose append did not, in order. */
  predicate Carries<R(==)>(rs: seq<R>, history: seq<Attempt<R>>)
    decreases |history|
  {
    if history == [] then rs == []
    else
      (rs != [] && Last(rs) == Last(history).record && Carries(Front(rs), Front(history)))
      || (!Last(history).returned && Carries(rs, Front(history)))
  }

  function Acknowledged<R>(history: seq<Attempt<R>>): seq<R> {
    if history == [] then []
    else Acknowledged(Front(history)) + (if Last(history).returned then [Last(history).record] else [])
  }

  function Asked<R>(history: seq<Attempt<R>>): seq<R> {
    if history == [] then [] else Asked(Front(history)) + [Last(history).record]
  }

  lemma {:induction false} CarriesMeans<R>(rs: seq<R>, history: seq<Attempt<R>>)
    requires Carries(rs, history)
    ensures Subsequence(Acknowledged(history), rs) && Subsequence(rs, Asked(history))
    decreases |history|
  {
    if history != [] {
      var past := Front(history);
      if rs != [] && Last(rs) == Last(history).record && Carries(Front(rs), past) {
        CarriesMeans(Front(rs), past);
        assert Front(rs) + [Last(rs)] == rs;
        SubsequenceTakes(Front(rs), Asked(past), Last(rs));
        if Last(history).returned {
          SubsequenceTakes(Acknowledged(past), Front(rs), Last(rs));
        } else {
          SubsequenceGrows(Acknowledged(past), Front(rs), Last(rs));
          assert Acknowledged(history) == Acknowledged(past);
        }
      } else {
        CarriesMeans(rs, past);
        SubsequenceGrows(rs, Asked(past), Last(history).record);
        assert Acknowledged(history) == Acknowledged(past);
      }
    }
  }

  ghost predicate Tells<R>(codec: Codec<R>, data: seq<Byte>, rs: seq<R>) {
    (forall r :: r in rs ==> Storable(codec, r)) && data[..CompleteLength(data)] == Image(codec, rs)
  }

  /** The complete lines of this file are a faithful account of the appends so far; no file at all holds none. */
  ghost predicate Faithful<R(!new)>(codec: Codec<R>, file: Option<seq<Byte>>, history: seq<Attempt<R>>) {
    match file
    case None => Carries([], history)
    case Some(data) => exists rs :: Carries(rs, history) && Tells(codec, data, rs)
  }

  // ----- The disk

  /** The file as everyone sees it, and every file (or none) that a power cut could leave now. */
  datatype Disk = Disk(file: Option<seq<Byte>>, survivors: set<Option<seq<Byte>>>)

  const BLANK := Disk(None, {None})

  function Bytes(d: Disk): seq<Byte> {
    match d.file case None => [] case Some(data) => data
  }

  /** `os.open` with `O_CREAT`: a new file is empty, and its directory entry may still be lost. */
  function Opened(d: Disk): Disk {
    if d.file.Some? then d else Disk(Some([]), d.survivors + {Some([])})
  }

  function Truncated(d: Disk, n: nat): Disk
    requires n <= |Bytes(d)|
  {
    Disk(Some(Bytes(d)[..n]), d.survivors + set k | n <= k <= |Bytes(d)| :: Some(Bytes(d)[..k]))
  }

  function Written(d: Disk, data: seq<Byte>): Disk {
    Disk(Some(Bytes(d) + data), d.survivors + set k | 0 <= k <= |data| :: Some(Bytes(d) + data[..k]))
  }

  /** `os.fsync` of the file: nothing older can come back, but the file's own entry is not part of it. */
  function Synced(d: Disk): Disk {
    d.(survivors := {d.file} + (d.survivors * {None}))
  }

  function DirectorySynced(d: Disk): Disk {
    d.(survivors := d.survivors - {None})
  }

  /** The file cannot vanish: its directory entry is on disk. */
  predicate Linked(d: Disk) {
    None !in d.survivors
  }

  ghost predicate Sound<R(!new)>(codec: Codec<R>, d: Disk, history: seq<Attempt<R>>) {
    Faithful(codec, d.file, history)
  }

  /** Whatever a power cut leaves is faithful too. */
  ghost predicate Durable<R(!new)>(codec: Codec<R>, d: Disk, history: seq<Attempt<R>>) {
    forall file :: file in d.survivors ==> Faithful(codec, file, history)
  }

  /** As `Durable`, leaving aside the loss of the whole file. */
  ghost predicate DurableOnceLinked<R(!new)>(codec: Codec<R>, d: Disk, history: seq<Attempt<R>>) {
    forall file :: file in d.survivors && file.Some? ==> Faithful(codec, file, history)
  }

  // ----- Faithfulness through an append

  lemma TellsUpToTail<R(!new)>(codec: Codec<R>, rs: seq<R>, tail: seq<Byte>)
    requires (forall r :: r in rs ==> Storable(codec, r)) && NEWLINE !in tail
    ensures Tells(codec, Image(codec, rs) + tail, rs)
  {
    ImageEndsLine(codec, rs);
    CompleteLengthOf(Image(codec, rs), tail);
  }

  /** The append that has begun may leave any part of its line, or all of it. */
  lemma PartialLineFaithful<R(!new)>(codec: Codec<R>, base: seq<Byte>, rs: seq<R>, past: seq<Attempt<R>>, r: R, k: nat)
    requires Lawful(codec) && Storable(codec, r) && k <= |Line(codec, r)|
    requires Carries(rs, past) && (forall x :: x in rs ==> Storable(codec, x)) && base == Image(codec, rs)
    ensures Faithful(codec, Some(base + Line(codec, r)[..k]), past + [Attempt(r, false)])
  {
    var history := past + [Attempt(r, false)];
    assert Front(history) == past;
    if k == |Line(codec, r)| {
      assert Line(codec, r)[..k] == Line(codec, r);
      FullLineFaithful(codec, base, rs, past, r, false);
    } else {
      TellsUpToTail(codec, rs, Line(codec, r)[..k]);
      assert Carries(rs, history);
    }
  }

  lemma FullLineFaithful<R(!new)>(codec: Codec<R>, base: seq<Byte>, rs: seq<R>, past: seq<Attempt<R>>, r: R,
      returned: bool)
    requires Lawful(codec) && Storable(codec, r)
    requires Carries(rs, past) && (forall x :: x in rs ==> Storable(codec, x)) && base == Image(codec, rs)
    ensures Faithful(codec, Some(base + Line(codec, r)), past + [Attempt(r, returned)])
  {
    var history := past + [Attempt(r, returned)];
    assert Front(history) == past && Front(rs + [r]) == rs;
    assert Image(codec, rs + [r]) == base + Line(codec, r);
    TellsUpToTail(codec, rs + [r], []);
    assert base + Line(codec, r) + [] == base + Line(codec, r);
    assert Carries(rs + [r], history);
  }

  /** An attempt that has only begun is no claim about the file. */
  lemma BeginningIsHarmless<R(!new)>(codec: Codec<R>, file: Option<seq<Byte>>, past: seq<Attempt<R>>, r: R)
    requires Faithful(codec, file, past)
    ensures Faithful(codec, file, past + [Attempt(r, false)])
  {
    var history := past + [Attempt(r, false)];
    assert Front(history) == past;
    if file.Some? {
      var rs :| Carries(rs, past) && Tells(codec, file.value, rs);
      assert Carries(rs, history);
    }
  }

  lemma {:induction false} CompleteLengthOfPrefix(data: seq<Byte>, n: nat)
    requires CompleteLength(data) <= n <= |data|
    ensures CompleteLength(data[..n]) == CompleteLength(data)
    ensures data[..n][..CompleteLength(data)] == data[..CompleteLength(data)]
  {
    if n < |data| {
      assert Front(data)[..n] == data[..n];
      CompleteLengthOfPrefix(Front(data), n);
    }
    assert data[..|data|] == data;
  }

  /** Cutting anywhere in the torn tail changes no record. */
  lemma CutFaithful<R(!new)>(codec: Codec<R>, data: seq<Byte>, n: nat, history: seq<Attempt<R>>)
    requires Faithful(codec, Some(data), history) && CompleteLength(data) <= n <= |data|
    ensures Faithful(codec, Some(data[..n]), history)
  {
    var rs :| Carries(rs, history) && Tells(codec, data, rs);
    CompleteLengthOfPrefix(data, n);
    assert Tells(codec, data[..n], rs);
  }

  /** Without its file a journal has forgotten any record it acknowledged. */
  lemma NothingSurvivesWithoutFile<R(!new)>(codec: Codec<R>, past: seq<Attempt<R>>, r: R)
    ensures !Faithful(codec, None, past + [Attempt(r, true)])
  {
  }

  // ----- The journal

  datatype Refusal = NotPlainJson | TooLarge(size: nat)

  datatype Outcome = Returned | Refused(why: Refusal) | Stopped

  /** The line being appended, written up to `w` bytes after the complete lines `base`. */
  ghost predicate Writing<R(!new)>(codec: Codec<R>, d: Disk, history: seq<Attempt<R>>, base: seq<Byte>, r: R, w: nat)
    requires Storable(codec, r)
  {
    w <= |Line(codec, r)| && d.file == Some(base + Line(codec, r)[..w]) && DurableOnceLinked(codec, d, history)
  }

  /** What the append in progress starts from: the complete lines, which hold `rs`. */
  ghost predicate Base<R(!new)>(codec: Codec<R>, past: seq<Attempt<R>>, base: seq<Byte>, rs: seq<R>) {
    Carries(rs, past) && (forall x :: x in rs ==> Storable(codec, x)) && base == Image(codec, rs)
  }

  lemma SliceOfSlice(line: seq<Byte>, w: nat, n: nat, k: nat)
    requires k <= n && w + n <= |line|
    ensures line[w..w + n][..k] == line[w..w + k] && line[..w] + line[w..w + k] == line[..w + k]
  {
  }

  lemma PartFaithful<R(!new)>(codec: Codec<R>, past: seq<Attempt<R>>, base: seq<Byte>, rs: seq<R>, r: R, w: nat, n: nat,
      k: nat)
    requires Lawful(codec) && Storable(codec, r) && w + n <= |Line(codec, r)| && k <= n && Base(codec, past, base, rs)
    ensures Faithful(codec, Some((base + Line(codec, r)[..w]) + Line(codec, r)[w..w + n][..k]),
      past + [Attempt(r, false)])
  {
    var line := Line(codec, r);
    SliceOfSlice(line, w, n, k);
    JoinSlices(base, line, w, k);
    PartialLineFaithful(codec, base, rs, past, r, w + k);
  }

  lemma JoinSlices(base: seq<Byte>, line: seq<Byte>, w: nat, n: nat)
    requires w + n <= |line|
    ensures (base + line[..w]) + line[w..w + n] == base + line[..w + n]
    ensures line[w..w + n][..n] == line[w..w + n]
  {
  }

  lemma WrittenLeaves(d: Disk, data: seq<Byte>)
    ensures var t := Written(d, data);
      && t.file in t.survivors
      && (None in t.survivors <==> None in d.survivors)
      && forall file :: file in t.survivors ==>
        file in d.survivors || exists k :: 0 <= k <= |data| && file == Some(Bytes(d) + data[..k])
  {
    assert data[..|data|] == data;
  }

  lemma WritingOn<R(!new)>(codec: Codec<R>, d: Disk, past: seq<Attempt<R>>, base: seq<Byte>, rs: seq<R>, r: R, w: nat,
      n: nat)
    requires Lawful(codec) && Storable(codec, r) && w + n <= |Line(codec, r)|
    requires Writing(codec, d, past + [Attempt(r, false)], base, r, w) && Base(codec, past, base, rs)
    ensures var t := Written(d, Line(codec, r)[w..w + n]);
      && Writing(codec, t, past + [Attempt(r, false)], base, r, w + n)
      && Sound(codec, t, past + [Attempt(r, false)]) && t.file in t.survivors
      && (None in t.survivors <==> None in d.survivors)
  {
    var data := Line(codec, r)[w..w + n];
    JoinSlices(base, Line(codec, r), w, n);
    forall k | 0 <= k <= n ensures Faithful(codec, Some(Bytes(d) + data[..k]), past + [Attempt(r, false)]) {
      PartFaithful(codec, past, base, rs, r, w, n, k);
    }
    WrittenLeaves(d, data);
  }

  /** Cutting the torn tail, whether or not the cut reaches the disk, leaves only faithful files. */
  lemma TruncatedKeeps<R(!new)>(codec: Codec<R>, d: Disk, history: seq<Attempt<R>>)
    requires d.file.Some? && Sound(codec, d, history) && DurableOnceLinked(codec, d, history)
    ensures var t := Truncated(d, CompleteLength(Bytes(d)));
      Sound(codec, t, history) && DurableOnceLinked(codec, t, history)
  {
    var keep := CompleteLength(Bytes(d));
    var t := Truncated(d, keep);
    CutFaithful(codec, Bytes(d), keep, history);
    forall file | file in t.survivors && file.Some? ensures Faithful(codec, file, history) {
      if file !in d.survivors {
        var k :| keep <= k <= |Bytes(d)| && file == Some(Bytes(d)[..k]);
        CutFaithful(codec, Bytes(d), k, history);
      }
    }
  }

  lemma BegunKeeps<R(!new)>(codec: Codec<R>, d: Disk, past: seq<Attempt<R>>, r: R)
    requires Sound(codec, d, past) && DurableOnceLinked(codec, d, past)
    ensures var history := past + [Attempt(r, false)];
      && Sound(codec, d, history) && DurableOnceLinked(codec, d, history)
      && (Durable(codec, d, past) ==> Durable(codec, d, history))
  {
    BeginningIsHarmless(codec, d.file, past, r);
    forall file | file in d.survivors && Faithful(codec, file, past)
      ensures Faithful(codec, file, past + [Attempt(r, false)])
    {
      BeginningIsHarmless(codec, file, past, r);
    }
  }

  lemma OpenedKeeps<R(!new)>(codec: Codec<R>, d: Disk, history: seq<Attempt<R>>)
    requires Sound(codec, d, history) && DurableOnceLinked(codec, d, history)
    ensures Sound(codec, Opened(d), history) && DurableOnceLinked(codec, Opened(d), history)
    ensures d.file.None? ==> Faithful(codec, None, history)
  {
    if d.file.None? {
      assert Tells(codec, [], []);
      assert Faithful(codec, Some([]), history);
    }
  }

  /** With the last byte written and the file synced, the record is in every file that can be left. */
  lemma SyncedCarries<R(!new)>(codec: Codec<R>, d: Disk, past: seq<Attempt<R>>, base: seq<Byte>, rs: seq<R>, r: R,
      returned: bool)
    requires Lawful(codec) && Storable(codec, r) && Base(codec, past, base, rs)
    requires d.file == Some(base + Line(codec, r))
    ensures var history := past + [Attempt(r, returned)];
      && Sound(codec, Synced(d), history) && DurableOnceLinked(codec, Synced(d), history)
      && (returned ==> (Durable(codec, Synced(d), history) <==> Linked(d)))
      && Durable(codec, DirectorySynced(Synced(d)), history)
  {
    FullLineFaithful(codec, base, rs, past, r, returned);
    NothingSurvivesWithoutFile(codec, past, r);
  }

  class DurableJournal<R(!new, ==)> {
    const codec: Codec<R>
    var disk: Disk
    /** Every append that got past its checks, oldest first, since the file was last lost. */
    ghost var history: seq<Attempt<R>>

    /** What everyone sees is faithful, and so is every file a power cut could leave. */
    ghost predicate Valid()
      reads this
    {
      && Lawful(codec) && Sound(codec, disk, history) && DurableOnceLinked(codec, disk, history)
      && disk.file in disk.survivors
    }

    constructor (codec: Codec<R>)
      requires Lawful(codec)
      ensures Valid() && Durable(codec, disk, history) && this.codec == codec && disk == BLANK && history == []
    {
      this.codec := codec;
      disk, history := BLANK, [];
    }

    /**
     `append`. It stops, rather than returns, when an operation fails or the process is killed, at any
     point. What was acknowledged survives a power cut exactly when the file was new to this append or
     its directory entry was already on disk.
     */
    method Append(record: R) returns (outcome: Outcome)
      requires Valid()
      modifies this
      ensures Valid()
      ensures outcome.Refused? <==> !Storable(codec, record)
      ensures outcome.Refused? ==> disk == old(disk) && history == old(history)
      ensures outcome.Refused? ==> (outcome.why.NotPlainJson? <==> codec.encode(record).None?)
      ensures outcome.Stopped? ==> history == old(history) + [Attempt(record, false)]
      ensures outcome.Stopped? ==> (old(Durable(codec, disk, history)) ==> Durable(codec, disk, history))
      ensures outcome.Returned? ==> history == old(history) + [Attempt(record, true)]
      ensures outcome.Returned? ==> Bytes(disk) == old(Bytes(disk)[..CompleteLength(Bytes(disk))]) + Line(codec, record)
      ensures outcome.Returned? ==> (Durable(codec, disk, history) <==> old(disk.file.None? || Linked(disk)))
      ensures outcome.Returned? && old(disk.file.None?) ==> Linked(disk)
      ensures old(disk.file.Some?) ==> disk.file.Some? && (Linked(disk) <==> old(Linked(disk)))
    {
      if codec.encode(record).None? {
        return Refused(NotPlainJson);
      }
      var line := codec.encode(record).value + [NEWLINE];
      if |line| > MAX_RECORD_BYTES {
        return Refused(TooLarge(|line|));
      }
      ghost var past := history;
      history := past + [Attempt(record, false)];
      BegunKeeps(codec, disk, past, record);

      var created := disk.file.None?;
      if * { return Stopped; }
      if Faithful(codec, None, past) { BeginningIsHarmless(codec, None, past, record); }
      OpenedKeeps(codec, disk, past);
      OpenedKeeps(codec, disk, history);
      disk := Opened(disk);
      ghost var base := Bytes(disk)[..CompleteLength(Bytes(disk))];
      ghost var rs: seq<R> :| Carries(rs, past) && Tells(codec, Bytes(disk), rs);

      var done := CutTornTail();
      if !done { return Stopped; }
      done := WriteAll(line, record, past, base, rs);
      if !done { return Stopped; }
      done := SyncLine(record, created, past, base, rs);
      if !done { return Stopped; }
      history := past + [Attempt(record, true)];
      return Returned;
    }

    /** With the line written: the file is synced, and its directory too if the file is new. */
    method SyncLine(record: R, created: bool, ghost past: seq<Attempt<R>>, ghost base: seq<Byte>, ghost rs: seq<R>)
        returns (done: bool)
      requires Valid() && Storable(codec, record) && history == past + [Attempt(record, false)]
      requires Base(codec, past, base, rs) && disk.file == Some(base + Line(codec, record))
      modifies this`disk
      ensures Valid() && disk.file == old(disk.file)
      ensures old(Durable(codec, disk, history)) ==> Durable(codec, disk, history)
      ensures if created then done ==> Linked(disk) else Linked(disk) == old(Linked(disk))
      ensures done ==> var acknowledged := past + [Attempt(record, true)];
        && Sound(codec, disk, acknowledged) && DurableOnceLinked(codec, disk, acknowledged)
        && (Durable(codec, disk, acknowledged) <==> Linked(disk))
    {
      if * { return false; }
      SyncedCarries(codec, disk, past, base, rs, record, false);
      SyncedCarries(codec, disk, past, base, rs, record, true);
      hide Faithful;
      disk := Synced(disk);
      if * { return false; }
      if created {
        disk := DirectorySynced(disk);
        if * { return false; }
      }
      done := true;
    }

    /** One `os.write`: the operating system takes some of what is left, or fails. */
    method WriteSome(line: seq<Byte>, w: nat, record: R, ghost past: seq<Attempt<R>>, ghost base: seq<Byte>,
        ghost rs: seq<R>)
      returns (n: nat)
      requires Valid() && Storable(codec, record) && line == Line(codec, record) && w < |line|
      requires history == past + [Attempt(record, false)] && Base(codec, past, base, rs)
      requires Writing(codec, disk, history, base, record, w)
      modifies this`disk
      ensures Valid() && (None in disk.survivors <==> old(None in disk.survivors))
      ensures w + n <= |line| && Writing(codec, disk, history, base, record, w + n)
    {
      if * { return 0; }
      n :| 1 <= n <= |line| - w;
      WritingOn(codec, disk, past, base, rs, record, w, n);
      disk := Written(disk, line[w..w + n]);
    }

    /** The write loop. */
    method WriteAll(line: seq<Byte>, record: R, ghost past: seq<Attempt<R>>, ghost base: seq<Byte>, ghost rs: seq<R>)
      returns (done: bool)
      requires Valid() && Storable(codec, record) && line == Line(codec, record)
      requires history == past + [Attempt(record, false)] && Base(codec, past, base, rs) && disk.file == Some(base)
      modifies this`disk
      ensures Valid() && (None in disk.survivors <==> old(None in disk.survivors))
      ensures disk.file.Some? && (done ==> disk.file == Some(base + line))
    {
      assert base + line[..0] == base;
      var written := 0;
      while written < |line|
        invariant 0 <= written <= |line| && Valid()
        invariant Writing(codec, disk, history, base, record, written)
        invariant None in disk.survivors <==> old(None in disk.survivors)
      {
        var n := WriteSome(line, written, record, past, base, rs);
        if n == 0 { return false; }
        written := written + n;
      }
      assert line[..written] == line;
      return true;
    }

    /** Everything after the last newline goes, and the cut is on disk before anything is written. */
    method CutTornTail() returns (done: bool)
      requires Valid() && disk.file.Some?
      modifies this`disk
      ensures Valid() && disk.file.Some?
      ensures None in disk.survivors <==> old(None in disk.survivors)
      ensures done ==> disk.file == Some(old(Bytes(disk)[..CompleteLength(Bytes(disk))]))
    {
      var data := Bytes(disk);
      if |data| == 0 || data[|data| - 1] == NEWLINE {
        assert CompleteLength(data) == |data| && data[..|data|] == data;
        return true;
      }
      var keep := ScanBack(data, CHUNK);
      if * { return false; }
      TruncatedKeeps(codec, disk, history);
      disk := Truncated(disk, keep);
      if * { return false; }
      disk := Synced(disk);
      return true;
    }

    /** `records`: what the visible file says, or the number of the first line this journal did not write. */
    method Records() returns (result: Result<seq<R>, nat>)
      requires Lawful(codec)
      ensures result == if disk.file.None? then Ok([]) else RecordsOf(codec, disk.file.value)
      ensures Valid() ==> result.Ok? && Carries(result.value, history)
    {
      if disk.file.None? {
        return Ok([]);
      }
      if Sound(codec, disk, history) { FaithfulReads(codec, disk.file.value, history); }
      var complete := Front(Split(disk.file.value));
      var out: seq<R> := [];
      assert complete[0..] == complete;
      PrefixedNothing(Decoded(codec, complete, 1));
      while |out| < |complete|
        invariant |out| <= |complete|
        invariant RecordsOf(codec, disk.file.value) == Prefixed(out, Decoded(codec, complete[|out|..], |out| + 1))
      {
        var value := codec.decode(complete[|out|]);
        if value.None? {
          return Err(|out| + 1);
        }
        PrefixedStep(codec, out, complete[|out|..], value.value);
        assert complete[|out|..][1..] == complete[|out| + 1..];
        out := out + [value.value];
      }
      assert out + [] == out;
      return Ok(out);
    }

    /**
     The power fails: what is left is one of the files that could be left, and all of it is on disk. Acknowledged
     records are lost exactly when no file is left and one of them was in it; any file that is left is faithful.
     */
    method PowerCut() returns (ghost lost: bool)
      requires Valid()
      modifies this`disk, this`history
      ensures Valid() && Durable(codec, disk, history)
      ensures disk.file in old(disk.survivors) && disk.survivors == {disk.file}
      ensures lost <==> disk.file.None? && !Faithful(codec, None, old(history))
      ensures history == if lost then [] else old(history)
    {
      var file :| file in disk.survivors;
      disk := Disk(file, {file});
      lost := file.None? && !Faithful(codec, None, history);
      if lost { history := []; }
    }

    /**
     Any run of appends, each of which returns or stops anywhere, with the power failing at any time. At the end
     everything acknowledged since the file was last lost is read back, in order. It can be lost only while the file
     is one whose first append, the one that found none, did not return: `halfMade` says whether it is now, and
     `interrupted` whether it ever was.
     */
    method AnyRun(records: seq<R>)
      returns (read: Result<seq<R>, nat>, halfMade: bool, interrupted: bool, ghost lost: bool)
      requires Valid()
      modifies this
      ensures Valid() && read.Ok? && Carries(read.value, history)
      ensures Subsequence(Acknowledged(history), read.value) && Subsequence(read.value, Asked(history))
      ensures !halfMade ==> Durable(codec, disk, history)
      ensures !lost ==> old(history) <= history
      ensures !interrupted ==> !lost && !halfMade
    {
      halfMade := disk.file.Some? && !Linked(disk);
      interrupted, lost := halfMade, false;
      for i := 0 to |records|
        invariant Valid() && (!halfMade ==> disk.file.None? || Linked(disk))
        invariant !lost ==> old(history) <= history
        invariant !interrupted ==> !lost && !halfMade
      {
        var found := disk.file.Some?;
        var outcome := Append(records[i]);
        if !found { halfMade := outcome.Stopped? && disk.file.Some?; }
        interrupted := interrupted || halfMade;
        if * {
          ghost var now;
          now := PowerCut();
          lost := lost || now;
          halfMade := false;
        }
      }
      read := Records();
      CarriesMeans(read.value, history);
    }
  }

  /**
   The gap in the promise. The first append creates the file and stops; the second finds the file there,
   so it syncs the file but not the directory, and returns. A power cut can still take the whole file.
   */
  lemma AcknowledgedCanVanish<R(!new)>(codec: Codec<R>, first: R, second: R)
    requires Storable(codec, second)
    ensures var afterFirst := Opened(BLANK);
      var afterSecond := Synced(Written(Opened(afterFirst), Line(codec, second)));
      var history := [Attempt(first, false), Attempt(second, true)];
      None in afterSecond.survivors && !Faithful(codec, None, history) && !Durable(codec, afterSecond, history)
  {
    var history := [Attempt(first, false), Attempt(second, true)];
    assert history == [Attempt(first, false)] + [Attempt(second, true)];
    NothingSurvivesWithoutFile(codec, [Attempt(first, false)], second);
  }

  function Prefixed<R>(out: seq<R>, rest: Result<seq<R>, nat>): Result<seq<R>, nat> {
    match rest case Ok(rs) => Ok(out + rs) case Err(n) => Err(n)
  }

  lemma PrefixedNothing<R>(rest: Result<seq<R>, nat>)
    ensures Prefixed([], rest) == rest
  {
    if rest.Ok? { assert [] + rest.value == rest.value; }
  }

  lemma PrefixedStep<R>(codec: Codec<R>, out: seq<R>, lines: seq<seq<Byte>>, r: R)
    requires lines != [] && codec.decode(lines[0]) == Some(r)
    ensures Prefixed(out, Decoded(codec, lines, |out| + 1))
      == Prefixed(out + [r], Decoded(codec, lines[1..], |out| + 2))
  {
    var rest := Decoded(codec, lines[1..], |out| + 2);
    if rest.Ok? { assert out + ([r] + rest.value) == out + [r] + rest.value; }
  }

  /** The journal never refuses a file that only it has written to, torn tail or not. */
  lemma FaithfulReads<R(!new)>(codec: Codec<R>, data: seq<Byte>, history: seq<Attempt<R>>)
    requires Lawful(codec) && Faithful(codec, Some(data), history)
    ensures RecordsOf(codec, data).Ok? && Carries(RecordsOf(codec, data).value, history)
  {
    var rs :| Carries(rs, history) && Tells(codec, data, rs);
    var c := CompleteLength(data);
    assert data == Image(codec, rs) + data[c..];
    ReadsBack(codec, rs, data[c..], 1);
  }
}
