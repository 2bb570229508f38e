/**
 Files of lines: bytes, newlines, where the complete lines end, and how splitting at newlines goes
 together with joining.
 */
module ByteLines {
  import opened Common

  type Byte = b: int | 0 <= b < 256

  const NEWLINE: Byte := 10

  /** How many bytes the complete lines take: everything through the last newline. */
  function CompleteLength(data: seq<Byte>): (n: nat)
    ensures n <= |data| && (n == 0 || data[n - 1] == NEWLINE)
    ensures forall j :: n <= j < |data| ==> data[j] != NEWLINE
  {
    if data == [] then 0
    else if Last(data) == NEWLINE then |data|
    else CompleteLength(Front(data))
  }

  lemma {:induction false} CompleteLengthOf(lines: seq<Byte>, tail: seq<Byte>)
    requires lines == [] || Last(lines) == NEWLINE
    requires NEWLINE !in tail
    ensures CompleteLength(lines + tail) == |lines|
  {
    if tail == [] {
      assert lines + tail == lines;
    } else {
      assert Front(lines + tail) == lines + Front(tail);
      CompleteLengthOf(lines, Front(tail));
    }
  }

  /** `data.split(b"\n")`: one more piece than there are newlines. */
  function Split(data: seq<Byte>): (pieces: seq<seq<Byte>>)
    ensures pieces != []
  {
    if data == [] then [[]]
    else
      var rest := Split(data[1..]);
      if data[0] == NEWLINE then [[]] + rest else [[data[0]] + rest[0]] + rest[1..]
  }

  lemma {:induction false} SplitPiece(body: seq<Byte>, rest: seq<Byte>)
    requires NEWLINE !in body
    ensures Split(body + [NEWLINE] + rest) == [body] + Split(rest)
  {
    var data := body + [NEWLINE] + rest;
    if body == [] {
      assert data[1..] == rest;
    } else {
      assert data[1..] == body[1..] + [NEWLINE] + rest;
      SplitPiece(body[1..], rest);
      assert [body[0]] + body[1..] == body;
    }
  }

  lemma {:induction false} SplitTail(tail: seq<Byte>)
    requires NEWLINE !in tail
    ensures Split(tail) == [tail]
  {
    if tail != [] {
      SplitTail(tail[1..]);
      assert [tail[0]] + tail[1..] == tail;
    }
  }

  function RFind(block: seq<Byte>): (i: int)
    ensures -1 <= i < |block|
    ensures i >= 0 ==> block[i] == NEWLINE
    ensures forall j :: i < j < |block| ==> block[j] != NEWLINE
  {
    if block == [] then -1
    else if Last(block) == NEWLINE then |block| - 1
    else RFind(Front(block))
  }
}
