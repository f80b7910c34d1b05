/** Lines out of a byte stream, however it is cut into pieces. */
module Ingest {
  const MAX_LINE_BYTES: nat := 4 * 1024 * 1024

  type byte = n: nat | n < 256

  const NEWLINE: byte := 10

  datatype LineRead = Line(text: seq<byte>) | Eof | TooLong | Failed

  /** Where the first newline is, or the length if there is none. */
  function FirstNewline(bytes: seq<byte>): (k: nat)
    ensures k <= |bytes|
    ensures forall j :: 0 <= j < k ==> bytes[j] != NEWLINE
    ensures k < |bytes| ==> bytes[k] == NEWLINE
  {
    if bytes == [] || bytes[0] == NEWLINE then 0 else 1 + FirstNewline(bytes[1..])
  }

  lemma {:induction false} FirstNewlineConcat(a: seq<byte>, b: seq<byte>)
    ensures FirstNewline(a + b) == if FirstNewline(a) < |a| then FirstNewline(a) else |a| + FirstNewline(b)
  {
    if a == [] {
      assert a + b == b;
    } else if a[0] != NEWLINE {
      assert (a + b)[1..] == a[1..] + b;
      FirstNewlineConcat(a[1..], b);
    }
  }

  /** What one read finds in the bytes still to come; a broken stream fails where a whole one ends. */
  function NextLine(rest: seq<byte>, broken: bool): LineRead {
    var k := FirstNewline(rest);
    if k > MAX_LINE_BYTES then TooLong
    else if k < |rest| then Line(rest[..k])
    else if broken then Failed
    else if rest == [] then Eof
    else Line(rest)
  }

  function AfterLine(rest: seq<byte>): seq<byte> {
    var k := FirstNewline(rest);
    if k < |rest| then rest[k + 1..] else []
  }

  lemma {:induction false} AfterLineShrinks(rest: seq<byte>)
    requires rest != []
    ensures |AfterLine(rest)| < |rest|
  {
  }

  // ---------------------------------------------------------------- the reader

  function Joined(chunks: seq<seq<byte>>): seq<byte> {
    if chunks == [] then [] else chunks[0] + Joined(chunks[1..])
  }

  /** A buffered reader over a stream that arrives in pieces of any size, and may break at its end. */
  class Reader {
    var chunks: seq<seq<byte>>
    const broken: bool

    predicate Valid()
      reads this
    {
      forall k :: 0 <= k < |chunks| ==> chunks[k] != []
    }

    function Rest(): seq<byte>
      reads this
    {
      Joined(chunks)
    }

    constructor (chunks: seq<seq<byte>>, broken: bool)
      requires forall k :: 0 <= k < |chunks| ==> chunks[k] != []
      ensures Valid() && this.chunks == chunks && this.broken == broken
    {
      this.chunks, this.broken := chunks, broken;
    }

    /** Marks bytes of the available piece as used. */
    method Consume(n: nat)
      requires Valid() && chunks != [] && n <= |chunks[0]|
      modifies this
      ensures Valid() && Rest() == old(Rest())[n..] && |chunks| <= old(|chunks|)
      ensures n == old(|chunks[0]|) ==> |chunks| < old(|chunks|)
    {
      var head := chunks[0][n..];
      assert Joined(chunks)[n..] == head + Joined(chunks[1..]);
      if head == [] {
        chunks := chunks[1..];
      } else {
        assert ([head] + chunks[1..])[1..] == chunks[1..];
        chunks := [head] + chunks[1..];
      }
    }
  }

  /**
    Reads one newline-terminated line, refusing to buffer more than the limit.
    However the stream was cut into pieces, the result is the one its bytes have.
   */
  method ReadLine(reader: Reader) returns (read: LineRead)
    requires reader.Valid()
    modifies reader
    ensures reader.Valid()
    ensures read == NextLine(old(reader.Rest()), reader.broken)
    ensures read.Line? ==> reader.Rest() == AfterLine(old(reader.Rest())) && old(reader.Rest()) != []
  {
    ghost var whole := reader.Rest();
    var buffer: seq<byte> := [];
    while true
      invariant reader.Valid() && buffer + reader.Rest() == whole
      invariant FirstNewline(buffer) == |buffer| <= MAX_LINE_BYTES
      decreases |reader.chunks|
    {
      if reader.chunks == [] {
        assert buffer == whole;
        if reader.broken {
          return Failed;
        }
        return if buffer == [] then Eof else Line(buffer);
      }
      var available := reader.chunks[0];
      ghost var later := Joined(reader.chunks[1..]);
      var newline := FirstNewline(available);
      if newline < |available| {
        LineFound(buffer, available, later, newline, reader.broken);
        buffer := buffer + available[..newline];
        reader.Consume(newline + 1);
        if |buffer| > MAX_LINE_BYTES {
          return TooLong;
        }
        return Line(buffer);
      }
      PieceKept(buffer, available, later, reader.broken);
      buffer := buffer + available;
      reader.Consume(|available|);
      if |buffer| > MAX_LINE_BYTES {
        return TooLong;
      }
    }
  }

  /** A newline in the available piece ends the line begun in the buffer. */
  lemma {:induction false} LineFound(buffer: seq<byte>, available: seq<byte>, later: seq<byte>, newline: nat, broken: bool)
    requires FirstNewline(buffer) == |buffer| && newline == FirstNewline(available) < |available|
    ensures var whole, line := buffer + (available + later), buffer + available[..newline];
            && whole != []
            && NextLine(whole, broken) == (if |line| > MAX_LINE_BYTES then TooLong else Line(line))
            && AfterLine(whole) == (available + later)[newline + 1..]
  {
    var whole := buffer + (available + later);
    FirstNewlineConcat(available, later);
    FirstNewlineConcat(buffer, available + later);
    assert whole[..|buffer| + newline] == buffer + available[..newline];
    assert whole[|buffer| + newline + 1..] == (available + later)[newline + 1..];
  }

  /** A piece without a newline joins the buffer. */
  lemma {:induction false} PieceKept(buffer: seq<byte>, available: seq<byte>, later: seq<byte>, broken: bool)
    requires FirstNewline(buffer) == |buffer| && FirstNewline(available) == |available|
    ensures FirstNewline(buffer + available) == |buffer + available|
    ensures |buffer + available| > MAX_LINE_BYTES ==> NextLine(buffer + (available + later), broken) == TooLong
    ensures buffer + (available + later) == (buffer + available) + later
    ensures (available + later)[|available|..] == later
  {
    FirstNewlineConcat(buffer, available);
    FirstNewlineConcat(buffer + available, later);
    assert buffer + (available + later) == (buffer + available) + later;
  }

  // ---------------------------------------------------------------- splitting

  /** The newline split of the bytes; a nonempty unterminated tail is a line. */
  function SplitLines(bytes: seq<byte>): seq<seq<byte>>
    decreases |bytes|
  {
    if bytes == [] then []
    else
      AfterLineShrinks(bytes);
      [bytes[..FirstNewline(bytes)]] + SplitLines(AfterLine(bytes))
  }

  /** Lines written back out, the last one's newline as asked. */
  function Unsplit(lines: seq<seq<byte>>, terminated: bool): seq<byte> {
    if lines == [] then []
    else if |lines| == 1 then lines[0] + if terminated then [NEWLINE] else []
    else lines[0] + [NEWLINE] + Unsplit(lines[1..], terminated)
  }

  /** Splitting loses nothing: the lines, put back, are the bytes; and no line holds a newline. */
  lemma {:induction false} SplitRoundTrips(bytes: seq<byte>)
    ensures Unsplit(SplitLines(bytes), bytes != [] && bytes[|bytes| - 1] == NEWLINE) == bytes
    ensures forall k :: 0 <= k < |SplitLines(bytes)| ==> NEWLINE !in SplitLines(bytes)[k]
    ensures bytes != [] ==> SplitLines(bytes) != []
    decreases |bytes|
  {
    if bytes != [] {
      var k, rest := FirstNewline(bytes), AfterLine(bytes);
      AfterLineShrinks(bytes);
      SplitRoundTrips(rest);
      var lines := SplitLines(bytes);
      assert lines[1..] == SplitLines(rest);
      if k < |bytes| {
        assert bytes == bytes[..k] + [NEWLINE] + rest;
        assert rest != [] ==> rest[|rest| - 1] == bytes[|bytes| - 1];
      } else {
        assert bytes[..k] == bytes;
      }
    }
  }

  /** What repeated reads yield: lines until something that is not one. */
  function AllReads(rest: seq<byte>, broken: bool): seq<LineRead>
    decreases |rest|
  {
    var read := NextLine(rest, broken);
    if read.Line? && rest != [] then
      AfterLineShrinks(rest);
      [read] + AllReads(AfterLine(rest), broken)
    else [read]
  }

  /**
    Repeated reads of a whole stream are its newline split, in order, up to the
    first line over the limit, which reads as too long; otherwise they end with
    the end of the stream.
   */
  lemma {:induction false} ReadsAreTheSplit(bytes: seq<byte>)
    ensures var lines, got := SplitLines(bytes), AllReads(bytes, false);
            var n := |got| - 1;
            && n <= |lines|
            && (forall k :: 0 <= k < n ==> got[k] == Line(lines[k]) && |lines[k]| <= MAX_LINE_BYTES)
            && (if n < |lines| then got[n] == TooLong && |lines[n]| > MAX_LINE_BYTES else got[n] == Eof)
    decreases |bytes|
  {
    if bytes != [] {
      var rest, k := AfterLine(bytes), FirstNewline(bytes);
      AfterLineShrinks(bytes);
      ReadsAreTheSplit(rest);
      var lines := SplitLines(bytes);
      assert lines[0] == bytes[..k] && lines[1..] == SplitLines(rest);
      if k <= MAX_LINE_BYTES {
        var got := AllReads(bytes, false);
        assert k == |bytes| ==> bytes[..k] == bytes;
        assert got[0] == Line(lines[0]) && got[1..] == AllReads(rest, false);
        assert forall j :: 1 <= j < |got| ==> got[j] == got[1..][j - 1];
        assert forall j :: 1 <= j < |lines| ==> lines[j] == lines[1..][j - 1];
      }
    }
  }
}
