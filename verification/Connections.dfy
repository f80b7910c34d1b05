/** The system boundary: what a connection's bytes come to, from the handshake to the process's state. */
module Connections {
  import opened Basics
  import opened PathRegistry
  import opened Ledger
  import opened Windows
  import opened RingModel
  import opened StoreModel
  import opened StoreInvariant
  import opened Processes
  import opened Ingest

  const SCHEMA_VERSION: nat := 2

  /** What a line's text turns out to be. Parsing itself is not part of this model. */
  datatype Content = Blank | FrameLine(frame: Frame) | HelloLine(schema: nat, process: nat) | BadLine

  datatype Outcome =
    | Empty
    | HandshakeNotHello
    | HandshakeMalformed
    | SchemaMismatch(got: nat)
    | LineTooLong
    | ReadFailed
    | Ended(process: nat, frames: nat, skipped: nat)

  /** The lines of a stream after its handshake, and what ended it. */
  datatype Stream = Stream(end: LineRead, lines: seq<Content>)

  function StreamOf(rest: seq<byte>, broken: bool, parse: seq<byte> -> Content): Stream
    decreases |rest|
  {
    var found := NextLine(rest, broken);
    if !found.Line? || rest == [] then Stream(found, [])
    else
      AfterLineShrinks(rest);
      var more := StreamOf(AfterLine(rest), broken, parse);
      Stream(more.end, [parse(found.text)] + more.lines)
  }

  function FramesIn(lines: seq<Content>): seq<Frame> {
    if lines == [] then []
    else
      var last := lines[|lines| - 1];
      FramesIn(lines[..|lines| - 1]) + if last.FrameLine? then [last.frame] else []
  }

  function SkippedIn(lines: seq<Content>): nat {
    if lines == [] then 0
    else
      var last := lines[|lines| - 1];
      SkippedIn(lines[..|lines| - 1]) + if last.HelloLine? || last.BadLine? then 1 else 0
  }

  ghost predicate AllFoldable(lines: seq<Content>) {
    forall k :: 0 <= k < |lines| ==> LineFoldable(lines[k])
  }

  ghost predicate LineFoldable(line: Content) {
    line.FrameLine? ==> FrameOk(line.frame)
  }

  /** What one line does to the process. */
  ghost function FedOne(s: Store, line: Content): Store
    requires LineFoldable(line)
  {
    match line
    case Blank => s
    case FrameLine(frame) => ApplyFrame(s, frame)
    case HelloLine(_, _) => Malformed(s, 1)
    case BadLine => Malformed(s, 1)
  }

  /** The state after a stream's lines: frames applied, and unusable lines counted, in their order. */
  ghost function Fed(s: Store, lines: seq<Content>): Store
    requires AllFoldable(lines)
  {
    if lines == [] then s else FedOne(Fed(s, lines[..|lines| - 1]), lines[|lines| - 1])
  }

  /** The frames a parser hands on are ones the store can fold. */
  ghost predicate Foldable(parse: seq<byte> -> Content) {
    forall text :: LineFoldable(parse(text))
  }

  // ---------------------------------------------------------------- every line is accounted for

  /** The stream's lines are the lines repeated reads yield, parsed, and its end is what they end with. */
  lemma {:induction false} StreamIsTheReads(rest: seq<byte>, broken: bool, parse: seq<byte> -> Content)
    ensures var got, stream := AllReads(rest, broken), StreamOf(rest, broken, parse);
            && |got| == |stream.lines| + 1 && stream.end == got[|stream.lines|]
            && forall k :: 0 <= k < |stream.lines| ==> got[k].Line? && stream.lines[k] == parse(got[k].text)
    decreases |rest|
  {
    if NextLine(rest, broken).Line? && rest != [] {
      AfterLineShrinks(rest);
      StreamIsTheReads(AfterLine(rest), broken, parse);
      var got, lines := AllReads(rest, broken), StreamOf(rest, broken, parse).lines;
      var later, rest' := AllReads(AfterLine(rest), broken), StreamOf(AfterLine(rest), broken, parse).lines;
      assert got == [NextLine(rest, broken)] + later && lines == [parse(NextLine(rest, broken).text)] + rest';
      forall k | 0 <= k < |lines|
        ensures got[k].Line? && lines[k] == parse(got[k].text)
      {
        if k > 0 { assert got[k] == later[k - 1] && lines[k] == rest'[k - 1]; }
      }
    }
  }

  function NonBlankIn(lines: seq<Content>): nat {
    if lines == [] then 0
    else NonBlankIn(lines[..|lines| - 1]) + if lines[|lines| - 1].Blank? then 0 else 1
  }

  /** Every non-blank line is either a frame applied or a line counted as skipped. */
  lemma {:induction false} EveryLineIsCounted(lines: seq<Content>)
    ensures |FramesIn(lines)| + SkippedIn(lines) == NonBlankIn(lines)
  {
    if lines != [] { EveryLineIsCounted(lines[..|lines| - 1]); }
  }

  // ---------------------------------------------------------------- unusable lines cost nothing else

  lemma {:induction false} AdmitApart(s: Store, r: Register, n: nat)
    ensures Admit(Malformed(s, n), r) == Malformed(Admit(s, r), n)
  {
    if r.RegisterPath? { assert RefusesPath(Malformed(s, n), r.id, r.node) <==> RefusesPath(s, r.id, r.node); }
  }

  lemma {:induction false} AdmitAllApart(s: Store, rs: seq<Register>, n: nat)
    ensures AdmitAll(Malformed(s, n), rs) == Malformed(AdmitAll(s, rs), n)
  {
    if rs != [] {
      AdmitAllApart(s, rs[..|rs| - 1], n);
      AdmitApart(AdmitAll(s, rs[..|rs| - 1]), rs[|rs| - 1], n);
    }
  }

  lemma {:induction false} PostCallsApart(s: Store, a: Accepted, t: nat, n: nat)
    requires a.CallsAccepted?
    ensures Post(Malformed(s, n), a, t) == Malformed(Post(s, a, t), n)
  {
    if a.func in s.functions { assert a.func in Malformed(s, n).functions; }
  }

  lemma {:induction false} PostStackApart(s: Store, a: Accepted, t: nat, n: nat)
    requires a.StackAccepted?
    ensures Post(Malformed(s, n), a, t) == Malformed(Post(s, a, t), n)
  {
  }

  lemma {:induction false} PostCensusApart(s: Store, a: Accepted, t: nat, n: nat)
    requires a.CensusAccepted?
    ensures Post(Malformed(s, n), a, t) == Malformed(Post(s, a, t), n)
  {
    if a.ty in s.types { assert a.ty in Malformed(s, n).types; }
  }

  lemma {:induction false} PostApart(s: Store, a: Accepted, t: nat, n: nat)
    ensures Post(Malformed(s, n), a, t) == Malformed(Post(s, a, t), n)
  {
    match a
    case CallsAccepted(_, _, _, _) => PostCallsApart(s, a, t, n);
    case StackAccepted(_, _, _, _, _) => PostStackApart(s, a, t, n);
    case CensusAccepted(_, _) => PostCensusApart(s, a, t, n);
  }

  lemma {:induction false} AcceptApart(s: Store, e: Event, t: nat, n: nat)
    requires EventOk(e)
    ensures Accept(Malformed(s, n), e, t) == Accept(s, e, t)
  {
  }

  lemma {:induction false} PostEventApart(s: Store, e: Event, t: nat, n: nat)
    requires EventOk(e)
    ensures PostEvent(Malformed(s, n), e, t) == Malformed(PostEvent(s, e, t), n)
  {
    AcceptApart(s, e, t, n);
    var accepted := Accept(s, e, t);
    assert OneEvent(Malformed(s, n)) == Malformed(OneEvent(s), n);
    if accepted.Some? { PostApart(OneEvent(s), accepted.value, t, n); }
  }

  lemma {:induction false} PostAllApart(s: Store, es: seq<Event>, t: nat, n: nat)
    requires forall k :: 0 <= k < |es| ==> EventOk(es[k])
    ensures PostAll(Malformed(s, n), es, t) == Malformed(PostAll(s, es, t), n)
    ensures Survivors(Malformed(s, n), es, t) == Survivors(s, es, t)
  {
    if es != [] {
      PostAllApart(s, es[..|es| - 1], t, n);
      PostEventApart(PostAll(s, es[..|es| - 1], t), es[|es| - 1], t, n);
      AcceptApart(s, es[|es| - 1], t, n);
    }
  }

  lemma {:induction false} IntoRingsApart(s: Store, accepted: seq<Accepted>, t: nat, n: nat)
    ensures IntoRings(Malformed(s, n), accepted, t) == Malformed(IntoRings(s, accepted, t), n)
  {
  }

  lemma {:induction false} LandedApart(s: Store, f: Frame, n: nat)
    requires FrameOk(f)
    ensures Landed(Malformed(s, n), f) == Malformed(Landed(s, f), n)
  {
    PostAllApart(s, f.events, f.t, n);
    IntoRingsApart(PostAll(s, f.events, f.t), Survivors(s, f.events, f.t), f.t, n);
  }

  /** A frame does the same whatever lines were unusable before it. */
  lemma {:induction false} FrameApart(s: Store, f: Frame, n: nat)
    requires FrameOk(f)
    ensures ApplyFrame(Malformed(s, n), f) == Malformed(ApplyFrame(s, f), n)
  {
    AdmitAllApart(OneFrame(s), f.registers, n);
    assert OneFrame(Malformed(s, n)) == Malformed(OneFrame(s), n);
    var named := Registered(s, f);
    assert Moved(Malformed(named, n), f.t) == Malformed(Moved(named, f.t), n);
    LandedApart(Moved(named, f.t), f, n);
  }

  lemma {:induction false} FramesFoldable(lines: seq<Content>)
    requires AllFoldable(lines)
    ensures forall k :: 0 <= k < |FramesIn(lines)| ==> FrameOk(FramesIn(lines)[k])
  {
    if lines != [] { FramesFoldable(lines[..|lines| - 1]); }
  }

  /** What a line leaves behind, but for the count of unusable ones. */
  ghost function FrameOnly(s: Store, line: Content): Store
    requires LineFoldable(line)
  {
    if line.FrameLine? then ApplyFrame(s, line.frame) else s
  }

  function Unusable(line: Content): nat {
    if line.HelloLine? || line.BadLine? then 1 else 0
  }

  lemma {:induction false} LineApart(s: Store, line: Content, n: nat)
    requires LineFoldable(line)
    ensures FedOne(Malformed(s, n), line) == Malformed(FrameOnly(s, line), n + Unusable(line))
  {
    if line.FrameLine? { FrameApart(s, line.frame, n); }
  }

  lemma {:induction false} FramesPush(s: Store, front: seq<Content>, line: Content)
    requires AllFoldable(front) && LineFoldable(line)
    requires forall k :: 0 <= k < |FramesIn(front)| ==> FrameOk(FramesIn(front)[k])
    requires forall k :: 0 <= k < |FramesIn(front + [line])| ==> FrameOk(FramesIn(front + [line])[k])
    ensures ApplyAll(s, FramesIn(front + [line])) == FrameOnly(ApplyAll(s, FramesIn(front)), line)
    ensures SkippedIn(front + [line]) == SkippedIn(front) + Unusable(line)
  {
    assert (front + [line])[..|front|] == front;
    var before, after := FramesIn(front), FramesIn(front + [line]);
    if line.FrameLine? {
      assert after == before + [line.frame];
      assert after[..|after| - 1] == before && after[|after| - 1] == line.frame;
    } else {
      assert after == before;
    }
  }

  /**
    A corrupted line does not cost the rest of a run. The state after a stream is
    the state after its frames alone, with the unusable lines counted.
   */
  lemma {:induction false} UnusableLinesCostNothing(s: Store, lines: seq<Content>)
    requires AllFoldable(lines)
    ensures forall k :: 0 <= k < |FramesIn(lines)| ==> FrameOk(FramesIn(lines)[k])
    ensures Fed(s, lines) == Malformed(ApplyAll(s, FramesIn(lines)), SkippedIn(lines))
  {
    FramesFoldable(lines);
    if lines != [] {
      var front, last := lines[..|lines| - 1], lines[|lines| - 1];
      assert front + [last] == lines;
      UnusableLinesCostNothing(s, front);
      FramesPush(s, front, last);
      LineApart(ApplyAll(s, FramesIn(front)), last, SkippedIn(front));
    }
  }

  // ---------------------------------------------------------------- a connection

  lemma {:induction false} OneMoreLine(s: Store, done: seq<Content>, line: Content)
    requires AllFoldable(done) && LineFoldable(line)
    ensures AllFoldable(done + [line]) && Fed(s, done + [line]) == FedOne(Fed(s, done), line)
    ensures |FramesIn(done + [line])| == |FramesIn(done)| + if line.FrameLine? then 1 else 0
    ensures SkippedIn(done + [line]) == SkippedIn(done) + Unusable(line)
  {
    assert (done + [line])[..|done|] == done;
  }

  /** What is done and what is still to come make up the stream. */
  predicate Remaining(all: Stream, done: seq<Content>, more: Stream) {
    more.end == all.end && done + more.lines == all.lines
  }

  /** How far a stream has been served: the state, and the lines counted so far. */
  ghost predicate ServedSoFar(before: Store, done: seq<Content>, now: Store, frames: nat, skipped: nat) {
    AllFoldable(done) && now == Fed(before, done) && frames == |FramesIn(done)| && skipped == SkippedIn(done)
  }

  /** One line of a stream: a frame is applied, anything else that is not blank is counted. */
  method TakeLine(process: ProcessState, line: Content, frames: nat, skipped: nat, ghost before: Store, ghost done: seq<Content>)
    returns (frames': nat, skipped': nat)
    requires process.Valid() && LineFoldable(line) && ServedSoFar(before, done, process.Value(), frames, skipped)
    modifies process, process.fine, process.coarse
    ensures process.Valid() && ServedSoFar(before, done + [line], process.Value(), frames', skipped')
    ensures process.liveConnections == old(process.liveConnections)
  {
    OneMoreLine(before, done, line);
    frames', skipped' := frames, skipped;
    match line {
      case Blank =>
      case FrameLine(frame) =>
        frames' := frames + 1;
        process.Apply(frame);
      case HelloLine(_, _) =>
        skipped' := skipped + 1;
        process.NoteMalformedLine();
      case BadLine =>
        skipped' := skipped + 1;
        process.NoteMalformedLine();
    }
  }

  lemma {:induction false} NothingServed(s: Store)
    ensures ServedSoFar(s, [], s, 0, 0)
  {
  }

  /** The next line read moves from what remains to what is done. */
  lemma {:induction false} OneLessToCome(all: Stream, done: seq<Content>, rest: seq<byte>, broken: bool, parse: seq<byte> -> Content)
    requires Remaining(all, done, StreamOf(rest, broken, parse))
    ensures var found := NextLine(rest, broken);
            if found.Line? && rest != [] then
              Remaining(all, done + [parse(found.text)], StreamOf(AfterLine(rest), broken, parse))
            else all.lines == done && all.end == found
  {
    if NextLine(rest, broken).Line? && rest != [] {
      AfterLineShrinks(rest);
      var more := StreamOf(AfterLine(rest), broken, parse).lines;
      assert done + ([parse(NextLine(rest, broken).text)] + more) == (done + [parse(NextLine(rest, broken).text)]) + more;
    }
  }

  /** The line loop after the handshake: the process ends as its bytes have it. */
  method ServeLines(reader: Reader, process: ProcessState, parse: seq<byte> -> Content)
    returns (end: LineRead, frames: nat, skipped: nat)
    requires reader.Valid() && process.Valid() && Foldable(parse)
    modifies reader, process, process.fine, process.coarse
    ensures reader.Valid() && process.Valid() && process.liveConnections == old(process.liveConnections)
    ensures var stream := StreamOf(old(reader.Rest()), reader.broken, parse);
            end == stream.end && ServedSoFar(old(process.Value()), stream.lines, process.Value(), frames, skipped)
  {
    ghost var all, before := StreamOf(reader.Rest(), reader.broken, parse), process.Value();
    ghost var done: seq<Content> := [];
    frames, skipped := 0, 0;
    NothingServed(before);
    while true
      invariant reader.Valid() && process.Valid() && process.liveConnections == old(process.liveConnections)
      invariant ServedSoFar(before, done, process.Value(), frames, skipped)
      invariant Remaining(all, done, StreamOf(reader.Rest(), reader.broken, parse))
      decreases |reader.Rest()|
    {
      OneLessToCome(all, done, reader.Rest(), reader.broken, parse);
      var found := ReadLine(reader);
      if !found.Line? {
        return found, frames, skipped;
      }
      frames, skipped := TakeLine(process, parse(found.text), frames, skipped, before, done);
      done := done + [parse(found.text)];
    }
  }

  /** What the registry remembers of a process; a new one is fresh. */
  ghost function StateOf(registry: Registry, id: nat): Store
    reads registry, registry.processes.Values
    reads set p <- registry.processes.Values :: p.fine, set p <- registry.processes.Values :: p.coarse
  {
    if id in registry.processes then registry.processes[id].Value() else FRESH
  }

  function LiveOf(registry: Registry, id: nat): nat
    reads registry, registry.processes.Values
  {
    if id in registry.processes then registry.processes[id].liveConnections else 0
  }

  /** A process once a stream on it has ended, with that many connections left. */
  ghost predicate IsAfter(before: Store, lines: seq<Content>, live: nat, now: Store) {
    AllFoldable(lines) && now == if live == 0 then Flush(Fed(before, lines)) else Fed(before, lines)
  }

  /** A stream served to its end, and its connection to a process given up. */
  method ServeAdmitted(reader: Reader, registry: Registry, id: nat, p: ProcessState, parse: seq<byte> -> Content)
    returns (end: LineRead, frames: nat, skipped: nat)
    requires reader.Valid() && registry.Valid() && Foldable(parse)
    requires id in registry.processes && registry.processes[id] == p && p.liveConnections > 0
    modifies reader, p, p.fine, p.coarse
    ensures registry.Valid() && p.liveConnections == old(p.liveConnections) - 1
    ensures var stream := StreamOf(old(reader.Rest()), reader.broken, parse);
            && end == stream.end && frames == |FramesIn(stream.lines)| && skipped == SkippedIn(stream.lines)
            && IsAfter(old(p.Value()), stream.lines, p.liveConnections, p.Value())
  {
    end, frames, skipped := ServeLines(reader, p, parse);
    OthersStand(registry, id, p);
    registry.Disconnect(id);
  }

  /** All there is of one process. */
  ghost function Footprint(registry: Registry, id: Option<nat>): set<object>
    reads registry
  {
    if id.Some? && id.value in registry.processes
    then {registry.processes[id.value], registry.processes[id.value].fine, registry.processes[id.value].coarse}
    else {}
  }

  /** A connection of its own for a process, served and given up. */
  method ServeProcess(reader: Reader, registry: Registry, id: nat, parse: seq<byte> -> Content, ghost before: Store, ghost live: nat)
    returns (end: LineRead, frames: nat, skipped: nat)
    requires reader.Valid() && registry.Valid() && Foldable(parse)
    requires before == StateOf(registry, id) && live == LiveOf(registry, id)
    modifies reader, registry, Footprint(registry, Some(id))
    ensures registry.Valid() && id in registry.processes
    ensures registry.processes == old(registry.processes)[id := registry.processes[id]]
    ensures var p, stream := registry.processes[id], StreamOf(old(reader.Rest()), reader.broken, parse);
            && end == stream.end && frames == |FramesIn(stream.lines)| && skipped == SkippedIn(stream.lines)
            && p.liveConnections == live && IsAfter(before, stream.lines, live, p.Value())
  {
    var p := registry.Connect(id);
    assert p.Value() == before;
    end, frames, skipped := ServeAdmitted(reader, registry, id, p, parse);
  }

  /** A process that still stands beside untouched others. */
  lemma {:induction false} OthersStand(registry: Registry, id: nat, p: ProcessState)
    requires id in registry.processes && registry.processes[id] == p && p.Valid()
    requires forall other :: other in registry.processes && other != id ==>
      registry.processes[other].Valid() && registry.Apart(registry.processes[other], p)
    requires forall a, b :: a in registry.processes && b in registry.processes && a != b ==>
      registry.Apart(registry.processes[a], registry.processes[b])
    ensures registry.Valid()
  {
  }

  /** The first line of a stream: the process it is for, or why it is refused. */
  method Handshake(reader: Reader, parse: seq<byte> -> Content) returns (admitted: Option<nat>, refusal: Outcome)
    requires reader.Valid()
    modifies reader
    ensures reader.Valid()
    ensures match NextLine(old(reader.Rest()), reader.broken)
            case Eof => admitted == None && refusal == Empty
            case TooLong => admitted == None && refusal == LineTooLong
            case Failed => admitted == None && refusal == ReadFailed
            case Line(text) =>
              match parse(text)
              case FrameLine(_) => admitted == None && refusal == HandshakeNotHello
              case BadLine => admitted == None && refusal == HandshakeMalformed
              case Blank => admitted == None && refusal == HandshakeMalformed
              case HelloLine(schema, id) =>
                if schema != SCHEMA_VERSION then admitted == None && refusal == SchemaMismatch(schema)
                else admitted == Some(id) && reader.Rest() == AfterLine(old(reader.Rest()))
  {
    var found := ReadLine(reader);
    match found {
      case Eof => return None, Empty;
      case TooLong => return None, LineTooLong;
      case Failed => return None, ReadFailed;
      case Line(text) =>
        match parse(text) {
          case HelloLine(schema, id) =>
            if schema != SCHEMA_VERSION {
              return None, SchemaMismatch(schema);
            }
            return Some(id), Empty;
          case FrameLine(_) => return None, HandshakeNotHello;
          case BadLine => return None, HandshakeMalformed;
          case Blank => return None, HandshakeMalformed;
        }
    }
  }

  /** The process a stream's hello names, of whatever version. */
  function NamedBy(first: LineRead, parse: seq<byte> -> Content): Option<nat> {
    if first.Line? && parse(first.text).HelloLine? then Some(parse(first.text).process) else None
  }

  /** A stream's closing outcome: what ended it, and its counts if that was its end. */
  predicate ClosesAs(outcome: Outcome, process: nat, stream: Stream) {
    && (stream.end.TooLong? ==> outcome == LineTooLong)
    && (stream.end.Failed? ==> outcome == ReadFailed)
    && (stream.end.Eof? ==> outcome == Ended(process, |FramesIn(stream.lines)|, SkippedIn(stream.lines)))
  }

  /**
    A whole connection. Anything but a hello of this version as the first line
    has its own outcome and moves nothing. After such a hello the process it
    names is left as its earlier history and this stream's lines have it, flushed
    if no connection to it is left. No other process moves in any case.
   */
  method HandleConnection(reader: Reader, registry: Registry, parse: seq<byte> -> Content) returns (outcome: Outcome)
    requires reader.Valid() && registry.Valid() && Foldable(parse)
    modifies reader, registry, Footprint(registry, NamedBy(NextLine(reader.Rest(), reader.broken), parse))
    ensures registry.Valid()
    ensures var first := NextLine(old(reader.Rest()), reader.broken);
            match first
            case Eof => outcome == Empty
            case TooLong => outcome == LineTooLong
            case Failed => outcome == ReadFailed
            case Line(text) =>
              match parse(text)
              case FrameLine(_) => outcome == HandshakeNotHello
              case BadLine => outcome == HandshakeMalformed
              case Blank => outcome == HandshakeMalformed
              case HelloLine(schema, id) =>
                if schema != SCHEMA_VERSION then outcome == SchemaMismatch(schema)
                else ClosesAs(outcome, id, StreamOf(AfterLine(old(reader.Rest())), reader.broken, parse))
    ensures var first := NextLine(old(reader.Rest()), reader.broken);
            if first.Line? && parse(first.text).HelloLine? && parse(first.text).schema == SCHEMA_VERSION then
              var id, stream := parse(first.text).process, StreamOf(AfterLine(old(reader.Rest())), reader.broken, parse);
              && id in registry.processes && registry.processes == old(registry.processes)[id := registry.processes[id]]
              && LiveOf(registry, id) == old(LiveOf(registry, id))
              && IsAfter(old(StateOf(registry, id)), stream.lines, LiveOf(registry, id), StateOf(registry, id))
            else unchanged(registry) && unchanged(old(Footprint(registry, NamedBy(first, parse))))
  {
    var admitted, refusal := Handshake(reader, parse);
    if admitted.None? {
      return refusal;
    }
    ghost var before, live := StateOf(registry, admitted.value), LiveOf(registry, admitted.value);
    assert before == old(StateOf(registry, admitted.value)) && live == old(LiveOf(registry, admitted.value));
    var end, frames, skipped := ServeProcess(reader, registry, admitted.value, parse, before, live);
    outcome := match end case TooLong => LineTooLong case Failed => ReadFailed case _ => Ended(admitted.value, frames, skipped);
  }
}
