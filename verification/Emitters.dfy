/** The emit thread's side of the wire: which names a frame carries, and the marks kept between frames. */
module Emitters {
  import opened Basics
  import opened PathRegistry
  import opened Calls
  import opened Ledger
  import opened StoreModel
  import opened SampleStore
  import opened Distribution

  const MAX_REGISTERS_PER_FRAME: nat := 2_048

  /** The names a frame carries, and the counts to carry into the next. */
  datatype Batch = Batch(registers: seq<Register>, functions: nat, types: nat, paths: nat)

  function FunctionBlock(names: seq<string>, from: nat): seq<Register>
    requires from <= |names|
  {
    seq(|names| - from, k requires 0 <= k < |names| - from => RegisterFunction(from + k + 1, names[from + k]))
  }

  function TypeBlock(names: seq<string>, from: nat): seq<Register>
    requires from <= |names|
  {
    seq(|names| - from, k requires 0 <= k < |names| - from => RegisterType(from + k + 1, names[from + k]))
  }

  function PathBlock(nodes: seq<PathNode>, from: nat, to: nat): seq<Register>
    requires from <= to <= |nodes|
  {
    seq(to - from, k requires 0 <= k < to - from => RegisterPath(from + k + 1, nodes[from + k]))
  }

  /** Contexts stop at the per-frame ceiling; functions and types are not held to it. */
  function PathsUpTo(nodes: seq<PathNode>, from: nat, already: nat): (to: nat)
    requires from <= |nodes|
    ensures from <= to <= |nodes|
  {
    if already >= MAX_REGISTERS_PER_FRAME then from
    else if |nodes| - from <= MAX_REGISTERS_PER_FRAME - already then |nodes|
    else from + (MAX_REGISTERS_PER_FRAME - already)
  }

  /** Names interned since the marks: functions, then types, then as many contexts as fit. */
  function RegistersSince(
    functions: seq<string>, types: seq<string>, nodes: seq<PathNode>, fs: nat, ts: nat, ps: nat): Batch
    requires fs <= |functions| && ts <= |types| && ps <= |nodes|
  {
    var head := FunctionBlock(functions, fs) + TypeBlock(types, ts);
    var to := PathsUpTo(nodes, ps, |head|);
    Batch(head + PathBlock(nodes, ps, to), |functions|, |types|, to)
  }

  /** The tables are held locked while the entries are built. */
  method CollectRegisters(
    functions: seq<string>, types: seq<string>, nodes: seq<PathNode>, fs: nat, ts: nat, ps: nat)
    returns (batch: Batch)
    requires fs <= |functions| && ts <= |types| && ps <= |nodes|
    ensures batch == RegistersSince(functions, types, nodes, fs, ts, ps)
  {
    var out := [];
    for k := fs to |functions|
      invariant out == FunctionBlock(functions, fs)[..k - fs]
    {
      out := out + [RegisterFunction(k + 1, functions[k])];
    }
    for k := ts to |types|
      invariant out == FunctionBlock(functions, fs) + TypeBlock(types, ts)[..k - ts]
    {
      out := out + [RegisterType(k + 1, types[k])];
    }
    ghost var head := out;
    var pathsNow := ps;
    while pathsNow < |nodes|
      invariant ps <= pathsNow <= |nodes| && out == head + PathBlock(nodes, ps, pathsNow)
      invariant pathsNow > ps ==> |out| <= MAX_REGISTERS_PER_FRAME
    {
      if |out| >= MAX_REGISTERS_PER_FRAME {
        break;
      }
      out := out + [RegisterPath(pathsNow + 1, nodes[pathsNow])];
      pathsNow := pathsNow + 1;
    }
    batch := Batch(out, |functions|, |types|, pathsNow);
  }

  /**
    The per-frame ceiling is kept exactly when the functions and types new to
    the frame fit under it by themselves.
   */
  lemma {:induction false} FrameCeiling(functions: seq<string>, types: seq<string>, nodes: seq<PathNode>, fs: nat, ts: nat, ps: nat)
    requires fs <= |functions| && ts <= |types| && ps <= |nodes|
    ensures |RegistersSince(functions, types, nodes, fs, ts, ps).registers| <= MAX_REGISTERS_PER_FRAME
       <==> (|functions| - fs) + (|types| - ts) <= MAX_REGISTERS_PER_FRAME
  {
  }

  /** The marks walk forward to the end of a table that has stopped growing. */
  lemma {:induction false} MarksProgress(functions: seq<string>, types: seq<string>, nodes: seq<PathNode>, ps: nat)
    requires ps <= |nodes|
    ensures var batch := RegistersSince(functions, types, nodes, |functions|, |types|, ps);
            batch.paths == |nodes| || batch.paths == ps + MAX_REGISTERS_PER_FRAME
  {
  }

  // ---------------------------------------------------------------- events

  /** What an event of a frame is about, unless it is a census. */
  datatype Key = OfFunction(func: nat) | OfContext(path: nat)

  predicate About(e: Event, key: Key) {
    match key
    case OfFunction(func) => e.Calls? && e.func == func
    case OfContext(path) => e.Stack? && e.path == path
  }

  /** How many of the events are about it. */
  function Times(events: seq<Event>, key: Key): nat {
    if events == [] then 0
    else Times(events[..|events| - 1], key) + if About(events[|events| - 1], key) then 1 else 0
  }

  predicate Holding(a: Accum, key: Key) {
    match key
    case OfFunction(func) => func in a.calls
    case OfContext(path) => path in a.stacks
  }

  /** The event gives the figures that the accumulator holds. */
  predicate Figures(a: Accum, e: Event) {
    match e
    case Calls(func, count, ns) => func in a.calls && count == a.calls[func].count && ns == IntoDist(a.calls[func].ns)
    case Stack(path, count, selfNs) => path in a.stacks && count == a.stacks[path].count && selfNs == a.stacks[path].selfNs
    case Census(_, _, _, _) => true
  }

  /** The events tell all an accumulator holds: each entry once, as it stands, whatever the order. */
  ghost predicate TellsAll(a: Accum, events: seq<Event>) {
    && (forall k :: 0 <= k < |events| ==> Figures(a, events[k]))
    && (forall key :: Times(events, key) == if Holding(a, key) then 1 else 0)
  }

  lemma {:induction false} OneMoreTime(events: seq<Event>, e: Event)
    ensures forall key :: Times(events + [e], key) == Times(events, key) + if About(e, key) then 1 else 0
  {
    assert (events + [e])[..|events|] == events;
  }

  lemma {:induction false} CensusesAreAboutNeither(events: seq<Event>, censuses: seq<Event>, key: Key)
    requires forall k :: 0 <= k < |censuses| ==> censuses[k].Census?
    ensures Times(events + censuses, key) == Times(events, key)
  {
    if censuses == [] {
      assert events + censuses == events;
    } else {
      var front := censuses[..|censuses| - 1];
      assert (events + censuses)[..|events + censuses| - 1] == events + front;
      CensusesAreAboutNeither(events, front, key);
    }
  }

  /** A tick's events: what was drained, in the maps' own order, and what the type slots read. */
  method BuildEvents(a: Accum, censuses: seq<Event>) returns (events: seq<Event>)
    requires forall k :: 0 <= k < |censuses| ==> censuses[k].Census?
    ensures TellsAll(a, events)
    ensures |censuses| <= |events| && events[|events| - |censuses|..] == censuses
  {
    events := [];
    var funcs := a.calls.Keys;
    while funcs != {}
      invariant funcs <= a.calls.Keys
      invariant forall k :: 0 <= k < |events| ==> Figures(a, events[k])
      invariant forall key :: Times(events, key) == if key.OfFunction? && key.func in a.calls.Keys - funcs then 1 else 0
      decreases |funcs|
    {
      var func :| func in funcs;
      OneMoreTime(events, Calls(func, a.calls[func].count, IntoDist(a.calls[func].ns)));
      events := events + [Calls(func, a.calls[func].count, IntoDist(a.calls[func].ns))];
      funcs := funcs - {func};
    }
    var paths := a.stacks.Keys;
    while paths != {}
      invariant paths <= a.stacks.Keys
      invariant forall k :: 0 <= k < |events| ==> Figures(a, events[k])
      invariant forall key :: Times(events, key) ==
                  if Holding(a, key) && (key.OfContext? ==> key.path !in paths) then 1 else 0
      decreases |paths|
    {
      var path :| path in paths;
      OneMoreTime(events, Stack(path, a.stacks[path].count, a.stacks[path].selfNs));
      events := events + [Stack(path, a.stacks[path].count, a.stacks[path].selfNs)];
      paths := paths - {path};
    }
    forall key
      ensures Times(events + censuses, key) == if Holding(a, key) then 1 else 0
    {
      CensusesAreAboutNeither(events, censuses, key);
    }
    events := events + censuses;
  }

  // ---------------------------------------------------------------- marks

  datatype Marks = Marks(connected: bool, frameSeq: nat, functions: nat, types: nat, paths: nat)

  const UNCONNECTED: Marks := Marks(false, 0, 0, 0, 0)

  /** A fresh listener has never seen this process's names. */
  function Greeted(m: Marks): Marks {
    m.(connected := true, functions := 0, types := 0, paths := 0)
  }

  function Sent(m: Marks, batch: Batch): Marks {
    m.(frameSeq := m.frameSeq + 1, functions := batch.functions, types := batch.types, paths := batch.paths)
  }

  /** The daemon went away; what was drained for this frame is gone with it. */
  function Lost(m: Marks): Marks {
    m.(connected := false)
  }

  /** The marks are positions in the tables. */
  predicate MarksFit(m: Marks, functions: nat, types: nat, paths: nat) {
    m.functions <= functions && m.types <= types && m.paths <= paths
  }

  class Emitter {
    var connected: bool
    var frameSeq: nat
    var functionsSent: nat
    var typesSent: nat
    var pathsSent: nat

    function Value(): Marks
      reads this
    {
      Marks(connected, frameSeq, functionsSent, typesSent, pathsSent)
    }

    constructor ()
      ensures Value() == UNCONNECTED
    {
      connected, frameSeq, functionsSent, typesSent, pathsSent := false, 0, 0, 0, 0;
    }

    /**
      One window. The socket decides whether a connection is made, whether it
      takes the hello, and whether it takes the frame. `batch` is what was
      handed to the socket, if it came to that.
     */
    method Tick(
      functions: seq<string>, types: seq<string>, nodes: seq<PathNode>,
      connects: bool, takesHello: bool, takesFrame: bool)
      returns (batch: Option<Batch>)
      requires MarksFit(Value(), |functions|, |types|, |nodes|)
      modifies this
      ensures MarksFit(Value(), |functions|, |types|, |nodes|)
      ensures var ready := if old(connected) then old(Value()) else Greeted(old(Value()));
              if !old(connected) && !(connects && takesHello) then
                batch.None? && Value() == old(Value())
              else
                && batch == Some(RegistersSince(functions, types, nodes, ready.functions, ready.types, ready.paths))
                && Value() == if takesFrame then Sent(ready, batch.value) else Lost(ready)
    {
      if !connected {
        if !connects || !takesHello {
          return None;
        }
        functionsSent, typesSent, pathsSent := 0, 0, 0;
        connected := true;
      }
      var built := CollectRegisters(functions, types, nodes, functionsSent, typesSent, pathsSent);
      if takesFrame {
        frameSeq := frameSeq + 1;
        functionsSent, typesSent, pathsSent := built.functions, built.types, built.paths;
      } else {
        connected := false;
      }
      batch := Some(built);
    }
  }
}
