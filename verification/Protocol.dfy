/**
  The probe and the daemon together: threads enter, leave and are drained, the
  emitter collects, connects, sends and is refused, frames travel on connections
  that may die, and the daemon validates what arrives, possibly after restarting.
 */
module Protocol {
  import opened Basics
  import opened PathRegistry
  import opened Calls
  import opened Ledger
  import opened RingModel
  import opened StoreModel
  import opened StoreInvariant
  import opened Emitters
  import opened RecordedNames
  import Probe = ProbeRuns

  /** Everything interned so far, of each kind. */
  datatype Tables = Tables(functions: seq<string>, types: seq<string>, nodes: seq<PathNode>)

  /** How far into each table. */
  datatype Position = Position(functions: nat, types: nat, paths: nat)

  const NOWHERE: Position := Position(0, 0, 0)

  predicate Within(a: Position, b: Position) {
    a.functions <= b.functions && a.types <= b.types && a.paths <= b.paths
  }

  function EndOf(t: Tables): Position {
    Position(|t.functions|, |t.types|, |t.nodes|)
  }

  predicate TablesGrew(a: Tables, b: Tables) {
    a.functions <= b.functions && a.types <= b.types && a.nodes <= b.nodes
  }

  /**
    A frame in flight, with the marks it was built between, whether its contexts
    got to the end of their table, and what had been drained for it.
   */
  datatype Flight = Flight(frame: Frame, start: Position, stop: Position, whole: bool, drained: Accum)

  /** One socket connection: the frames sent and not yet read, how far its reader has got, and all it was told. */
  datatype Link = Link(live: bool, queue: seq<Flight>, done: Position, heard: seq<Register>)

  const NEW_LINK: Link := Link(true, [], NOWHERE, [])

  datatype World = World(
    functions: seq<string>,
    types: seq<string>,
    probe: Probe.System,
    held: Option<Accum>,
    marks: Marks,
    links: seq<Link>,
    store: Store)

  const START: World := World([], [], Probe.START, None, UNCONNECTED, [], FRESH)

  function TablesOf(w: World): Tables {
    Tables(w.functions, w.types, w.probe.table.nodes)
  }

  function MarkedAt(m: Marks): Position {
    Position(m.functions, m.types, m.paths)
  }

  predicate IsId(f: nat, n: nat) {
    1 <= f <= n
  }

  /** The ids of the first `n` functions. */
  function Ids(n: nat): set<nat> {
    set f | 1 <= f <= n && IsId(f, n)
  }

  /** A step of the probe's threads, of the emitter, of the network or of the daemon. */
  datatype Step =
    | InternFunction(name: string)
    | InternType(name: string)
    | Mutate(step: Probe.Step)
    | Collect
    | GiveUp
    | Greet
    | SendFrame(t: nat, events: seq<Event>, taken: bool, delivered: bool)
    | Deliver(link: nat)
    | DropLink(link: nat)
    | LastDisconnect
    | Restart

  function CurrentLink(w: World): nat
    requires w.links != []
  {
    |w.links| - 1
  }

  /** Marks are positions in the tables and frames in flight are ones the daemon can fold. */
  ghost predicate Ready(w: World) {
    && Within(MarkedAt(w.marks), EndOf(TablesOf(w)))
    && forall c :: 0 <= c < |w.links| ==> forall k :: 0 <= k < |w.links[c].queue| ==> FrameOk(w.links[c].queue[k].frame)
  }

  ghost predicate Enabled(w: World, step: Step) {
    Ready(w) &&
    match step
    case InternFunction(_) => true
    case InternType(_) => true
    case Mutate(step) => Probe.Legal(w.probe, step, Ids(|w.functions|))
    case Collect => w.held.None?
    case GiveUp => w.held.Some? && !w.marks.connected
    case Greet => w.held.Some? && !w.marks.connected
    case SendFrame(t, events, taken, delivered) =>
      && w.held.Some? && w.marks.connected && w.links != []
      && TellsAll(w.held.value, events) && (forall k :: 0 <= k < |events| ==> EventOk(events[k]))
      && (taken || delivered ==> w.links[CurrentLink(w)].live)
      && (taken ==> delivered)
    case Deliver(link) => link < |w.links| && w.links[link].queue != []
    case DropLink(link) => link < |w.links|
    case LastDisconnect => true
    case Restart => true
  }

  /** What the emitter builds when it looks at the tables now. */
  function BuiltNow(t: Tables, marks: Marks): Batch
    requires Within(MarkedAt(marks), EndOf(t))
  {
    RegistersSince(t.functions, t.types, t.nodes, marks.functions, marks.types, marks.paths)
  }

  function FlightNow(t: Tables, marks: Marks, at: nat, events: seq<Event>, drained: Accum): Flight
    requires Within(MarkedAt(marks), EndOf(t))
  {
    var batch := BuiltNow(t, marks);
    Flight(Frame(at, batch.registers, events), MarkedAt(marks), Position(batch.functions, batch.types, batch.paths),
           batch.paths == |t.nodes|, drained)
  }

  function Sending(link: Link, flight: Flight): Link {
    link.(queue := link.queue + [flight])
  }

  /** A connection once its next frame is read. */
  function Read(link: Link): Link
    requires link.queue != []
  {
    var flight := link.queue[0];
    link.(queue := link.queue[1..], done := flight.stop, heard := link.heard + flight.frame.registers)
  }

  function Dead(link: Link): Link {
    link.(live := false, queue := [])
  }

  function AllDead(links: seq<Link>): seq<Link> {
    seq(|links|, k requires 0 <= k < |links| => Dead(links[k]))
  }

  ghost function Do(w: World, step: Step, cap: nat): World
    requires Enabled(w, step)
  {
    match step
    case InternFunction(name) => w.(functions := w.functions + [name])
    case InternType(name) => w.(types := w.types + [name])
    case Mutate(step) => w.(probe := Probe.Next(w.probe, step, cap))
    case Collect => w.(held := Some(w.probe.taken), probe := w.probe.(taken := NOTHING))
    case GiveUp => w.(held := None)
    case Greet => w.(marks := Greeted(w.marks), links := w.links + [NEW_LINK])
    case SendFrame(t, events, taken, delivered) =>
      var c := CurrentLink(w);
      w.(held := None,
         marks := if taken then Sent(w.marks, BuiltNow(TablesOf(w), w.marks)) else Lost(w.marks),
         links := if delivered then w.links[c := Sending(w.links[c], FlightNow(TablesOf(w), w.marks, t, events, w.held.value))] else w.links)
    case Deliver(c) =>
      w.(store := ApplyFrame(w.store, w.links[c].queue[0].frame), links := w.links[c := Read(w.links[c])])
    case DropLink(c) => w.(links := w.links[c := Dead(w.links[c])])
    case LastDisconnect => w.(store := Flush(w.store))
    case Restart => w.(store := FRESH, links := AllDead(w.links))
  }

  /** Any sequence of steps; one that is not possible when its turn comes does nothing. */
  ghost function Play(steps: seq<Step>, cap: nat): World {
    if steps == [] then START
    else
      var w := Play(steps[..|steps| - 1], cap);
      if Enabled(w, steps[|steps| - 1]) then Do(w, steps[|steps| - 1], cap) else w
  }

  // ---------------------------------------------------------------- the invariant

  /** The daemon knows exactly the first `k` contexts of the probe's table, as the probe means them. */
  ghost predicate KnowsPrefix(paths: map<nat, PathNode>, nodes: seq<PathNode>, k: nat) {
    && k <= |nodes|
    && (forall id :: id in paths <==> 1 <= id <= k)
    && (forall id :: 1 <= id <= k ==> paths[id] == nodes[id - 1])
  }

  /** And exactly the first `m` functions, by the probe's names. */
  ghost predicate KnowsFunctions(functions: map<nat, FunctionState>, names: seq<string>, m: nat) {
    && m <= |names|
    && (forall id :: id in functions <==> 1 <= id <= m)
    && (forall id :: 1 <= id <= m ==> functions[id].name == names[id - 1])
  }

  ghost predicate KnowsTypes(types: map<nat, TypeState>, names: seq<string>, n: nat) {
    && n <= |names|
    && (forall id :: id in types <==> 1 <= id <= n)
    && (forall id :: 1 <= id <= n ==> types[id].name == names[id - 1])
  }

  ghost predicate Knows(s: Store, t: Tables, known: Position) {
    && KnowsFunctions(s.functions, t.functions, known.functions)
    && KnowsTypes(s.types, t.types, known.types)
    && KnowsPrefix(s.paths, t.nodes, known.paths)
  }

  /** Contexts up to `p` call only functions up to `f`. */
  predicate FuncsWithin(nodes: seq<PathNode>, p: nat, f: nat) {
    p <= |nodes| && forall i :: 0 <= i < p ==> 1 <= nodes[i].func <= f
  }

  /** The registrations that take a reader from one position to another. */
  function Registrations(t: Tables, start: Position, stop: Position): seq<Register>
    requires Within(start, stop) && Within(stop, EndOf(t))
  {
    FunctionBlock(t.functions[..stop.functions], start.functions)
    + TypeBlock(t.types[..stop.types], start.types)
    + PathBlock(t.nodes, start.paths, stop.paths)
  }

  /** A flight carries the names between its marks, all that was drained for it, and nothing it and its predecessors do not name. */
  ghost predicate FlightTrue(fl: Flight, t: Tables) {
    && FrameOk(fl.frame) && TellsAll(fl.drained, fl.frame.events)
    && Within(fl.start, fl.stop) && Within(fl.stop, EndOf(t))
    && fl.frame.registers == Registrations(t, fl.start, fl.stop)
    && FuncsWithin(t.nodes, fl.stop.paths, fl.stop.functions)
    && (forall k :: 0 <= k < |fl.frame.events| ==>
          match fl.frame.events[k]
          case Calls(func, _, _) => 1 <= func <= fl.stop.functions
          case Stack(path, _, _) => fl.whole ==> path <= fl.stop.paths
          case Census(_, _, _, _) => true)
  }

  /** Flights follow one another without a gap, from where the reader is to the sender's marks. */
  ghost predicate Chained(q: seq<Flight>, done: Position) {
    && (q != [] ==> q[0].start == done)
    && (forall k :: 0 <= k < |q| - 1 ==> q[k + 1].start == q[k].stop)
  }

  function EndOfQueue(link: Link): Position {
    if link.queue == [] then link.done else link.queue[|link.queue| - 1].stop
  }

  predicate FunctionHeard(heard: seq<Register>, names: seq<string>, id: nat) {
    1 <= id <= |names| && RegisterFunction(id, names[id - 1]) in heard
  }

  predicate PathHeard(heard: seq<Register>, nodes: seq<PathNode>, id: nat) {
    1 <= id <= |nodes| && RegisterPath(id, nodes[id - 1]) in heard
  }

  /** Everything up to a position was named on this connection. */
  ghost predicate Heard(heard: seq<Register>, t: Tables, done: Position) {
    && (forall id :: 1 <= id <= done.functions ==> FunctionHeard(heard, t.functions, id))
    && (forall id :: 1 <= id <= done.paths ==> PathHeard(heard, t.nodes, id))
  }

  ghost predicate LinkTrue(link: Link, t: Tables, known: Position) {
    && (forall j :: 0 <= j < |link.queue| ==> FlightTrue(link.queue[j], t))
    && (!link.live ==> link.queue == [])
    && (link.live ==> Chained(link.queue, link.done) && Within(link.done, known) && Heard(link.heard, t, link.done))
  }

  ghost predicate ProbeTrue(probe: Probe.System, held: Option<Accum>, functions: nat) {
    && Probe.Formed(probe, Ids(functions)) && AllNamed(probe, Ids(functions))
    && (held.Some? ==> AccumNamed(held.value, Ids(functions), probe.table.nodes))
  }

  /** While the current connection lives, the marks are where the frames sent on it end. */
  predicate Promised(links: seq<Link>, marks: Marks) {
    marks.connected ==> links != [] && (links[|links| - 1].live ==> EndOfQueue(links[|links| - 1]) == MarkedAt(marks))
  }

  ghost predicate LinksTrue(links: seq<Link>, t: Tables, known: Position) {
    forall c :: 0 <= c < |links| ==> LinkTrue(links[c], t, known)
  }

  ghost predicate WorldTrue(w: World, known: Position) {
    && ProbeTrue(w.probe, w.held, |w.functions|)
    && Within(MarkedAt(w.marks), EndOf(TablesOf(w)))
    && StoreTrue(w.store) && Knows(w.store, TablesOf(w), known)
    && LinksTrue(w.links, TablesOf(w), known)
    && Promised(w.links, w.marks)
  }

  lemma {:induction false} StartIsTrue()
    ensures WorldTrue(START, NOWHERE)
  {
    FreshIsTrue();
    Probe.StartIsSound(Ids(0));
  }

  // ---------------------------------------------------------------- registering a flight

  lemma {:induction false} AdmitConcat(s: Store, a: seq<Register>, b: seq<Register>)
    ensures AdmitAll(s, a + b) == AdmitAll(AdmitAll(s, a), b)
  {
    if b == [] {
      assert a + b == a;
    } else {
      assert (a + b)[..|a + b| - 1] == a + b[..|b| - 1];
      AdmitConcat(s, a, b[..|b| - 1]);
    }
  }

  function MaxOf(a: nat, b: nat): nat { if a < b then b else a }

  /** Having read up to `known` on some connections, and to `stop` on another. */
  function Further(known: Position, stop: Position): Position {
    Position(MaxOf(known.functions, stop.functions), MaxOf(known.types, stop.types), MaxOf(known.paths, stop.paths))
  }

  /** What registering names the daemon knows or comes next to know does. */
  ghost predicate Learned(s: Store, s': Store, t: Tables, known: Position) {
    Knows(s', t, known) && s'.counts.unknownId == s.counts.unknownId
  }

  lemma {:induction false} FunctionsLearned(s: Store, t: Tables, from: nat, upto: nat, known: Position)
    requires from <= upto <= |t.functions| && from <= known.functions && Knows(s, t, known)
    ensures Learned(s, AdmitAll(s, FunctionBlock(t.functions[..upto], from)), t,
                    known.(functions := MaxOf(known.functions, upto)))
    decreases upto
  {
    if from < upto {
      FunctionsLearned(s, t, from, upto - 1, known);
      var block := FunctionBlock(t.functions[..upto], from);
      assert block[..|block| - 1] == FunctionBlock(t.functions[..upto - 1], from);
      assert block[|block| - 1] == RegisterFunction(upto, t.functions[upto - 1]);
    }
  }

  lemma {:induction false} TypesLearned(s: Store, t: Tables, from: nat, upto: nat, known: Position)
    requires from <= upto <= |t.types| && from <= known.types && Knows(s, t, known)
    ensures Learned(s, AdmitAll(s, TypeBlock(t.types[..upto], from)), t, known.(types := MaxOf(known.types, upto)))
    decreases upto
  {
    if from < upto {
      TypesLearned(s, t, from, upto - 1, known);
      var block := TypeBlock(t.types[..upto], from);
      assert block[..|block| - 1] == TypeBlock(t.types[..upto - 1], from);
      assert block[|block| - 1] == RegisterType(upto, t.types[upto - 1]);
    }
  }

  /** The next context is taken: its function and parent are known, and it is new or already means the same. */
  lemma {:induction false} PathLearned(s: Store, t: Tables, last: nat, known: Position)
    requires Rooted(t.nodes) && 1 <= last <= |t.nodes| && last <= known.paths + 1
    requires FuncsWithin(t.nodes, last, known.functions) && Knows(s, t, known)
    ensures Learned(s, Admit(s, RegisterPath(last, t.nodes[last - 1])), t, known.(paths := MaxOf(known.paths, last)))
  {
    var node := t.nodes[last - 1];
    assert node.parent <= last - 1 && node.func in s.functions;
    assert !RefusesPath(s, last, node);
  }

  lemma {:induction false} PathsLearned(s: Store, t: Tables, from: nat, last: nat, known: Position)
    requires Rooted(t.nodes) && from <= last <= |t.nodes| && from <= known.paths
    requires FuncsWithin(t.nodes, last, known.functions) && Knows(s, t, known)
    ensures Learned(s, AdmitAll(s, PathBlock(t.nodes, from, last)), t, known.(paths := MaxOf(known.paths, last)))
    decreases last
  {
    if last != from {
      var block := PathBlock(t.nodes, from, last);
      assert block[..|block| - 1] == PathBlock(t.nodes, from, last - 1);
      assert block[|block| - 1] == RegisterPath(last, t.nodes[last - 1]);
      PathsLearned(s, t, from, last - 1, known);
      PathLearned(AdmitAll(s, PathBlock(t.nodes, from, last - 1)), t, last, known.(paths := MaxOf(known.paths, last - 1)));
    }
  }

  lemma {:induction false} FlightLearned(s: Store, fl: Flight, t: Tables, known: Position)
    requires Rooted(t.nodes) && FlightTrue(fl, t) && Within(fl.start, known) && Knows(s, t, known)
    ensures Learned(s, Registered(s, fl.frame), t, Further(known, fl.stop))
  {
    var a := FunctionBlock(t.functions[..fl.stop.functions], fl.start.functions);
    var b := TypeBlock(t.types[..fl.stop.types], fl.start.types);
    var c := PathBlock(t.nodes, fl.start.paths, fl.stop.paths);
    var s0 := OneFrame(s);
    AdmitConcat(s0, a + b, c);
    AdmitConcat(s0, a, b);
    var known1 := known.(functions := MaxOf(known.functions, fl.stop.functions));
    var known2 := known1.(types := MaxOf(known.types, fl.stop.types));
    FunctionsLearned(s0, t, fl.start.functions, fl.stop.functions, known);
    TypesLearned(AdmitAll(s0, a), t, fl.start.types, fl.stop.types, known1);
    PathsLearned(AdmitAll(AdmitAll(s0, a), b), t, fl.start.paths, fl.stop.paths, known2);
  }
}
