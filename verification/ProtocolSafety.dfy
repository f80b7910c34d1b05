/** What holds of the probe and the daemon together after any steps at all. */
module ProtocolSafety {
  import opened Basics
  import opened PathRegistry
  import opened Calls
  import opened Ledger
  import opened StoreModel
  import opened StoreInvariant
  import opened Emitters
  import opened RecordedNames
  import opened Protocol
  import Probe = ProbeRuns

  lemma {:induction false} FlightGrows(fl: Flight, t: Tables, t': Tables)
    requires FlightTrue(fl, t) && TablesGrew(t, t')
    ensures FlightTrue(fl, t')
  {
    assert t'.functions[..fl.stop.functions] == t.functions[..fl.stop.functions];
    assert t'.types[..fl.stop.types] == t.types[..fl.stop.types];
    assert PathBlock(t'.nodes, fl.start.paths, fl.stop.paths) == PathBlock(t.nodes, fl.start.paths, fl.stop.paths);
    assert forall i :: 0 <= i < fl.stop.paths ==> t'.nodes[i] == t.nodes[i];
  }

  lemma {:induction false} HeardGrows(heard: seq<Register>, t: Tables, t': Tables, done: Position)
    requires Heard(heard, t, done) && TablesGrew(t, t')
    ensures Heard(heard, t', done)
  {
    forall id | 1 <= id <= done.functions
      ensures FunctionHeard(heard, t'.functions, id)
    {
      assert FunctionHeard(heard, t.functions, id);
    }
    forall id | 1 <= id <= done.paths
      ensures PathHeard(heard, t'.nodes, id)
    {
      assert PathHeard(heard, t.nodes, id);
    }
  }

  lemma {:induction false} LinkGrows(link: Link, t: Tables, known: Position, t': Tables, known': Position)
    requires LinkTrue(link, t, known) && TablesGrew(t, t') && Within(known, known')
    ensures LinkTrue(link, t', known')
  {
    forall j | 0 <= j < |link.queue|
      ensures FlightTrue(link.queue[j], t')
    {
      FlightGrows(link.queue[j], t, t');
    }
    if link.live { HeardGrows(link.heard, t, t', link.done); }
  }

  lemma {:induction false} LinksGrow(links: seq<Link>, t: Tables, known: Position, t': Tables, known': Position)
    requires LinksTrue(links, t, known) && TablesGrew(t, t') && Within(known, known')
    ensures LinksTrue(links, t', known')
  {
    forall c | 0 <= c < |links|
      ensures LinkTrue(links[c], t', known')
    {
      LinkGrows(links[c], t, known, t', known');
    }
  }

  lemma {:induction false} KnowsGrows(s: Store, t: Tables, known: Position, t': Tables)
    requires Knows(s, t, known) && TablesGrew(t, t')
    ensures Knows(s, t', known)
  {
    assert forall i :: 0 <= i < known.functions ==> t'.functions[i] == t.functions[i];
    assert forall i :: 0 <= i < known.types ==> t'.types[i] == t.types[i];
    assert forall i :: 0 <= i < known.paths ==> t'.nodes[i] == t.nodes[i];
  }

  lemma {:induction false} TrueIsReady(w: World, known: Position)
    requires Within(MarkedAt(w.marks), EndOf(TablesOf(w))) && LinksTrue(w.links, TablesOf(w), known)
    ensures Ready(w)
  {
    forall c | 0 <= c < |w.links|
      ensures forall j :: 0 <= j < |w.links[c].queue| ==> FrameOk(w.links[c].queue[j].frame)
    {
      assert LinkTrue(w.links[c], TablesOf(w), known);
      assert forall j :: 0 <= j < |w.links[c].queue| ==> FlightTrue(w.links[c].queue[j], TablesOf(w));
    }
  }

  // ---------------------------------------------------------------- the probe's own steps

  lemma {:induction false} IdsGrow(m: nat, n: nat)
    requires m <= n
    ensures Ids(m) <= Ids(n)
  {
    forall f | f in Ids(m)
      ensures f in Ids(n)
    {
      assert IsId(f, n);
    }
  }

  /** More functions may be named; nothing recorded or interned is less known for it. */
  lemma {:induction false} NamingKeepsProbe(probe: Probe.System, held: Option<Accum>, m: nat, n: nat)
    requires ProbeTrue(probe, held, m) && m <= n
    ensures ProbeTrue(probe, held, n)
  {
    IdsGrow(m, n);
    NamedAmongMore(probe, Ids(m), Ids(n));
    FormedAmongMore(probe, Ids(m), Ids(n));
  }

  lemma {:induction false} FormedAmongMore(probe: Probe.System, funcs: set<nat>, more: set<nat>)
    requires Probe.Formed(probe, funcs) && funcs <= more
    ensures Probe.Formed(probe, more)
  {
  }

  lemma {:induction false} NamedAmongMore(probe: Probe.System, funcs: set<nat>, more: set<nat>)
    requires AllNamed(probe, funcs) && funcs <= more
    ensures AllNamed(probe, more)
  {
    forall tid | tid in probe.lanes
      ensures LaneNamed(probe.lanes[tid], more, probe.table.nodes)
    {
      LaneNamedGrows(probe.lanes[tid], funcs, probe.table.nodes, more, probe.table.nodes);
    }
  }

  lemma {:induction false} ThreadKeepsProbe(probe: Probe.System, step: Probe.Step, held: Option<Accum>, functions: nat, cap: nat)
    requires ProbeTrue(probe, held, functions) && Probe.Legal(probe, step, Ids(functions))
    ensures ProbeTrue(Probe.Next(probe, step, cap), held, functions)
    ensures probe.table.nodes <= Probe.Next(probe, step, cap).table.nodes
  {
    Probe.NextKeepsFormed(probe, step, cap, Ids(functions));
    NextKeepsNamed(probe, step, cap, Ids(functions));
    if held.Some? {
      NamedGrows(held.value, Ids(functions), probe.table.nodes, Ids(functions), Probe.Next(probe, step, cap).table.nodes);
    }
  }

  lemma {:induction false} CollectKeepsProbe(probe: Probe.System, functions: nat)
    requires ProbeTrue(probe, None, functions)
    ensures ProbeTrue(probe.(taken := NOTHING), Some(probe.taken), functions)
  {
  }

  /** Of a true probe, contexts call known functions and hang together. */
  lemma {:induction false} ProbeTables(probe: Probe.System, held: Option<Accum>, functions: nat)
    requires ProbeTrue(probe, held, functions)
    ensures Rooted(probe.table.nodes) && FuncsWithin(probe.table.nodes, |probe.table.nodes|, functions)
  {
    forall i | 0 <= i < |probe.table.nodes|
      ensures 1 <= probe.table.nodes[i].func <= functions
    {
      assert probe.table.nodes[i].func in Ids(functions);
    }
  }

  /** The tables grew, and nothing else the connections or the daemon depend on moved. */
  lemma {:induction false} TablesGrowKeepsTrue(w: World, w': World, known: Position)
    requires WorldTrue(w, known) && ProbeTrue(w'.probe, w'.held, |w'.functions|)
    requires TablesGrew(TablesOf(w), TablesOf(w'))
    requires w'.marks == w.marks && w'.links == w.links && w'.store == w.store
    ensures WorldTrue(w', known)
  {
    KnowsGrows(w.store, TablesOf(w), known, TablesOf(w'));
    LinksGrow(w.links, TablesOf(w), known, TablesOf(w'), known);
  }

  lemma {:induction false} NamingKeepsTrue(w: World, step: Step, cap: nat, known: Position)
    requires WorldTrue(w, known) && Enabled(w, step) && (step.InternFunction? || step.InternType?)
    ensures WorldTrue(Do(w, step, cap), known)
  {
    var w' := Do(w, step, cap);
    NamingKeepsProbe(w.probe, w.held, |w.functions|, |w'.functions|);
    TablesGrowKeepsTrue(w, w', known);
  }

  lemma {:induction false} ThreadKeepsTrue(w: World, step: Probe.Step, cap: nat, known: Position)
    requires WorldTrue(w, known) && Enabled(w, Mutate(step))
    ensures WorldTrue(Do(w, Mutate(step), cap), known)
  {
    ThreadKeepsProbe(w.probe, step, w.held, |w.functions|, cap);
    TablesGrowKeepsTrue(w, Do(w, Mutate(step), cap), known);
  }

  lemma {:induction false} CollectKeepsTrue(w: World, step: Step, cap: nat, known: Position)
    requires WorldTrue(w, known) && Enabled(w, step) && (step.Collect? || step.GiveUp?)
    ensures WorldTrue(Do(w, step, cap), known)
  {
    if step.Collect? { CollectKeepsProbe(w.probe, |w.functions|); }
    TablesGrowKeepsTrue(w, Do(w, step, cap), known);
  }

  // ---------------------------------------------------------------- the emitter's steps

  lemma {:induction false} GreetKeepsLinks(links: seq<Link>, t: Tables, known: Position)
    requires LinksTrue(links, t, known)
    ensures LinksTrue(links + [NEW_LINK], t, known)
  {
    assert LinkTrue(NEW_LINK, t, known);
    forall c | 0 <= c < |links + [NEW_LINK]|
      ensures LinkTrue((links + [NEW_LINK])[c], t, known)
    {
      if c < |links| { assert (links + [NEW_LINK])[c] == links[c]; }
    }
  }

  lemma {:induction false} GreetKeepsTrue(w: World, cap: nat, known: Position)
    requires WorldTrue(w, known) && Enabled(w, Greet)
    ensures WorldTrue(Do(w, Greet, cap), known)
  {
    GreetKeepsLinks(w.links, TablesOf(w), known);
  }

  /** A frame built now names what lies between the marks and the tables' ends, and its events are within it. */
  lemma {:induction false} FlightNowTrue(t: Tables, marks: Marks, at: nat, events: seq<Event>, taken: Accum)
    requires Within(MarkedAt(marks), EndOf(t)) && FuncsWithin(t.nodes, |t.nodes|, |t.functions|)
    requires AccumNamed(taken, Ids(|t.functions|), t.nodes) && TellsAll(taken, events)
    requires forall j :: 0 <= j < |events| ==> EventOk(events[j])
    ensures FlightTrue(FlightNow(t, marks, at, events, taken), t)
  {
    var fl := FlightNow(t, marks, at, events, taken);
    assert t.functions[..fl.stop.functions] == t.functions && t.types[..fl.stop.types] == t.types;
    forall j | 0 <= j < |events|
      ensures match events[j]
              case Calls(func, _, _) => 1 <= func <= fl.stop.functions
              case Stack(path, _, _) => fl.whole ==> path <= fl.stop.paths
              case Census(_, _, _, _) => true
    {
      assert Figures(taken, events[j]);
      if events[j].Calls? { assert events[j].func in Ids(|t.functions|); }
    }
  }

  lemma {:induction false} QueueGrows(link: Link, fl: Flight, t: Tables, known: Position)
    requires LinkTrue(link, t, known) && link.live && FlightTrue(fl, t) && fl.start == EndOfQueue(link)
    ensures LinkTrue(Sending(link, fl), t, known) && EndOfQueue(Sending(link, fl)) == fl.stop
  {
    var q := link.queue + [fl];
    forall j | 0 <= j < |q|
      ensures FlightTrue(q[j], t)
    {
      if j < |link.queue| { assert q[j] == link.queue[j]; }
    }
    ChainGrows(link.queue, fl, link.done);
  }

  lemma {:induction false} ChainGrows(q: seq<Flight>, fl: Flight, done: Position)
    requires Chained(q, done) && fl.start == (if q == [] then done else q[|q| - 1].stop)
    ensures Chained(q + [fl], done)
  {
  }

  lemma {:induction false} StoredLink(links: seq<Link>, c: nat, link: Link, t: Tables, known: Position)
    requires LinksTrue(links, t, known) && c < |links| && LinkTrue(link, t, known)
    ensures LinksTrue(links[c := link], t, known)
  {
  }

  lemma {:induction false} SendKeepsTrue(w: World, t: nat, events: seq<Event>, taken: bool, delivered: bool, cap: nat, known: Position)
    requires WorldTrue(w, known) && Enabled(w, SendFrame(t, events, taken, delivered))
    ensures WorldTrue(Do(w, SendFrame(t, events, taken, delivered), cap), known)
  {
    var c, fl := CurrentLink(w), FlightNow(TablesOf(w), w.marks, t, events, w.held.value);
    ProbeTables(w.probe, w.held, |w.functions|);
    FlightNowTrue(TablesOf(w), w.marks, t, events, w.held.value);
    if delivered {
      QueueGrows(w.links[c], fl, TablesOf(w), known);
      StoredLink(w.links, c, Sending(w.links[c], fl), TablesOf(w), known);
    }
  }

  // ---------------------------------------------------------------- the daemon's steps

  lemma {:induction false} KnowsSame(s: Store, s': Store, t: Tables, known: Position)
    requires Knows(s, t, known) && SameNames(s, s')
    ensures Knows(s', t, known)
  {
  }

  /** What the daemon has learned once it has read a flight. */
  lemma {:induction false} FlightApplied(s: Store, fl: Flight, t: Tables, known: Position)
    requires Rooted(t.nodes) && FlightTrue(fl, t) && Within(fl.start, known) && StoreTrue(s) && Knows(s, t, known)
    ensures Knows(ApplyFrame(s, fl.frame), t, Further(known, fl.stop))
  {
    FlightLearned(s, fl, t, known);
    FrameNames(s, fl.frame);
    KnowsSame(Registered(s, fl.frame), ApplyFrame(s, fl.frame), t, Further(known, fl.stop));
  }

  /** The names of a stretch are all in its registrations. */
  lemma {:induction false} StretchHeard(t: Tables, start: Position, stop: Position)
    requires Within(start, stop) && Within(stop, EndOf(t))
    ensures forall id :: start.functions < id <= stop.functions ==> FunctionHeard(Registrations(t, start, stop), t.functions, id)
    ensures forall id :: start.paths < id <= stop.paths ==> PathHeard(Registrations(t, start, stop), t.nodes, id)
  {
    var a := FunctionBlock(t.functions[..stop.functions], start.functions);
    var b := TypeBlock(t.types[..stop.types], start.types);
    var c := PathBlock(t.nodes, start.paths, stop.paths);
    assert Registrations(t, start, stop) == a + b + c;
    forall id | start.functions < id <= stop.functions
      ensures FunctionHeard(a, t.functions, id)
    {
      assert a[id - 1 - start.functions] == RegisterFunction(id, t.functions[id - 1]);
    }
    forall id | start.paths < id <= stop.paths
      ensures PathHeard(c, t.nodes, id)
    {
      assert c[id - 1 - start.paths] == RegisterPath(id, t.nodes[id - 1]);
    }
    forall id | start.functions < id <= stop.functions
      ensures FunctionHeard(Registrations(t, start, stop), t.functions, id)
    {
      assert FunctionHeard(a, t.functions, id);
    }
    forall id | start.paths < id <= stop.paths
      ensures PathHeard(Registrations(t, start, stop), t.nodes, id)
    {
      assert PathHeard(c, t.nodes, id);
    }
  }

  lemma {:induction false} HeardFurther(heard: seq<Register>, fl: Flight, t: Tables)
    requires FlightTrue(fl, t) && Heard(heard, t, fl.start)
    ensures Heard(heard + fl.frame.registers, t, fl.stop)
  {
    StretchHeard(t, fl.start, fl.stop);
    forall id | 1 <= id <= fl.stop.functions
      ensures FunctionHeard(heard + fl.frame.registers, t.functions, id)
    {
      if id <= fl.start.functions {
        assert FunctionHeard(heard, t.functions, id);
      } else {
        assert FunctionHeard(fl.frame.registers, t.functions, id);
      }
    }
    forall id | 1 <= id <= fl.stop.paths
      ensures PathHeard(heard + fl.frame.registers, t.nodes, id)
    {
      if id <= fl.start.paths {
        assert PathHeard(heard, t.nodes, id);
      } else {
        assert PathHeard(fl.frame.registers, t.nodes, id);
      }
    }
  }

  lemma {:induction false} HeadRead(link: Link, t: Tables, known: Position)
    requires LinkTrue(link, t, known) && link.queue != []
    ensures link.live && link.queue[0].start == link.done && Within(link.done, known)
    ensures LinkTrue(Read(link), t, Further(known, link.queue[0].stop)) && EndOfQueue(Read(link)) == EndOfQueue(link)
  {
    HeardFurther(link.heard, link.queue[0], t);
    ChainRead(link.queue, link.done);
  }

  lemma {:induction false} ChainRead(q: seq<Flight>, done: Position)
    requires Chained(q, done) && q != []
    ensures Chained(q[1..], q[0].stop)
  {
  }

  lemma {:induction false} LinksRead(links: seq<Link>, c: nat, t: Tables, known: Position)
    requires c < |links| && links[c].queue != [] && LinksTrue(links, t, known)
    ensures LinksTrue(links[c := Read(links[c])], t, Further(known, links[c].queue[0].stop))
  {
    HeadRead(links[c], t, known);
    LinksGrow(links, t, known, t, Further(known, links[c].queue[0].stop));
  }

  /** Reading from a connection does not move what its sender has promised on it. */
  lemma {:induction false} ReadKeepsPromise(links: seq<Link>, c: nat, marks: Marks, t: Tables, known: Position)
    requires c < |links| && links[c].queue != [] && LinksTrue(links, t, known) && Promised(links, marks)
    ensures Promised(links[c := Read(links[c])], marks)
  {
    HeadRead(links[c], t, known);
  }

  /** Nothing moved but the daemon and the connections. */
  lemma {:induction false} DaemonMoves(w: World, w': World, known: Position, known': Position)
    requires WorldTrue(w, known) && w' == w.(store := w'.store, links := w'.links)
    requires StoreTrue(w'.store) && Knows(w'.store, TablesOf(w), known')
    requires LinksTrue(w'.links, TablesOf(w), known') && Promised(w'.links, w.marks)
    ensures WorldTrue(w', known')
  {
  }

  lemma {:induction false} DeliverKeepsTrue(w: World, c: nat, cap: nat, known: Position)
    requires WorldTrue(w, known) && Enabled(w, Deliver(c))
    ensures WorldTrue(Do(w, Deliver(c), cap), Further(known, w.links[c].queue[0].stop))
  {
    ProbeTables(w.probe, w.held, |w.functions|);
    HeadRead(w.links[c], TablesOf(w), known);
    FlightApplied(w.store, w.links[c].queue[0], TablesOf(w), known);
    FrameKeepsTrue(w.store, w.links[c].queue[0].frame);
    LinksRead(w.links, c, TablesOf(w), known);
    ReadKeepsPromise(w.links, c, w.marks, TablesOf(w), known);
    DaemonMoves(w, Do(w, Deliver(c), cap), known, Further(known, w.links[c].queue[0].stop));
  }

  lemma {:induction false} DeadLinks(links: seq<Link>, c: nat, t: Tables, known: Position)
    requires LinksTrue(links, t, known) && c < |links|
    ensures LinksTrue(links[c := Dead(links[c])], t, known)
  {
    assert LinkTrue(Dead(links[c]), t, known);
    StoredLink(links, c, Dead(links[c]), t, known);
  }

  lemma {:induction false} DeadKeepsPromise(links: seq<Link>, c: nat, marks: Marks)
    requires c < |links| && Promised(links, marks)
    ensures Promised(links[c := Dead(links[c])], marks)
  {
    assert forall d :: 0 <= d < |links| && d != c ==> links[c := Dead(links[c])][d] == links[d];
  }

  lemma {:induction false} AllDeadTrue(links: seq<Link>, t: Tables)
    ensures LinksTrue(AllDead(links), t, NOWHERE) && Knows(FRESH, t, NOWHERE)
    ensures |AllDead(links)| == |links| && forall d :: 0 <= d < |links| ==> !AllDead(links)[d].live
  {
    forall d | 0 <= d < |links|
      ensures LinkTrue(AllDead(links)[d], t, NOWHERE)
    {
      assert LinkTrue(Dead(links[d]), t, NOWHERE);
    }
  }

  lemma {:induction false} DropKeepsTrue(w: World, c: nat, cap: nat, known: Position)
    requires WorldTrue(w, known) && Enabled(w, DropLink(c))
    ensures WorldTrue(Do(w, DropLink(c), cap), known)
  {
    DeadLinks(w.links, c, TablesOf(w), known);
    DeadKeepsPromise(w.links, c, w.marks);
    DaemonMoves(w, Do(w, DropLink(c), cap), known, known);
  }

  lemma {:induction false} FlushKeeps(w: World, cap: nat, known: Position)
    requires WorldTrue(w, known) && Enabled(w, LastDisconnect)
    ensures WorldTrue(Do(w, LastDisconnect, cap), known)
  {
    RingsAside(w.store, Flush(w.store));
    DaemonMoves(w, Do(w, LastDisconnect, cap), known, known);
  }

  /** A restarted daemon knows nothing, and no old connection reaches it. */
  lemma {:induction false} RestartKeepsTrue(w: World, cap: nat, known: Position)
    requires WorldTrue(w, known) && Enabled(w, Restart)
    ensures WorldTrue(Do(w, Restart, cap), NOWHERE)
  {
    FreshIsTrue();
    AllDeadTrue(w.links, TablesOf(w));
    DaemonMoves(w, Do(w, Restart, cap), known, NOWHERE);
  }

  lemma {:induction false} ProbeKeepsTrue(w: World, step: Step, cap: nat, known: Position)
    requires WorldTrue(w, known) && Enabled(w, step)
    requires !step.Deliver? && !step.DropLink? && !step.LastDisconnect? && !step.Restart?
    ensures WorldTrue(Do(w, step, cap), known)
  {
    match step
    case InternFunction(_) => NamingKeepsTrue(w, step, cap, known);
    case InternType(_) => NamingKeepsTrue(w, step, cap, known);
    case Mutate(inner) => ThreadKeepsTrue(w, inner, cap, known);
    case Collect => CollectKeepsTrue(w, step, cap, known);
    case GiveUp => CollectKeepsTrue(w, step, cap, known);
    case Greet => GreetKeepsTrue(w, cap, known);
    case SendFrame(t, events, taken, delivered) => SendKeepsTrue(w, t, events, taken, delivered, cap, known);
  }

  /** What the daemon knows of the probe's tables after a step, given what it knew. */
  function KnownAfter(w: World, step: Step, known: Position): Position {
    if step.Deliver? && step.link < |w.links| && w.links[step.link].queue != []
    then Further(known, w.links[step.link].queue[0].stop)
    else if step.Restart? then NOWHERE
    else known
  }

  lemma {:induction false} DaemonKeepsTrue(w: World, step: Step, cap: nat, known: Position)
    requires WorldTrue(w, known) && Enabled(w, step)
    requires step.Deliver? || step.DropLink? || step.LastDisconnect? || step.Restart?
    ensures WorldTrue(Do(w, step, cap), KnownAfter(w, step, known))
  {
    match step
    case Deliver(c) => DeliverKeepsTrue(w, c, cap, known);
    case DropLink(c) => DropKeepsTrue(w, c, cap, known);
    case LastDisconnect => FlushKeeps(w, cap, known);
    case Restart => RestartKeepsTrue(w, cap, known);
  }

  /** Every step of the probe's threads, the emitter, the network and the daemon keeps the joint invariant. */
  lemma {:induction false} StepKeepsTrue(w: World, step: Step, cap: nat, known: Position)
    requires WorldTrue(w, known) && Enabled(w, step)
    ensures WorldTrue(Do(w, step, cap), KnownAfter(w, step, known))
  {
    if step.Deliver? || step.DropLink? || step.LastDisconnect? || step.Restart? {
      DaemonKeepsTrue(w, step, cap, known);
    } else {
      ProbeKeepsTrue(w, step, cap, known);
    }
  }

  lemma {:induction false} RunKeepsWorld(steps: seq<Step>, cap: nat) returns (known: Position)
    ensures WorldTrue(Play(steps, cap), known) && Ready(Play(steps, cap))
  {
    if steps == [] {
      StartIsTrue();
      known := NOWHERE;
    } else {
      known := RunKeepsWorld(steps[..|steps| - 1], cap);
      var w, step := Play(steps[..|steps| - 1], cap), steps[|steps| - 1];
      if Enabled(w, step) {
        StepKeepsTrue(w, step, cap, known);
        known := KnownAfter(w, step, known);
      }
    }
    TrueIsReady(Play(steps, cap), known);
  }

  // ---------------------------------------------------------------- end to end

  /** The daemon's names are always a prefix of the probe's, each meaning what the probe meant. */
  lemma {:induction false} DaemonKnowsAPrefix(steps: seq<Step>, cap: nat) returns (known: Position)
    ensures Knows(Play(steps, cap).store, TablesOf(Play(steps, cap)), known)
  {
    known := RunKeepsWorld(steps, cap);
  }

  /**
    The protocol end to end. After any interleaving of interning, calls opening
    and closing on any threads, drains, ticks, failed or half-failed sends,
    reconnections, dropped connections and daemon restarts, a frame the daemon
    reads has no registration refused. Every call event in it is believed, its
    function named by this frame or earlier on this very connection. A context
    event is believed exactly when the context is among those the daemon knows
    by then; unless the ceiling cut the frame's contexts short, every context it
    mentions but the root was named by this frame or earlier on this connection.
   */
  lemma {:induction false} NothingNamedIsRefused(steps: seq<Step>, cap: nat, c: nat) returns (known: Position)
    requires Enabled(Play(steps, cap), Deliver(c))
    ensures var w := Play(steps, cap);
            var link, fl := w.links[c], w.links[c].queue[0];
            var named, told := Registered(w.store, fl.frame), link.heard + fl.frame.registers;
            && named.counts.unknownId == w.store.counts.unknownId
            && Knows(named, TablesOf(w), known) && Within(fl.stop, known)
            && forall j :: 0 <= j < |fl.frame.events| ==>
                 var e := fl.frame.events[j];
                 match e
                 case Calls(func, _, _) => Accept(named, e, fl.frame.t).Some? && FunctionHeard(told, w.functions, func)
                 case Stack(path, _, _) =>
                   && (Accept(named, e, fl.frame.t).Some? <==> 1 <= path <= known.paths)
                   && (fl.whole && path != 0 ==> path <= known.paths && PathHeard(told, w.probe.table.nodes, path))
                 case Census(_, _, _, _) => true
  {
    var w := Play(steps, cap);
    var before := RunKeepsWorld(steps, cap);
    var fl := w.links[c].queue[0];
    known := Further(before, fl.stop);
    ProbeTables(w.probe, w.held, |w.functions|);
    HeadRead(w.links[c], TablesOf(w), before);
    FlightLearned(w.store, fl, TablesOf(w), before);
    HeardFurther(w.links[c].heard, fl, TablesOf(w));
    EventsBelieved(fl, Registered(w.store, fl.frame), w.links[c].heard + fl.frame.registers, TablesOf(w), known);
  }

  lemma {:induction false} EventsBelieved(fl: Flight, named: Store, told: seq<Register>, t: Tables, known: Position)
    requires FlightTrue(fl, t) && Knows(named, t, known) && Within(fl.stop, known) && Heard(told, t, fl.stop)
    ensures forall j :: 0 <= j < |fl.frame.events| ==>
              var e := fl.frame.events[j];
              match e
              case Calls(func, _, _) => Accept(named, e, fl.frame.t).Some? && FunctionHeard(told, t.functions, func)
              case Stack(path, _, _) =>
                && (Accept(named, e, fl.frame.t).Some? <==> 1 <= path <= known.paths)
                && (fl.whole && path != 0 ==> path <= known.paths && PathHeard(told, t.nodes, path))
              case Census(_, _, _, _) => true
  {
  }
}
