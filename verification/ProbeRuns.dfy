/**
  Any number of threads entering and leaving measured functions while the emit
  thread drains them. A thread touches shared state at most once per step: the
  table's lock region when it enters, its own accumulator's when it leaves.
 */
module ProbeRuns {
  import opened Words
  import opened Sums
  import opened PathRegistry
  import opened Calls
  import opened ContextBound
  import opened ChainCount
  import opened SelfTime

  /** What one closing activation records under its context: self time, and a call if it counts there. */
  datatype Charge = Charge(path: nat, selfNs: nat, func: nat, counts: bool)

  function ChargeOf(a: Activation, now: nat): Charge {
    Charge(a.path, SelfNs(a, now), a.func, a.countsHere)
  }

  /** A thread, the time of its closed outermost calls, and everything it ever recorded. */
  datatype Lane = Lane(thread: Thread, bottomNs: nat, charges: seq<Charge>)

  const NEW_LANE: Lane := Lane(NEW_THREAD, 0, [])

  /** `taken` is what drains have collected so far. */
  datatype System = System(table: Table, lanes: map<nat, Lane>, taken: Accum, clock: nat)

  const START: System := System(EMPTY_TABLE, map[], NOTHING, 0)

  datatype Step =
    | Enter(tid: nat, func: nat, now: nat)
    | Leave(tid: nat, now: nat)
    | Drain(tid: nat)

  function LaneOf(sys: System, tid: nat): Lane {
    if tid in sys.lanes then sys.lanes[tid] else NEW_LANE
  }

  function Left(lane: Lane, now: nat): Lane {
    var stack := lane.thread.stack;
    if stack == [] then lane
    else
      var a := stack[|stack| - 1];
      Lane(
        Close(lane.thread, now),
        lane.bottomNs + (if |stack| == 1 then Elapsed(a, now) else 0),
        lane.charges + [ChargeOf(a, now)])
  }

  function Next(sys: System, step: Step, cap: nat): System {
    var lane := LaneOf(sys, step.tid);
    match step
    case Enter(tid, func, now) =>
      var (thread, table) := Open(lane.thread, sys.table, func, now, cap);
      sys.(table := table, lanes := sys.lanes[tid := lane.(thread := thread)], clock := now)
    case Leave(tid, now) =>
      sys.(lanes := sys.lanes[tid := Left(lane, now)], clock := now)
    case Drain(tid) =>
      sys.(taken := AbsorbAccum(sys.taken, lane.thread.accum),
           lanes := sys.lanes[tid := lane.(thread := lane.thread.(accum := NOTHING))])
  }

  /** The clock never goes back and the run ends before it overflows; only known functions are entered. */
  predicate Legal(sys: System, step: Step, funcs: set<nat>) {
    match step
    case Enter(_, func, now) => sys.clock <= now < U64_LIMIT && func in funcs
    case Leave(_, now) => sys.clock <= now < U64_LIMIT
    case Drain(_) => true
  }

  function Play(sys: System, steps: seq<Step>, cap: nat): System {
    if steps == [] then sys else Next(Play(sys, steps[..|steps| - 1], cap), steps[|steps| - 1], cap)
  }

  predicate LegalRun(sys: System, steps: seq<Step>, cap: nat, funcs: set<nat>) {
    steps != [] ==>
      var front := steps[..|steps| - 1];
      LegalRun(sys, front, cap, funcs) && Legal(Play(sys, front, cap), steps[|steps| - 1], funcs)
  }

  // ---------------------------------------------------------------- the invariant

  ghost function RecordedNs(lane: Lane): nat { StackTotal(lane.thread.accum.stacks) }

  ghost function SpentNs(lane: Lane): nat { lane.bottomNs + OpenChildNs(lane.thread.stack) }

  /** All self time recorded anywhere: drained already, or waiting in some thread's accumulator. */
  ghost function TotalRecorded(sys: System): nat {
    StackTotal(sys.taken.stacks) + MapSum(sys.lanes, RecordedNs)
  }

  /** Elapsed time of closed outermost calls, and what open activations have been charged so far. */
  ghost function TotalSpent(sys: System): nat {
    MapSum(sys.lanes, SpentNs)
  }

  ghost predicate LaneSound(lane: Lane, nodes: seq<PathNode>, clock: nat) {
    Structured(lane.thread, nodes) && Timed(lane.thread.stack, clock)
  }

  predicate FuncsKnown(nodes: seq<PathNode>, funcs: set<nat>) {
    forall i :: 0 <= i < |nodes| ==> nodes[i].func in funcs
  }

  /** The table and every thread's view of it are consistent, whatever has been recorded. */
  ghost predicate Formed(sys: System, funcs: set<nat>) {
    && sys.clock < U64_LIMIT
    && WellFormed(sys.table) && AllTidy(sys.table.nodes) && FuncsKnown(sys.table.nodes, funcs)
    && (forall tid :: tid in sys.lanes ==> LaneSound(sys.lanes[tid], sys.table.nodes, sys.clock))
  }

  ghost predicate Sound(sys: System, funcs: set<nat>) {
    Formed(sys, funcs) && TotalRecorded(sys) == TotalSpent(sys)
  }

  lemma {:induction false} NewLaneSound(nodes: seq<PathNode>, clock: nat)
    requires Rooted(nodes) && clock < U64_LIMIT
    ensures LaneSound(NEW_LANE, nodes, clock)
    ensures RecordedNs(NEW_LANE) == SpentNs(NEW_LANE) == 0
  {
  }

  lemma {:induction false} StartIsSound(funcs: set<nat>)
    ensures Sound(START, funcs)
  {
  }

  /** The other threads' lanes are as sound in the grown table at the later time. */
  lemma {:induction false} OthersStaySound(sys: System, nodes: seq<PathNode>, now: nat, tid: nat, lane: Lane, lanes: map<nat, Lane>)
    requires forall t :: t in sys.lanes ==> LaneSound(sys.lanes[t], sys.table.nodes, sys.clock)
    requires Rooted(nodes) && sys.table.nodes <= nodes && sys.clock <= now < U64_LIMIT
    requires LaneSound(lane, nodes, now) && lanes == sys.lanes[tid := lane]
    ensures forall t :: t in lanes ==> LaneSound(lanes[t], nodes, now)
  {
    forall t | t in sys.lanes
      ensures LaneSound(sys.lanes[t], nodes, now)
    {
      StructuredGrows(sys.lanes[t].thread, sys.table.nodes, nodes);
      TimedAdvances(sys.lanes[t].thread.stack, sys.clock, now);
    }
  }

  lemma {:induction false} LaneOfIsSound(sys: System, tid: nat, funcs: set<nat>)
    requires Formed(sys, funcs)
    ensures LaneSound(LaneOf(sys, tid), sys.table.nodes, sys.clock)
  {
    NewLaneSound(sys.table.nodes, sys.clock);
  }

  /** Storing a lane moves the totals by that lane's change alone. */
  lemma {:induction false} StoreLane(sys: System, tid: nat, lane: Lane)
    ensures var lanes := sys.lanes[tid := lane];
            && MapSum(lanes, RecordedNs) + RecordedNs(LaneOf(sys, tid)) == MapSum(sys.lanes, RecordedNs) + RecordedNs(lane)
            && MapSum(lanes, SpentNs) + SpentNs(LaneOf(sys, tid)) == MapSum(sys.lanes, SpentNs) + SpentNs(lane)
  {
    MapSumStore(sys.lanes, tid, lane, RecordedNs);
    MapSumStore(sys.lanes, tid, lane, SpentNs);
    if tid in sys.lanes {
      assert WeightAt(sys.lanes, RecordedNs)(tid) == RecordedNs(sys.lanes[tid]);
      assert WeightAt(sys.lanes, SpentNs)(tid) == SpentNs(sys.lanes[tid]);
    }
  }

  lemma {:induction false} EnterKeepsFormed(sys: System, tid: nat, func: nat, now: nat, cap: nat, funcs: set<nat>)
    requires Formed(sys, funcs) && Legal(sys, Enter(tid, func, now), funcs)
    ensures Formed(Next(sys, Enter(tid, func, now), cap), funcs)
    ensures Grown(sys.table, Next(sys, Enter(tid, func, now), cap).table)
  {
    var lane := LaneOf(sys, tid);
    var (thread, table) := Open(lane.thread, sys.table, func, now, cap);
    var lane' := lane.(thread := thread);
    LaneOfIsSound(sys, tid, funcs);
    OpenKeepsTidy(lane.thread, sys.table, func, now, cap);
    OpenKeepsStructured(lane.thread, sys.table, func, now, cap);
    OpenKeepsFuncs(lane.thread, sys.table, func, now, cap, funcs);
    OpenKeepsTimed(lane.thread.stack, sys.clock, thread.stack[|lane.thread.stack|]);
    OthersStaySound(sys, table.nodes, now, tid, lane', sys.lanes[tid := lane']);
  }

  lemma {:induction false} EnterBalances(sys: System, tid: nat, func: nat, now: nat, cap: nat)
    ensures var sys' := Next(sys, Enter(tid, func, now), cap);
            TotalRecorded(sys') + TotalSpent(sys) == TotalRecorded(sys) + TotalSpent(sys')
  {
    var lane := LaneOf(sys, tid);
    var thread := Open(lane.thread, sys.table, func, now, cap).0;
    assert thread.stack[..|lane.thread.stack|] == lane.thread.stack;
    StoreLane(sys, tid, lane.(thread := thread));
  }

  lemma {:induction false} OpenKeepsFuncs(th: Thread, table: Table, func: nat, now: nat, cap: nat, funcs: set<nat>)
    requires FuncsKnown(table.nodes, funcs) && func in funcs
    ensures FuncsKnown(Open(th, table, func, now, cap).1.nodes, funcs)
  {
  }

  lemma {:induction false} LeaveKeepsFormed(sys: System, tid: nat, now: nat, cap: nat, funcs: set<nat>)
    requires Formed(sys, funcs) && Legal(sys, Leave(tid, now), funcs)
    ensures Formed(Next(sys, Leave(tid, now), cap), funcs)
  {
    var lane := LaneOf(sys, tid);
    var lane' := Left(lane, now);
    LaneOfIsSound(sys, tid, funcs);
    LeaveBalances(lane, sys.table.nodes, sys.clock, now);
    OthersStaySound(sys, sys.table.nodes, now, tid, lane', sys.lanes[tid := lane']);
  }

  /** One closing activation records exactly what it adds to the time accounted for. */
  lemma {:induction false} LeaveBalances(lane: Lane, nodes: seq<PathNode>, clock: nat, now: nat)
    requires LaneSound(lane, nodes, clock) && clock <= now < U64_LIMIT
    ensures LaneSound(Left(lane, now), nodes, now)
    ensures RecordedNs(Left(lane, now)) + SpentNs(lane) == RecordedNs(lane) + SpentNs(Left(lane, now))
  {
    CloseKeepsStructured(lane.thread, nodes, now);
    TimedAdvances(lane.thread.stack, clock, now);
    if lane.thread.stack != [] {
      var a := lane.thread.stack[|lane.thread.stack| - 1];
      CloseBalances(lane.thread, clock, now);
      AddStackTotal(lane.thread.accum.stacks, a.path, if a.countsHere then 1 else 0, SelfNs(a, now));
    }
  }

  lemma {:induction false} DrainKeepsFormed(sys: System, tid: nat, cap: nat, funcs: set<nat>)
    requires Formed(sys, funcs)
    ensures Formed(Next(sys, Drain(tid), cap), funcs)
  {
    var lane := LaneOf(sys, tid);
    var lane' := lane.(thread := lane.thread.(accum := NOTHING));
    LaneOfIsSound(sys, tid, funcs);
    DrainedLane(lane, sys.table.nodes, sys.clock);
    OthersStaySound(sys, sys.table.nodes, sys.clock, tid, lane', sys.lanes[tid := lane']);
  }

  lemma {:induction false} DrainBalances(sys: System, tid: nat, cap: nat, funcs: set<nat>)
    requires Formed(sys, funcs)
    ensures var sys' := Next(sys, Drain(tid), cap);
            TotalRecorded(sys') == TotalRecorded(sys) && TotalSpent(sys') == TotalSpent(sys)
  {
    var lane := LaneOf(sys, tid);
    LaneOfIsSound(sys, tid, funcs);
    AbsorbTotal(sys.taken, lane.thread.accum);
    DrainedLane(lane, sys.table.nodes, sys.clock);
    StoreLane(sys, tid, lane.(thread := lane.thread.(accum := NOTHING)));
  }

  lemma {:induction false} DrainedLane(lane: Lane, nodes: seq<PathNode>, clock: nat)
    requires LaneSound(lane, nodes, clock)
    ensures var drained := lane.(thread := lane.thread.(accum := NOTHING));
            LaneSound(drained, nodes, clock) && RecordedNs(drained) == 0 && SpentNs(drained) == SpentNs(lane)
  {
    var drained := lane.thread.(accum := NOTHING);
    forall k | 0 <= k < |drained.stack|
      ensures Placed(drained.stack, k, nodes)
    {
      assert Placed(lane.thread.stack, k, nodes);
    }
  }

  lemma {:induction false} NextKeepsFormed(sys: System, step: Step, cap: nat, funcs: set<nat>)
    requires Formed(sys, funcs) && Legal(sys, step, funcs)
    ensures Formed(Next(sys, step, cap), funcs)
    ensures Grown(sys.table, Next(sys, step, cap).table)
  {
    match step
    case Enter(tid, func, now) => EnterKeepsFormed(sys, tid, func, now, cap, funcs);
    case Leave(tid, now) => LeaveKeepsFormed(sys, tid, now, cap, funcs);
    case Drain(tid) => DrainKeepsFormed(sys, tid, cap, funcs);
  }

  /** Every step records exactly what it adds to the time accounted for. */
  lemma {:induction false} NextBalances(sys: System, step: Step, cap: nat, funcs: set<nat>)
    requires Formed(sys, funcs) && Legal(sys, step, funcs)
    ensures var sys' := Next(sys, step, cap);
            TotalRecorded(sys') + TotalSpent(sys) == TotalRecorded(sys) + TotalSpent(sys')
  {
    match step
    case Enter(tid, func, now) => EnterBalances(sys, tid, func, now, cap);
    case Leave(tid, now) =>
      LaneOfIsSound(sys, tid, funcs);
      LeaveBalances(LaneOf(sys, tid), sys.table.nodes, sys.clock, now);
      StoreLane(sys, tid, Left(LaneOf(sys, tid), now));
    case Drain(tid) => DrainBalances(sys, tid, cap, funcs);
  }

  lemma {:induction false} NextKeepsSound(sys: System, step: Step, cap: nat, funcs: set<nat>)
    requires Sound(sys, funcs) && Legal(sys, step, funcs)
    ensures Sound(Next(sys, step, cap), funcs)
    ensures Grown(sys.table, Next(sys, step, cap).table)
  {
    NextKeepsFormed(sys, step, cap, funcs);
    NextBalances(sys, step, cap, funcs);
  }

  lemma {:induction false} RunKeepsFormed(sys: System, steps: seq<Step>, cap: nat, funcs: set<nat>)
    requires Formed(sys, funcs) && LegalRun(sys, steps, cap, funcs)
    ensures Formed(Play(sys, steps, cap), funcs) && Grown(sys.table, Play(sys, steps, cap).table)
  {
    if steps != [] {
      var front := steps[..|steps| - 1];
      RunKeepsFormed(sys, front, cap, funcs);
      NextKeepsFormed(Play(sys, front, cap), steps[|steps| - 1], cap, funcs);
    }
  }

  lemma {:induction false} RunKeepsSound(sys: System, steps: seq<Step>, cap: nat, funcs: set<nat>)
    requires Sound(sys, funcs) && LegalRun(sys, steps, cap, funcs)
    ensures Sound(Play(sys, steps, cap), funcs)
    ensures Grown(sys.table, Play(sys, steps, cap).table)
  {
    if steps != [] {
      var front := steps[..|steps| - 1];
      RunKeepsSound(sys, front, cap, funcs);
      NextKeepsSound(Play(sys, front, cap), steps[|steps| - 1], cap, funcs);
    }
  }

  // ---------------------------------------------------------------- what every run guarantees

  lemma {:induction false} OpenKeepsCeiling(th: Thread, table: Table, func: nat, now: nat, cap: nat)
    requires |table.nodes| <= cap
    ensures |Open(th, table, func, now, cap).1.nodes| <= cap
  {
  }

  lemma {:induction false} RunKeepsCeiling(steps: seq<Step>, cap: nat)
    ensures |Play(START, steps, cap).table.nodes| <= cap
  {
    if steps != [] {
      var front, step := steps[..|steps| - 1], steps[|steps| - 1];
      var sys := Play(START, front, cap);
      RunKeepsCeiling(front, cap);
      if step.Enter? { OpenKeepsCeiling(LaneOf(sys, step.tid).thread, sys.table, step.func, step.now, cap); }
    }
  }

  /**
    The tree is finite. In any run of any number of threads, a context's chain
    names each function at most twice and then in a row, is at most twice as long
    as there are functions, and the table holds no more contexts than there are
    such chains, nor more than its ceiling.
   */
  lemma {:induction false} TreeIsFinite(steps: seq<Step>, cap: nat, funcs: set<nat>, id: nat)
    requires LegalRun(START, steps, cap, funcs)
    ensures var nodes := Play(START, steps, cap).table.nodes;
            && Rooted(nodes)
            && |nodes| <= Arrangements(|funcs|, |funcs|) && |nodes| <= cap
            && (id <= |nodes| ==> Tidy(Chain(nodes, id)) && |Chain(nodes, id)| <= 2 * |funcs|)
  {
    StartIsSound(funcs);
    RunKeepsSound(START, steps, cap, funcs);
    RunKeepsCeiling(steps, cap);
    var table := Play(START, steps, cap).table;
    ContextsAreFew(table, funcs);
    if id <= |table.nodes| {
      ChainIsOver(table.nodes, funcs, id);
      TidyChainIsShort(Chain(table.nodes, id), funcs);
    }
  }

  lemma {:induction false} ChainIsOver(nodes: seq<PathNode>, funcs: set<nat>, id: nat)
    requires Rooted(nodes) && FuncsKnown(nodes, funcs) && id <= |nodes|
    ensures Elements(Chain(nodes, id)) <= funcs
    decreases id
  {
    if id != 0 { ChainIsOver(nodes, funcs, nodes[id - 1].parent); }
  }

  lemma {:induction false} ContextsAreFew(table: Table, funcs: set<nat>)
    requires WellFormed(table) && AllTidy(table.nodes) && FuncsKnown(table.nodes, funcs)
    ensures |table.nodes| <= Arrangements(|funcs|, |funcs|)
  {
    var chains := ChainSet(table.nodes, |table.nodes|);
    ChainSetSize(table, |table.nodes|);
    forall c | c in chains
      ensures Over(c, funcs)
    {
      var id :| 0 <= id <= |table.nodes| && c == Chain(table.nodes, id);
      ChainIsOver(table.nodes, funcs, id);
    }
    ChainsAreFew(chains, funcs);
  }

  ghost function ChainSet(nodes: seq<PathNode>, n: nat): set<seq<nat>>
    requires Rooted(nodes) && n <= |nodes|
  {
    set id | 0 <= id <= n :: Chain(nodes, id)
  }

  /** One chain for the root and one for each context. */
  lemma {:induction false} ChainSetSize(table: Table, n: nat)
    requires WellFormed(table) && n <= |table.nodes|
    ensures |ChainSet(table.nodes, n)| == n + 1
  {
    var nodes := table.nodes;
    if n == 0 {
      assert ChainSet(nodes, 0) == {Chain(nodes, 0)};
    } else {
      ChainSetSize(table, n - 1);
      var c := Chain(nodes, n);
      if c in ChainSet(nodes, n - 1) {
        var id :| 0 <= id <= n - 1 && c == Chain(nodes, id);
        ChainsAreDistinct(table, n, id);
      }
      assert ChainSet(nodes, n) == ChainSet(nodes, n - 1) + {c};
    }
  }

  /**
    No nanosecond is lost or counted twice. After every step of any run, the
    self time recorded over all contexts, drained or not and key zero included,
    is the elapsed time of every closed outermost call plus what the calls still
    open have been charged so far.
   */
  lemma {:induction false} SelfTimeIsConserved(steps: seq<Step>, cap: nat, funcs: set<nat>)
    requires LegalRun(START, steps, cap, funcs)
    ensures TotalRecorded(Play(START, steps, cap)) == TotalSpent(Play(START, steps, cap))
  {
    StartIsSound(funcs);
    RunKeepsSound(START, steps, cap, funcs);
  }

  /** Threads that raced to intern the same call from the same context cached the same id. */
  lemma {:induction false} ThreadsAgreeOnIds(steps: seq<Step>, cap: nat, funcs: set<nat>, t: nat, u: nat, node: PathNode)
    requires LegalRun(START, steps, cap, funcs)
    ensures var sys := Play(START, steps, cap);
            t in sys.lanes && u in sys.lanes
            && node in sys.lanes[t].thread.memo && node in sys.lanes[u].thread.memo ==>
              && sys.lanes[t].thread.memo[node] == sys.lanes[u].thread.memo[node]
              && Names(sys.table.nodes, sys.lanes[t].thread.memo[node], node)
  {
    StartIsSound(funcs);
    RunKeepsSound(START, steps, cap, funcs);
    var sys := Play(START, steps, cap);
    if t in sys.lanes && u in sys.lanes && node in sys.lanes[t].thread.memo && node in sys.lanes[u].thread.memo {
      assert LaneSound(sys.lanes[t], sys.table.nodes, sys.clock) && LaneSound(sys.lanes[u], sys.table.nodes, sys.clock);
      NamesAgree(sys.table, node, sys.lanes[t].thread.memo[node], sys.lanes[u].thread.memo[node]);
    }
  }
}
