/** Whatever is recorded names a function that was entered and a context of the table. */
module RecordedNames {
  import opened PathRegistry
  import opened Calls
  import opened ContextBound
  import opened ProbeRuns
  import opened Spans

  /** An accumulator's calls are of these functions, and its contexts of this table or the root. */
  ghost predicate AccumNamed(a: Accum, funcs: set<nat>, nodes: seq<PathNode>) {
    && (forall f :: f in a.calls ==> f in funcs)
    && (forall p :: p in a.stacks ==> p <= |nodes|)
  }

  ghost predicate LaneNamed(lane: Lane, funcs: set<nat>, nodes: seq<PathNode>) {
    && AccumNamed(lane.thread.accum, funcs, nodes)
    && (forall k :: 0 <= k < |lane.thread.stack| ==> lane.thread.stack[k].func in funcs)
  }

  ghost predicate AllNamed(sys: System, funcs: set<nat>) {
    && AccumNamed(sys.taken, funcs, sys.table.nodes)
    && (forall tid :: tid in sys.lanes ==> LaneNamed(sys.lanes[tid], funcs, sys.table.nodes))
  }

  lemma {:induction false} NamedGrows(a: Accum, funcs: set<nat>, nodes: seq<PathNode>, funcs': set<nat>, nodes': seq<PathNode>)
    requires AccumNamed(a, funcs, nodes) && funcs <= funcs' && nodes <= nodes'
    ensures AccumNamed(a, funcs', nodes')
  {
  }

  lemma {:induction false} LaneNamedGrows(
    lane: Lane, funcs: set<nat>, nodes: seq<PathNode>, funcs': set<nat>, nodes': seq<PathNode>)
    requires LaneNamed(lane, funcs, nodes) && funcs <= funcs' && nodes <= nodes'
    ensures LaneNamed(lane, funcs', nodes')
  {
    NamedGrows(lane.thread.accum, funcs, nodes, funcs', nodes');
  }

  lemma {:induction false} LaneOfIsNamed(sys: System, tid: nat, funcs: set<nat>)
    requires AllNamed(sys, funcs)
    ensures LaneNamed(LaneOf(sys, tid), funcs, sys.table.nodes)
  {
  }

  /** Closing a call records its function and the context it ran in. */
  lemma {:induction false} LeavingNames(lane: Lane, nodes: seq<PathNode>, now: nat, funcs: set<nat>)
    requires Structured(lane.thread, nodes) && LaneNamed(lane, funcs, nodes)
    ensures LaneNamed(Left(lane, now), funcs, nodes)
  {
    if lane.thread.stack != [] {
      var n := |lane.thread.stack| - 1;
      assert Placed(lane.thread.stack, n, nodes);
      ChargeCallerKeeps(lane.thread.stack[..n], Elapsed(lane.thread.stack[n], now));
      SameFuncs(lane.thread.stack[..n], Elapsed(lane.thread.stack[n], now));
    }
  }

  lemma {:induction false} SameFuncs(stack: seq<Activation>, elapsed: nat)
    ensures |ChargeCaller(stack, elapsed)| == |stack|
    ensures forall k :: 0 <= k < |stack| ==> ChargeCaller(stack, elapsed)[k].func == stack[k].func
  {
  }

  lemma {:induction false} DrainingNames(mine: Accum, theirs: Accum, funcs: set<nat>, nodes: seq<PathNode>)
    requires AccumNamed(mine, funcs, nodes) && AccumNamed(theirs, funcs, nodes)
    ensures AccumNamed(AbsorbAccum(mine, theirs), funcs, nodes) && AccumNamed(NOTHING, funcs, nodes)
  {
  }

  lemma {:induction false} LaneStepNames(sys: System, step: Step, next: System, cap: nat, funcs: set<nat>)
    requires Formed(sys, funcs) && AllNamed(sys, funcs) && Legal(sys, step, funcs) && next == Next(sys, step, cap)
    requires sys.table.nodes <= next.table.nodes
    ensures LaneNamed(LaneOf(next, step.tid), funcs, next.table.nodes) && AccumNamed(next.taken, funcs, next.table.nodes)
  {
    var lane := LaneOf(sys, step.tid);
    LaneOfIsSound(sys, step.tid, funcs);
    LaneOfIsNamed(sys, step.tid, funcs);
    LaneNamedGrows(lane, funcs, sys.table.nodes, funcs, next.table.nodes);
    NamedGrows(sys.taken, funcs, sys.table.nodes, funcs, next.table.nodes);
    match step
    case Enter(tid, func, now) =>
      assert LaneOf(next, tid).thread.stack[..|lane.thread.stack|] == lane.thread.stack;
    case Leave(tid, now) => LeavingNames(lane, sys.table.nodes, now, funcs);
    case Drain(tid) => DrainingNames(sys.taken, lane.thread.accum, funcs, sys.table.nodes);
  }

  lemma {:induction false} NextKeepsNamed(sys: System, step: Step, cap: nat, funcs: set<nat>)
    requires Formed(sys, funcs) && AllNamed(sys, funcs) && Legal(sys, step, funcs)
    ensures AllNamed(Next(sys, step, cap), funcs)
  {
    var next := Next(sys, step, cap);
    NextKeepsFormed(sys, step, cap, funcs);
    LaneStepNames(sys, step, next, cap, funcs);
    forall tid | tid in next.lanes
      ensures LaneNamed(next.lanes[tid], funcs, next.table.nodes)
    {
      if tid != step.tid { LaneNamedGrows(sys.lanes[tid], funcs, sys.table.nodes, funcs, next.table.nodes); }
    }
  }

  /**
    After any run, everything recorded, drained or not, is of a function that
    could be entered and of a context the table holds, or the root.
   */
  lemma {:induction false} RecordedIsNamed(steps: seq<Step>, cap: nat, funcs: set<nat>)
    requires LegalRun(START, steps, cap, funcs)
    ensures AllNamed(Play(START, steps, cap), funcs)
  {
    if steps != [] {
      var front := steps[..|steps| - 1];
      StartIsSound(funcs);
      RunKeepsFormed(START, front, cap, funcs);
      RecordedIsNamed(front, cap, funcs);
      NextKeepsNamed(Play(START, front, cap), steps[|steps| - 1], cap, funcs);
    }
  }
}
