/** How many calls a run reports: one per outermost entry of a function, and one per entry at its first two levels. */
module CallCounts {
  import opened Words
  import opened Sums
  import opened PathRegistry
  import opened Calls
  import opened ContextBound
  import opened SelfTime
  import opened ProbeRuns
  import opened Spans

  /** The calls reported for one function, or those its activations report under contexts. */
  datatype Report = CallsOf(func: nat) | ContextsOf(func: nat)

  /** What drains have collected. Charges stay with the lane that made them. */
  function Collected(taken: Accum, c: Report): nat {
    match c
    case CallsOf(func) => CallAt(taken.calls, func).count
    case ContextsOf(_) => 0
  }

  function Waiting(lane: Lane, c: Report): nat {
    match c
    case CallsOf(func) => CallAt(lane.thread.accum.calls, func).count
    case ContextsOf(func) => Reported(lane.charges, func)
  }

  /** What an activation will report when it closes. */
  function Reports(a: Activation, c: Report): nat {
    match c
    case CallsOf(func) => if a.outermost && a.func == func then 1 else 0
    case ContextsOf(func) => if a.countsHere && a.func == func then 1 else 0
  }

  function StillOpen(stack: seq<Activation>, c: Report): nat {
    if stack == [] then 0 else StillOpen(stack[..|stack| - 1], c) + Reports(stack[|stack| - 1], c)
  }

  /** Whether entering `func` on this stack is an entry the report is about. */
  function Earned(stack: seq<Activation>, func: nat, c: Report): nat {
    match c
    case CallsOf(f) => if func == f && Levels(stack, func) == 0 then 1 else 0
    case ContextsOf(f) => if func == f && Levels(stack, func) <= 1 then 1 else 0
  }

  /** The entries of a run the report is about. */
  function Entries(steps: seq<Step>, cap: nat, c: Report): nat {
    if steps == [] then 0
    else
      var front, step := steps[..|steps| - 1], steps[|steps| - 1];
      Entries(front, cap, c)
      + if step.Enter? then Earned(LaneOf(Play(START, front, cap), step.tid).thread.stack, step.func, c) else 0
  }

  ghost function LaneCount(c: Report): Lane -> nat {
    (lane: Lane) => Waiting(lane, c) + StillOpen(lane.thread.stack, c)
  }

  /** Everything reported, drained or not, and everything that open activations will still report. */
  ghost function Counted(sys: System, c: Report): nat {
    Collected(sys.taken, c) + MapSum(sys.lanes, LaneCount(c))
  }

  lemma {:induction false} OpenEarns(th: Thread, table: Table, func: nat, now: nat, cap: nat, c: Report)
    requires Structured(th, table.nodes)
    ensures var th' := Open(th, table, func, now, cap).0;
            StillOpen(th'.stack, c) == StillOpen(th.stack, c) + Earned(th.stack, func, c) && th'.accum == th.accum
  {
    var stack := Open(th, table, func, now, cap).0.stack;
    assert stack[..|th.stack|] == th.stack;
  }

  lemma {:induction false} ChargingReportsNothing(stack: seq<Activation>, elapsed: nat, c: Report)
    ensures StillOpen(ChargeCaller(stack, elapsed), c) == StillOpen(stack, c)
  {
    if stack != [] {
      assert ChargeCaller(stack, elapsed)[..|stack| - 1] == stack[..|stack| - 1];
    }
  }

  lemma {:induction false} LeavingReports(lane: Lane, now: nat, c: Report)
    ensures LaneCount(c)(Left(lane, now)) == LaneCount(c)(lane)
  {
    if lane.thread.stack != [] {
      var n := |lane.thread.stack| - 1;
      ChargingReportsNothing(lane.thread.stack[..n], Elapsed(lane.thread.stack[n], now), c);
      assert Left(lane, now).charges[..|lane.charges|] == lane.charges;
    }
  }

  /** Draining moves reports and changes none. */
  lemma {:induction false} AbsorbReports(mine: Accum, lane: Lane, c: Report)
    ensures var drained := lane.(thread := lane.thread.(accum := NOTHING));
            Collected(AbsorbAccum(mine, lane.thread.accum), c) + Waiting(drained, c) == Collected(mine, c) + Waiting(lane, c)
  {
    assert CallAt(NOTHING.calls, c.func).count == 0;
  }

  /** Storing one lane changes the total by what that lane changes. */
  lemma {:induction false} LaneCounted(sys: System, tid: nat, lane: Lane, c: Report)
    ensures MapSum(sys.lanes[tid := lane], LaneCount(c)) + LaneCount(c)(LaneOf(sys, tid))
         == MapSum(sys.lanes, LaneCount(c)) + LaneCount(c)(lane)
  {
    MapSumStore(sys.lanes, tid, lane, LaneCount(c));
    if tid in sys.lanes {
      assert WeightAt(sys.lanes, LaneCount(c))(tid) == LaneCount(c)(sys.lanes[tid]);
    } else {
      assert CallAt(NOTHING.calls, c.func).count == 0;
    }
  }

  lemma {:induction false} StepCounts(sys: System, step: Step, cap: nat, funcs: set<nat>, c: Report)
    requires Formed(sys, funcs)
    ensures Counted(Next(sys, step, cap), c) == Counted(sys, c) +
            if step.Enter? then Earned(LaneOf(sys, step.tid).thread.stack, step.func, c) else 0
  {
    var lane, lane' := LaneOf(sys, step.tid), LaneOf(Next(sys, step, cap), step.tid);
    LaneOfIsSound(sys, step.tid, funcs);
    LaneCounted(sys, step.tid, lane', c);
    match step
    case Enter(tid, func, now) => OpenEarns(lane.thread, sys.table, func, now, cap, c);
    case Leave(tid, now) => LeavingReports(lane, now, c);
    case Drain(tid) => AbsorbReports(sys.taken, lane, c);
  }

  /**
    What a run reports of each function. Its calls, drained or not, are its
    outermost entries, short only of those still open: recursion of any depth
    and shape adds none. What it reports under contexts is its entries at the
    first two levels: the second level reports every time it is entered, and
    not once per outermost entry, and every level below it reports nothing.
   */
  lemma {:induction false} ReportsAreEntries(steps: seq<Step>, cap: nat, funcs: set<nat>, c: Report)
    requires LegalRun(START, steps, cap, funcs)
    ensures Counted(Play(START, steps, cap), c) == Entries(steps, cap, c)
  {
    if steps == [] {
      assert CallAt(NOTHING.calls, c.func).count == 0;
    } else {
      var front := steps[..|steps| - 1];
      ReportsAreEntries(front, cap, funcs, c);
      StartIsSound(funcs);
      RunKeepsSound(START, front, cap, funcs);
      StepCounts(Play(START, front, cap), steps[|steps| - 1], cap, funcs, c);
    }
  }
}
