/** What one outermost call of a recursive function reports, and where. */
module RecursionCounts {
  import opened PathRegistry
  import opened Calls
  import opened ContextBound
  import opened ProbeRuns
  import opened Spans
  import opened CallCounts
  import opened ChargeLedger

  /** The step enters, on that thread, a function that is running exactly once there. */
  predicate EntersSecondLevel(sys: System, step: Step, tid: nat, func: nat) {
    step.Enter? && step.tid == tid && step.func == func && Levels(LaneOf(sys, tid).thread.stack, func) == 1
  }

  /** How often a function is entered at its second level. */
  function Reentries(sys: System, steps: seq<Step>, tid: nat, func: nat, cap: nat): nat {
    if steps == [] then 0
    else
      var front := steps[..|steps| - 1];
      Reentries(sys, front, tid, func, cap)
      + if EntersSecondLevel(Play(sys, front, cap), steps[|steps| - 1], tid, func) then 1 else 0
  }

  // ---------------------------------------------------------------- how many

  lemma {:induction false} StepReports(sys: System, step: Step, next: System, tid: nat, func: nat, cap: nat, funcs: set<nat>)
    requires Formed(sys, funcs) && next == Next(sys, step, cap)
    requires func in Beneath(LaneOf(sys, tid).thread.stack, |LaneOf(sys, tid).thread.stack|)
    ensures LaneCount(ContextsOf(func))(LaneOf(next, tid))
         == LaneCount(ContextsOf(func))(LaneOf(sys, tid)) + if EntersSecondLevel(sys, step, tid, func) then 1 else 0
  {
    var lane := LaneOf(sys, tid);
    LaneOfIsSound(sys, tid, funcs);
    LevelsFind(lane.thread.stack, func);
    if step.tid != tid || step.Drain? {
      OtherLane(sys, step, tid, cap);
    } else if step.Enter? {
      OpenEarns(lane.thread, sys.table, step.func, step.now, cap, ContextsOf(func));
    } else {
      LeavingReports(lane, step.now, ContextsOf(func));
    }
  }

  /** The call is still open. */
  lemma {:induction false} StillBeneath(base: Lane, lane: Lane, d: nat)
    requires Kept(base, lane, d)
    ensures base.thread.stack[d].func in Beneath(lane.thread.stack, |lane.thread.stack|)
  {
    KeptBeneath(base, lane, d);
    assert lane.thread.stack[d].func in Beneath(lane.thread.stack, |lane.thread.stack|);
  }

  lemma {:induction false} SpanReports(sys: System, steps: seq<Step>, tid: nat, d: nat, cap: nat, funcs: set<nat>)
    requires Formed(sys, funcs) && Inside(sys, steps, tid, d, cap, funcs) && |LaneOf(sys, tid).thread.stack| == d + 1
    ensures var func := LaneOf(sys, tid).thread.stack[d].func;
            (LaneCount(ContextsOf(func))(LaneOf(Play(sys, steps, cap), tid))
             == LaneCount(ContextsOf(func))(LaneOf(sys, tid)) + Reentries(sys, steps, tid, func, cap))
  {
    if steps != [] {
      var front, step := steps[..|steps| - 1], steps[|steps| - 1];
      var func := LaneOf(sys, tid).thread.stack[d].func;
      SpanReports(sys, front, tid, d, cap, funcs);
      SpanKeeps(sys, front, tid, d, cap, funcs);
      StillBeneath(LaneOf(sys, tid), LaneOf(Play(sys, front, cap), tid), d);
      StepReports(Play(sys, front, cap), step, Play(sys, steps, cap), tid, func, cap, funcs);
    }
  }

  /** When the call is on top again, what its callees reported is on record. */
  lemma {:induction false} BackOnTop(base: Lane, lane: Lane, d: nat, func: nat)
    requires Kept(base, lane, d) && |lane.thread.stack| == d + 1
    ensures StillOpen(lane.thread.stack, ContextsOf(func)) == StillOpen(base.thread.stack, ContextsOf(func))
    ensures Reported(lane.charges[|base.charges|..], func) + Reported(base.charges, func) == Reported(lane.charges, func)
  {
    KeptBeneath(base, lane, d);
    assert lane.thread.stack[d].(childNs := 0).countsHere == lane.thread.stack[d].countsHere;
    assert lane.charges == base.charges + lane.charges[|base.charges|..];
    ReportedConcat(base.charges, lane.charges[|base.charges|..], func);
  }

  // ---------------------------------------------------------------- under which context

  /** The context of `func` beneath itself, or its own once the table is full. */
  predicate AtRecursion(path: nat, nodes: seq<PathNode>, home: nat, func: nat, cap: nat) {
    Names(nodes, path, PathNode(home, func)) || (path == home && |nodes| >= cap)
  }

  lemma {:induction false} AtRecursionGrows(path: nat, before: seq<PathNode>, after: seq<PathNode>, home: nat, func: nat, cap: nat)
    requires AtRecursion(path, before, home, func, cap) && before <= after
    ensures AtRecursion(path, after, home, func, cap)
  {
  }

  /** The function runs at `home`, and recurses where it should. */
  ghost predicate DepthHome(th: Thread, nodes: seq<PathNode>, home: nat, func: nat, cap: nat) {
    && func in th.depth && th.depth[func].path == home
    && (th.depth[func].recursionPath == 0 || AtRecursion(th.depth[func].recursionPath, nodes, home, func, cap))
  }

  /** Re-entering it leads to its recursion context. */
  lemma {:induction false} ReentryAtRecursion(th: Thread, table: Table, home: nat, func: nat, cap: nat)
    requires WellFormed(table) && Structured(th, table.nodes) && OnStack(th, func) && home <= |table.nodes|
    requires DepthHome(th, table.nodes, home, func, cap)
    ensures var r := NextContext(th, table, func, cap);
            table.nodes <= r.table.nodes && AtRecursion(r.path, r.table.nodes, home, func, cap)
  {
    NextContextIs(th, table, func, cap);
    if th.depth[func].recursionPath == 0 { ContextFallsBack(th.memo, table, home, func, cap); }
  }

  lemma {:induction false} OpenKeepsHome(th: Thread, table: Table, entered: nat, now: nat, home: nat, func: nat, cap: nat)
    requires WellFormed(table) && Structured(th, table.nodes) && OnStack(th, func) && home <= |table.nodes|
    requires DepthHome(th, table.nodes, home, func, cap)
    ensures var (th', table') := Open(th, table, entered, now, cap);
            DepthHome(th', table'.nodes, home, func, cap)
  {
    NextContextIs(th, table, entered, cap);
    if entered == func {
      ReentryAtRecursion(th, table, home, func, cap);
    } else {
      DepthHomeGrows(th, table.nodes, NextContext(th, table, entered, cap).table.nodes, home, func, cap);
    }
  }

  lemma {:induction false} DepthHomeGrows(
    th: Thread, before: seq<PathNode>, after: seq<PathNode>, home: nat, func: nat, cap: nat)
    requires DepthHome(th, before, home, func, cap) && before <= after
    ensures DepthHome(th, after, home, func, cap)
  {
  }

  lemma {:induction false} CloseKeepsHome(th: Thread, nodes: seq<PathNode>, now: nat, home: nat, func: nat, cap: nat)
    requires Structured(th, nodes) && DepthHome(th, nodes, home, func, cap)
    requires func in Beneath(Close(th, now).stack, |Close(th, now).stack|)
    ensures DepthHome(Close(th, now), nodes, home, func, cap)
  {
    CloseKeepsStructured(th, nodes, now);
    LevelsFind(Close(th, now).stack, func);
  }

  lemma {:induction false} StepKeepsHome(
    sys: System, step: Step, next: System, tid: nat, home: nat, func: nat, cap: nat, funcs: set<nat>)
    requires Formed(sys, funcs) && Legal(sys, step, funcs) && next == Next(sys, step, cap) && home <= |sys.table.nodes|
    requires func in Beneath(LaneOf(sys, tid).thread.stack, |LaneOf(sys, tid).thread.stack|)
    requires func in Beneath(LaneOf(next, tid).thread.stack, |LaneOf(next, tid).thread.stack|)
    requires DepthHome(LaneOf(sys, tid).thread, sys.table.nodes, home, func, cap)
    ensures DepthHome(LaneOf(next, tid).thread, next.table.nodes, home, func, cap)
  {
    var th := LaneOf(sys, tid).thread;
    LaneOfIsSound(sys, tid, funcs);
    LevelsFind(th.stack, func);
    if step.tid == tid && step.Enter? {
      OpenKeepsHome(th, sys.table, step.func, step.now, home, func, cap);
    } else if step.tid == tid && step.Leave? {
      CloseKeepsHome(th, sys.table.nodes, step.now, home, func, cap);
    } else {
      NextKeepsFormed(sys, step, cap, funcs);
      DepthHomeGrows(th, sys.table.nodes, next.table.nodes, home, func, cap);
    }
  }

  lemma {:induction false} SpanKeepsHome(sys: System, steps: seq<Step>, tid: nat, d: nat, cap: nat, funcs: set<nat>)
    requires Formed(sys, funcs) && Inside(sys, steps, tid, d, cap, funcs) && |LaneOf(sys, tid).thread.stack| == d + 1
    requires var a := LaneOf(sys, tid).thread.stack[d];
             a.path <= |sys.table.nodes| && DepthHome(LaneOf(sys, tid).thread, sys.table.nodes, a.path, a.func, cap)
    ensures var a := LaneOf(sys, tid).thread.stack[d];
            DepthHome(LaneOf(Play(sys, steps, cap), tid).thread, Play(sys, steps, cap).table.nodes, a.path, a.func, cap)
  {
    if steps != [] {
      var front, step := steps[..|steps| - 1], steps[|steps| - 1];
      var a := LaneOf(sys, tid).thread.stack[d];
      SpanKeepsHome(sys, front, tid, d, cap, funcs);
      SpanKeeps(sys, front, tid, d, cap, funcs);
      SpanKeeps(sys, steps, tid, d, cap, funcs);
      StillBeneath(LaneOf(sys, tid), LaneOf(Play(sys, front, cap), tid), d);
      StillBeneath(LaneOf(sys, tid), LaneOf(Play(sys, steps, cap), tid), d);
      StepKeepsHome(Play(sys, front, cap), step, Play(sys, steps, cap), tid, a.path, a.func, cap, funcs);
    }
  }

  /** Every activation of `func` above `d`, and every charge of it from `c` on, is at its recursion context. */
  ghost predicate InnerHome(lane: Lane, nodes: seq<PathNode>, d: nat, home: nat, func: nat, c: nat, cap: nat) {
    && (forall k :: d < k < |lane.thread.stack| && lane.thread.stack[k].func == func ==>
          AtRecursion(lane.thread.stack[k].path, nodes, home, func, cap))
    && (forall j :: c <= j < |lane.charges| && lane.charges[j].func == func ==>
          AtRecursion(lane.charges[j].path, nodes, home, func, cap))
  }

  lemma {:induction false} InnerHomeGrows(
    lane: Lane, before: seq<PathNode>, after: seq<PathNode>, d: nat, home: nat, func: nat, c: nat, cap: nat)
    requires InnerHome(lane, before, d, home, func, c, cap) && before <= after
    ensures InnerHome(lane, after, d, home, func, c, cap)
  {
    forall path | AtRecursion(path, before, home, func, cap)
      ensures AtRecursion(path, after, home, func, cap)
    {
      AtRecursionGrows(path, before, after, home, func, cap);
    }
  }

  /** An activation that is there before and after a step is of the same function, in the same context. */
  lemma {:induction false} SameCall(lane: Lane, lane': Lane, step: Step, tid: nat, k: nat)
    requires LaneMoves(lane, lane', step, tid)
    requires k < |lane.thread.stack| && k < |lane'.thread.stack|
    ensures lane'.thread.stack[k].path == lane.thread.stack[k].path
    ensures lane'.thread.stack[k].func == lane.thread.stack[k].func
  {
    var stack, stack' := lane.thread.stack, lane'.thread.stack;
    SamePath(lane, lane', step, tid, k);
    if |stack'| > |stack| {
      assert stack'[k] == stack'[..|stack|][k];
    } else if |stack'| < |stack| {
      if k < |stack'| - 1 {
        assert stack'[k] == stack'[..|stack'| - 1][k] == stack[..|stack'| - 1][k];
      } else {
        assert stack'[k].(childNs := 0).func == stack'[k].func;
      }
    }
  }

  /** What holds of every activation and charge before a step, and of the one it pushes, holds after it. */
  lemma {:induction false} InnerHomeMoves(
    lane: Lane, lane': Lane, step: Step, tid: nat, nodes: seq<PathNode>, d: nat, home: nat, func: nat, c: nat, cap: nat)
    requires LaneMoves(lane, lane', step, tid) && InnerHome(lane, nodes, d, home, func, c, cap) && c <= |lane.charges|
    requires d < |lane.thread.stack| && d < |lane'.thread.stack|
    requires |lane'.thread.stack| > |lane.thread.stack| && lane'.thread.stack[|lane.thread.stack|].func == func ==>
      AtRecursion(lane'.thread.stack[|lane.thread.stack|].path, nodes, home, func, cap)
    ensures InnerHome(lane', nodes, d, home, func, c, cap)
  {
    forall k | d < k < |lane'.thread.stack| && lane'.thread.stack[k].func == func
      ensures AtRecursion(lane'.thread.stack[k].path, nodes, home, func, cap)
    {
      if k < |lane.thread.stack| { SameCall(lane, lane', step, tid, k); }
    }
    forall j | c <= j < |lane'.charges| && lane'.charges[j].func == func
      ensures AtRecursion(lane'.charges[j].path, nodes, home, func, cap)
    {
      if j < |lane.charges| { assert lane'.charges[j] == lane.charges[j]; }
    }
  }

  lemma {:induction false} StepKeepsInner(
    sys: System, step: Step, next: System, base: Lane, tid: nat, d: nat, cap: nat, funcs: set<nat>)
    requires Formed(sys, funcs) && Legal(sys, step, funcs) && next == Next(sys, step, cap)
    requires Kept(base, LaneOf(sys, tid), d) && d < |LaneOf(next, tid).thread.stack|
    requires var a := base.thread.stack[d];
             && a.path <= |sys.table.nodes| && DepthHome(LaneOf(sys, tid).thread, sys.table.nodes, a.path, a.func, cap)
             && InnerHome(LaneOf(sys, tid), sys.table.nodes, d, a.path, a.func, |base.charges|, cap)
    ensures var a := base.thread.stack[d];
            InnerHome(LaneOf(next, tid), next.table.nodes, d, a.path, a.func, |base.charges|, cap)
  {
    var a, lane, lane' := base.thread.stack[d], LaneOf(sys, tid), LaneOf(next, tid);
    NextKeepsFormed(sys, step, cap, funcs);
    LaneOfIsSound(sys, tid, funcs);
    StillBeneath(base, lane, d);
    LevelsFind(lane.thread.stack, a.func);
    InnerHomeGrows(lane, sys.table.nodes, next.table.nodes, d, a.path, a.func, |base.charges|, cap);
    LaneStep(sys, step, tid, cap);
    if step.tid == tid && step.Enter? && step.func == a.func {
      ReentryAtRecursion(lane.thread, sys.table, a.path, a.func, cap);
    }
    InnerHomeMoves(lane, lane', step, tid, next.table.nodes, d, a.path, a.func, |base.charges|, cap);
  }

  lemma {:induction false} SpanKeepsInner(sys: System, steps: seq<Step>, tid: nat, d: nat, cap: nat, funcs: set<nat>)
    requires Formed(sys, funcs) && Inside(sys, steps, tid, d, cap, funcs) && |LaneOf(sys, tid).thread.stack| == d + 1
    requires var a := LaneOf(sys, tid).thread.stack[d];
             a.path <= |sys.table.nodes| && DepthHome(LaneOf(sys, tid).thread, sys.table.nodes, a.path, a.func, cap)
    ensures var lane, a := LaneOf(Play(sys, steps, cap), tid), LaneOf(sys, tid).thread.stack[d];
            InnerHome(lane, Play(sys, steps, cap).table.nodes, d, a.path, a.func, |LaneOf(sys, tid).charges|, cap)
  {
    if steps != [] {
      var front, step := steps[..|steps| - 1], steps[|steps| - 1];
      SpanKeepsInner(sys, front, tid, d, cap, funcs);
      SpanKeepsHome(sys, front, tid, d, cap, funcs);
      SpanKeeps(sys, front, tid, d, cap, funcs);
      StepKeepsInner(Play(sys, front, cap), step, Play(sys, steps, cap), LaneOf(sys, tid), tid, d, cap, funcs);
    }
  }

  // ---------------------------------------------------------------- while the table has room

  /** The context is one of that function's own. */
  predicate OwnedBy(nodes: seq<PathNode>, path: nat, func: nat) {
    1 <= path <= |nodes| && nodes[path - 1].func == func
  }

  /** Every activation and every charge of a lane is in a context of its own function. */
  ghost predicate Owned(lane: Lane, nodes: seq<PathNode>) {
    && (forall k :: 0 <= k < |lane.thread.stack| ==> OwnedBy(nodes, lane.thread.stack[k].path, lane.thread.stack[k].func))
    && (forall j :: 0 <= j < |lane.charges| ==> OwnedBy(nodes, lane.charges[j].path, lane.charges[j].func))
  }

  lemma {:induction false} EnteredIsOwned(lane: Lane, table: Table, func: nat, cap: nat)
    requires WellFormed(table) && Structured(lane.thread, table.nodes) && Owned(lane, table.nodes) && |table.nodes| < cap
    ensures var r := NextContext(lane.thread, table, func, cap);
            table.nodes <= r.table.nodes && OwnedBy(r.table.nodes, r.path, func)
  {
    var th := lane.thread;
    NextContextIs(th, table, func, cap);
    AnchorIs(th, table.nodes, func);
    if OnStack(th, func) {
      var k := OutermostExists(th.stack, |th.stack|, func);
      assert Placed(th.stack, k, table.nodes) && DepthTrue(th.depth[func], th.stack[k], table.nodes);
      if th.depth[func].recursionPath == 0 { ContextFallsBack(th.memo, table, th.depth[func].path, func, cap); }
    } else {
      ContextFallsBack(th.memo, table, TopPath(th.stack), func, cap);
    }
  }

  lemma {:induction false} OwnedMoves(lane: Lane, lane': Lane, step: Step, tid: nat, nodes: seq<PathNode>)
    requires LaneMoves(lane, lane', step, tid) && Owned(lane, nodes)
    requires |lane'.thread.stack| > |lane.thread.stack| ==>
      OwnedBy(nodes, lane'.thread.stack[|lane.thread.stack|].path, lane'.thread.stack[|lane.thread.stack|].func)
    ensures Owned(lane', nodes)
  {
    forall k | 0 <= k < |lane'.thread.stack|
      ensures OwnedBy(nodes, lane'.thread.stack[k].path, lane'.thread.stack[k].func)
    {
      if k < |lane.thread.stack| { SameCall(lane, lane', step, tid, k); }
    }
    forall j | 0 <= j < |lane'.charges|
      ensures OwnedBy(nodes, lane'.charges[j].path, lane'.charges[j].func)
    {
      if j < |lane.charges| { assert lane'.charges[j] == lane.charges[j]; }
    }
  }

  lemma {:induction false} OwnedGrows(lane: Lane, before: seq<PathNode>, after: seq<PathNode>)
    requires Owned(lane, before) && before <= after
    ensures Owned(lane, after)
  {
    forall path, func | OwnedBy(before, path, func)
      ensures OwnedBy(after, path, func)
    {
    }
  }

  lemma {:induction false} StepKeepsOwned(sys: System, step: Step, next: System, tid: nat, cap: nat, funcs: set<nat>)
    requires Formed(sys, funcs) && Legal(sys, step, funcs) && next == Next(sys, step, cap) && |sys.table.nodes| < cap
    requires Owned(LaneOf(sys, tid), sys.table.nodes)
    ensures Owned(LaneOf(next, tid), next.table.nodes)
  {
    var lane, lane' := LaneOf(sys, tid), LaneOf(next, tid);
    NextKeepsFormed(sys, step, cap, funcs);
    LaneOfIsSound(sys, tid, funcs);
    LaneStep(sys, step, tid, cap);
    OwnedGrows(lane, sys.table.nodes, next.table.nodes);
    if step.tid == tid && step.Enter? {
      EnteredIsOwned(lane, sys.table, step.func, cap);
      assert lane'.thread.stack[|lane.thread.stack|].path == NextContext(lane.thread, sys.table, step.func, cap).path;
    }
    OwnedMoves(lane, lane', step, tid, next.table.nodes);
  }

  lemma {:induction false} RoomKeepsOwned(sys: System, steps: seq<Step>, tid: nat, cap: nat, funcs: set<nat>)
    requires Formed(sys, funcs) && LegalRun(sys, steps, cap, funcs) && Owned(LaneOf(sys, tid), sys.table.nodes)
    requires |Play(sys, steps, cap).table.nodes| < cap
    ensures Formed(Play(sys, steps, cap), funcs) && Owned(LaneOf(Play(sys, steps, cap), tid), Play(sys, steps, cap).table.nodes)
  {
    if steps != [] {
      var front, step := steps[..|steps| - 1], steps[|steps| - 1];
      RunKeepsFormed(sys, front, cap, funcs);
      NextKeepsFormed(Play(sys, front, cap), step, cap, funcs);
      RoomKeepsOwned(sys, front, tid, cap, funcs);
      StepKeepsOwned(Play(sys, front, cap), step, Play(sys, steps, cap), tid, cap, funcs);
    }
  }

  /** While the table has room, every call of any run is charged to a context of its own function. */
  lemma {:induction false} RoomMeansOwned(steps: seq<Step>, tid: nat, cap: nat, funcs: set<nat>)
    requires LegalRun(START, steps, cap, funcs) && |Play(START, steps, cap).table.nodes| < cap
    ensures Owned(LaneOf(Play(START, steps, cap), tid), Play(START, steps, cap).table.nodes)
  {
    StartIsSound(funcs);
    RoomKeepsOwned(START, steps, tid, cap, funcs);
  }

  lemma {:induction false} InsideIsLegal(sys: System, steps: seq<Step>, tid: nat, d: nat, cap: nat, funcs: set<nat>)
    requires Inside(sys, steps, tid, d, cap, funcs)
    ensures LegalRun(sys, steps, cap, funcs)
  {
    if steps != [] { InsideIsLegal(sys, steps[..|steps| - 1], tid, d, cap, funcs); }
  }

  // ---------------------------------------------------------------- one outermost call

  /** If the reports at `path` are exactly those of `func`, there are as many. */
  lemma {:induction false} ReportedAt(charges: seq<Charge>, path: nat, func: nat)
    requires forall j :: 0 <= j < |charges| ==> (charges[j].path == path <==> charges[j].func == func)
    ensures Charged(charges, path, Counts) == Reported(charges, func)
  {
    if charges != [] { ReportedAt(charges[..|charges| - 1], path, func); }
  }

  /** Some activation reported. */
  lemma {:induction false} ReportedBySome(charges: seq<Charge>, func: nat) returns (j: nat)
    requires Reported(charges, func) > 0
    ensures j < |charges| && charges[j].func == func
  {
    j := |charges| - 1;
    if charges[j].func != func { j := ReportedBySome(charges[..j], func); }
  }

  /** With room in the table, the recursion context is where `func` is charged and nothing else is. */
  lemma {:induction false} OnlyThere(lane: Lane, table: Table, d: nat, home: nat, func: nat, c: nat, cap: nat, r: nat)
    requires WellFormed(table) && |table.nodes| < cap && c <= |lane.charges|
    requires InnerHome(lane, table.nodes, d, home, func, c, cap) && Owned(lane, table.nodes)
    requires Names(table.nodes, r, PathNode(home, func))
    ensures Charged(lane.charges[c..], r, Counts) == Reported(lane.charges[c..], func)
  {
    var inner := lane.charges[c..];
    forall j | 0 <= j < |inner|
      ensures inner[j].path == r <==> inner[j].func == func
    {
      assert inner[j] == lane.charges[c + j];
      if inner[j].func == func { NamesAgree(table, PathNode(home, func), r, inner[j].path); }
      assert OwnedBy(table.nodes, inner[j].path, inner[j].func);
    }
    ReportedAt(inner, r, func);
  }

  lemma {:induction false} OutermostOpens(before: System, tid: nat, func: nat, start: nat, cap: nat, funcs: set<nat>)
    requires Formed(before, funcs) && Legal(before, Enter(tid, func, start), funcs)
    requires Levels(LaneOf(before, tid).thread.stack, func) == 0
    ensures var d, entered := |LaneOf(before, tid).thread.stack|, Next(before, Enter(tid, func, start), cap);
            var lane := LaneOf(entered, tid);
            && Formed(entered, funcs) && before.table.nodes <= entered.table.nodes
            && |lane.thread.stack| == d + 1 && lane.charges == LaneOf(before, tid).charges
            && lane.thread.stack[d].func == func && lane.thread.stack[d].countsHere
            && lane.thread.stack[d].path <= |entered.table.nodes|
            && DepthHome(lane.thread, entered.table.nodes, lane.thread.stack[d].path, func, cap)
  {
    NextKeepsFormed(before, Enter(tid, func, start), cap, funcs);
    EnterOpens(before, tid, func, start, cap);
    LaneOfIsSound(before, tid, funcs);
    NextContextIs(LaneOf(before, tid).thread, before.table, func, cap);
  }

  /** What the callees reported, once they are all done. */
  lemma {:induction false} InnerReports(entered: System, inner: seq<Step>, tid: nat, d: nat, cap: nat, funcs: set<nat>)
    requires Formed(entered, funcs) && Inside(entered, inner, tid, d, cap, funcs)
    requires |LaneOf(entered, tid).thread.stack| == |LaneOf(Play(entered, inner, cap), tid).thread.stack| == d + 1
    ensures var base, lane := LaneOf(entered, tid), LaneOf(Play(entered, inner, cap), tid);
            && |base.charges| <= |lane.charges|
            && Reported(lane.charges[|base.charges|..], base.thread.stack[d].func)
            == Reentries(entered, inner, tid, base.thread.stack[d].func, cap)
  {
    SpanKeeps(entered, inner, tid, d, cap, funcs);
    SpanReports(entered, inner, tid, d, cap, funcs);
    BackOnTop(LaneOf(entered, tid), LaneOf(Play(entered, inner, cap), tid), d, LaneOf(entered, tid).thread.stack[d].func);
  }

  /** If the table still has room, everything the thread ever charged is in a context of its own function. */
  lemma {:induction false} CallOwned(
    before: System, step: Step, entered: System, inner: seq<Step>, last: System, tid: nat, cap: nat, funcs: set<nat>)
    requires Formed(before, funcs) && (|before.table.nodes| < cap ==> Owned(LaneOf(before, tid), before.table.nodes))
    requires Legal(before, step, funcs) && entered == Next(before, step, cap)
    requires LegalRun(entered, inner, cap, funcs) && last == Play(entered, inner, cap) && |last.table.nodes| < cap
    ensures Owned(LaneOf(last, tid), last.table.nodes)
  {
    NextKeepsFormed(before, step, cap, funcs);
    RunKeepsFormed(entered, inner, cap, funcs);
    StepKeepsOwned(before, step, entered, tid, cap, funcs);
    RoomKeepsOwned(entered, inner, tid, cap, funcs);
  }

  /** Closing the call adds its own report, in its own context. */
  lemma {:induction false} OwnReport(base: Lane, lane: Lane, d: nat, finish: nat, recorded: seq<Charge>)
    requires Kept(base, lane, d) && |lane.thread.stack| == d + 1 && base.thread.stack[d].countsHere
    requires |base.charges| <= |Left(lane, finish).charges| && recorded == Left(lane, finish).charges[|base.charges|..]
    ensures recorded != [] && recorded[..|recorded| - 1] == lane.charges[|base.charges|..]
    ensures var own, a := recorded[|recorded| - 1], base.thread.stack[d];
            && own.path == a.path && own.func == a.func && own.counts
            && Reported(recorded, a.func) == 1 + Reported(lane.charges[|base.charges|..], a.func)
  {
    KeptBeneath(base, lane, d);
    assert lane.thread.stack[d].(childNs := 0).countsHere == lane.thread.stack[d].countsHere;
    assert Left(lane, finish).charges == lane.charges + [ChargeOf(lane.thread.stack[d], finish)];
  }

  lemma {:induction false} InnerCharges(
    base: Lane, lane: Lane, nodes: seq<PathNode>, d: nat, home: nat, func: nat, recorded: seq<Charge>, cap: nat)
    requires |base.charges| <= |lane.charges| && InnerHome(lane, nodes, d, home, func, |base.charges|, cap)
    requires recorded != [] && recorded[..|recorded| - 1] == lane.charges[|base.charges|..]
    ensures forall j :: 0 <= j < |recorded| - 1 && recorded[j].func == func ==>
              AtRecursion(recorded[j].path, nodes, home, func, cap)
  {
    forall j | 0 <= j < |recorded| - 1
      ensures recorded[j] == lane.charges[|base.charges| + j]
    {
      assert recorded[j] == recorded[..|recorded| - 1][j];
    }
  }

  /** With room, the recursion context is given one report for each that the callees made. */
  lemma {:induction false} ContextReports(
    lane: Lane, table: Table, d: nat, home: nat, func: nat, c: nat, recorded: seq<Charge>, cap: nat, r: nat)
    requires WellFormed(table) && |table.nodes| < cap && c <= |lane.charges|
    requires InnerHome(lane, table.nodes, d, home, func, c, cap) && Owned(lane, table.nodes)
    requires recorded != [] && recorded[..|recorded| - 1] == lane.charges[c..] && recorded[|recorded| - 1].path == home
    requires Names(table.nodes, r, PathNode(home, func))
    ensures Charged(recorded, r, Counts) == Reported(lane.charges[c..], func)
  {
    OnlyThere(lane, table, d, home, func, c, cap, r);
    assert r != home;
  }

  lemma {:induction false} ContextExists(lane: Lane, nodes: seq<PathNode>, d: nat, home: nat, func: nat, c: nat, cap: nat) returns (r: nat)
    requires |nodes| < cap && c <= |lane.charges| && InnerHome(lane, nodes, d, home, func, c, cap)
    requires Reported(lane.charges[c..], func) > 0
    ensures Names(nodes, r, PathNode(home, func))
  {
    var j := ReportedBySome(lane.charges[c..], func);
    assert lane.charges[c..][j] == lane.charges[c + j];
    r := lane.charges[c + j].path;
  }

  /** What the entry reported: `n` calls of the function's second level, each where it should be. */
  ghost predicate EntryReports(recorded: seq<Charge>, nodes: seq<PathNode>, home: nat, func: nat, n: nat, cap: nat) {
    && recorded != []
    && (var own := recorded[|recorded| - 1]; own.path == home && own.func == func && own.counts)
    && Reported(recorded, func) == 1 + n
    && (forall j :: 0 <= j < |recorded| - 1 && recorded[j].func == func ==> AtRecursion(recorded[j].path, nodes, home, func, cap))
    && (|nodes| < cap ==>
          && (n > 0 ==> exists r :: Names(nodes, r, PathNode(home, func)))
          && (forall r :: Names(nodes, r, PathNode(home, func)) ==>
                Charged(recorded, r, Counts) == n && (Charged(recorded, r, Counts) == 1 <==> n == 1)))
  }

  lemma {:induction false} CalleesDone(
    base: Lane, lane: Lane, table: Table, d: nat, finish: nat, recorded: seq<Charge>, n: nat, cap: nat)
    requires WellFormed(table) && Kept(base, lane, d) && |lane.thread.stack| == d + 1 && base.thread.stack[d].countsHere
    requires |base.charges| <= |Left(lane, finish).charges| && recorded == Left(lane, finish).charges[|base.charges|..]
    requires var a := base.thread.stack[d];
             && Reported(lane.charges[|base.charges|..], a.func) == n
             && InnerHome(lane, table.nodes, d, a.path, a.func, |base.charges|, cap)
    requires |table.nodes| < cap ==> Owned(lane, table.nodes)
    ensures EntryReports(recorded, table.nodes, base.thread.stack[d].path, base.thread.stack[d].func, n, cap)
  {
    var a, c := base.thread.stack[d], |base.charges|;
    OwnReport(base, lane, d, finish, recorded);
    InnerCharges(base, lane, table.nodes, d, a.path, a.func, recorded, cap);
    if |table.nodes| < cap {
      if n > 0 { var r := ContextExists(lane, table.nodes, d, a.path, a.func, c, cap); }
      forall r | Names(table.nodes, r, PathNode(a.path, a.func))
        ensures Charged(recorded, r, Counts) == n
      {
        ContextReports(lane, table, d, a.path, a.func, c, recorded, cap, r);
      }
    }
  }

  lemma {:induction false} SpanReportsEntry(
    entered: System, inner: seq<Step>, last: System, tid: nat, d: nat, finish: nat, recorded: seq<Charge>, cap: nat, funcs: set<nat>)
    requires Formed(entered, funcs) && Inside(entered, inner, tid, d, cap, funcs) && last == Play(entered, inner, cap)
    requires |LaneOf(entered, tid).thread.stack| == |LaneOf(last, tid).thread.stack| == d + 1
    requires var a := LaneOf(entered, tid).thread.stack[d];
             && a.countsHere && a.path <= |entered.table.nodes|
             && DepthHome(LaneOf(entered, tid).thread, entered.table.nodes, a.path, a.func, cap)
    requires |last.table.nodes| < cap ==> Owned(LaneOf(last, tid), last.table.nodes)
    requires |LaneOf(entered, tid).charges| <= |Left(LaneOf(last, tid), finish).charges|
    requires recorded == Left(LaneOf(last, tid), finish).charges[|LaneOf(entered, tid).charges|..]
    ensures var a := LaneOf(entered, tid).thread.stack[d];
            EntryReports(recorded, last.table.nodes, a.path, a.func, Reentries(entered, inner, tid, a.func, cap), cap)
  {
    SpanKeeps(entered, inner, tid, d, cap, funcs);
    InnerReports(entered, inner, tid, d, cap, funcs);
    SpanKeepsInner(entered, inner, tid, d, cap, funcs);
    CalleesDone(LaneOf(entered, tid), LaneOf(last, tid), last.table, d, finish, recorded,
                Reentries(entered, inner, tid, LaneOf(entered, tid).thread.stack[d].func, cap), cap);
  }

  /**
    One outermost entry. Over the whole of a call that is outermost for its
    function, on its thread and under any interleaving with others, the function
    reports once for itself and once for each time it is entered at its second
    level. Those reports are made beneath the call's context, or at it once the
    table is full. While the table has room, the one context that names the
    function beneath itself reports, from this entry, exactly as often: once if
    and only if the second level was entered exactly once.
   */
  lemma {:induction false} OutermostEntryReports(
    history: seq<Step>, tid: nat, func: nat, start: nat, inner: seq<Step>, finish: nat, cap: nat, funcs: set<nat>)
    requires LegalRun(START, history, cap, funcs)
    requires OneCall(Play(START, history, cap), tid, func, start, inner, finish, cap, funcs)
    requires Levels(LaneOf(Play(START, history, cap), tid).thread.stack, func) == 0
    ensures var before := Play(START, history, cap);
            var entered := Next(before, Enter(tid, func, start), cap);
            var closed := Next(Play(entered, inner, cap), Leave(tid, finish), cap);
            && |LaneOf(before, tid).charges| <= |LaneOf(closed, tid).charges|
            && |LaneOf(before, tid).thread.stack| < |LaneOf(entered, tid).thread.stack|
            && EntryReports(RecordedBetween(before, closed, tid), closed.table.nodes,
                            LaneOf(entered, tid).thread.stack[|LaneOf(before, tid).thread.stack|].path, func,
                            Reentries(entered, inner, tid, func, cap), cap)
  {
    var before := Play(START, history, cap);
    var entered, d := Next(before, Enter(tid, func, start), cap), |LaneOf(before, tid).thread.stack|;
    var last := Play(entered, inner, cap);
    StartIsSound(funcs);
    RunKeepsFormed(START, history, cap, funcs);
    OutermostOpens(before, tid, func, start, cap, funcs);
    SpanKeeps(entered, inner, tid, d, cap, funcs);
    InsideIsLegal(entered, inner, tid, d, cap, funcs);
    if |before.table.nodes| < cap { RoomMeansOwned(history, tid, cap, funcs); }
    if |last.table.nodes| < cap { CallOwned(before, Enter(tid, func, start), entered, inner, last, tid, cap, funcs); }
    var closed := Left(LaneOf(last, tid), finish);
    SpanReportsEntry(entered, inner, last, tid, d, finish, closed.charges[|LaneOf(entered, tid).charges|..], cap, funcs);
  }
}
