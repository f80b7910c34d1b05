/** A call's elapsed time against the self time recorded in its subtree of the context tree. */
module SubtreeTime {
  import opened Words
  import opened PathRegistry
  import opened Calls
  import opened ContextBound
  import opened SelfTime
  import opened ProbeRuns
  import opened Spans

  /** The step enters, on that thread, a function of a given set. */
  predicate Reenters(step: Step, tid: nat, strays: set<nat>) {
    step.Enter? && step.tid == tid && step.func in strays
  }

  predicate Confined(steps: seq<Step>, tid: nat, strays: set<nat>) {
    forall i :: 0 <= i < |steps| ==> !Reenters(steps[i], tid, strays)
  }

  // ---------------------------------------------------------------- where re-entering a function leads

  /** Whether re-entering a function of this depth would run in the subtree of `top`, as the table stands. */
  ghost predicate StaysUnder(d: Depth, func: nat, nodes: seq<PathNode>, top: nat)
    requires Rooted(nodes)
  {
    if d.recursionPath != 0 then d.recursionPath <= |nodes| && InSubtree(nodes, top, d.recursionPath)
    else (d.path <= |nodes| && InSubtree(nodes, top, d.path)) || Names(nodes, top, PathNode(d.path, func))
  }

  /** The functions running beneath activation `d` whose re-entry would leave the subtree of `top`. */
  ghost function Strays(th: Thread, nodes: seq<PathNode>, d: nat, top: nat): set<nat>
    requires Rooted(nodes) && d <= |th.stack|
  {
    set f | f in Beneath(th.stack, d) && f in th.depth && !StaysUnder(th.depth[f], f, nodes, top)
  }

  lemma {:induction false} DepthPlaced(th: Thread, nodes: seq<PathNode>, func: nat)
    requires Structured(th, nodes) && func in Beneath(th.stack, |th.stack|)
    ensures func in th.depth && OnStack(th, func)
    ensures th.depth[func].path <= |nodes| && th.depth[func].recursionPath <= |nodes|
  {
    LevelsFind(th.stack, func);
    var k := OutermostExists(th.stack, |th.stack|, func);
    assert Placed(th.stack, k, nodes);
  }

  /** A new context's subtrees are its parent's, and its own. */
  lemma {:induction false} ChildInSubtree(nodes: seq<PathNode>, top: nat, id: nat, node: PathNode)
    requires Rooted(nodes) && Names(nodes, id, node)
    ensures InSubtree(nodes, top, id) <==> id == top || InSubtree(nodes, top, node.parent)
  {
  }

  /** Re-entering a function runs in the subtree exactly if its depth said so beforehand. */
  lemma {:induction false} ReentryPlace(th: Thread, table: Table, func: nat, top: nat, cap: nat)
    requires WellFormed(table) && Structured(th, table.nodes) && top <= |table.nodes|
    requires func in Beneath(th.stack, |th.stack|)
    ensures var r := NextContext(th, table, func, cap);
            && func in th.depth && Rooted(r.table.nodes) && r.path <= |r.table.nodes|
            && (InSubtree(r.table.nodes, top, r.path) <==> StaysUnder(th.depth[func], func, table.nodes, top))
  {
    DepthPlaced(th, table.nodes, func);
    NextContextIs(th, table, func, cap);
    var d, r := th.depth[func], NextContext(th, table, func, cap);
    if d.recursionPath == 0 {
      ContextFallsBack(th.memo, table, d.path, func, cap);
      SubtreeStable(table.nodes, r.table.nodes, top, d.path);
      if r.path != d.path {
        ChildInSubtree(r.table.nodes, top, r.path, PathNode(d.path, func));
        if Names(table.nodes, top, PathNode(d.path, func)) { NamesAgree(r.table, PathNode(d.path, func), top, r.path); }
      }
    }
  }

  /** What the depth says does not change as the table grows. */
  lemma {:induction false} StaysAsTableGrows(d: Depth, func: nat, before: seq<PathNode>, after: seq<PathNode>, top: nat)
    requires Rooted(before) && Rooted(after) && before <= after && top <= |before|
    requires d.path <= |before| && d.recursionPath <= |before|
    ensures StaysUnder(d, func, before, top) <==> StaysUnder(d, func, after, top)
  {
    SubtreeStable(before, after, top, d.path);
    SubtreeStable(before, after, top, d.recursionPath);
  }

  /** Nor as the function is re-entered. */
  lemma {:induction false} StaysAsReentered(th: Thread, table: Table, func: nat, now: nat, top: nat, cap: nat)
    requires WellFormed(table) && Structured(th, table.nodes) && top <= |table.nodes|
    requires func in Beneath(th.stack, |th.stack|)
    ensures var (th', table') := Open(th, table, func, now, cap);
            && func in th.depth && func in th'.depth && Rooted(table'.nodes)
            && (StaysUnder(th'.depth[func], func, table'.nodes, top) <==> StaysUnder(th.depth[func], func, table.nodes, top))
  {
    ReentryPlace(th, table, func, top, cap);
    DepthPlaced(th, table.nodes, func);
    NextContextIs(th, table, func, cap);
    var d, r := th.depth[func], NextContext(th, table, func, cap);
    StaysAsTableGrows(d, func, table.nodes, r.table.nodes, top);
  }

  /** Entering any function leaves the strays as they were. */
  lemma {:induction false} OpenKeepsStrays(th: Thread, table: Table, func: nat, now: nat, d: nat, top: nat, cap: nat)
    requires WellFormed(table) && Structured(th, table.nodes) && top <= |table.nodes| && d <= |th.stack|
    ensures var (th', table') := Open(th, table, func, now, cap);
            Rooted(table'.nodes) && Strays(th', table'.nodes, d, top) == Strays(th, table.nodes, d, top)
  {
    var (th', table') := Open(th, table, func, now, cap);
    OpenKeepsStructured(th, table, func, now, cap);
    BeneathPrefix(th.stack, th'.stack, d);
    assert Beneath(th.stack, d) <= Beneath(th.stack, |th.stack|);
    forall f | f in Beneath(th.stack, d)
      ensures f in th.depth && f in th'.depth
      ensures StaysUnder(th'.depth[f], f, table'.nodes, top) <==> StaysUnder(th.depth[f], f, table.nodes, top)
    {
      DepthPlaced(th, table.nodes, f);
      if f == func {
        StaysAsReentered(th, table, f, now, top, cap);
      } else {
        StaysAsTableGrows(th.depth[f], f, table.nodes, table'.nodes, top);
      }
    }
  }

  /** Leaving an activation above `d` does too. */
  lemma {:induction false} CloseKeepsStrays(th: Thread, nodes: seq<PathNode>, now: nat, d: nat, top: nat)
    requires Structured(th, nodes) && d < |th.stack|
    ensures d <= |Close(th, now).stack| && Strays(Close(th, now), nodes, d, top) == Strays(th, nodes, d, top)
  {
    var th' := Close(th, now);
    CloseKeepsStructured(th, nodes, now);
    BeneathPrefix(th.stack, th'.stack, d);
    forall f | f in Beneath(th.stack, d)
      ensures f in th.depth && f in th'.depth
      ensures th'.depth[f].path == th.depth[f].path && th'.depth[f].recursionPath == th.depth[f].recursionPath
    {
      assert Beneath(th.stack, d) <= Beneath(th.stack, |th.stack|) && Beneath(th'.stack, d) <= Beneath(th'.stack, |th'.stack|);
      DepthPlaced(th, nodes, f);
      DepthPlaced(th', nodes, f);
    }
  }

  lemma {:induction false} GrowthKeepsStrays(th: Thread, before: seq<PathNode>, after: seq<PathNode>, d: nat, top: nat)
    requires Structured(th, before) && Rooted(after) && before <= after && top <= |before| && d <= |th.stack|
    ensures Strays(th, after, d, top) == Strays(th, before, d, top)
  {
    forall f | f in Beneath(th.stack, d) && f in th.depth
      ensures StaysUnder(th.depth[f], f, after, top) <==> StaysUnder(th.depth[f], f, before, top)
    {
      assert Beneath(th.stack, d) <= Beneath(th.stack, |th.stack|);
      DepthPlaced(th, before, f);
      StaysAsTableGrows(th.depth[f], f, before, after, top);
    }
  }

  lemma {:induction false} StepKeepsStrays(sys: System, step: Step, tid: nat, d: nat, top: nat, cap: nat, funcs: set<nat>)
    requires Formed(sys, funcs) && Legal(sys, step, funcs) && top <= |sys.table.nodes|
    requires d < |LaneOf(sys, tid).thread.stack| && d < |LaneOf(Next(sys, step, cap), tid).thread.stack|
    ensures Rooted(Next(sys, step, cap).table.nodes)
    ensures Strays(LaneOf(Next(sys, step, cap), tid).thread, Next(sys, step, cap).table.nodes, d, top)
         == Strays(LaneOf(sys, tid).thread, sys.table.nodes, d, top)
  {
    var lane, next := LaneOf(sys, tid), Next(sys, step, cap);
    LaneOfIsSound(sys, tid, funcs);
    NextKeepsFormed(sys, step, cap, funcs);
    if step.tid == tid && step.Enter? {
      OpenKeepsStrays(lane.thread, sys.table, step.func, step.now, d, top, cap);
    } else if step.tid == tid && step.Leave? {
      CloseKeepsStrays(lane.thread, sys.table.nodes, step.now, d, top);
    } else {
      GrowthKeepsStrays(lane.thread, sys.table.nodes, next.table.nodes, d, top);
    }
  }

  // ---------------------------------------------------------------- in the subtree, or out of it

  /** Every activation from `d` up, and every charge from `c` on, is in the subtree of `top`. */
  ghost predicate Under(lane: Lane, nodes: seq<PathNode>, d: nat, top: nat, c: nat)
    requires Rooted(nodes)
  {
    && (forall k :: d <= k < |lane.thread.stack| ==>
          lane.thread.stack[k].path <= |nodes| && InSubtree(nodes, top, lane.thread.stack[k].path))
    && ChargesUnder(lane.charges, nodes, top, c)
  }

  ghost predicate ChargesUnder(charges: seq<Charge>, nodes: seq<PathNode>, top: nat, c: nat)
    requires Rooted(nodes)
  {
    forall j :: c <= j < |charges| ==> charges[j].path <= |nodes| && InSubtree(nodes, top, charges[j].path)
  }

  /** Some activation above `d`, or some charge from `c` on, is outside the subtree of `top`. */
  ghost predicate Astray(lane: Lane, nodes: seq<PathNode>, d: nat, top: nat, c: nat)
    requires Rooted(nodes)
  {
    || (exists k :: d < k < |lane.thread.stack|
          && lane.thread.stack[k].path <= |nodes| && !InSubtree(nodes, top, lane.thread.stack[k].path))
    || (exists j :: c <= j < |lane.charges|
          && lane.charges[j].path <= |nodes| && !InSubtree(nodes, top, lane.charges[j].path))
  }

  lemma {:induction false} UnderGrows(lane: Lane, before: seq<PathNode>, after: seq<PathNode>, d: nat, top: nat, c: nat)
    requires Rooted(before) && Rooted(after) && before <= after
    ensures Under(lane, before, d, top, c) ==> Under(lane, after, d, top, c)
    ensures Astray(lane, before, d, top, c) ==> Astray(lane, after, d, top, c)
  {
    forall id | 0 <= id <= |before|
      ensures InSubtree(before, top, id) <==> InSubtree(after, top, id)
    {
      SubtreeStable(before, after, top, id);
    }
  }

  /** Entering a function not running beneath activation `d` stays in that activation's subtree. */
  lemma {:induction false} AnchorUnder(th: Thread, nodes: seq<PathNode>, d: nat, top: nat, func: nat)
    requires Structured(th, nodes) && d < |th.stack| && func !in Beneath(th.stack, d)
    requires forall k :: d <= k < |th.stack| ==>
      th.stack[k].path <= |nodes| && InSubtree(nodes, top, th.stack[k].path)
    ensures Anchor(th, func) <= |nodes| && InSubtree(nodes, top, Anchor(th, func))
  {
    AnchorIs(th, nodes, func);
    if OnStack(th, func) {
      var k := OutermostExists(th.stack, |th.stack|, func);
      assert Placed(th.stack, k, nodes);
      assert k >= d;
    }
  }

  /** The context of an activation just entered hangs off the anchor, in whatever subtree that is in. */
  lemma {:induction false} EnteredUnder(sys: System, step: Step, tid: nat, top: nat, cap: nat, funcs: set<nat>)
    requires Formed(sys, funcs) && step.Enter? && step.tid == tid
    requires var anchor := Anchor(LaneOf(sys, tid).thread, step.func);
             anchor <= |sys.table.nodes| && InSubtree(sys.table.nodes, top, anchor)
    ensures var lane, next := LaneOf(sys, tid), Next(sys, step, cap);
            var path := LaneOf(next, tid).thread.stack[|lane.thread.stack|].path;
            && Rooted(next.table.nodes) && path <= |next.table.nodes|
            && InSubtree(next.table.nodes, top, path)
  {
    var lane := LaneOf(sys, tid);
    LaneOfIsSound(sys, tid, funcs);
    NextContextIs(lane.thread, sys.table, step.func, cap);
    var table := NextContext(lane.thread, sys.table, step.func, cap).table;
    SubtreeStable(sys.table.nodes, table.nodes, top, Anchor(lane.thread, step.func));
  }

  lemma {:induction false} UnderStep(sys: System, step: Step, tid: nat, d: nat, top: nat, c: nat, cap: nat, funcs: set<nat>)
    requires Formed(sys, funcs) && Legal(sys, step, funcs)
    requires d < |LaneOf(sys, tid).thread.stack| && c <= |LaneOf(sys, tid).charges|
    requires Under(LaneOf(sys, tid), sys.table.nodes, d, top, c)
    requires top <= |sys.table.nodes| && !Reenters(step, tid, Strays(LaneOf(sys, tid).thread, sys.table.nodes, d, top))
    ensures Rooted(Next(sys, step, cap).table.nodes)
    ensures Under(LaneOf(Next(sys, step, cap), tid), Next(sys, step, cap).table.nodes, d, top, c)
  {
    var lane, lane', nodes := LaneOf(sys, tid), LaneOf(Next(sys, step, cap), tid), Next(sys, step, cap).table.nodes;
    LaneOfIsSound(sys, tid, funcs);
    NextKeepsFormed(sys, step, cap, funcs);
    LaneStep(sys, step, tid, cap);
    UnderGrows(lane, sys.table.nodes, nodes, d, top, c);
    if step.tid == tid && step.Enter? {
      if step.func in Beneath(lane.thread.stack, d) {
        assert Beneath(lane.thread.stack, d) <= Beneath(lane.thread.stack, |lane.thread.stack|);
        ReentryPlace(lane.thread, sys.table, step.func, top, cap);
      } else {
        AnchorUnder(lane.thread, sys.table.nodes, d, top, step.func);
        EnteredUnder(sys, step, tid, top, cap, funcs);
      }
    }
    UnderMoves(lane, lane', nodes, step, tid, d, top, c);
  }

  lemma {:induction false} UnderMoves(lane: Lane, lane': Lane, nodes: seq<PathNode>, step: Step, tid: nat, d: nat, top: nat, c: nat)
    requires Rooted(nodes) && Under(lane, nodes, d, top, c) && LaneMoves(lane, lane', step, tid)
    requires d < |lane.thread.stack| && c <= |lane.charges|
    requires step.tid == tid && step.Enter? ==>
      var path := lane'.thread.stack[|lane.thread.stack|].path;
      path <= |nodes| && InSubtree(nodes, top, path)
    ensures Under(lane', nodes, d, top, c)
  {
    forall k | d <= k < |lane'.thread.stack|
      ensures lane'.thread.stack[k].path <= |nodes| && InSubtree(nodes, top, lane'.thread.stack[k].path)
    {
      if k < |lane.thread.stack| { SamePath(lane, lane', step, tid, k); }
    }
  }

  lemma {:induction false} AstrayMoves(lane: Lane, lane': Lane, nodes: seq<PathNode>, step: Step, tid: nat, d: nat, top: nat, c: nat)
    requires Rooted(nodes) && Astray(lane, nodes, d, top, c) && LaneMoves(lane, lane', step, tid)
    requires c <= |lane.charges|
    ensures Astray(lane', nodes, d, top, c)
  {
    if j :| c <= j < |lane.charges| && lane.charges[j].path <= |nodes| && !InSubtree(nodes, top, lane.charges[j].path) {
      assert lane'.charges[j] == lane.charges[j];
    } else {
      var k :| d < k < |lane.thread.stack|
        && lane.thread.stack[k].path <= |nodes| && !InSubtree(nodes, top, lane.thread.stack[k].path);
      if k < |lane'.thread.stack| {
        SamePath(lane, lane', step, tid, k);
      } else {
        assert lane'.charges[|lane.charges|].path == lane.thread.stack[k].path;
      }
    }
  }

  lemma {:induction false} AstrayStep(sys: System, step: Step, tid: nat, d: nat, top: nat, c: nat, cap: nat, funcs: set<nat>)
    requires Formed(sys, funcs) && Legal(sys, step, funcs)
    requires c <= |LaneOf(sys, tid).charges|
    requires Astray(LaneOf(sys, tid), sys.table.nodes, d, top, c)
    ensures Rooted(Next(sys, step, cap).table.nodes)
    ensures Astray(LaneOf(Next(sys, step, cap), tid), Next(sys, step, cap).table.nodes, d, top, c)
  {
    var lane, lane', nodes := LaneOf(sys, tid), LaneOf(Next(sys, step, cap), tid), Next(sys, step, cap).table.nodes;
    NextKeepsFormed(sys, step, cap, funcs);
    LaneStep(sys, step, tid, cap);
    UnderGrows(lane, sys.table.nodes, nodes, d, top, c);
    AstrayMoves(lane, lane', nodes, step, tid, d, top, c);
  }

  lemma {:induction false} ReentryStrays(sys: System, step: Step, tid: nat, d: nat, top: nat, cap: nat, funcs: set<nat>)
    requires Formed(sys, funcs) && Legal(sys, step, funcs) && top <= |sys.table.nodes|
    requires d < |LaneOf(sys, tid).thread.stack|
    requires Reenters(step, tid, Strays(LaneOf(sys, tid).thread, sys.table.nodes, d, top))
    ensures Rooted(Next(sys, step, cap).table.nodes)
    ensures Astray(LaneOf(Next(sys, step, cap), tid), Next(sys, step, cap).table.nodes, d, top, |LaneOf(sys, tid).charges|)
  {
    var th := LaneOf(sys, tid).thread;
    LaneOfIsSound(sys, tid, funcs);
    assert Beneath(th.stack, d) <= Beneath(th.stack, |th.stack|);
    ReentryPlace(th, sys.table, step.func, top, cap);
    var stack' := LaneOf(Next(sys, step, cap), tid).thread.stack;
    assert stack'[|th.stack|].path == NextContext(th, sys.table, step.func, cap).path;
  }

  // ---------------------------------------------------------------- whole spans

  /** The call has been open since its lane was `base`, and the strays are still the same. */
  ghost predicate CallOpen(sys: System, base: Lane, tid: nat, d: nat, top: nat, strays: set<nat>, funcs: set<nat>) {
    && Formed(sys, funcs) && Kept(base, LaneOf(sys, tid), d) && top <= |sys.table.nodes|
    && Strays(LaneOf(sys, tid).thread, sys.table.nodes, d, top) == strays
  }

  lemma {:induction false} StaysOpen(
    sys: System, step: Step, next: System, base: Lane, tid: nat, d: nat, top: nat, strays: set<nat>, cap: nat, funcs: set<nat>)
    requires CallOpen(sys, base, tid, d, top, strays, funcs) && Legal(sys, step, funcs)
    requires next == Next(sys, step, cap) && |LaneOf(next, tid).thread.stack| > d
    ensures CallOpen(next, base, tid, d, top, strays, funcs)
  {
    NextKeepsFormed(sys, step, cap, funcs);
    KeptNext(sys, step, base, tid, d, cap, funcs);
    StepKeepsStrays(sys, step, tid, d, top, cap, funcs);
  }

  lemma {:induction false} SpanStaysOpen(
    sys: System, steps: seq<Step>, base: Lane, tid: nat, d: nat, top: nat, strays: set<nat>, cap: nat, funcs: set<nat>)
    requires CallOpen(sys, base, tid, d, top, strays, funcs) && Inside(sys, steps, tid, d, cap, funcs)
    ensures CallOpen(Play(sys, steps, cap), base, tid, d, top, strays, funcs)
  {
    if steps != [] {
      var front, step := steps[..|steps| - 1], steps[|steps| - 1];
      SpanStaysOpen(sys, front, base, tid, d, top, strays, cap, funcs);
      StaysOpen(Play(sys, front, cap), step, Play(sys, steps, cap), base, tid, d, top, strays, cap, funcs);
    }
  }

  lemma {:induction false} ConfinedSplit(front: seq<Step>, step: Step, steps: seq<Step>, tid: nat, strays: set<nat>)
    requires steps == front + [step]
    ensures Confined(steps, tid, strays) <==> Confined(front, tid, strays) && !Reenters(step, tid, strays)
  {
    assert forall i :: 0 <= i < |front| ==> front[i] == steps[i];
    assert steps[|front|] == step;
  }

  lemma {:induction false} UnderNext(
    sys: System, step: Step, next: System, base: Lane, tid: nat, d: nat, top: nat, strays: set<nat>, cap: nat, funcs: set<nat>)
    requires CallOpen(sys, base, tid, d, top, strays, funcs) && Legal(sys, step, funcs)
    requires next == Next(sys, step, cap) && !Reenters(step, tid, strays)
    requires Under(LaneOf(sys, tid), sys.table.nodes, d, top, |base.charges|)
    ensures Rooted(next.table.nodes) && Under(LaneOf(next, tid), next.table.nodes, d, top, |base.charges|)
  {
    UnderStep(sys, step, tid, d, top, |base.charges|, cap, funcs);
  }

  /** A confined span keeps to the subtree. */
  lemma {:induction false} SpanStaysUnder(
    sys: System, steps: seq<Step>, base: Lane, tid: nat, d: nat, top: nat, strays: set<nat>, cap: nat, funcs: set<nat>)
    requires CallOpen(sys, base, tid, d, top, strays, funcs) && Inside(sys, steps, tid, d, cap, funcs)
    requires Under(LaneOf(sys, tid), sys.table.nodes, d, top, |base.charges|) && Confined(steps, tid, strays)
    ensures Rooted(Play(sys, steps, cap).table.nodes)
    ensures Under(LaneOf(Play(sys, steps, cap), tid), Play(sys, steps, cap).table.nodes, d, top, |base.charges|)
  {
    if steps != [] {
      var front, step := steps[..|steps| - 1], steps[|steps| - 1];
      ConfinedSplit(front, step, steps, tid, strays);
      SpanStaysOpen(sys, front, base, tid, d, top, strays, cap, funcs);
      SpanStaysUnder(sys, front, base, tid, d, top, strays, cap, funcs);
      UnderNext(Play(sys, front, cap), step, Play(sys, steps, cap), base, tid, d, top, strays, cap, funcs);
    }
  }

  lemma {:induction false} AstrayNext(
    sys: System, step: Step, next: System, base: Lane, tid: nat, d: nat, top: nat, strays: set<nat>, cap: nat, funcs: set<nat>)
    requires CallOpen(sys, base, tid, d, top, strays, funcs) && Legal(sys, step, funcs) && next == Next(sys, step, cap)
    requires Reenters(step, tid, strays) || Astray(LaneOf(sys, tid), sys.table.nodes, d, top, |base.charges|)
    ensures Rooted(next.table.nodes) && Astray(LaneOf(next, tid), next.table.nodes, d, top, |base.charges|)
  {
    if Reenters(step, tid, strays) {
      ReentryStrays(sys, step, tid, d, top, cap, funcs);
      AstrayFromEarlier(LaneOf(next, tid), next.table.nodes, d, top, |base.charges|, |LaneOf(sys, tid).charges|);
    } else {
      AstrayStep(sys, step, tid, d, top, |base.charges|, cap, funcs);
    }
  }

  lemma {:induction false} AstrayFromEarlier(lane: Lane, nodes: seq<PathNode>, d: nat, top: nat, c: nat, later: nat)
    requires Rooted(nodes) && Astray(lane, nodes, d, top, later) && c <= later
    ensures Astray(lane, nodes, d, top, c)
  {
  }

  /** Any other span has left it for good. */
  lemma {:induction false} SpanStrays(
    sys: System, steps: seq<Step>, base: Lane, tid: nat, d: nat, top: nat, strays: set<nat>, cap: nat, funcs: set<nat>)
    requires CallOpen(sys, base, tid, d, top, strays, funcs) && Inside(sys, steps, tid, d, cap, funcs)
    requires !Confined(steps, tid, strays)
    ensures Rooted(Play(sys, steps, cap).table.nodes)
    ensures Astray(LaneOf(Play(sys, steps, cap), tid), Play(sys, steps, cap).table.nodes, d, top, |base.charges|)
  {
    var front, step := steps[..|steps| - 1], steps[|steps| - 1];
    ConfinedSplit(front, step, steps, tid, strays);
    SpanStaysOpen(sys, front, base, tid, d, top, strays, cap, funcs);
    if !Reenters(step, tid, strays) { SpanStrays(sys, front, base, tid, d, top, strays, cap, funcs); }
    AstrayNext(Play(sys, front, cap), step, Play(sys, steps, cap), base, tid, d, top, strays, cap, funcs);
  }

  /** A call that has just opened runs in its own subtree. */
  lemma {:induction false} UnderStart(lane: Lane, nodes: seq<PathNode>, d: nat, clock: nat)
    requires LaneSound(lane, nodes, clock) && |lane.thread.stack| == d + 1
    ensures lane.thread.stack[d].path <= |nodes|
    ensures Under(lane, nodes, d, lane.thread.stack[d].path, |lane.charges|)
  {
    assert Placed(lane.thread.stack, d, nodes);
  }

  /**
    Subtree time. From the moment a call opens to the moment it closes, in any
    run and under any interleaving with other threads, the self time its thread
    records sums exactly to the call's elapsed time. All of it lands in the
    subtree of the call's context if and only if nothing inside re-enters a
    function running beneath whose next context, read from its depth and the
    table as the call opens, is outside that subtree.
   */
  lemma {:induction false} SubtreeSumsToElapsed(
    history: seq<Step>, tid: nat, func: nat, start: nat, inner: seq<Step>, finish: nat, cap: nat, funcs: set<nat>)
    requires LegalRun(START, history, cap, funcs)
    requires OneCall(Play(START, history, cap), tid, func, start, inner, finish, cap, funcs)
    ensures var before := Play(START, history, cap);
            var d := |LaneOf(before, tid).thread.stack|;
            var entered := Next(before, Enter(tid, func, start), cap);
            var closed := Next(Play(entered, inner, cap), Leave(tid, finish), cap);
            var call := LaneOf(entered, tid).thread.stack[d];
            && start <= finish
            && Rooted(entered.table.nodes) && Rooted(closed.table.nodes)
            && |LaneOf(before, tid).charges| <= |LaneOf(closed, tid).charges|
            && var recorded := RecordedBetween(before, closed, tid);
            && ChargeNs(recorded) == finish - start
            && (ChargesUnder(recorded, closed.table.nodes, call.path, 0) <==>
                Confined(inner, tid, Strays(LaneOf(entered, tid).thread, entered.table.nodes, d, call.path)))
  {
    var before := Play(START, history, cap);
    StartIsSound(funcs);
    RunKeepsSound(START, history, cap, funcs);
    CallSpans(before, Next(before, Enter(tid, func, start), cap), tid, func, start, inner, finish, cap, funcs);
  }

  lemma {:induction false} CallSpans(
    before: System, entered: System, tid: nat, func: nat, start: nat, inner: seq<Step>, finish: nat, cap: nat, funcs: set<nat>)
    requires Formed(before, funcs) && OneCall(before, tid, func, start, inner, finish, cap, funcs)
    requires entered == Next(before, Enter(tid, func, start), cap)
    ensures var d := |LaneOf(before, tid).thread.stack|;
            var closed := Next(Play(entered, inner, cap), Leave(tid, finish), cap);
            && start <= finish && |LaneOf(entered, tid).thread.stack| == d + 1
            && Rooted(entered.table.nodes) && Rooted(closed.table.nodes)
            && |LaneOf(before, tid).charges| <= |LaneOf(closed, tid).charges|
            && var recorded := RecordedBetween(before, closed, tid);
            var call := LaneOf(entered, tid).thread.stack[d];
            && ChargeNs(recorded) == finish - start
            && (ChargesUnder(recorded, closed.table.nodes, call.path, 0) <==>
                Confined(inner, tid, Strays(LaneOf(entered, tid).thread, entered.table.nodes, d, call.path)))
  {
    var d := |LaneOf(before, tid).thread.stack|;
    EnterOpens(before, tid, func, start, cap);
    NextKeepsFormed(before, Enter(tid, func, start), cap, funcs);
    LaneOfIsSound(entered, tid, funcs);
    UnderStart(LaneOf(entered, tid), entered.table.nodes, d, entered.clock);
    var base, last := LaneOf(entered, tid), Play(entered, inner, cap);
    var top := base.thread.stack[d].path;
    var strays := Strays(base.thread, entered.table.nodes, d, top);
    SpanStaysOpen(entered, inner, base, tid, d, top, strays, cap, funcs);
    if Confined(inner, tid, strays) {
      SpanStaysUnder(entered, inner, base, tid, d, top, strays, cap, funcs);
    } else {
      SpanStrays(entered, inner, base, tid, d, top, strays, cap, funcs);
    }
    CallCloses(last, base, tid, d, Confined(inner, tid, strays), start, finish, cap, funcs);
  }

  /** The last step of a span: the call's own self time completes the sum. */
  lemma {:induction false} CallCloses(
    sys: System, base: Lane, tid: nat, d: nat, confined: bool, start: nat, finish: nat, cap: nat, funcs: set<nat>)
    requires Formed(sys, funcs) && Legal(sys, Leave(tid, finish), funcs)
    requires Kept(base, LaneOf(sys, tid), d) && |LaneOf(sys, tid).thread.stack| == d + 1
    requires var lane, top := LaneOf(sys, tid), base.thread.stack[d].path;
             if confined then Under(lane, sys.table.nodes, d, top, |base.charges|)
             else Astray(lane, sys.table.nodes, d, top, |base.charges|)
    requires base.thread.stack[d].childNs == 0 && base.thread.stack[d].start == start
    ensures var closed := Next(sys, Leave(tid, finish), cap);
            && start <= finish
            && |base.charges| <= |LaneOf(closed, tid).charges|
            && var recorded := LaneOf(closed, tid).charges[|base.charges|..];
            && closed.table == sys.table
            && ChargeNs(recorded) == finish - start
            && (ChargesUnder(recorded, sys.table.nodes, base.thread.stack[d].path, 0) <==> confined)
  {
    var lane, closed := LaneOf(sys, tid), LaneOf(Next(sys, Leave(tid, finish), cap), tid);
    var c, top := |base.charges|, base.thread.stack[d].path;
    LaneOfIsSound(sys, tid, funcs);
    KeptBeneath(base, lane, d);
    CallBalances(base, lane, d, sys.clock, finish);
    RecordedCharges(closed.charges, closed.charges[c..], c, sys.table.nodes, top);
    LaneStep(sys, Leave(tid, finish), tid, cap);
    if confined {
      CallUnder(lane, closed, sys.table.nodes, Leave(tid, finish), tid, d, top, c);
    } else {
      AstrayMoves(lane, closed, sys.table.nodes, Leave(tid, finish), tid, d, top, c);
      assert closed.thread.stack == [] || |closed.thread.stack| == d;
    }
  }

  lemma {:induction false} CallUnder(lane: Lane, lane': Lane, nodes: seq<PathNode>, step: Step, tid: nat, d: nat, top: nat, c: nat)
    requires Rooted(nodes) && Under(lane, nodes, d, top, c) && LaneMoves(lane, lane', step, tid)
    requires step.Leave? && d < |lane.thread.stack| && c <= |lane.charges|
    ensures ChargesUnder(lane'.charges, nodes, top, c)
  {
  }

  lemma {:induction false} RecordedCharges(charges: seq<Charge>, recorded: seq<Charge>, c: nat, nodes: seq<PathNode>, top: nat)
    requires c <= |charges| && recorded == charges[c..] && Rooted(nodes)
    ensures ChargesUnder(recorded, nodes, top, 0) <==> ChargesUnder(charges, nodes, top, c)
  {
    assert forall j :: 0 <= j < |recorded| ==> recorded[j] == charges[c + j];
    assert forall j :: c <= j < |charges| ==> charges[j] == recorded[j - c];
  }

  // ---------------------------------------------------------------- calls with a context of their own

  /** A subtree's contexts all extend its top's chain. */
  lemma {:induction false} SubtreeChainsExtend(nodes: seq<PathNode>, top: nat, id: nat)
    requires Rooted(nodes) && id <= |nodes| && InSubtree(nodes, top, id)
    ensures top <= |nodes| && Elements(Chain(nodes, top)) <= Elements(Chain(nodes, id))
    decreases id
  {
    if id != top { SubtreeChainsExtend(nodes, top, nodes[id - 1].parent); }
  }

  /** The activation is outermost for its function and the table had room for a context of its own. */
  ghost predicate OwnsContext(a: Activation, nodes: seq<PathNode>) {
    a.outermost && 1 <= a.path <= |nodes| && nodes[a.path - 1].func == a.func
  }

  /** For a call outermost for its function, with a context of its own, every function beneath strays. */
  lemma {:induction false} BeneathOwnersAllStray(th: Thread, nodes: seq<PathNode>, d: nat)
    requires Structured(th, nodes) && d < |th.stack| && OwnsContext(th.stack[d], nodes)
    ensures Strays(th, nodes, d, th.stack[d].path) == Beneath(th.stack, d)
  {
    forall f | f in Beneath(th.stack, d)
      ensures f in th.depth && !StaysUnder(th.depth[f], f, nodes, th.stack[d].path)
    {
      ReentryMissesOwner(th, nodes, d, f);
    }
  }

  lemma {:induction false} ReentryMissesOwner(th: Thread, nodes: seq<PathNode>, d: nat, func: nat)
    requires Structured(th, nodes) && d < |th.stack| && OwnsContext(th.stack[d], nodes) && func in Beneath(th.stack, d)
    ensures func in th.depth && !StaysUnder(th.depth[func], func, nodes, th.stack[d].path)
  {
    var a := th.stack[d];
    assert Beneath(th.stack, d) <= Beneath(th.stack, |th.stack|);
    DepthPlaced(th, nodes, func);
    var k := OutermostExists(th.stack, d, func);
    assert Placed(th.stack, k, nodes) && Placed(th.stack, d, nodes) && DepthTrue(th.depth[func], th.stack[k], nodes);
    assert Beneath(th.stack, k + 1) <= Beneath(th.stack, d);
    var outer, chain := th.depth[func].path, Chain(nodes, a.path);
    assert chain[|chain| - 1] == a.func;
    assert a.func !in Elements(Chain(nodes, outer)) && a.func != func;
    if InSubtree(nodes, a.path, outer) { SubtreeChainsExtend(nodes, a.path, outer); }
    var rec := th.depth[func].recursionPath;
    if rec != 0 {
      ReachedChain(nodes, outer, func, rec);
      AnchorChainExtends(Chain(nodes, outer), Chain(nodes, rec), func);
      assert a.func !in Elements(Chain(nodes, rec));
      if InSubtree(nodes, a.path, rec) { SubtreeChainsExtend(nodes, a.path, rec); }
    }
  }
}
