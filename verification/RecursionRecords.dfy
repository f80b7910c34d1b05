/** What recursion records, where the documentation says more than the code does. */
module RecursionRecords {
  import opened Words
  import opened PathRegistry
  import opened SampleStore
  import opened Calls
  import opened ContextBound
  import opened ProbeRuns
  import opened Spans
  import opened SubtreeTime
  import opened ChargeLedger
  import opened RecursionCounts

  /** Plays one more step inside the call at depth `d`, landing in `next`. */
  lemma {:induction false} Stays(start: System, steps: seq<Step>, step: Step, here: System, next: System, d: nat, func: nat, funcs: set<nat>)
    requires Inside(start, steps, 0, d, 8, funcs) && Play(start, steps, 8) == here
    requires Legal(here, step, funcs) && Next(here, step, 8) == next && |LaneOf(next, 0).thread.stack| > d
    ensures Inside(start, steps + [step], 0, d, 8, funcs) && Play(start, steps + [step], 8) == next
    ensures Reentries(start, steps + [step], 0, func, 8)
         == Reentries(start, steps, 0, func, 8) + if EntersSecondLevel(here, step, 0, func) then 1 else 0
  {
    assert (steps + [step])[..|steps|] == steps;
  }

  /** One thread's state, with `names` interned and the given stack, depths, recorded contexts and charges. */
  function Lone(
    nodes: seq<PathNode>, names: map<PathNode, nat>, stack: seq<Activation>, depth: map<nat, Depth>,
    stacks: map<nat, StackStat>, charges: seq<Charge>, clock: nat): System
  {
    System(Table(nodes, names, 0), map[0 := Lane(Thread(stack, depth, names, Accum(map[], stacks)), 0, charges)], NOTHING, clock)
  }

  /** Two one-thread states alike in every part are one. */
  lemma {:induction false} SameState(a: System, b: System)
    requires a.table.nodes == b.table.nodes && a.table.index == b.table.index && a.table.overflowed == b.table.overflowed
    requires a.lanes.Keys == b.lanes.Keys == {0} && a.taken == b.taken && a.clock == b.clock
    requires var l, m := a.lanes[0], b.lanes[0];
             && l.bottomNs == m.bottomNs && l.charges == m.charges
             && l.thread.stack == m.thread.stack && l.thread.depth == m.thread.depth && l.thread.memo == m.thread.memo
             && l.thread.accum.calls == m.thread.accum.calls && l.thread.accum.stacks == m.thread.accum.stacks
    ensures a == b
  {
    assert a.lanes[0] == b.lanes[0];
    assert a.lanes == b.lanes;
  }

  // ---------------------------------------------------------------- branching

  function Root(f: nat): PathNode { PathNode(0, f) }
  function Self(f: nat): PathNode { PathNode(1, f) }
  function Outer(f: nat, childNs: nat): Activation { Activation(f, 1, 0, childNs, true, true) }

  function InnerCharge(f: nat): Charge { Charge(2, 1, f, true) }

  function B1(f: nat): System {
    Lone([Root(f)], map[Root(f) := 1], [Outer(f, 0)], map[f := Depth(1, 1, 0)], map[], [], 0)
  }

  function B2(f: nat): System {
    Lone([Root(f), Self(f)], map[Root(f) := 1, Self(f) := 2], [Outer(f, 0), Activation(f, 2, 1, 0, false, true)],
         map[f := Depth(2, 1, 2)], map[], [], 1)
  }

  function B3(f: nat): System {
    Lone([Root(f), Self(f)], map[Root(f) := 1, Self(f) := 2], [Outer(f, 1)],
         map[f := Depth(1, 1, 2)], map[2 := StackStat(1, 1)], [InnerCharge(f)], 2)
  }

  function B4(f: nat): System {
    Lone([Root(f), Self(f)], map[Root(f) := 1, Self(f) := 2], [Outer(f, 1), Activation(f, 2, 3, 0, false, true)],
         map[f := Depth(2, 1, 2)], map[2 := StackStat(1, 1)], [InnerCharge(f)], 3)
  }

  function B5(f: nat): System {
    Lone([Root(f), Self(f)], map[Root(f) := 1, Self(f) := 2], [Outer(f, 2)],
         map[f := Depth(1, 1, 2)], map[2 := StackStat(2, 2)], [InnerCharge(f), InnerCharge(f)], 4)
  }

  lemma {:induction false} ToB1(f: nat)
    ensures Next(START, Enter(0, f, 0), 8) == B1(f)
  {
    assert [] + [Root(f)] == [Root(f)] && [] + [Outer(f, 0)] == [Outer(f, 0)];
    SameState(Next(START, Enter(0, f, 0), 8), B1(f));
  }

  lemma {:induction false} ToB2(f: nat)
    ensures Next(B1(f), Enter(0, f, 1), 8) == B2(f)
  {
    assert [Root(f)] + [Self(f)] == [Root(f), Self(f)];
    SameState(Next(B1(f), Enter(0, f, 1), 8), B2(f));
  }

  lemma {:induction false} ToB3(f: nat)
    ensures Next(B2(f), Leave(0, 2), 8) == B3(f)
  {
    var inner := Activation(f, 2, 1, 0, false, true);
    assert [Outer(f, 0), inner][..1] == [Outer(f, 0)] && [Outer(f, 0)][0 := Outer(f, 1)] == [Outer(f, 1)];
    SameState(Next(B2(f), Leave(0, 2), 8), B3(f));
  }

  lemma {:induction false} ToB4(f: nat)
    ensures Next(B3(f), Enter(0, f, 3), 8) == B4(f)
  {
    var inner := Activation(f, 2, 3, 0, false, true);
    assert [Outer(f, 1)] + [inner] == [Outer(f, 1), inner];
    SameState(Next(B3(f), Enter(0, f, 3), 8), B4(f));
  }

  lemma {:induction false} ToB5(f: nat)
    ensures Next(B4(f), Leave(0, 4), 8) == B5(f)
  {
    var inner := Activation(f, 2, 3, 0, false, true);
    assert [Outer(f, 1), inner][..1] == [Outer(f, 1)] && [Outer(f, 1)][0 := Outer(f, 2)] == [Outer(f, 2)];
    assert [InnerCharge(f)] + [InnerCharge(f)] == [InnerCharge(f), InnerCharge(f)];
    SameState(Next(B4(f), Leave(0, 4), 8), B5(f));
  }

  lemma {:induction false} ToEnd(f: nat)
    ensures var end := Next(B5(f), Leave(0, 5), 8);
            && end.table == B5(f).table
            && LaneOf(end, 0).charges == [InnerCharge(f), InnerCharge(f), Charge(1, 3, f, true)]
            && StackAt(LaneOf(end, 0).thread.accum.stacks, 2).count == 2
            && CallAt(LaneOf(end, 0).thread.accum.calls, f).count == 1
  {
    assert [InnerCharge(f), InnerCharge(f)] + [Charge(1, 3, f, true)] == [InnerCharge(f), InnerCharge(f), Charge(1, 3, f, true)];
  }

  lemma {:induction false} Alone(a: Activation, func: nat)
    ensures Levels([a], func) == if a.func == func then 1 else 0
  {
    assert [a][..0] == [];
  }

  /** A function calls itself, and when that call is over calls itself again. */
  function Branching(f: nat): seq<Step> {
    [] + [Enter(0, f, 1)] + [Leave(0, 2)] + [Enter(0, f, 3)] + [Leave(0, 4)]
  }

  lemma {:induction false} BranchingPlays(f: nat)
    ensures Inside(B1(f), Branching(f), 0, 0, 8, {f}) && Play(B1(f), Branching(f), 8) == B5(f)
    ensures Reentries(B1(f), Branching(f), 0, f, 8) == 2
  {
    ToB2(f);
    ToB3(f);
    ToB4(f);
    ToB5(f);
    Alone(Outer(f, 0), f);
    Alone(Outer(f, 1), f);
    Stays(B1(f), [], Enter(0, f, 1), B1(f), B2(f), 0, f, {f});
    Stays(B1(f), [] + [Enter(0, f, 1)], Leave(0, 2), B2(f), B3(f), 0, f, {f});
    Stays(B1(f), [] + [Enter(0, f, 1)] + [Leave(0, 2)], Enter(0, f, 3), B3(f), B4(f), 0, f, {f});
    Stays(B1(f), [] + [Enter(0, f, 1)] + [Leave(0, 2)] + [Enter(0, f, 3)], Leave(0, 4), B4(f), B5(f), 0, f, {f});
  }

  /**
    A legal outermost call of a function that calls itself twice: one duration,
    two entries of its second level, and two calls reported by its recursion
    context, where the documentation promises one per outermost entry.
   */
  lemma {:induction false} BranchingRecursionReportsTwice(f: nat)
    ensures LegalRun(START, [], 8, {f}) && OneCall(Play(START, [], 8), 0, f, 0, Branching(f), 5, 8, {f})
    ensures Levels(LaneOf(Play(START, [], 8), 0).thread.stack, f) == 0
    ensures var entered := Next(Play(START, [], 8), Enter(0, f, 0), 8);
            var end := Next(Play(entered, Branching(f), 8), Leave(0, 5), 8);
            && Reentries(entered, Branching(f), 0, f, 8) == 2
            && end.table.nodes == [PathNode(0, f), PathNode(1, f)]
            && Charged(LaneOf(end, 0).charges, 2, Counts) == StackAt(LaneOf(end, 0).thread.accum.stacks, 2).count == 2
            && CallAt(LaneOf(end, 0).thread.accum.calls, f).count == 1
  {
    ToB1(f);
    BranchingPlays(f);
    ToEnd(f);
    TwoAtTheRecursion(f);
  }

  lemma {:induction false} TwoAtTheRecursion(f: nat)
    ensures Charged([InnerCharge(f), InnerCharge(f), Charge(1, 3, f, true)], 2, Counts) == 2
  {
    var all := [InnerCharge(f), InnerCharge(f), Charge(1, 3, f, true)];
    assert all[..2] == [InnerCharge(f), InnerCharge(f)] && all[..2][..1] == [InnerCharge(f)] && [InnerCharge(f)][..0] == [];
    assert Charged([InnerCharge(f)], 2, Counts) == 1;
    assert Charged(all[..2], 2, Counts) == 2;
  }

  // ---------------------------------------------------------------- two functions calling each other

  function Mutual(f: nat, g: nat): seq<PathNode> { [PathNode(0, f), PathNode(1, g), PathNode(1, f)] }

  function MutualNames(f: nat, g: nat): map<PathNode, nat> {
    map[PathNode(0, f) := 1, PathNode(1, g) := 2, PathNode(1, f) := 3]
  }

  function M2(f: nat, g: nat): System {
    Lone([PathNode(0, f), PathNode(1, g)], map[PathNode(0, f) := 1, PathNode(1, g) := 2],
         [Outer(f, 0), Activation(g, 2, 1, 0, true, true)], map[f := Depth(1, 1, 0), g := Depth(1, 2, 0)], map[], [], 1)
  }

  function M3(f: nat, g: nat): System {
    Lone(Mutual(f, g), MutualNames(f, g),
         [Outer(f, 0), Activation(g, 2, 1, 0, true, true), Activation(f, 3, 2, 0, false, true)],
         map[f := Depth(2, 1, 3), g := Depth(1, 2, 0)], map[], [], 2)
  }

  function M4(f: nat, g: nat): System {
    Lone(Mutual(f, g), MutualNames(f, g), [Outer(f, 0), Activation(g, 2, 1, 3, true, true)],
         map[f := Depth(1, 1, 3), g := Depth(1, 2, 0)], map[3 := StackStat(1, 3)], [Charge(3, 3, f, true)], 5)
  }

  lemma {:induction false} ToM2(f: nat, g: nat)
    requires f != g
    ensures Next(B1(f), Enter(0, g, 1), 8) == M2(f, g)
  {
    assert [Root(f)] + [PathNode(1, g)] == [PathNode(0, f), PathNode(1, g)];
    SameState(Next(B1(f), Enter(0, g, 1), 8), M2(f, g));
  }

  lemma {:induction false} ToM3(f: nat, g: nat)
    requires f != g
    ensures Next(M2(f, g), Enter(0, f, 2), 8) == M3(f, g)
  {
    assert [PathNode(0, f), PathNode(1, g)] + [PathNode(1, f)] == Mutual(f, g);
    SameState(Next(M2(f, g), Enter(0, f, 2), 8), M3(f, g));
  }

  lemma {:induction false} ToM4(f: nat, g: nat)
    requires f != g
    ensures Next(M3(f, g), Leave(0, 5), 8) == M4(f, g)
  {
    var b, c := Activation(g, 2, 1, 0, true, true), Activation(f, 3, 2, 0, false, true);
    assert [Outer(f, 0), b, c][..2] == [Outer(f, 0), b];
    assert [Outer(f, 0), b][1 := b.(childNs := 3)] == [Outer(f, 0), b.(childNs := 3)];
    SameState(Next(M3(f, g), Leave(0, 5), 8), M4(f, g));
  }

  lemma {:induction false} GLeaves(f: nat, g: nat)
    requires f != g
    ensures var after := Next(M4(f, g), Leave(0, 6), 8);
            after.table.nodes == Mutual(f, g) && LaneOf(after, 0).charges == [Charge(3, 3, f, true), Charge(2, 2, g, true)]
  {
    assert [Charge(3, 3, f, true)] + [Charge(2, 2, g, true)] == [Charge(3, 3, f, true), Charge(2, 2, g, true)];
  }

  lemma {:induction false} OutsideIt(f: nat, g: nat)
    ensures !InSubtree(Mutual(f, g), 2, 3)
  {
    assert !InSubtree(Mutual(f, g), 2, 1);
  }

  /** `f` runs beneath `g`, and as `g` opens re-entering `f` would leave the subtree of `g`'s context. */
  lemma {:induction false} FStrays(f: nat, g: nat)
    requires f != g
    ensures Rooted(M2(f, g).table.nodes) && Strays(LaneOf(M2(f, g), 0).thread, M2(f, g).table.nodes, 1, 2) == {f}
  {
    var nodes, th := [PathNode(0, f), PathNode(1, g)], LaneOf(M2(f, g), 0).thread;
    assert nodes[1] == PathNode(1, g) && nodes[0] == PathNode(0, f);
    assert !InSubtree(nodes, 2, 0) && !InSubtree(nodes, 2, 1);
    assert th.stack[0].func == f && f in th.depth && th.depth[f] == Depth(1, 1, 0);
    assert !StaysUnder(th.depth[f], f, nodes, 2);
    forall x
      ensures x in Beneath(th.stack, 1) <==> x == f
    {
      if x == f { assert th.stack[0].func == x; }
    }
  }

  /** What `g` does: it calls `f` back. */
  function CallsBack(f: nat): seq<Step> { [] + [Enter(0, f, 2)] + [Leave(0, 5)] }

  lemma {:induction false} CallsBackPlays(f: nat, g: nat)
    requires f != g
    ensures Inside(M2(f, g), CallsBack(f), 0, 1, 8, {f, g}) && Play(M2(f, g), CallsBack(f), 8) == M4(f, g)
  {
    ToM3(f, g);
    ToM4(f, g);
    Stays(M2(f, g), [], Enter(0, f, 2), M2(f, g), M3(f, g), 1, g, {f, g});
    Stays(M2(f, g), [] + [Enter(0, f, 2)], Leave(0, 5), M3(f, g), M4(f, g), 1, g, {f, g});
  }

  lemma {:induction false} FOpens(f: nat, funcs: set<nat>)
    requires f in funcs
    ensures LegalRun(START, [Enter(0, f, 0)], 8, funcs) && Play(START, [Enter(0, f, 0)], 8) == B1(f)
  {
    ToB1(f);
    assert [Enter(0, f, 0)][..0] == [];
  }

  /**
    `f` calls `g`, and `g` calls `f` back: a legal call of `g` whose callees are
    not confined. The inner `f` is recorded under the outer `f`, so the subtree
    of `g`'s context misses three of the five nanoseconds `g` took.
   */
  lemma {:induction false} MutualRecursionLeavesTheSubtree(f: nat, g: nat) returns (entered: System, closed: System)
    requires f != g
    ensures LegalRun(START, [Enter(0, f, 0)], 8, {f, g})
    ensures OneCall(Play(START, [Enter(0, f, 0)], 8), 0, g, 1, CallsBack(f), 6, 8, {f, g})
    ensures entered == Next(Play(START, [Enter(0, f, 0)], 8), Enter(0, g, 1), 8)
    ensures closed == Next(Play(entered, CallsBack(f), 8), Leave(0, 6), 8)
    ensures |LaneOf(entered, 0).thread.stack| == 2 && LaneOf(entered, 0).thread.stack[1].path == 2
    ensures Rooted(entered.table.nodes)
    ensures !Confined(CallsBack(f), 0, Strays(LaneOf(entered, 0).thread, entered.table.nodes, 1, 2))
    ensures LaneOf(closed, 0).charges == [Charge(3, 3, f, true), Charge(2, 2, g, true)]
    ensures Rooted(closed.table.nodes) && |closed.table.nodes| == 3 && !InSubtree(closed.table.nodes, 2, 3)
  {
    FOpens(f, {f, g});
    ToM2(f, g);
    CallsBackPlays(f, g);
    GLeaves(f, g);
    OutsideIt(f, g);
    FStrays(f, g);
    entered := M2(f, g);
    closed := Next(M4(f, g), Leave(0, 6), 8);
    assert Reenters(CallsBack(f)[0], 0, {f});
  }
}
