/** Names reach the daemon: how many frames it takes once nothing new is interned. */
module ProtocolProgress {
  import opened Basics
  import opened PathRegistry
  import opened Calls
  import opened StoreModel
  import opened Emitters
  import opened Protocol
  import opened ProtocolSafety
  import Probe = ProbeRuns

  /** The frames built and taken by the socket while `more` is played after `steps`. */
  ghost function FramesTaken(steps: seq<Step>, more: seq<Step>, cap: nat): nat {
    if more == [] then 0
    else
      var front, last := more[..|more| - 1], more[|more| - 1];
      FramesTaken(steps, front, cap) + if last.SendFrame? && Enabled(Play(steps + front, cap), last) then 1 else 0
  }

  /** Frames are numbered by how many the socket has taken, over all connections. */
  lemma {:induction false} FramesAreNumbered(steps: seq<Step>, cap: nat)
    ensures Play(steps, cap).marks.frameSeq == TakenOf(steps, cap)
  {
    if steps != [] { FramesAreNumbered(steps[..|steps| - 1], cap); }
  }

  ghost function TakenOf(steps: seq<Step>, cap: nat): nat {
    if steps == [] then 0
    else
      var front, last := steps[..|steps| - 1], steps[|steps| - 1];
      TakenOf(front, cap) + if last.SendFrame? && last.taken && Enabled(Play(front, cap), last) then 1 else 0
  }

  /** Every frame offered is taken. */
  predicate AllTaken(more: seq<Step>) {
    forall k :: 0 <= k < |more| && more[k].SendFrame? ==> more[k].taken
  }

  /** Where the marks must have got after `n` frames. */
  predicate Reached(m: Marks, t: Tables, n: nat) {
    && m.connected
    && (n > 0 ==>
          && m.functions == |t.functions| && m.types == |t.types|
          && (m.paths >= |t.nodes| || m.paths >= (n - 1) * MAX_REGISTERS_PER_FRAME))
  }

  lemma {:induction false} StepGrows(w: World, step: Step, cap: nat, known: Position)
    requires WorldTrue(w, known) && Enabled(w, step)
    ensures TablesGrew(TablesOf(w), TablesOf(Do(w, step, cap)))
  {
    if step.Mutate? { ThreadKeepsProbe(w.probe, step.step, w.held, |w.functions|, cap); }
  }

  lemma {:induction false} SendReaches(t: Tables, m: Marks, n: nat)
    requires Within(MarkedAt(m), EndOf(t)) && Reached(m, t, n)
    ensures Reached(Sent(m, BuiltNow(t, m)), t, n + 1)
  {
    if n > 0 { MarksProgress(t.functions, t.types, t.nodes, m.paths); }
  }

  lemma {:induction false} StepReaches(w: World, step: Step, cap: nat, n: nat)
    requires Enabled(w, step) && Reached(w.marks, TablesOf(w), n) && (step.SendFrame? ==> step.taken)
    requires TablesOf(Do(w, step, cap)) == TablesOf(w)
    ensures Reached(Do(w, step, cap).marks, TablesOf(w), n + if step.SendFrame? then 1 else 0)
  {
    if step.SendFrame? { SendReaches(TablesOf(w), w.marks, n); }
  }

  lemma {:induction false} RunGrows(steps: seq<Step>, more: seq<Step>, cap: nat)
    ensures TablesGrew(TablesOf(Play(steps, cap)), TablesOf(Play(steps + more, cap)))
  {
    if more == [] {
      assert steps + more == steps;
    } else {
      var front, last := more[..|more| - 1], more[|more| - 1];
      assert (steps + more)[..|steps + more| - 1] == steps + front;
      RunGrows(steps, front, cap);
      var known := RunKeepsWorld(steps + front, cap);
      if Enabled(Play(steps + front, cap), last) { StepGrows(Play(steps + front, cap), last, cap, known); }
    }
  }

  lemma {:induction false} SameTables(a: Tables, b: Tables, c: Tables)
    requires TablesGrew(a, b) && TablesGrew(b, c) && a == c
    ensures a == b
  {
  }

  lemma {:induction false} RunReaches(steps: seq<Step>, more: seq<Step>, cap: nat)
    requires Play(steps, cap).marks.connected && AllTaken(more)
    requires TablesOf(Play(steps + more, cap)) == TablesOf(Play(steps, cap))
    ensures Reached(Play(steps + more, cap).marks, TablesOf(Play(steps, cap)), FramesTaken(steps, more, cap))
  {
    if more == [] {
      assert steps + more == steps;
    } else {
      var front, last := more[..|more| - 1], more[|more| - 1];
      assert (steps + more)[..|steps + more| - 1] == steps + front;
      assert (steps + front) + [last] == steps + more;
      RunGrows(steps, front, cap);
      RunGrows(steps + front, [last], cap);
      SameTables(TablesOf(Play(steps, cap)), TablesOf(Play(steps + front, cap)), TablesOf(Play(steps + more, cap)));
      RunReaches(steps, front, cap);
      var w := Play(steps + front, cap);
      if Enabled(w, last) { StepReaches(w, last, cap, FramesTaken(steps, front, cap)); }
    }
  }

  /** A reader that has caught up with marks at the end of the tables knows everything. */
  lemma {:induction false} CaughtUp(w: World, known: Position)
    requires WorldTrue(w, known) && w.marks.connected && MarkedAt(w.marks) == EndOf(TablesOf(w))
    ensures w.links != []
    ensures w.links[CurrentLink(w)].live && w.links[CurrentLink(w)].queue == [] ==>
              Knows(w.store, TablesOf(w), EndOf(TablesOf(w)))
  {
    var link := w.links[CurrentLink(w)];
    assert LinkTrue(link, TablesOf(w), known);
    if link.live && link.queue == [] { assert known == EndOf(TablesOf(w)); }
  }

  /**
    The daemon catches up. Take any reachable state with a connection up, and
    any further steps in which nothing new is interned and the socket takes
    every frame offered, whatever threads, drains and other connections do. One
    frame brings the function and type marks to the ends of their tables, and
    every frame after it moves the context mark on by a full cap or to the end.
    Once one frame and a cap's worth for every 2048 contexts have been taken and
    read on a connection that still lives, the daemon knows every function, type
    and context of the probe, each by the probe's own meaning.
   */
  lemma {:induction false} DaemonCatchesUp(steps: seq<Step>, more: seq<Step>, cap: nat)
    requires Play(steps, cap).marks.connected && AllTaken(more)
    requires TablesOf(Play(steps + more, cap)) == TablesOf(Play(steps, cap))
    ensures var w, n := Play(steps + more, cap), FramesTaken(steps, more, cap);
            && w.marks.connected && w.links != []
            && (n > 0 && (n - 1) * MAX_REGISTERS_PER_FRAME >= |w.probe.table.nodes| ==>
                  && MarkedAt(w.marks) == EndOf(TablesOf(w))
                  && (w.links[CurrentLink(w)].live && w.links[CurrentLink(w)].queue == [] ==>
                        Knows(w.store, TablesOf(w), EndOf(TablesOf(w)))))
  {
    var w := Play(steps + more, cap);
    RunReaches(steps, more, cap);
    var known := RunKeepsWorld(steps + more, cap);
    if MarkedAt(w.marks) == EndOf(TablesOf(w)) { CaughtUp(w, known); }
  }
}
