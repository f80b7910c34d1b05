/** How long calls took, read off a run's entries and exits alone, against the samples the run records. */
module Durations {
  import opened Words
  import opened Sums
  import opened Distribution
  import opened PathRegistry
  import opened SampleStore
  import opened Calls
  import opened ContextBound
  import opened SelfTime
  import opened ProbeRuns

  datatype Call = Call(func: nat, start: nat)

  /** The calls of a thread that are still open, innermost last. Leaving with none open does nothing. */
  function OpenCalls(steps: seq<Step>, tid: nat): seq<Call> {
    if steps == [] then []
    else
      var calls, step := OpenCalls(steps[..|steps| - 1], tid), steps[|steps| - 1];
      if step.tid != tid then calls
      else match step
        case Enter(_, func, now) => calls + [Call(func, now)]
        case Leave(_, _) => if calls == [] then calls else calls[..|calls| - 1]
        case Drain(_) => calls
  }

  predicate Calling(calls: seq<Call>, func: nat) {
    exists k :: 0 <= k < |calls| && calls[k].func == func
  }

  /** What one more step finishes of a function: an outermost call of it, and how long that took. */
  function Finishes(calls: seq<Call>, step: Step, func: nat): seq<int> {
    if step.Leave? && calls != [] && calls[|calls| - 1].func == func && !Calling(calls[..|calls| - 1], func) then
      [step.now - calls[|calls| - 1].start]
    else []
  }

  /** How long every finished outermost call of a function took, whatever its thread. */
  function Lasted(steps: seq<Step>, func: nat): seq<int> {
    if steps == [] then []
    else
      var front, step := steps[..|steps| - 1], steps[|steps| - 1];
      Lasted(front, func) + Finishes(OpenCalls(front, step.tid), step, func)
  }

  /** Those of one thread since it was last drained. */
  function Waiting(steps: seq<Step>, tid: nat, func: nat): seq<int> {
    if steps == [] then []
    else
      var front, step := steps[..|steps| - 1], steps[|steps| - 1];
      if step.tid != tid then Waiting(front, tid, func)
      else if step.Drain? then []
      else Waiting(front, tid, func) + Finishes(OpenCalls(front, tid), step, func)
  }

  /** Those that drains have collected, in the order of the drains. */
  function Taken(steps: seq<Step>, func: nat): seq<int> {
    if steps == [] then []
    else
      var front, step := steps[..|steps| - 1], steps[|steps| - 1];
      Taken(front, func) + if step.Drain? then Waiting(front, step.tid, func) else []
  }

  function Threads(steps: seq<Step>): set<nat> {
    set k | 0 <= k < |steps| :: steps[k].tid
  }

  predicate AllU64(s: seq<int>) {
    forall k :: 0 <= k < |s| ==> 0 <= s[k] < U64_LIMIT
  }

  /** A recorded figure is exactly a list of durations: as many calls, and the list or its histogram. */
  ghost predicate Holds(stat: CallStat, durations: seq<int>) {
    AllU64(durations) && stat.count == |durations| && StandsFor(stat.ns, durations)
  }

  // ---------------------------------------------------------------- the stack is the open calls

  predicate Tracks(stack: seq<Activation>, calls: seq<Call>) {
    |stack| == |calls| && forall k :: 0 <= k < |calls| ==> calls[k] == Call(stack[k].func, stack[k].start)
  }

  lemma {:induction false} StepTracks(sys: System, step: Step, cap: nat, next: System, tid: nat, calls: seq<Call>, after: seq<Call>)
    requires next == Next(sys, step, cap) && Tracks(LaneOf(sys, tid).thread.stack, calls)
    requires after == if step.tid != tid || step.Drain? then calls
                      else if step.Enter? then calls + [Call(step.func, step.now)]
                      else if calls == [] then calls else calls[..|calls| - 1]
    ensures Tracks(LaneOf(next, tid).thread.stack, after)
  {
  }

  lemma {:induction false} RunTracks(steps: seq<Step>, cap: nat, tid: nat)
    ensures Tracks(LaneOf(Play(START, steps, cap), tid).thread.stack, OpenCalls(steps, tid))
  {
    if steps != [] {
      var front := steps[..|steps| - 1];
      RunTracks(front, cap, tid);
      StepTracks(Play(START, front, cap), steps[|steps| - 1], cap, Play(START, steps, cap), tid, OpenCalls(front, tid),
                 OpenCalls(steps, tid));
    }
  }

  // ---------------------------------------------------------------- one closing call

  lemma {:induction false} BeneathIsCalling(stack: seq<Activation>, calls: seq<Call>, k: nat, func: nat)
    requires Tracks(stack, calls) && k <= |stack|
    ensures func in Beneath(stack, k) <==> Calling(calls[..k], func)
  {
    if func in Beneath(stack, k) {
      var j :| 0 <= j < k && stack[j].func == func;
      assert calls[..k][j].func == func;
    }
    if Calling(calls[..k], func) {
      var j :| 0 <= j < k && calls[..k][j].func == func;
      assert stack[j].func == func;
    }
  }

  /** The call that closes is outermost exactly if its function is not being called beneath it, and its time is not clipped. */
  lemma {:induction false} ClosingFinishes(
    th: Thread, nodes: seq<PathNode>, clock: nat, now: nat, calls: seq<Call>, tid: nat, func: nat)
    requires Structured(th, nodes) && Timed(th.stack, clock) && clock <= now < U64_LIMIT && Tracks(th.stack, calls)
    requires th.stack != []
    ensures var a := th.stack[|th.stack| - 1];
            Finishes(calls, Leave(tid, now), func) == if a.func == func && a.outermost then [Elapsed(a, now)] else []
  {
    var n := |th.stack| - 1;
    CloseBalances(th, clock, now);
    assert Placed(th.stack, n, nodes);
    BeneathIsCalling(th.stack, calls, n, th.stack[n].func);
  }

  lemma {:induction false} CallAdded(calls: map<nat, CallStat>, into: nat, elapsed: u64, func: nat, durations: seq<int>)
    requires Holds(CallAt(calls, func), durations)
    ensures Holds(CallAt(AddCall(calls, into, elapsed), func), durations + if into == func then [elapsed] else [])
  {
    if into == func {
      AddedStandsFor(CallAt(calls, func).ns, durations, elapsed);
    } else {
      assert durations + [] == durations;
    }
  }

  lemma {:induction false} CloseHolds(
    th: Thread, nodes: seq<PathNode>, clock: nat, now: nat, calls: seq<Call>, tid: nat, func: nat, durations: seq<int>)
    requires Structured(th, nodes) && Timed(th.stack, clock) && clock <= now < U64_LIMIT && Tracks(th.stack, calls)
    requires Holds(CallAt(th.accum.calls, func), durations)
    ensures Holds(CallAt(Close(th, now).accum.calls, func), durations + Finishes(calls, Leave(tid, now), func))
  {
    assert durations + [] == durations;
    if th.stack != [] {
      var a := th.stack[|th.stack| - 1];
      ClosingFinishes(th, nodes, clock, now, calls, tid, func);
      CallAdded(th.accum.calls, a.func, Elapsed(a, now), func, durations);
    }
  }

  /** A drain appends a thread's durations to those already collected. */
  lemma {:induction false} DrainHolds(mine: Accum, theirs: Accum, func: nat, taken: seq<int>, waiting: seq<int>)
    requires Holds(CallAt(mine.calls, func), taken) && Holds(CallAt(theirs.calls, func), waiting)
    ensures Holds(CallAt(AbsorbAccum(mine, theirs).calls, func), taken + waiting)
  {
    if func in theirs.calls {
      AbsorbedStandsFor(CallAt(mine.calls, func).ns, taken, theirs.calls[func].ns, waiting);
    } else {
      assert waiting == [] && taken + waiting == taken;
    }
  }

  lemma {:induction false} NoneRecorded(func: nat)
    ensures Holds(CallAt(NOTHING.calls, func), [])
  {
  }

  // ---------------------------------------------------------------- any run

  lemma {:induction false} LaneStepHolds(
    sys: System, step: Step, cap: nat, next: System, funcs: set<nat>, tid: nat, func: nat, calls: seq<Call>,
    durations: seq<int>)
    requires Formed(sys, funcs) && Legal(sys, step, funcs) && next == Next(sys, step, cap)
    requires Tracks(LaneOf(sys, tid).thread.stack, calls)
    requires Holds(CallAt(LaneOf(sys, tid).thread.accum.calls, func), durations)
    ensures Holds(CallAt(LaneOf(next, tid).thread.accum.calls, func),
                  if step.tid != tid then durations else if step.Drain? then [] else durations + Finishes(calls, step, func))
  {
    var lane := LaneOf(sys, tid);
    LaneOfIsSound(sys, tid, funcs);
    assert durations + [] == durations;
    match step
    case Enter(_, _, _) =>
    case Leave(t, now) => if t == tid { CloseHolds(lane.thread, sys.table.nodes, sys.clock, now, calls, t, func, durations); }
    case Drain(_) => NoneRecorded(func);
  }

  lemma {:induction false} LaneHoldsWaiting(steps: seq<Step>, cap: nat, funcs: set<nat>, tid: nat, func: nat)
    requires LegalRun(START, steps, cap, funcs)
    ensures Holds(CallAt(LaneOf(Play(START, steps, cap), tid).thread.accum.calls, func), Waiting(steps, tid, func))
  {
    if steps == [] {
      NoneRecorded(func);
    } else {
      var front := steps[..|steps| - 1];
      LaneHoldsWaiting(front, cap, funcs, tid, func);
      StartIsSound(funcs);
      RunKeepsFormed(START, front, cap, funcs);
      RunTracks(front, cap, tid);
      LaneStepHolds(Play(START, front, cap), steps[|steps| - 1], cap, Play(START, steps, cap), funcs, tid, func,
                    OpenCalls(front, tid), Waiting(front, tid, func));
    }
  }

  lemma {:induction false} TakenStepHolds(
    sys: System, step: Step, cap: nat, next: System, func: nat, taken: seq<int>, waiting: seq<int>)
    requires next == Next(sys, step, cap) && Holds(CallAt(sys.taken.calls, func), taken)
    requires Holds(CallAt(LaneOf(sys, step.tid).thread.accum.calls, func), waiting)
    ensures Holds(CallAt(next.taken.calls, func), taken + if step.Drain? then waiting else [])
  {
    if step.Drain? {
      DrainHolds(sys.taken, LaneOf(sys, step.tid).thread.accum, func, taken, waiting);
    } else {
      assert taken + [] == taken;
    }
  }

  lemma {:induction false} TakenHolds(steps: seq<Step>, cap: nat, funcs: set<nat>, func: nat)
    requires LegalRun(START, steps, cap, funcs)
    ensures Holds(CallAt(Play(START, steps, cap).taken.calls, func), Taken(steps, func))
  {
    if steps == [] {
      NoneRecorded(func);
    } else {
      var front, step := steps[..|steps| - 1], steps[|steps| - 1];
      TakenHolds(front, cap, funcs, func);
      LaneHoldsWaiting(front, cap, funcs, step.tid, func);
      TakenStepHolds(Play(START, front, cap), step, cap, Play(START, steps, cap), func, Taken(front, func),
                     Waiting(front, step.tid, func));
    }
  }

  // ---------------------------------------------------------------- every duration is somewhere, once

  /** Any total over a list of durations: how many there are, how often one occurs, what they add up to. */
  function Totalled(s: seq<int>, f: int -> nat): nat {
    if s == [] then 0 else Totalled(s[..|s| - 1], f) + f(s[|s| - 1])
  }

  lemma {:induction false} TotalledConcat(a: seq<int>, b: seq<int>, f: int -> nat)
    ensures Totalled(a + b, f) == Totalled(a, f) + Totalled(b, f)
  {
    if b == [] {
      assert a + b == a;
    } else {
      assert (a + b)[..|a + b| - 1] == a + b[..|b| - 1];
      TotalledConcat(a, b[..|b| - 1], f);
    }
  }

  ghost function WaitingTotal(steps: seq<Step>, func: nat, f: int -> nat): nat -> nat {
    (tid: nat) => Totalled(Waiting(steps, tid, func), f)
  }

  lemma {:induction false} StrangersWait(steps: seq<Step>, tid: nat, func: nat)
    requires tid !in Threads(steps)
    ensures Waiting(steps, tid, func) == []
  {
    if steps != [] {
      var front := steps[..|steps| - 1];
      assert forall k :: 0 <= k < |front| ==> front[k] == steps[k];
      assert steps[|steps| - 1].tid in Threads(steps);
      StrangersWait(front, tid, func);
    }
  }

  /** One more step changes what one thread has waiting and nothing of the others. */
  lemma {:induction false} WaitingMoves(steps: seq<Step>, func: nat, f: int -> nat)
    requires steps != []
    ensures var front, step := steps[..|steps| - 1], steps[|steps| - 1];
            SumOver(Threads(steps), WaitingTotal(steps, func, f)) + Totalled(Waiting(front, step.tid, func), f)
            == SumOver(Threads(front), WaitingTotal(front, func, f)) + Totalled(Waiting(steps, step.tid, func), f)
  {
    var front, t := steps[..|steps| - 1], steps[|steps| - 1].tid;
    var all, before, after := Threads(steps), WaitingTotal(front, func, f), WaitingTotal(steps, func, f);
    ThreadsGrow(steps);
    forall tid | tid in all - Threads(front)
      ensures before(tid) == 0
    {
      StrangersWait(front, tid, func);
    }
    SumWiden(Threads(front), all, before);
    SumPick(all, t, before);
    SumPick(all, t, after);
    SumSame(all - {t}, before, after);
  }

  lemma {:induction false} ThreadsGrow(steps: seq<Step>)
    requires steps != []
    ensures Threads(steps) == Threads(steps[..|steps| - 1]) + {steps[|steps| - 1].tid}
  {
    var front := steps[..|steps| - 1];
    assert forall k :: 0 <= k < |front| ==> front[k] == steps[k];
    forall tid | tid in Threads(steps)
      ensures tid in Threads(front) + {steps[|steps| - 1].tid}
    {
      var k :| 0 <= k < |steps| && steps[k].tid == tid;
      if k < |front| { assert front[k].tid == tid; }
    }
  }

  lemma {:induction false} EachDurationOnce(steps: seq<Step>, func: nat, f: int -> nat)
    ensures Totalled(Lasted(steps, func), f)
         == Totalled(Taken(steps, func), f) + SumOver(Threads(steps), WaitingTotal(steps, func, f))
  {
    if steps != [] {
      var front, step := steps[..|steps| - 1], steps[|steps| - 1];
      EachDurationOnce(front, func, f);
      WaitingMoves(steps, func, f);
      TotalledConcat(Lasted(front, func), Finishes(OpenCalls(front, step.tid), step, func), f);
      TotalledConcat(Waiting(front, step.tid, func), Finishes(OpenCalls(front, step.tid), step, func), f);
      TotalledConcat(Taken(front, func), if step.Drain? then Waiting(front, step.tid, func) else [], f);
    }
  }

  /**
    What a run records of how long a function takes. Its outermost calls are
    found, and timed, from the entries and exits alone. Of those that have
    finished, each thread's accumulator holds the ones since its last drain and
    the drains hold the rest: as many calls, and as samples the times from entry
    to exit themselves, or their histogram once there are too many. Whatever is
    totalled over them, each finished call is in one of those places, once.
   */
  lemma {:induction false} DurationsAreRecorded(steps: seq<Step>, cap: nat, funcs: set<nat>, func: nat, f: int -> nat)
    requires LegalRun(START, steps, cap, funcs)
    ensures var sys := Play(START, steps, cap);
            && Holds(CallAt(sys.taken.calls, func), Taken(steps, func))
            && (forall tid: nat :: Holds(CallAt(LaneOf(sys, tid).thread.accum.calls, func), Waiting(steps, tid, func)))
    ensures Totalled(Lasted(steps, func), f)
         == Totalled(Taken(steps, func), f) + SumOver(Threads(steps), WaitingTotal(steps, func, f))
  {
    TakenHolds(steps, cap, funcs, func);
    forall tid: nat
      ensures Holds(CallAt(LaneOf(Play(START, steps, cap), tid).thread.accum.calls, func), Waiting(steps, tid, func))
    {
      LaneHoldsWaiting(steps, cap, funcs, tid, func);
    }
    EachDurationOnce(steps, func, f);
  }
}
