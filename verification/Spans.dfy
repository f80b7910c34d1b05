/** A call from its open to its close: what stays put on its thread meanwhile, and what is recorded. */
module Spans {
  import opened Words
  import opened PathRegistry
  import opened Calls
  import opened ContextBound
  import opened SelfTime
  import opened ProbeRuns

  function ChargeNs(charges: seq<Charge>): nat {
    if charges == [] then 0 else ChargeNs(charges[..|charges| - 1]) + charges[|charges| - 1].selfNs
  }

  lemma {:induction false} ChargeNsConcat(a: seq<Charge>, b: seq<Charge>)
    ensures ChargeNs(a + b) == ChargeNs(a) + ChargeNs(b)
  {
    if b == [] {
      assert a + b == a;
    } else {
      assert (a + b)[..|a + b| - 1] == a + b[..|b| - 1];
      ChargeNsConcat(a, b[..|b| - 1]);
    }
  }

  /** The calls reported under contexts by the activations of one function. */
  function Reported(charges: seq<Charge>, func: nat): nat {
    if charges == [] then 0
    else
      var last := charges[|charges| - 1];
      Reported(charges[..|charges| - 1], func) + if last.func == func && last.counts then 1 else 0
  }

  lemma {:induction false} ReportedConcat(a: seq<Charge>, b: seq<Charge>, func: nat)
    ensures Reported(a + b, func) == Reported(a, func) + Reported(b, func)
  {
    if b == [] {
      assert a + b == a;
    } else {
      assert (a + b)[..|a + b| - 1] == a + b[..|b| - 1];
      ReportedConcat(a, b[..|b| - 1], func);
    }
  }

  /** Legal steps during which activation `d` of thread `tid` stays open. */
  predicate Inside(sys: System, steps: seq<Step>, tid: nat, d: nat, cap: nat, funcs: set<nat>) {
    && |LaneOf(Play(sys, steps, cap), tid).thread.stack| > d
    && (steps != [] ==>
          var front := steps[..|steps| - 1];
          && Inside(sys, front, tid, d, cap, funcs)
          && Legal(Play(sys, front, cap), steps[|steps| - 1], funcs))
  }

  /** One call of `func` on thread `tid` from its open to its close, with `inner` in between. */
  predicate OneCall(before: System, tid: nat, func: nat, start: nat, inner: seq<Step>, finish: nat, cap: nat, funcs: set<nat>) {
    var d, entered := |LaneOf(before, tid).thread.stack|, Next(before, Enter(tid, func, start), cap);
    && Legal(before, Enter(tid, func, start), funcs)
    && Inside(entered, inner, tid, d, cap, funcs)
    && |LaneOf(Play(entered, inner, cap), tid).thread.stack| == d + 1
    && Legal(Play(entered, inner, cap), Leave(tid, finish), funcs)
  }

  // ---------------------------------------------------------------- what stays while it is open

  /** Beneath activation `d` nothing moved, and self time recorded since matches what was charged. */
  ghost predicate Kept(base: Lane, lane: Lane, d: nat) {
    var was, now := base.thread.stack, lane.thread.stack;
    && |was| == d + 1 && |now| > d
    && now[..d] == was[..d]
    && now[d].(childNs := 0) == was[d].(childNs := 0)
    && base.charges <= lane.charges
    && ChargeNs(lane.charges) + OpenChildNs(was) == ChargeNs(base.charges) + OpenChildNs(now)
  }

  lemma {:induction false} KeptBeneath(base: Lane, lane: Lane, d: nat)
    requires Kept(base, lane, d)
    ensures Beneath(lane.thread.stack, d) == Beneath(base.thread.stack, d)
    ensures lane.thread.stack[d].path == base.thread.stack[d].path
    ensures lane.thread.stack[d].func == base.thread.stack[d].func
    ensures lane.thread.stack[d].start == base.thread.stack[d].start
    ensures lane.thread.stack[d].outermost == base.thread.stack[d].outermost
  {
    var was, now := base.thread.stack, lane.thread.stack;
    assert forall k :: 0 <= k < d ==> now[k] == now[..d][k] == was[..d][k];
    BeneathPrefix(now, was, d);
    assert now[d].(childNs := 0).path == now[d].path;
    assert now[d].(childNs := 0).start == now[d].start;
  }

  /** Another thread's step, or a drain, leaves a lane's stack and history alone. */
  lemma {:induction false} OtherLane(sys: System, step: Step, tid: nat, cap: nat)
    requires step.tid != tid || step.Drain?
    ensures LaneOf(Next(sys, step, cap), tid).thread.stack == LaneOf(sys, tid).thread.stack
    ensures LaneOf(Next(sys, step, cap), tid).charges == LaneOf(sys, tid).charges
  {
  }

  /** What a step does to a lane's stack and history: nothing, a push, or a pop with its charge. */
  ghost predicate LaneMoves(lane: Lane, lane': Lane, step: Step, tid: nat) {
    var stack, stack' := lane.thread.stack, lane'.thread.stack;
    if step.tid != tid || step.Drain? || (step.Leave? && stack == []) then
      stack' == stack && lane'.charges == lane.charges
    else if step.Enter? then
      |stack'| == |stack| + 1 && stack'[..|stack|] == stack && stack'[|stack|].childNs == 0 && lane'.charges == lane.charges
    else
      var n := |stack| - 1;
      && |stack'| == n && lane'.charges == lane.charges + [ChargeOf(stack[n], step.now)]
      && (n > 0 ==> stack'[..n - 1] == stack[..n - 1] && stack'[n - 1].(childNs := 0) == stack[n - 1].(childNs := 0))
  }

  lemma {:induction false} LaneStep(sys: System, step: Step, tid: nat, cap: nat)
    ensures LaneMoves(LaneOf(sys, tid), LaneOf(Next(sys, step, cap), tid), step, tid)
  {
    if step.tid != tid || step.Drain? {
      OtherLane(sys, step, tid, cap);
    } else if step.Leave? && LaneOf(sys, tid).thread.stack != [] {
      var stack := LaneOf(sys, tid).thread.stack;
      ChargeCallerKeeps(stack[..|stack| - 1], Elapsed(stack[|stack| - 1], step.now));
    }
  }

  lemma {:induction false} ChargeCallerKeeps(stack: seq<Activation>, elapsed: nat)
    ensures |ChargeCaller(stack, elapsed)| == |stack|
    ensures stack != [] ==>
              var n := |stack| - 1;
              && ChargeCaller(stack, elapsed)[..n] == stack[..n]
              && ChargeCaller(stack, elapsed)[n].(childNs := 0) == stack[n].(childNs := 0)
  {
  }

  /** The time recorded by a step above activation `d` is the time it charges there. */
  lemma {:induction false} LaneBalance(sys: System, step: Step, tid: nat, cap: nat, funcs: set<nat>)
    requires Formed(sys, funcs) && Legal(sys, step, funcs)
    requires step.tid == tid && step.Leave? ==> |LaneOf(sys, tid).thread.stack| > 1
    ensures var lane, lane' := LaneOf(sys, tid), LaneOf(Next(sys, step, cap), tid);
            ChargeNs(lane'.charges) + OpenChildNs(lane.thread.stack) == ChargeNs(lane.charges) + OpenChildNs(lane'.thread.stack)
  {
    LaneOfIsSound(sys, tid, funcs);
    LaneStep(sys, step, tid, cap);
    if step.tid == tid && step.Leave? {
      LeftBalance(LaneOf(sys, tid), sys.clock, step.now);
    }
  }

  lemma {:induction false} LeftBalance(lane: Lane, clock: nat, now: nat)
    requires Timed(lane.thread.stack, clock) && clock <= now < U64_LIMIT && |lane.thread.stack| > 1
    ensures ChargeNs(Left(lane, now).charges) + OpenChildNs(lane.thread.stack)
         == ChargeNs(lane.charges) + OpenChildNs(Left(lane, now).thread.stack)
  {
    CloseBalances(lane.thread, clock, now);
    assert Left(lane, now).charges[..|lane.charges|] == lane.charges;
  }

  lemma {:induction false} KeptStep(base: Lane, lane: Lane, lane': Lane, step: Step, tid: nat, d: nat)
    requires Kept(base, lane, d) && LaneMoves(lane, lane', step, tid) && |lane'.thread.stack| > d
    requires ChargeNs(lane'.charges) + OpenChildNs(lane.thread.stack) == ChargeNs(lane.charges) + OpenChildNs(lane'.thread.stack)
    ensures Kept(base, lane', d)
  {
    var was, now, next := base.thread.stack, lane.thread.stack, lane'.thread.stack;
    if |next| < |now| {
      assert next[..d] == next[..|next| - 1][..d] == now[..|next| - 1][..d];
    } else if |next| > |now| {
      assert next[..d] == next[..|now|][..d];
    }
  }

  lemma {:induction false} KeptNext(sys: System, step: Step, base: Lane, tid: nat, d: nat, cap: nat, funcs: set<nat>)
    requires Formed(sys, funcs) && Legal(sys, step, funcs)
    requires Kept(base, LaneOf(sys, tid), d) && |LaneOf(Next(sys, step, cap), tid).thread.stack| > d
    ensures Kept(base, LaneOf(Next(sys, step, cap), tid), d)
  {
    LaneStep(sys, step, tid, cap);
    LaneBalance(sys, step, tid, cap, funcs);
    KeptStep(base, LaneOf(sys, tid), LaneOf(Next(sys, step, cap), tid), step, tid, d);
  }

  /** An activation that is there before and after a step runs in the same context. */
  lemma {:induction false} SamePath(lane: Lane, lane': Lane, step: Step, tid: nat, k: nat)
    requires LaneMoves(lane, lane', step, tid)
    requires k < |lane.thread.stack| && k < |lane'.thread.stack|
    ensures lane'.thread.stack[k].path == lane.thread.stack[k].path
  {
    var stack, stack' := lane.thread.stack, lane'.thread.stack;
    if |stack'| > |stack| {
      assert stack'[k] == stack'[..|stack|][k];
    } else if |stack'| < |stack| {
      if k < |stack'| - 1 {
        assert stack'[k] == stack'[..|stack'| - 1][k] == stack[..|stack'| - 1][k];
      } else {
        assert stack'[k].(childNs := 0).path == stack'[k].path;
      }
    }
  }

  // ---------------------------------------------------------------- opening and closing

  /** The self time thread `tid` recorded between two states of a run. */
  function RecordedBetween(before: System, after: System, tid: nat): seq<Charge>
    requires |LaneOf(before, tid).charges| <= |LaneOf(after, tid).charges|
  {
    LaneOf(after, tid).charges[|LaneOf(before, tid).charges|..]
  }

  lemma {:induction false} EnterOpens(before: System, tid: nat, func: nat, start: nat, cap: nat)
    ensures var d := |LaneOf(before, tid).thread.stack|;
            var lane := LaneOf(Next(before, Enter(tid, func, start), cap), tid);
            && |lane.thread.stack| == d + 1 && lane.charges == LaneOf(before, tid).charges
            && lane.thread.stack[d].childNs == 0 && lane.thread.stack[d].start == start
            && Beneath(lane.thread.stack, d) == Beneath(LaneOf(before, tid).thread.stack, d)
  {
    LaneStep(before, Enter(tid, func, start), tid, cap);
    BeneathPrefix(LaneOf(before, tid).thread.stack,
                  LaneOf(Next(before, Enter(tid, func, start), cap), tid).thread.stack, |LaneOf(before, tid).thread.stack|);
  }

  lemma {:induction false} CallBalances(base: Lane, lane: Lane, d: nat, clock: nat, finish: nat)
    requires Kept(base, lane, d) && |lane.thread.stack| == d + 1 && base.thread.stack[d].childNs == 0
    requires Timed(lane.thread.stack, clock) && clock <= finish < U64_LIMIT
    ensures base.thread.stack[d].start <= finish
    ensures var closed := Left(lane, finish);
            && base.charges <= closed.charges
            && ChargeNs(closed.charges[|base.charges|..]) == finish - base.thread.stack[d].start
  {
    var closed, stack := Left(lane, finish), lane.thread.stack;
    KeptBeneath(base, lane, d);
    CloseBalances(lane.thread, clock, finish);
    assert closed.charges == base.charges + closed.charges[|base.charges|..];
    ChargeNsConcat(base.charges, closed.charges[|base.charges|..]);
    assert closed.charges[..|lane.charges|] == lane.charges;
    assert OpenChildNs(base.thread.stack) == OpenChildNs(stack[..d]);
  }

  /** What a span keeps, from the moment the call is open. */
  lemma {:induction false} SpanKeeps(sys: System, steps: seq<Step>, tid: nat, d: nat, cap: nat, funcs: set<nat>)
    requires Formed(sys, funcs) && Inside(sys, steps, tid, d, cap, funcs) && |LaneOf(sys, tid).thread.stack| == d + 1
    ensures Formed(Play(sys, steps, cap), funcs) && Grown(sys.table, Play(sys, steps, cap).table)
    ensures Kept(LaneOf(sys, tid), LaneOf(Play(sys, steps, cap), tid), d)
  {
    if steps != [] {
      var front, step := steps[..|steps| - 1], steps[|steps| - 1];
      SpanKeeps(sys, front, tid, d, cap, funcs);
      NextKeepsFormed(Play(sys, front, cap), step, cap, funcs);
      KeptNext(Play(sys, front, cap), step, LaneOf(sys, tid), tid, d, cap, funcs);
    }
  }
}
