/** Where every nanosecond goes: self time against elapsed time on one thread's stack. */
module SelfTime {
  import opened Words
  import opened Sums
  import opened SampleStore
  import opened Calls

  /** Time already charged to activations that are still open. */
  function OpenChildNs(stack: seq<Activation>): nat {
    if stack == [] then 0 else OpenChildNs(stack[..|stack| - 1]) + stack[|stack| - 1].childNs
  }

  /** When the part of activation `k` that its callees may have spent must have ended. */
  function ChildrenEndBy(stack: seq<Activation>, k: nat, clock: nat): nat
    requires k < |stack|
  {
    if k + 1 < |stack| then stack[k + 1].start else clock
  }

  /** Closed callees fit, one after another, into their caller's span so far. */
  ghost predicate Timed(stack: seq<Activation>, clock: nat) {
    && clock < U64_LIMIT
    && forall k :: 0 <= k < |stack| ==> stack[k].start + stack[k].childNs <= ChildrenEndBy(stack, k, clock)
  }

  lemma {:induction false} TimedAdvances(stack: seq<Activation>, clock: nat, now: nat)
    requires Timed(stack, clock) && clock <= now < U64_LIMIT
    ensures Timed(stack, now)
  {
  }

  lemma {:induction false} OpenKeepsTimed(stack: seq<Activation>, clock: nat, a: Activation)
    requires Timed(stack, clock) && clock <= a.start < U64_LIMIT && a.childNs == 0
    ensures Timed(stack + [a], a.start)
    ensures OpenChildNs(stack + [a]) == OpenChildNs(stack)
  {
    assert (stack + [a])[..|stack|] == stack;
  }

  /**
    Closing the top activation. Nothing is clipped: the clock difference fits,
    the callees' time is within it, and the caller's share does not saturate.
    The self time recorded is exactly what the open activations' charges do not
    yet cover, or what the thread's outermost call took beyond them.
   */
  lemma {:induction false} CloseBalances(th: Thread, clock: nat, now: nat)
    requires th.stack != [] && Timed(th.stack, clock) && clock <= now < U64_LIMIT
    ensures var n := |th.stack| - 1;
            var a := th.stack[n];
            && a.start + Elapsed(a, now) == now
            && a.childNs + SelfNs(a, now) == Elapsed(a, now)
            && (n > 0 ==> Close(th, now).stack[n - 1].childNs == th.stack[n - 1].childNs + Elapsed(a, now))
            && Timed(Close(th, now).stack, now)
            && OpenChildNs(Close(th, now).stack) + (if n == 0 then Elapsed(a, now) else 0)
            == OpenChildNs(th.stack) + SelfNs(a, now)
  {
    var n := |th.stack| - 1;
    var a, rest := th.stack[n], th.stack[..n];
    assert a.start <= clock;
    assert now - a.start < U64_LIMIT;
    if n > 0 {
      assert rest[n - 1].start + rest[n - 1].childNs <= a.start;
      assert ChargeCaller(rest, Elapsed(a, now))[..n - 1] == rest[..n - 1];
    }
  }

  // ---------------------------------------------------------------- totals of accumulators

  function StackSelfNs(stat: StackStat): nat { stat.selfNs }

  /** Self time over all recorded contexts, key zero included. */
  ghost function StackTotal(stacks: map<nat, StackStat>): nat {
    MapSum(stacks, StackSelfNs)
  }

  lemma {:induction false} WeightIsSelfNs(stacks: map<nat, StackStat>, path: nat)
    ensures WeightAt(stacks, StackSelfNs)(path) == StackAt(stacks, path).selfNs
  {
    if path in stacks { assert WeightAt(stacks, StackSelfNs)(path) == StackSelfNs(stacks[path]); }
  }

  lemma {:induction false} AddStackTotal(stacks: map<nat, StackStat>, path: nat, count: nat, selfNs: nat)
    ensures StackTotal(AddStack(stacks, path, count, selfNs)) == StackTotal(stacks) + selfNs
  {
    var stat := AddStack(stacks, path, count, selfNs)[path];
    MapSumStore(stacks, path, stat, StackSelfNs);
    assert stacks[path := stat] == AddStack(stacks, path, count, selfNs);
    WeightIsSelfNs(stacks, path);
  }

  /** Draining one accumulator into another moves its self time and changes none of it. */
  lemma {:induction false} AbsorbTotal(mine: Accum, theirs: Accum)
    ensures StackTotal(AbsorbAccum(mine, theirs).stacks) == StackTotal(mine.stacks) + StackTotal(theirs.stacks)
  {
    var all := AbsorbAccum(mine, theirs).stacks;
    forall path | path in all.Keys
      ensures WeightAt(all, StackSelfNs)(path)
           == WeightAt(mine.stacks, StackSelfNs)(path) + WeightAt(theirs.stacks, StackSelfNs)(path)
    {
      WeightIsSelfNs(all, path);
      WeightIsSelfNs(mine.stacks, path);
      WeightIsSelfNs(theirs.stacks, path);
    }
    SumPlus(all.Keys, WeightAt(mine.stacks, StackSelfNs), WeightAt(theirs.stacks, StackSelfNs), WeightAt(all, StackSelfNs));
    SumWiden(mine.stacks.Keys, all.Keys, WeightAt(mine.stacks, StackSelfNs));
    SumWiden(theirs.stacks.Keys, all.Keys, WeightAt(theirs.stacks, StackSelfNs));
  }
}
