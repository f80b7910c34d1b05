/** The bookkeeping itself, updated in place: a thread's stack, its accumulator, and the drain. */
module ThreadBookkeeping {
  import opened Words
  import opened PathRegistry
  import opened SampleStore
  import opened Calls

  /** The half of a thread's bookkeeping the emit thread reads, under its lock. */
  class ThreadSlot {
    var accum: Accum

    constructor ()
      ensures accum == NOTHING
    {
      accum := NOTHING;
    }
  }

  class ThreadState {
    const table: PathTable
    const slot: ThreadSlot
    var stack: seq<Activation>
    var depth: map<nat, Depth>
    var memo: map<PathNode, nat>

    function Value(): Thread
      reads this, slot
    {
      Thread(stack, depth, memo, slot.accum)
    }

    constructor (table: PathTable)
      ensures this.table == table && fresh(slot) && Value() == NEW_THREAD
    {
      this.table := table;
      slot := new ThreadSlot();
      stack, depth, memo := [], map[], map[];
    }

    /** Interns `(parent, func)`, preferring this thread's cache. */
    method FindContext(parent: nat, func: nat) returns (path: nat)
      modifies this`memo, table
      ensures Reached(memo, table.Value(), path) == Context(old(memo), old(table.Value()), parent, func, table.cap)
    {
      var node := PathNode(parent, func);
      if node in memo {
        return memo[node];
      }
      path := table.InternPath(parent, func);
      if path == 0 {
        return parent;
      }
      memo := memo[node := path];
    }

    /** Opens an activation. The clock is read last, after any interning. */
    method EnterCall(func: nat, now: nat)
      modifies this`stack, this`depth, this`memo, table
      ensures (Value(), table.Value()) == Open(old(Value()), old(table.Value()), func, now, table.cap)
    {
      var parentPath := if stack == [] then 0 else stack[|stack| - 1].path;
      var path, outermost, countsHere;
      if func !in depth || depth[func].count == 0 {
        path := FindContext(parentPath, func);
        outermost, countsHere := true, true;
        depth := depth[func := Depth(1, path, 0)];
      } else {
        var held := depth[func];
        path := held.recursionPath;
        if path == 0 {
          path := FindContext(held.path, func);
        }
        outermost, countsHere := false, held.count == 1;
        depth := depth[func := Depth(held.count + 1, held.path, path)];
      }
      stack := stack + [Activation(func, path, now, 0, outermost, countsHere)];
    }

    /** Closes the top activation. The clock is read first, before any bookkeeping. */
    method LeaveCall(now: nat)
      modifies this`stack, this`depth, slot
      ensures Value() == Close(old(Value()), now)
    {
      if stack == [] {
        return;
      }
      var activation := stack[|stack| - 1];
      stack := stack[..|stack| - 1];
      var elapsed := Elapsed(activation, now);
      if stack != [] {
        var caller := stack[|stack| - 1];
        stack := stack[|stack| - 1 := caller.(childNs := SatAdd(caller.childNs, elapsed))];
      }
      var selfNs := SatSub(elapsed, activation.childNs);
      if activation.func in depth {
        if depth[activation.func].count <= 1 {
          depth := depth - {activation.func};
        } else {
          var held := depth[activation.func];
          depth := depth[activation.func := held.(count := held.count - 1)];
        }
      }
      var accum := slot.accum;
      var stacks := AddStack(accum.stacks, activation.path, if activation.countsHere then 1 else 0, selfNs);
      var calls := if activation.outermost then AddCall(accum.calls, activation.func, elapsed) else accum.calls;
      slot.accum := Accum(calls, stacks);
    }
  }

  /** What draining a list of accumulators collects. */
  function Collected(accums: seq<Accum>): Accum {
    if accums == [] then NOTHING else AbsorbAccum(Collected(accums[..|accums| - 1]), accums[|accums| - 1])
  }

  ghost function Accums(threads: seq<ThreadSlot>): seq<Accum>
    reads threads
  {
    seq(|threads|, k requires 0 <= k < |threads| reads threads => threads[k].accum)
  }

  /** The elements whose thread still holds its end. */
  function StillHeld<T>(items: seq<T>, live: seq<bool>): seq<T>
    requires |live| == |items|
  {
    if items == [] then []
    else
      var n := |items| - 1;
      StillHeld(items[..n], live[..n]) + if live[n] then [items[n]] else []
  }

  lemma {:induction false} AbsorbNothing(a: Accum)
    ensures AbsorbAccum(a, NOTHING) == a
  {
    assert AbsorbAccum(a, NOTHING).calls == a.calls;
    assert AbsorbAccum(a, NOTHING).stacks == a.stacks;
  }

  /** No later drain misses the slot of a thread that ended with nothing left to give. */
  lemma {:induction false} EndedThreadsLoseNothing(accums: seq<Accum>, live: seq<bool>)
    requires |live| == |accums| && forall k :: 0 <= k < |live| && !live[k] ==> accums[k] == NOTHING
    ensures Collected(StillHeld(accums, live)) == Collected(accums)
  {
    if accums != [] {
      var n := |accums| - 1;
      EndedThreadsLoseNothing(accums[..n], live[..n]);
      if live[n] {
        assert StillHeld(accums, live)[..|StillHeld(accums, live)| - 1] == StillHeld(accums[..n], live[..n]);
      } else {
        assert StillHeld(accums, live) == StillHeld(accums[..n], live[..n]);
        AbsorbNothing(Collected(accums[..n]));
      }
    }
  }

  /**
    Empties every thread's accumulator into one. `live` says which threads still
    hold their end of the slot; the slots of the others stop being visited.
   */
  method DrainAll(threads: seq<ThreadSlot>, live: seq<bool>) returns (merged: Accum, kept: seq<ThreadSlot>)
    requires forall i, j :: 0 <= i < j < |threads| ==> threads[i] != threads[j]
    requires |live| == |threads|
    modifies threads
    ensures merged == Collected(old(Accums(threads)))
    ensures kept == StillHeld(threads, live)
    ensures forall k :: 0 <= k < |threads| ==> threads[k].accum == NOTHING
  {
    merged, kept := NOTHING, [];
    ghost var before := Accums(threads);
    for k := 0 to |threads|
      invariant merged == Collected(before[..k]) && kept == StillHeld(threads[..k], live[..k])
      invariant forall i :: 0 <= i < k ==> threads[i].accum == NOTHING
      invariant forall i :: k <= i < |threads| ==> threads[i].accum == before[i]
    {
      assert before[..k + 1][..k] == before[..k];
      assert threads[..k + 1][..k] == threads[..k] && live[..k + 1][..k] == live[..k];
      merged := AbsorbAccum(merged, threads[k].accum);
      threads[k].accum := NOTHING;
      if live[k] {
        kept := kept + [threads[k]];
      }
    }
    assert before[..|threads|] == before;
    assert threads[..|threads|] == threads && live[..|threads|] == live;
  }
}
