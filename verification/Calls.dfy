/** One thread's activation stack: what opening and closing a measured call does to it. */
module Calls {
  import opened Words
  import opened PathRegistry
  import opened SampleStore

  datatype Activation = Activation(
    func: nat,
    path: nat,
    start: nat,
    childNs: nat,
    outermost: bool,
    countsHere: bool)

  /** How deep the thread is inside one function, and the two contexts it runs in. */
  datatype Depth = Depth(count: nat, path: nat, recursionPath: nat)

  datatype StackStat = StackStat(count: nat, selfNs: nat)

  datatype CallStat = CallStat(count: nat, ns: Form)

  datatype Accum = Accum(calls: map<nat, CallStat>, stacks: map<nat, StackStat>)

  const NOTHING: Accum := Accum(map[], map[])

  datatype Thread = Thread(
    stack: seq<Activation>,
    depth: map<nat, Depth>,
    memo: map<PathNode, nat>,
    accum: Accum)

  const NEW_THREAD: Thread := Thread([], map[], map[], NOTHING)

  /** A context found or interned: the cache and the table after, and the context itself. */
  datatype Reached = Reached(memo: map<PathNode, nat>, table: Table, path: nat)

  /** Prefers the thread's cache; a full table gives the parent back. */
  function Context(memo: map<PathNode, nat>, table: Table, parent: nat, func: nat, cap: nat): Reached {
    var node := PathNode(parent, func);
    if node in memo then Reached(memo, table, memo[node])
    else
      var (table', path) := Intern(table, node, cap);
      if path == 0 then Reached(memo, table', parent) else Reached(memo[node := path], table', path)
  }

  function TopPath(stack: seq<Activation>): nat {
    if stack == [] then 0 else stack[|stack| - 1].path
  }

  predicate OnStack(th: Thread, func: nat) {
    func in th.depth && th.depth[func].count != 0
  }

  /** Where the next activation of `func` runs. Every recursive level shares one context. */
  function NextContext(th: Thread, table: Table, func: nat, cap: nat): Reached {
    if !OnStack(th, func) then Context(th.memo, table, TopPath(th.stack), func, cap)
    else if th.depth[func].recursionPath == 0 then Context(th.memo, table, th.depth[func].path, func, cap)
    else Reached(th.memo, table, th.depth[func].recursionPath)
  }

  /** The thread and the table after `func` is entered at `now`. */
  function Open(th: Thread, table: Table, func: nat, now: nat, cap: nat): (Thread, Table) {
    var reached := NextContext(th, table, func, cap);
    var outermost := !OnStack(th, func);
    var countsHere := outermost || th.depth[func].count == 1;
    var depth := if outermost then Depth(1, reached.path, 0)
                 else Depth(th.depth[func].count + 1, th.depth[func].path, reached.path);
    (Thread(
       th.stack + [Activation(func, reached.path, now, 0, outermost, countsHere)],
       th.depth[func := depth],
       reached.memo,
       th.accum),
     reached.table)
  }

  /** Nanoseconds since the activation opened, truncated to a `u64` as the source's cast does. */
  function Elapsed(a: Activation, now: nat): u64 {
    SatSub(now, a.start) % U64_LIMIT
  }

  /** The part of an activation's time its measured callees did not spend. */
  function SelfNs(a: Activation, now: nat): nat {
    SatSub(Elapsed(a, now), a.childNs)
  }

  /** Charges a closed activation's time to whoever is on top now. */
  function ChargeCaller(stack: seq<Activation>, elapsed: nat): seq<Activation> {
    if stack == [] then stack
    else
      var caller := stack[|stack| - 1];
      stack[|stack| - 1 := caller.(childNs := SatAdd(caller.childNs, elapsed))]
  }

  function LeaveDepth(depth: map<nat, Depth>, func: nat): map<nat, Depth> {
    if func !in depth then depth
    else if depth[func].count <= 1 then depth - {func}
    else depth[func := depth[func].(count := depth[func].count - 1)]
  }

  function AddStack(stacks: map<nat, StackStat>, path: nat, count: nat, selfNs: nat): map<nat, StackStat> {
    var held := if path in stacks then stacks[path] else StackStat(0, 0);
    stacks[path := StackStat(held.count + count, held.selfNs + selfNs)]
  }

  function AddCall(calls: map<nat, CallStat>, func: nat, elapsed: u64): map<nat, CallStat> {
    var held := if func in calls then calls[func] else CallStat(0, NO_SAMPLES);
    calls[func := CallStat(held.count + 1, Added(held.ns, elapsed))]
  }

  /** What a closing activation adds to its thread's accumulator. */
  function Recorded(accum: Accum, a: Activation, now: nat): Accum {
    Accum(
      if a.outermost then AddCall(accum.calls, a.func, Elapsed(a, now)) else accum.calls,
      AddStack(accum.stacks, a.path, if a.countsHere then 1 else 0, SelfNs(a, now)))
  }

  /** The thread after its top activation closes at `now`; an empty stack stays as it is. */
  function Close(th: Thread, now: nat): Thread {
    if th.stack == [] then th
    else
      var a := th.stack[|th.stack| - 1];
      Thread(
        ChargeCaller(th.stack[..|th.stack| - 1], Elapsed(a, now)),
        LeaveDepth(th.depth, a.func),
        th.memo,
        Recorded(th.accum, a, now))
  }

  // ---------------------------------------------------------------- draining

  function StackAt(stacks: map<nat, StackStat>, path: nat): StackStat {
    if path in stacks then stacks[path] else StackStat(0, 0)
  }

  function CallAt(calls: map<nat, CallStat>, func: nat): CallStat {
    if func in calls then calls[func] else CallStat(0, NO_SAMPLES)
  }

  /** `Accum::absorb`: key by key, counters add and samples merge. */
  function AbsorbAccum(mine: Accum, theirs: Accum): Accum {
    Accum(
      map func | func in mine.calls.Keys + theirs.calls.Keys ::
        if func !in theirs.calls then CallAt(mine.calls, func)
        else CallStat(
               CallAt(mine.calls, func).count + theirs.calls[func].count,
               Absorbed(CallAt(mine.calls, func).ns, theirs.calls[func].ns)),
      map path | path in mine.stacks.Keys + theirs.stacks.Keys ::
        StackStat(
          StackAt(mine.stacks, path).count + StackAt(theirs.stacks, path).count,
          StackAt(mine.stacks, path).selfNs + StackAt(theirs.stacks, path).selfNs))
  }
}
