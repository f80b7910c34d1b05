/**
  Why the context tree stays finite: in the chain of any context a function
  occurs at most twice, and then next to itself.
 */
module ContextBound {
  import opened PathRegistry
  import opened Calls

  /** No function recurs in a chain except immediately after itself. */
  ghost predicate Tidy(chain: seq<nat>) {
    forall i, j :: 0 <= i < j < |chain| && chain[i] == chain[j] ==> j == i + 1
  }

  ghost function Elements(chain: seq<nat>): set<nat> {
    set x | x in chain
  }

  /** A function that could be met in a chain only as its last link. */
  ghost predicate OnlyLast(chain: seq<nat>, func: nat) {
    forall i :: 0 <= i < |chain| && chain[i] == func ==> i == |chain| - 1
  }

  ghost predicate AllTidy(nodes: seq<PathNode>)
    requires Rooted(nodes)
  {
    forall id :: 0 <= id <= |nodes| ==> Tidy(Chain(nodes, id))
  }

  /** Functions of the first `k` activations. */
  ghost function Beneath(stack: seq<Activation>, k: nat): set<nat>
    requires k <= |stack|
  {
    set j | 0 <= j < k :: stack[j].func
  }

  function Levels(stack: seq<Activation>, func: nat): nat {
    if stack == [] then 0
    else Levels(stack[..|stack| - 1], func) + if stack[|stack| - 1].func == func then 1 else 0
  }

  // ---------------------------------------------------------------- the invariant of one thread

  ghost predicate MemoTrue(memo: map<PathNode, nat>, nodes: seq<PathNode>) {
    forall node :: node in memo ==> Names(nodes, memo[node], node)
  }

  /** An activation runs in a known context, made only of functions running beneath it or itself. */
  ghost predicate Placed(stack: seq<Activation>, k: nat, nodes: seq<PathNode>)
    requires Rooted(nodes) && k < |stack|
  {
    && stack[k].path <= |nodes|
    && Elements(Chain(nodes, stack[k].path)) <= Beneath(stack, k + 1)
    && (stack[k].outermost <==> stack[k].func !in Beneath(stack, k))
    && (stack[k].outermost ==> OnlyLast(Chain(nodes, stack[k].path), stack[k].func))
  }

  /** The depth entry of a function describes the outermost of its activations. */
  ghost predicate DepthTrue(d: Depth, a: Activation, nodes: seq<PathNode>) {
    && d.path == a.path
    && (d.recursionPath == 0 || d.recursionPath == d.path
        || Names(nodes, d.recursionPath, PathNode(d.path, a.func)))
  }

  ghost predicate Structured(th: Thread, nodes: seq<PathNode>) {
    && Rooted(nodes)
    && MemoTrue(th.memo, nodes)
    && (forall k :: 0 <= k < |th.stack| ==> Placed(th.stack, k, nodes))
    && (forall f :: f in th.depth <==> Levels(th.stack, f) > 0)
    && (forall f :: f in th.depth ==> th.depth[f].count == Levels(th.stack, f))
    && (forall k :: 0 <= k < |th.stack| && th.stack[k].outermost ==>
          th.stack[k].func in th.depth && DepthTrue(th.depth[th.stack[k].func], th.stack[k], nodes))
  }

  lemma {:induction false} LevelsFind(stack: seq<Activation>, func: nat)
    ensures Levels(stack, func) > 0 <==> func in Beneath(stack, |stack|)
  {
    if stack != [] {
      LevelsFind(stack[..|stack| - 1], func);
      BeneathPrefix(stack[..|stack| - 1], stack, |stack| - 1);
      assert Beneath(stack, |stack|) == Beneath(stack, |stack| - 1) + {stack[|stack| - 1].func};
    }
  }

  lemma {:induction false} BeneathPrefix(a: seq<Activation>, b: seq<Activation>, k: nat)
    requires k <= |a| && k <= |b|
    requires forall j :: 0 <= j < k ==> a[j].func == b[j].func
    ensures Beneath(a, k) == Beneath(b, k)
  {
  }

  /** A function on the stack has an outermost activation. */
  lemma {:induction false} OutermostExists(stack: seq<Activation>, n: nat, func: nat) returns (k: nat)
    requires n <= |stack| && func in Beneath(stack, n)
    ensures k < n && stack[k].func == func && func !in Beneath(stack, k)
  {
    if func in Beneath(stack, n - 1) {
      k := OutermostExists(stack, n - 1, func);
    } else {
      k := n - 1;
    }
  }

  /** A thread's view survives any other thread's interning. */
  lemma {:induction false} StructuredGrows(th: Thread, before: seq<PathNode>, after: seq<PathNode>)
    requires Structured(th, before) && Rooted(after) && before <= after
    ensures Structured(th, after)
  {
    forall k | 0 <= k < |th.stack|
      ensures Placed(th.stack, k, after)
    {
      assert Placed(th.stack, k, before);
      ChainStable(before, after, th.stack[k].path);
    }
  }

  // ---------------------------------------------------------------- opening

  lemma {:induction false} ContextIs(memo: map<PathNode, nat>, table: Table, parent: nat, func: nat, cap: nat)
    requires WellFormed(table) && MemoTrue(memo, table.nodes) && parent <= |table.nodes|
    ensures var r := Context(memo, table, parent, func, cap);
            && WellFormed(r.table) && Grown(table, r.table) && MemoTrue(r.memo, r.table.nodes)
            && r.path <= |r.table.nodes|
            && (r.path == parent || Names(r.table.nodes, r.path, PathNode(parent, func)))
  {
    var node := PathNode(parent, func);
    if node !in memo {
      InternWellFormed(table, node, cap);
      var (table', path) := Intern(table, node, cap);
      MemoGrows(memo, table.nodes, table'.nodes);
    }
  }

  /** A context falls back to its parent only when the table is full and does not hold it. */
  lemma {:induction false} ContextFallsBack(memo: map<PathNode, nat>, table: Table, parent: nat, func: nat, cap: nat)
    requires WellFormed(table) && MemoTrue(memo, table.nodes) && parent <= |table.nodes|
    ensures var r := Context(memo, table, parent, func, cap);
            if r.path == parent then
              |table.nodes| >= cap && r.table.nodes == table.nodes
              && forall id: nat :: !Names(table.nodes, id, PathNode(parent, func))
            else Names(r.table.nodes, r.path, PathNode(parent, func))
  {
    var node := PathNode(parent, func);
    ContextIs(memo, table, parent, func, cap);
    if node in memo { assert Names(table.nodes, memo[node], node); }
  }

  lemma {:induction false} MemoGrows(memo: map<PathNode, nat>, before: seq<PathNode>, after: seq<PathNode>)
    requires MemoTrue(memo, before) && before <= after
    ensures MemoTrue(memo, after)
  {
    forall node | node in memo
      ensures Names(after, memo[node], node)
    {
      assert Names(before, memo[node], node);
    }
  }

  /** What the chain of a reached context can hold, over the chain it extends. */
  lemma {:induction false} ReachedChain(nodes: seq<PathNode>, parent: nat, func: nat, path: nat)
    requires Rooted(nodes) && parent <= |nodes| && path <= |nodes|
    requires path == parent || Names(nodes, path, PathNode(parent, func))
    ensures Chain(nodes, path) == Chain(nodes, parent) || Chain(nodes, path) == Chain(nodes, parent) + [func]
  {
  }

  lemma {:induction false} TidyExtends(chain: seq<nat>, func: nat)
    requires Tidy(chain) && OnlyLast(chain, func)
    ensures Tidy(chain + [func])
  {
  }

  /** Interning below `parent` keeps every chain tidy if `func` could only follow itself there. */
  lemma {:induction false} ContextKeepsTidy(memo: map<PathNode, nat>, table: Table, parent: nat, func: nat, cap: nat)
    requires WellFormed(table) && MemoTrue(memo, table.nodes) && parent <= |table.nodes|
    requires AllTidy(table.nodes) && OnlyLast(Chain(table.nodes, parent), func)
    ensures WellFormed(Context(memo, table, parent, func, cap).table)
    ensures AllTidy(Context(memo, table, parent, func, cap).table.nodes)
  {
    ContextIs(memo, table, parent, func, cap);
    ContextAppends(memo, table, parent, func, cap);
    if Context(memo, table, parent, func, cap).table.nodes != table.nodes {
      AllTidyExtends(table.nodes, parent, func);
    }
  }

  lemma {:induction false} ContextAppends(memo: map<PathNode, nat>, table: Table, parent: nat, func: nat, cap: nat)
    ensures var nodes := Context(memo, table, parent, func, cap).table.nodes;
            nodes == table.nodes || nodes == table.nodes + [PathNode(parent, func)]
  {
  }

  lemma {:induction false} AllTidyExtends(nodes: seq<PathNode>, parent: nat, func: nat)
    requires Rooted(nodes) && parent <= |nodes| && AllTidy(nodes)
    requires OnlyLast(Chain(nodes, parent), func)
    ensures Rooted(nodes + [PathNode(parent, func)]) && AllTidy(nodes + [PathNode(parent, func)])
  {
    var nodes' := nodes + [PathNode(parent, func)];
    NewChain(nodes, parent, func);
    forall id | 0 <= id <= |nodes'|
      ensures Tidy(Chain(nodes', id))
    {
      if id <= |nodes| { ChainStable(nodes, nodes', id); }
    }
  }

  lemma {:induction false} NewChain(nodes: seq<PathNode>, parent: nat, func: nat)
    requires Rooted(nodes) && parent <= |nodes|
    requires Tidy(Chain(nodes, parent)) && OnlyLast(Chain(nodes, parent), func)
    ensures Rooted(nodes + [PathNode(parent, func)])
    ensures Tidy(Chain(nodes + [PathNode(parent, func)], |nodes| + 1))
  {
    var nodes' := nodes + [PathNode(parent, func)];
    ChainStable(nodes, nodes', parent);
    TidyExtends(Chain(nodes, parent), func);
  }

  /** The context `func` is entered from: its caller's, or its own outermost one when it recurses. */
  function Anchor(th: Thread, func: nat): nat {
    if !OnStack(th, func) then TopPath(th.stack) else th.depth[func].path
  }

  lemma {:induction false} AnchorIs(th: Thread, nodes: seq<PathNode>, func: nat)
    requires Structured(th, nodes)
    ensures OnStack(th, func) <==> func in Beneath(th.stack, |th.stack|)
    ensures Anchor(th, func) <= |nodes|
    ensures Elements(Chain(nodes, Anchor(th, func))) <= Beneath(th.stack, |th.stack|)
    ensures OnlyLast(Chain(nodes, Anchor(th, func)), func)
  {
    LevelsFind(th.stack, func);
    var n := |th.stack|;
    if OnStack(th, func) {
      var k := OutermostExists(th.stack, n, func);
      assert Placed(th.stack, k, nodes);
      assert Beneath(th.stack, k + 1) <= Beneath(th.stack, n);
    } else if n > 0 {
      assert Placed(th.stack, n - 1, nodes);
      AbsentIsOnlyLast(Chain(nodes, th.stack[n - 1].path), func);
    }
  }

  lemma {:induction false} AbsentIsOnlyLast(chain: seq<nat>, func: nat)
    requires func !in Elements(chain)
    ensures OnlyLast(chain, func)
  {
  }

  /** The new activation's context hangs off its anchor, or is the anchor. */
  lemma {:induction false} NextContextIs(th: Thread, table: Table, func: nat, cap: nat)
    requires WellFormed(table) && Structured(th, table.nodes)
    ensures var r := NextContext(th, table, func, cap);
            && WellFormed(r.table) && Grown(table, r.table) && MemoTrue(r.memo, r.table.nodes)
            && r.path <= |r.table.nodes|
            && (r.path == Anchor(th, func) || Names(r.table.nodes, r.path, PathNode(Anchor(th, func), func)))
  {
    AnchorIs(th, table.nodes, func);
    ContextIs(th.memo, table, Anchor(th, func), func, cap);
    if OnStack(th, func) && th.depth[func].recursionPath != 0 {
      var k := OutermostExists(th.stack, |th.stack|, func);
      assert Placed(th.stack, k, table.nodes);
    }
  }

  /** Entering a function keeps every chain tidy, whatever the stack and however full the table. */
  lemma {:induction false} OpenKeepsTidy(th: Thread, table: Table, func: nat, now: nat, cap: nat)
    requires WellFormed(table) && Structured(th, table.nodes) && AllTidy(table.nodes)
    ensures var table' := Open(th, table, func, now, cap).1;
            WellFormed(table') && Grown(table, table') && AllTidy(table'.nodes)
  {
    NextContextIs(th, table, func, cap);
    AnchorIs(th, table.nodes, func);
    ContextKeepsTidy(th.memo, table, Anchor(th, func), func, cap);
  }

  lemma {:induction false} LevelsPush(stack: seq<Activation>, a: Activation, func: nat)
    ensures Levels(stack + [a], func) == Levels(stack, func) + if a.func == func then 1 else 0
  {
    assert (stack + [a])[..|stack|] == stack;
  }

  lemma {:induction false} OpenKeepsStructured(th: Thread, table: Table, func: nat, now: nat, cap: nat)
    requires WellFormed(table) && Structured(th, table.nodes)
    ensures var (th', table') := Open(th, table, func, now, cap);
            WellFormed(table') && Grown(table, table') && Structured(th', table'.nodes)
  {
    var (th', table') := Open(th, table, func, now, cap);
    var nodes := table'.nodes;
    NextContextIs(th, table, func, cap);
    StructuredGrows(th, table.nodes, nodes);
    NewActivationPlaced(th, table, func, now, cap);
    OldActivationsPlaced(th.stack, th'.stack[|th.stack|], nodes);
    OpenKeepsDepth(th, table, func, now, cap);
  }

  lemma {:induction false} OldActivationsPlaced(stack: seq<Activation>, a: Activation, nodes: seq<PathNode>)
    requires Rooted(nodes) && forall k :: 0 <= k < |stack| ==> Placed(stack, k, nodes)
    ensures forall k :: 0 <= k < |stack| ==> Placed(stack + [a], k, nodes)
  {
    forall k | 0 <= k < |stack|
      ensures Placed(stack + [a], k, nodes)
    {
      assert Placed(stack, k, nodes);
      BeneathPrefix(stack, stack + [a], k);
      BeneathPrefix(stack, stack + [a], k + 1);
    }
  }

  lemma {:induction false} NewActivationPlaced(th: Thread, table: Table, func: nat, now: nat, cap: nat)
    requires WellFormed(table) && Structured(th, table.nodes)
    ensures var (th', table') := Open(th, table, func, now, cap);
            Rooted(table'.nodes) && Placed(th'.stack, |th.stack|, table'.nodes)
  {
    var (th', table') := Open(th, table, func, now, cap);
    var nodes, n, anchor := table'.nodes, |th.stack|, Anchor(th, func);
    NextContextIs(th, table, func, cap);
    AnchorIs(th, table.nodes, func);
    ChainStable(table.nodes, nodes, anchor);
    ReachedChain(nodes, anchor, func, th'.stack[n].path);
    BeneathPrefix(th.stack, th'.stack, n);
    assert Beneath(th'.stack, n + 1) == Beneath(th'.stack, n) + {func};
    if !OnStack(th, func) { assert func !in Elements(Chain(nodes, anchor)); }
    AnchorChainExtends(Chain(nodes, anchor), Chain(nodes, th'.stack[n].path), func);
  }

  lemma {:induction false} OpenKeepsDepth(th: Thread, table: Table, func: nat, now: nat, cap: nat)
    requires WellFormed(table) && Structured(th, table.nodes)
    ensures var (th', table') := Open(th, table, func, now, cap);
            && (forall f :: f in th'.depth <==> Levels(th'.stack, f) > 0)
            && (forall f :: f in th'.depth ==> th'.depth[f].count == Levels(th'.stack, f))
            && (forall k :: 0 <= k < |th'.stack| && th'.stack[k].outermost ==>
                  th'.stack[k].func in th'.depth && DepthTrue(th'.depth[th'.stack[k].func], th'.stack[k], table'.nodes))
  {
    var (th', table') := Open(th, table, func, now, cap);
    var n := |th.stack|;
    NextContextIs(th, table, func, cap);
    AnchorIs(th, table.nodes, func);
    StructuredGrows(th, table.nodes, table'.nodes);
    forall f
      ensures Levels(th'.stack, f) == Levels(th.stack, f) + if f == func then 1 else 0
    {
      LevelsPush(th.stack, th'.stack[n], f);
    }
    forall k | 0 <= k < |th'.stack| && th'.stack[k].outermost
      ensures th'.stack[k].func in th'.depth && DepthTrue(th'.depth[th'.stack[k].func], th'.stack[k], table'.nodes)
    {
      if k < n {
        assert th.stack[k].outermost;
        if th.stack[k].func == func {
          assert func in Beneath(th.stack, n);
          assert th'.depth[func].path == th.stack[k].path;
        }
      }
    }
  }

  lemma {:induction false} AnchorChainExtends(anchor: seq<nat>, chain: seq<nat>, func: nat)
    requires chain == anchor || chain == anchor + [func]
    ensures Elements(chain) <= Elements(anchor) + {func}
    ensures func !in Elements(anchor) ==> OnlyLast(chain, func)
  {
  }

  // ---------------------------------------------------------------- closing

  lemma {:induction false} CloseKeepsStructured(th: Thread, nodes: seq<PathNode>, now: nat)
    requires Structured(th, nodes)
    ensures Structured(Close(th, now), nodes)
  {
    if th.stack != [] {
      var th' := Close(th, now);
      var n := |th.stack| - 1;
      var top := th.stack[n];
      forall f ensures Levels(th.stack, f) == Levels(th'.stack, f) + if top.func == f then 1 else 0 {
        LevelsSame(th'.stack, th.stack[..n], f);
      }
      forall k | 0 <= k < n
        ensures Placed(th'.stack, k, nodes)
      {
        assert Placed(th.stack, k, nodes);
        BeneathPrefix(th.stack, th'.stack, k);
        BeneathPrefix(th.stack, th'.stack, k + 1);
      }
      forall k | 0 <= k < n && th'.stack[k].outermost
        ensures th'.stack[k].func in th'.depth && DepthTrue(th'.depth[th'.stack[k].func], th'.stack[k], nodes)
      {
        assert th.stack[k].outermost && th'.stack[k].func == th.stack[k].func;
        assert th'.stack[k].func in Beneath(th'.stack, |th'.stack|);
        LevelsFind(th'.stack, th.stack[k].func);
      }
    }
  }

  lemma {:induction false} LevelsSame(a: seq<Activation>, b: seq<Activation>, func: nat)
    requires |a| == |b| && forall k :: 0 <= k < |a| ==> a[k].func == b[k].func
    ensures Levels(a, func) == Levels(b, func)
  {
    if a != [] { LevelsSame(a[..|a| - 1], b[..|b| - 1], func); }
  }
}
