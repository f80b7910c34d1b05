/** The process-wide table of calling contexts, and the chain of functions each context stands for. */
module PathRegistry {
  /** A context: `func`, called from the context `parent`. Zero is the root, which is not a function. */
  datatype PathNode = PathNode(parent: nat, func: nat)

  /** `nodes[i]` is the context with id `i + 1`. */
  datatype Table = Table(nodes: seq<PathNode>, index: map<PathNode, nat>, overflowed: nat)

  const EMPTY_TABLE: Table := Table([], map[], 0)

  /** The table after interning `node`, and its id; zero once the table is full. */
  function Intern(t: Table, node: PathNode, cap: nat): (result: (Table, nat)) {
    if node in t.index then (t, t.index[node])
    else if |t.nodes| >= cap then (t.(overflowed := t.overflowed + 1), 0)
    else
      var id := |t.nodes| + 1;
      (t.(nodes := t.nodes + [node], index := t.index[node := id]), id)
  }

  /** Every node hangs off the root or off a node numbered below it. */
  predicate Rooted(nodes: seq<PathNode>) {
    forall i :: 0 <= i < |nodes| ==> nodes[i].parent <= i
  }

  /** `id` is the context of `node`. */
  predicate Names(nodes: seq<PathNode>, id: nat, node: PathNode) {
    1 <= id <= |nodes| && nodes[id - 1] == node
  }

  /** The index and the node list say the same thing, and no node is listed twice. */
  ghost predicate WellFormed(t: Table) {
    && Rooted(t.nodes)
    && (forall node :: node in t.index ==> Names(t.nodes, t.index[node], node))
    && (forall i :: 0 <= i < |t.nodes| ==> t.nodes[i] in t.index && t.index[t.nodes[i]] == i + 1)
  }

  /** One table grown out of another: nothing named before is renamed. */
  predicate Grown(before: Table, after: Table) {
    before.nodes <= after.nodes
  }

  /** The functions from the outermost to the one `id` names. */
  function Chain(nodes: seq<PathNode>, id: nat): (chain: seq<nat>)
    requires Rooted(nodes) && id <= |nodes|
  {
    if id == 0 then [] else Chain(nodes, nodes[id - 1].parent) + [nodes[id - 1].func]
  }

  /** `id` is `top` or hangs somewhere below it. */
  predicate InSubtree(nodes: seq<PathNode>, top: nat, id: nat)
    requires Rooted(nodes) && id <= |nodes|
  {
    id == top || (id != 0 && InSubtree(nodes, top, nodes[id - 1].parent))
  }

  lemma {:induction false} InternWellFormed(t: Table, node: PathNode, cap: nat)
    requires WellFormed(t) && node.parent <= |t.nodes|
    ensures var (t', id) := Intern(t, node, cap);
            && WellFormed(t') && Grown(t, t')
            && (id != 0 ==> Names(t'.nodes, id, node))
            && (id == 0 ==> |t.nodes| >= cap && t'.nodes == t.nodes)
  {
  }

  /**
    Interning to the letter. A context already listed gives its id and changes
    nothing; a new one is listed last if the table has room, and otherwise is
    refused and counted, and only counted.
   */
  lemma {:induction false} InternDecides(t: Table, node: PathNode, cap: nat)
    requires WellFormed(t)
    ensures var (t', id) := Intern(t, node, cap);
            if node in t.nodes then t' == t && Names(t.nodes, id, node)
            else if |t.nodes| < cap then
              t'.nodes == t.nodes + [node] && id == |t'.nodes| && t'.overflowed == t.overflowed
            else t' == t.(overflowed := t.overflowed + 1) && id == 0
  {
  }

  /** One node has one id, whoever interned it and whenever. */
  lemma {:induction false} NamesAgree(t: Table, node: PathNode, a: nat, b: nat)
    requires WellFormed(t) && Names(t.nodes, a, node) && Names(t.nodes, b, node)
    ensures a == b
  {
  }

  lemma {:induction false} ChainStable(before: seq<PathNode>, after: seq<PathNode>, id: nat)
    requires Rooted(before) && Rooted(after) && before <= after && id <= |before|
    ensures Chain(before, id) == Chain(after, id)
    decreases id
  {
    if id != 0 { ChainStable(before, after, before[id - 1].parent); }
  }

  lemma {:induction false} SubtreeStable(before: seq<PathNode>, after: seq<PathNode>, top: nat, id: nat)
    requires Rooted(before) && Rooted(after) && before <= after && id <= |before|
    ensures InSubtree(before, top, id) <==> InSubtree(after, top, id)
    decreases id
  {
    if id != 0 { SubtreeStable(before, after, top, before[id - 1].parent); }
  }

  /** Distinct contexts stand for distinct chains. */
  lemma {:induction false} ChainsAreDistinct(t: Table, a: nat, b: nat)
    requires WellFormed(t) && a <= |t.nodes| && b <= |t.nodes|
    requires Chain(t.nodes, a) == Chain(t.nodes, b)
    ensures a == b
    decreases a + b
  {
    if a != 0 && b != 0 {
      var ca, cb := Chain(t.nodes, a), Chain(t.nodes, b);
      assert ca[..|ca| - 1] == Chain(t.nodes, t.nodes[a - 1].parent);
      assert cb[..|cb| - 1] == Chain(t.nodes, t.nodes[b - 1].parent);
      assert ca[|ca| - 1] == t.nodes[a - 1].func && cb[|cb| - 1] == t.nodes[b - 1].func;
      ChainsAreDistinct(t, t.nodes[a - 1].parent, t.nodes[b - 1].parent);
    }
  }

  /** The table itself, grown in place under its lock. */
  class PathTable {
    const cap: nat
    var nodes: seq<PathNode>
    var index: map<PathNode, nat>
    var overflowed: nat

    function Value(): Table
      reads this
    {
      Table(nodes, index, overflowed)
    }

    constructor (cap: nat)
      ensures this.cap == cap && Value() == EMPTY_TABLE
    {
      this.cap := cap;
      nodes, index, overflowed := [], map[], 0;
    }

    /** One lock region: look up, or refuse, or append. */
    method InternPath(parent: nat, func: nat) returns (id: nat)
      modifies this
      ensures (Value(), id) == Intern(old(Value()), PathNode(parent, func), cap)
    {
      var node := PathNode(parent, func);
      if node in index {
        return index[node];
      }
      if |nodes| >= cap {
        overflowed := overflowed + 1;
        return 0;
      }
      nodes := nodes + [node];
      id := |nodes|;
      index := index[node := id];
    }
  }
}
