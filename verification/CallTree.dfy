/** A bucket's call tree as values: what growing, measuring and sorting it keep. */
module CallTree {
  import opened PathRegistry
  import opened Sums

  datatype Node = Node(func: nat, parent: nat, selfNs: nat, calls: nat, inclusive: nat, children: seq<nat>)

  type Nodes = map<nat, Node>

  /** One context's row of a bucket. */
  datatype Row = Row(path: nat, calls: nat, selfNs: nat)

  /** A context is numbered above its parent. */
  predicate Ordered(paths: map<nat, PathNode>) {
    forall id :: id in paths ==> paths[id].parent < id
  }

  // ---------------------------------------------------------------- the tree being built

  predicate Mirrors(nodes: Nodes, paths: map<nat, PathNode>) {
    forall id :: id in nodes ==> id in paths && nodes[id].parent == paths[id].parent && nodes[id].func == paths[id].func
  }

  /** A child is listed once, under its own parent, and not before it is attached. */
  predicate ChildrenOk(nodes: Nodes, id: nat, pending: set<nat>)
    requires id in nodes
  {
    && (forall i :: 0 <= i < |nodes[id].children| ==>
          var c := nodes[id].children[i];
          c in nodes && nodes[c].parent == id && c !in pending)
    && forall i, j :: 0 <= i < j < |nodes[id].children| ==> nodes[id].children[i] != nodes[id].children[j]
  }

  /** A node whose parent is known hangs off it. */
  predicate Attached(nodes: Nodes, paths: map<nat, PathNode>, id: nat)
    requires id in nodes
  {
    nodes[id].parent != 0 && nodes[id].parent in paths ==>
      nodes[id].parent in nodes && id in nodes[nodes[id].parent].children
  }

  /** A tree in which only the nodes of `pending` are still to be attached. */
  predicate PartTree(nodes: Nodes, paths: map<nat, PathNode>, pending: set<nat>) {
    && Mirrors(nodes, paths)
    && (forall id {:trigger ChildrenOk(nodes, id, pending)} :: id in nodes ==> ChildrenOk(nodes, id, pending))
    && (forall id {:trigger Attached(nodes, paths, id)} :: id in nodes && id !in pending ==> Attached(nodes, paths, id))
  }

  /** `top` is `id` or one of the known contexts it was reached through. */
  predicate Reaches(paths: map<nat, PathNode>, top: nat, id: nat)
    requires Ordered(paths)
    decreases id
  {
    id in paths && (top == id || (paths[id].parent != 0 && Reaches(paths, top, paths[id].parent)))
  }

  /** The nodes hanging under `top`, itself included. */
  function Under(paths: map<nat, PathNode>, nodes: Nodes, top: nat): set<nat>
    requires Ordered(paths)
  {
    set d | d in nodes && Reaches(paths, top, d)
  }

  predicate ReachedFrom(paths: map<nat, PathNode>, tops: seq<nat>, d: nat)
    requires Ordered(paths)
  {
    exists top :: top in tops && Reaches(paths, top, d)
  }

  function UnderAny(paths: map<nat, PathNode>, nodes: Nodes, tops: seq<nat>): set<nat>
    requires Ordered(paths)
  {
    set d | d in nodes && ReachedFrom(paths, tops, d)
  }

  function SelfAt(nodes: Nodes): nat -> nat {
    WeightAt(nodes, (node: Node) => node.selfNs)
  }

  /** The self time recorded at the nodes of `ids`. */
  ghost function SelfSum(nodes: Nodes, ids: set<nat>): nat {
    SumOver(ids, SelfAt(nodes))
  }

  // ---------------------------------------------------------------- what measuring and sorting leave alone

  predicate SameShape(nodes: Nodes, nodes': Nodes) {
    && nodes.Keys == nodes'.Keys
    && (forall x {:trigger SameNode(nodes[x], nodes'[x])} :: x in nodes ==> SameNode(nodes[x], nodes'[x]))
  }

  predicate SameNode(a: Node, b: Node) {
    && a.func == b.func && a.parent == b.parent && a.selfNs == b.selfNs && a.calls == b.calls
    && multiset(a.children) == multiset(b.children)
  }

  predicate Distinct(ids: seq<nat>) {
    forall i, j :: 0 <= i < j < |ids| ==> ids[i] != ids[j]
  }

  /** Longest first. */
  predicate Descending(nodes: Nodes, ids: seq<nat>) {
    && (forall id :: id in ids ==> id in nodes)
    && forall i, j :: 0 <= i < j < |ids| ==> nodes[ids[i]].inclusive >= nodes[ids[j]].inclusive
  }

  /** A node holds the self time of everything under it, and its children are in order. */
  ghost predicate MeasuredAt(nodes: Nodes, paths: map<nat, PathNode>, x: nat)
    requires Ordered(paths) && x in nodes
  {
    && nodes[x].inclusive == SelfSum(nodes, Under(paths, nodes, x))
    && Descending(nodes, nodes[x].children)
  }

  predicate IsRoot(nodes: Nodes, id: nat) {
    id in nodes && (nodes[id].parent == 0 || nodes[id].parent !in nodes)
  }

  function SelfOf(rows: seq<Row>, id: nat): nat {
    if rows == [] then 0
    else SelfOf(rows[..|rows| - 1], id) + (if rows[|rows| - 1].path == id then rows[|rows| - 1].selfNs else 0)
  }

  function CallsOf(rows: seq<Row>, id: nat): nat {
    if rows == [] then 0
    else CallsOf(rows[..|rows| - 1], id) + (if rows[|rows| - 1].path == id then rows[|rows| - 1].calls else 0)
  }

  /** The self time of the rows whose context is known. */
  function KnownSelf(paths: map<nat, PathNode>, rows: seq<Row>): nat {
    if rows == [] then 0
    else KnownSelf(paths, rows[..|rows| - 1]) +
         (if rows[|rows| - 1].path in paths then rows[|rows| - 1].selfNs else 0)
  }

  /** The context is on the way to that of some row. */
  ghost predicate Reported(paths: map<nat, PathNode>, rows: seq<Row>, x: nat)
    requires Ordered(paths)
  {
    exists i :: 0 <= i < |rows| && Reaches(paths, x, rows[i].path)
  }

  /** The tree holds the known contexts of the rows and every known context they were reached through. */
  ghost predicate Holds(nodes: Nodes, paths: map<nat, PathNode>, rows: seq<Row>)
    requires Ordered(paths)
  {
    && (forall x {:trigger Reported(paths, rows, x)} :: x in nodes <==> Reported(paths, rows, x))
    && (forall x :: x in nodes ==> nodes[x].selfNs == SelfOf(rows, x) && nodes[x].calls == CallsOf(rows, x))
  }

  /** A whole tree, holding the rows and all of their known self time. */
  ghost predicate Added(nodes: Nodes, paths: map<nat, PathNode>, rows: seq<Row>)
    requires Ordered(paths)
  {
    PartTree(nodes, paths, {}) && Holds(nodes, paths, rows) && SelfSum(nodes, nodes.Keys) == KnownSelf(paths, rows)
  }

  ghost predicate ListsRoots(nodes: Nodes, roots: seq<nat>) {
    Distinct(roots) && forall id :: id in roots <==> IsRoot(nodes, id)
  }

  ghost predicate MeasuredUnder(nodes: Nodes, paths: map<nat, PathNode>, tops: seq<nat>)
    requires Ordered(paths)
  {
    forall x {:trigger MeasuredAt(nodes, paths, x)} :: x in nodes && ReachedFrom(paths, tops, x) ==> MeasuredAt(nodes, paths, x)
  }

  /** A tree with every node attached and measured. */
  ghost predicate Whole(nodes: Nodes, paths: map<nat, PathNode>)
    requires Ordered(paths)
  {
    && PartTree(nodes, paths, {})
    && forall x {:trigger MeasuredAt(nodes, paths, x)} :: x in nodes ==> MeasuredAt(nodes, paths, x)
  }

  /** The inclusive times of some nodes, added up. */
  function Span(nodes: Nodes, ids: seq<nat>): nat
    requires forall id :: id in ids ==> id in nodes
  {
    if ids == [] then 0 else Span(nodes, ids[..|ids| - 1]) + nodes[ids[|ids| - 1]].inclusive
  }

  function Above(nodes: Nodes, id: nat): set<nat> {
    set x | x in nodes && id < x
  }

  /** What measuring a node does: it stays under the node, where it measures everything. */
  ghost predicate MeasuredFrom(nodes: Nodes, nodes': Nodes, paths: map<nat, PathNode>, id: nat)
    requires Ordered(paths)
  {
    && SameShape(nodes, nodes')
    && (forall x {:trigger Reaches(paths, id, x)} :: x in nodes' && !Reaches(paths, id, x) ==> nodes'[x] == nodes[x])
    && (forall x {:trigger MeasuredAt(nodes', paths, x)} :: x in nodes' && Reaches(paths, id, x) ==> MeasuredAt(nodes', paths, x))
  }

  function Blank(source: PathNode): Node {
    Node(source.func, source.parent, 0, 0, 0, [])
  }

  /** Everything there before is there after, with the same numbers; the rest is blank and above `id`. */
  predicate Grew(nodes: Nodes, nodes': Nodes, paths: map<nat, PathNode>, id: nat)
    requires Ordered(paths)
  {
    && (forall x :: x in nodes ==> x in nodes' && nodes'[x].(children := []) == nodes[x].(children := []))
    && (forall x :: x in nodes' && x !in nodes ==>
          Reaches(paths, x, id) && nodes'[x].selfNs == 0 && nodes'[x].calls == 0)
  }

  lemma {:induction false} NewNode(nodes: Nodes, paths: map<nat, PathNode>, pending: set<nat>, id: nat)
    requires Ordered(paths) && PartTree(nodes, paths, pending) && id in paths && id !in nodes
    ensures PartTree(nodes[id := Blank(paths[id])], paths, pending + {id})
    ensures Grew(nodes, nodes[id := Blank(paths[id])], paths, id)
  {
    var nodes' := nodes[id := Blank(paths[id])];
    forall x | x in nodes'
      ensures ChildrenOk(nodes', x, pending + {id})
    {
      if x != id { assert ChildrenOk(nodes, x, pending); }
    }
    forall x | x in nodes' && x !in pending + {id}
      ensures Attached(nodes', paths, x)
    {
      assert Attached(nodes, paths, x);
    }
  }

  lemma {:induction false} GrewThrough(before: Nodes, mid: Nodes, after: Nodes, paths: map<nat, PathNode>, id: nat)
    requires Ordered(paths) && id in paths && paths[id].parent != 0
    requires mid == before[id := Blank(paths[id])] && id !in before && Grew(mid, after, paths, paths[id].parent)
    ensures Grew(before, after, paths, id) && id in after
  {
    forall x | x in before
      ensures x in after && after[x].(children := []) == before[x].(children := [])
    {
      assert mid[x] == before[x];
    }
    forall x | x in after && x !in before
      ensures Reaches(paths, x, id) && after[x].selfNs == 0 && after[x].calls == 0
    {
      if x == id { assert after[x].(children := []) == mid[x].(children := []); }
    }
  }

  lemma {:induction false} AttachNode(nodes: Nodes, paths: map<nat, PathNode>, pending: set<nat>, id: nat)
    requires Ordered(paths) && PartTree(nodes, paths, pending + {id}) && id in nodes && id !in pending
    requires nodes[id].parent in nodes
    ensures var parent := nodes[id].parent;
            PartTree(nodes[parent := nodes[parent].(children := nodes[parent].children + [id])], paths, pending)
  {
    var parent := nodes[id].parent;
    var nodes' := nodes[parent := nodes[parent].(children := nodes[parent].children + [id])];
    assert parent != id by { assert nodes[id].parent == paths[id].parent; }
    forall x | x in nodes'
      ensures ChildrenOk(nodes', x, pending)
    {
      assert ChildrenOk(nodes, x, pending + {id});
    }
    forall x | x in nodes' && x !in pending
      ensures Attached(nodes', paths, x)
    {
      if x == id {
        assert nodes'[parent].children[|nodes[parent].children|] == id;
      } else {
        assert Attached(nodes, paths, x);
        StillListed(nodes, nodes', x);
      }
    }
  }

  lemma {:induction false} StillListed(nodes: Nodes, nodes': Nodes, x: nat)
    requires x in nodes && x in nodes' && nodes'[x].parent == nodes[x].parent
    requires forall p :: p in nodes ==> p in nodes' && nodes[p].children <= nodes'[p].children
    ensures nodes[x].parent in nodes && x in nodes[nodes[x].parent].children ==> x in nodes'[nodes[x].parent].children
  {
    var p := nodes[x].parent;
    if p in nodes && x in nodes[p].children {
      var i :| 0 <= i < |nodes[p].children| && nodes[p].children[i] == x;
      assert nodes'[p].children[i] == x;
    }
  }

  lemma {:induction false} Detached(nodes: Nodes, paths: map<nat, PathNode>, pending: set<nat>, id: nat)
    requires PartTree(nodes, paths, pending + {id}) && id in nodes
    requires nodes[id].parent == 0 || nodes[id].parent !in paths
    ensures PartTree(nodes, paths, pending)
  {
    forall x | x in nodes
      ensures ChildrenOk(nodes, x, pending)
    {
      assert ChildrenOk(nodes, x, pending + {id});
    }
  }

  // ---------------------------------------------------------------- reaching

  lemma {:induction false} ReachesUp(paths: map<nat, PathNode>, top: nat, d: nat)
    requires Ordered(paths) && Reaches(paths, top, d)
    ensures top in paths && top <= d
    decreases d
  {
    if top != d { ReachesUp(paths, top, paths[d].parent); }
  }

  lemma {:induction false} ReachesThrough(paths: map<nat, PathNode>, a: nat, b: nat, c: nat)
    requires Ordered(paths) && Reaches(paths, a, b) && Reaches(paths, b, c)
    ensures Reaches(paths, a, c)
    decreases c
  {
    if b != c {
      ReachesThrough(paths, a, b, paths[c].parent);
    }
  }

  /** The contexts a context was reached through are in line. */
  lemma {:induction false} ReachersAreInLine(paths: map<nat, PathNode>, a: nat, b: nat, d: nat)
    requires Ordered(paths) && Reaches(paths, a, d) && Reaches(paths, b, d)
    ensures Reaches(paths, a, b) || Reaches(paths, b, a)
    decreases d
  {
    if a != d && b != d { ReachersAreInLine(paths, a, b, paths[d].parent); }
  }

  lemma {:induction false} SiblingsApart(paths: map<nat, PathNode>, a: nat, b: nat, d: nat)
    requires Ordered(paths) && a in paths && b in paths && paths[a].parent == paths[b].parent
    requires Reaches(paths, a, d) && Reaches(paths, b, d)
    ensures a == b
  {
    ReachersAreInLine(paths, a, b, d);
    if a != b {
      if Reaches(paths, a, b) { ReachesUp(paths, a, paths[b].parent); } else { ReachesUp(paths, b, paths[a].parent); }
    }
  }

  /** The step below `top` on the way to `d`. */
  function Towards(paths: map<nat, PathNode>, top: nat, d: nat): (step: nat)
    requires Ordered(paths) && Reaches(paths, top, d) && top != d
    ensures step in paths && paths[step].parent == top && Reaches(paths, step, d)
    decreases d
  {
    if paths[d].parent == top then d else Towards(paths, top, paths[d].parent)
  }

  /** A tree holds every known context its nodes were reached through. */
  lemma {:induction false} TreeIsClosed(nodes: Nodes, paths: map<nat, PathNode>, top: nat, d: nat)
    requires Ordered(paths) && PartTree(nodes, paths, {}) && d in nodes && Reaches(paths, top, d)
    ensures top in nodes
    decreases d
  {
    if top != d {
      assert Attached(nodes, paths, d);
      ReachesUp(paths, top, paths[d].parent);
      assert nodes[d].parent in nodes by {
        assert Reaches(paths, top, paths[d].parent);
      }
      TreeIsClosed(nodes, paths, top, paths[d].parent);
    }
  }

  // ---------------------------------------------------------------- adding rows

  /** A row's figures added to its node, if it has one. */
  function Credited(nodes: Nodes, row: Row): Nodes {
    if row.path in nodes
    then nodes[row.path := nodes[row.path].(selfNs := nodes[row.path].selfNs + row.selfNs,
                                            calls := nodes[row.path].calls + row.calls)]
    else nodes
  }

  lemma {:induction false} RowAdded(before: Nodes, mid: Nodes, paths: map<nat, PathNode>, rows: seq<Row>, row: Row)
    requires Ordered(paths) && Added(before, paths, rows)
    requires PartTree(mid, paths, {}) && Grew(before, mid, paths, row.path)
    requires row.path in paths ==> row.path in mid
    ensures Added(Credited(mid, row), paths, rows + [row])
  {
    CreditKeepsTree(mid, paths, row);
    RowIsHeld(before, mid, paths, rows, row);
    RowIsSummed(before, mid, paths, rows, row);
  }

  lemma {:induction false} CreditKeepsTree(nodes: Nodes, paths: map<nat, PathNode>, row: Row)
    requires PartTree(nodes, paths, {})
    ensures PartTree(Credited(nodes, row), paths, {})
  {
    var after := Credited(nodes, row);
    forall x | x in after
      ensures ChildrenOk(after, x, {}) && Attached(after, paths, x)
    {
      assert ChildrenOk(nodes, x, {}) && Attached(nodes, paths, x);
    }
  }

  lemma {:induction false} RowIsSummed(before: Nodes, mid: Nodes, paths: map<nat, PathNode>, rows: seq<Row>, row: Row)
    requires Ordered(paths) && Grew(before, mid, paths, row.path) && (row.path in paths <==> row.path in mid)
    requires SelfSum(before, before.Keys) == KnownSelf(paths, rows)
    ensures var after := Credited(mid, row); SelfSum(after, after.Keys) == KnownSelf(paths, rows + [row])
  {
    assert (rows + [row])[..|rows|] == rows;
    GrewSum(before, mid, paths, row.path);
    var after := Credited(mid, row);
    if row.path in mid {
      var rest := mid.Keys - {row.path};
      assert after.Keys == mid.Keys;
      SumPick(mid.Keys, row.path, SelfAt(mid));
      SumPick(after.Keys, row.path, SelfAt(after));
      SumSame(rest, SelfAt(mid), SelfAt(after));
    }
  }

  lemma {:induction false} GrewSum(before: Nodes, mid: Nodes, paths: map<nat, PathNode>, id: nat)
    requires Ordered(paths) && Grew(before, mid, paths, id)
    ensures SelfSum(before, before.Keys) == SelfSum(mid, mid.Keys)
  {
    forall x | x in before.Keys
      ensures SelfAt(before)(x) == SelfAt(mid)(x)
    {
      assert mid[x].(children := []).selfNs == before[x].(children := []).selfNs;
    }
    SumSame(before.Keys, SelfAt(before), SelfAt(mid));
    SumWiden(before.Keys, mid.Keys, SelfAt(mid));
  }

  lemma {:induction false} RowIsHeld(before: Nodes, mid: Nodes, paths: map<nat, PathNode>, rows: seq<Row>, row: Row)
    requires Ordered(paths) && PartTree(mid, paths, {})
    requires Grew(before, mid, paths, row.path) && (row.path in paths <==> row.path in mid)
    requires Holds(before, paths, rows)
    ensures Holds(Credited(mid, row), paths, rows + [row])
  {
    forall x | x in Credited(mid, row)
      ensures Credited(mid, row)[x].selfNs == SelfOf(rows + [row], x) && Credited(mid, row)[x].calls == CallsOf(rows + [row], x)
    {
      assert x in paths;
      RowFigures(before, mid, paths, rows, row, x);
    }
    forall x
      ensures x in Credited(mid, row) <==> Reported(paths, rows + [row], x)
    {
      assert x in Credited(mid, row) <==> x in mid;
      assert x in before <==> Reported(paths, rows, x);
      RowReaches(before, mid, paths, rows, row, x);
    }
  }

  lemma {:induction false} RowFigures(before: Nodes, mid: Nodes, paths: map<nat, PathNode>, rows: seq<Row>, row: Row, x: nat)
    requires Ordered(paths) && Grew(before, mid, paths, row.path) && Holds(before, paths, rows) && x in mid && x in paths
    ensures x in Credited(mid, row) && Credited(mid, row)[x].selfNs == SelfOf(rows + [row], x)
    ensures Credited(mid, row)[x].calls == CallsOf(rows + [row], x)
  {
    assert (rows + [row])[..|rows|] == rows && (rows + [row])[|rows|] == row;
    if x in before {
      assert mid[x].(children := []).selfNs == before[x].(children := []).selfNs;
      assert mid[x].(children := []).calls == before[x].(children := []).calls;
    } else {
      forall i | 0 <= i < |rows|
        ensures rows[i].path != x
      {
        assert !Reported(paths, rows, x);
        assert !Reaches(paths, x, rows[i].path);
      }
      NotNamed(rows, x);
    }
    assert mid[x].selfNs == SelfOf(rows, x) && mid[x].calls == CallsOf(rows, x);
  }

  lemma {:induction false} RowReaches(before: Nodes, mid: Nodes, paths: map<nat, PathNode>, rows: seq<Row>, row: Row, x: nat)
    requires Ordered(paths) && PartTree(mid, paths, {})
    requires Grew(before, mid, paths, row.path) && (row.path in paths <==> row.path in mid)
    requires x in before <==> Reported(paths, rows, x)
    ensures x in mid <==> Reported(paths, rows + [row], x)
  {
    var rows' := rows + [row];
    assert forall i :: 0 <= i < |rows| ==> rows'[i] == rows[i];
    assert rows'[|rows|] == row;
    if x in before {
      var i :| 0 <= i < |rows| && Reaches(paths, x, rows[i].path);
      assert Reaches(paths, x, rows'[i].path);
    } else if Reaches(paths, x, row.path) {
      assert row.path in mid;
      TreeIsClosed(mid, paths, x, row.path);
      assert Reaches(paths, x, rows'[|rows|].path);
    }
  }

  lemma {:induction false} NotNamed(rows: seq<Row>, x: nat)
    requires forall i :: 0 <= i < |rows| ==> rows[i].path != x
    ensures SelfOf(rows, x) == 0 && CallsOf(rows, x) == 0
  {
    if rows != [] { NotNamed(rows[..|rows| - 1], x); }
  }

  // ---------------------------------------------------------------- sorting

  function InsertByInclusive(nodes: Nodes, id: nat, ids: seq<nat>): (sorted: seq<nat>)
    requires id in nodes && forall x :: x in ids ==> x in nodes
    ensures multiset(sorted) == multiset(ids) + multiset{id}
  {
    if ids == [] then [id]
    else if nodes[ids[0]].inclusive <= nodes[id].inclusive then [id] + ids
    else
      assert ids == [ids[0]] + ids[1..];
      [ids[0]] + InsertByInclusive(nodes, id, ids[1..])
  }

  lemma {:induction false} InsertedAmong(nodes: Nodes, id: nat, ids: seq<nat>, x: nat)
    requires id in nodes && forall x :: x in ids ==> x in nodes
    ensures x in InsertByInclusive(nodes, id, ids) ==> x == id || x in ids
  {
    assert x in InsertByInclusive(nodes, id, ids) ==> x in multiset(InsertByInclusive(nodes, id, ids));
  }

  lemma {:induction false} InsertedDescends(nodes: Nodes, id: nat, ids: seq<nat>)
    requires id in nodes && Descending(nodes, ids)
    ensures Descending(nodes, InsertByInclusive(nodes, id, ids))
  {
    var sorted := InsertByInclusive(nodes, id, ids);
    forall x | x in sorted
      ensures x in nodes
    {
      InsertedAmong(nodes, id, ids, x);
    }
    if ids != [] && nodes[ids[0]].inclusive > nodes[id].inclusive {
      var rest := InsertByInclusive(nodes, id, ids[1..]);
      InsertedDescends(nodes, id, ids[1..]);
      forall x | x in rest
        ensures x in nodes && nodes[ids[0]].inclusive >= nodes[x].inclusive
      {
        InsertedAmong(nodes, id, ids[1..], x);
        if x != id {
          var j :| 0 <= j < |ids[1..]| && ids[1..][j] == x;
          assert ids[j + 1] == x;
        }
      }
      HeadDescends(nodes, ids[0], rest);
    } else if ids != [] {
      HeadDescends(nodes, id, ids);
    }
  }

  lemma {:induction false} HeadDescends(nodes: Nodes, head: nat, rest: seq<nat>)
    requires head in nodes && Descending(nodes, rest)
    requires rest == [] || nodes[head].inclusive >= nodes[rest[0]].inclusive
    ensures Descending(nodes, [head] + rest)
  {
    var all := [head] + rest;
    forall i, j | 0 <= i < j < |all|
      ensures nodes[all[i]].inclusive >= nodes[all[j]].inclusive
    {
      if i == 0 { assert all[j] == rest[j - 1]; } else { assert all[i] == rest[i - 1] && all[j] == rest[j - 1]; }
    }
  }

  /** In order of inclusive time, longest first; equals keep their places. */
  function SortedByInclusive(nodes: Nodes, ids: seq<nat>): (sorted: seq<nat>)
    requires forall id :: id in ids ==> id in nodes
    ensures Descending(nodes, sorted) && multiset(sorted) == multiset(ids)
  {
    if ids == [] then []
    else
      assert ids == [ids[0]] + ids[1..];
      var rest := SortedByInclusive(nodes, ids[1..]);
      InsertedDescends(nodes, ids[0], rest);
      InsertByInclusive(nodes, ids[0], rest)
  }

  lemma {:induction false} RearrangedIsDistinct(ids: seq<nat>, ids': seq<nat>)
    requires multiset(ids) == multiset(ids') && Distinct(ids)
    ensures Distinct(ids')
  {
    forall i, j | 0 <= i < j < |ids'|
      ensures ids'[i] != ids'[j]
    {
      if ids'[i] == ids'[j] {
        assert ids' == ids'[..j] + ids'[j..];
        assert ids'[i] in ids'[..j] by { assert ids'[..j][i] == ids'[i]; }
        assert ids'[j] in ids'[j..] by { assert ids'[j..][0] == ids'[j]; }
        assert multiset(ids')[ids'[i]] >= 2;
        AtMostOnce(ids, ids'[i]);
      }
    }
  }

  lemma {:induction false} AtMostOnce(ids: seq<nat>, x: nat)
    requires Distinct(ids)
    ensures multiset(ids)[x] <= 1
  {
    if ids != [] {
      assert ids == [ids[0]] + ids[1..];
      AtMostOnce(ids[1..], x);
      if x == ids[0] { assert x !in ids[1..]; }
    }
  }

  lemma {:induction false} ShapeKeepsTree(nodes: Nodes, nodes': Nodes, paths: map<nat, PathNode>)
    requires PartTree(nodes, paths, {}) && SameShape(nodes, nodes')
    ensures PartTree(nodes', paths, {})
  {
    forall x | x in nodes'
      ensures nodes'[x].parent == nodes[x].parent && nodes'[x].func == nodes[x].func
      ensures forall c :: c in nodes'[x].children <==> c in nodes[x].children
    {
      assert SameNode(nodes[x], nodes'[x]);
      assert forall c :: c in nodes'[x].children <==> c in multiset(nodes'[x].children);
      assert forall c :: c in nodes[x].children <==> c in multiset(nodes[x].children);
    }
    forall x | x in nodes'
      ensures ChildrenOk(nodes', x, {}) && Attached(nodes', paths, x)
    {
      assert ChildrenOk(nodes, x, {}) && Attached(nodes, paths, x) && SameNode(nodes[x], nodes'[x]);
      RearrangedIsDistinct(nodes[x].children, nodes'[x].children);
      forall i | 0 <= i < |nodes'[x].children|
        ensures var c := nodes'[x].children[i]; c in nodes' && nodes'[c].parent == x
      {
        assert nodes'[x].children[i] in nodes[x].children;
      }
    }
  }

  // ---------------------------------------------------------------- measuring

  /** The first `k` children of `id` are measured and added to it; nothing else has moved. */
  ghost predicate Measuring(orig: Nodes, nodes: Nodes, paths: map<nat, PathNode>, id: nat, k: nat)
    requires Ordered(paths) && id in orig && k <= |orig[id].children|
  {
    var part := orig[id].children[..k];
    && SameShape(orig, nodes) && nodes[id].children == orig[id].children
    && (forall x {:trigger ReachedFrom(paths, part, x)} :: x in nodes && x != id && !ReachedFrom(paths, part, x) ==> nodes[x] == orig[x])
    && (forall x {:trigger MeasuredAt(nodes, paths, x)} :: x in nodes && ReachedFrom(paths, part, x) ==> MeasuredAt(nodes, paths, x))
    && nodes[id].inclusive == orig[id].selfNs + SelfSum(orig, UnderAny(paths, orig, part))
  }

  lemma {:induction false} ShapeTransfers(a: Nodes, b: Nodes, c: Nodes)
    requires SameShape(a, b) && SameShape(b, c)
    ensures SameShape(a, c)
  {
    forall x | x in a
      ensures SameNode(a[x], c[x])
    {
      assert SameNode(a[x], b[x]) && SameNode(b[x], c[x]);
    }
  }

  lemma {:induction false} ShapeIgnoresTime(nodes: Nodes, id: nat, inclusive: nat)
    requires id in nodes
    ensures SameShape(nodes, nodes[id := nodes[id].(inclusive := inclusive)])
  {
  }

  lemma {:induction false} SelfSumKept(nodes: Nodes, nodes': Nodes, ids: set<nat>)
    requires SameShape(nodes, nodes')
    ensures SelfSum(nodes, ids) == SelfSum(nodes', ids)
  {
    forall x | x in ids
      ensures SelfAt(nodes)(x) == SelfAt(nodes')(x)
    {
      assert x in nodes <==> x in nodes';
      if x in nodes {
        assert SameNode(nodes[x], nodes'[x]);
      }
    }
    SumSame(ids, SelfAt(nodes), SelfAt(nodes'));
  }

  /** A measured node stays so while it and its children's times stand. */
  lemma {:induction false} MeasuredStays(nodes: Nodes, nodes': Nodes, paths: map<nat, PathNode>, x: nat)
    requires Ordered(paths) && SameShape(nodes, nodes') && x in nodes && MeasuredAt(nodes, paths, x)
    requires nodes'[x] == nodes[x]
    requires forall c :: c in nodes[x].children && c in nodes ==> nodes'[c].inclusive == nodes[c].inclusive
    ensures MeasuredAt(nodes', paths, x)
  {
    assert Under(paths, nodes', x) == Under(paths, nodes, x);
    SelfSumKept(nodes, nodes', Under(paths, nodes, x));
  }

  lemma {:induction false} ChildIsAbove(nodes: Nodes, paths: map<nat, PathNode>, id: nat, k: nat)
    requires Ordered(paths) && PartTree(nodes, paths, {}) && id in nodes && k < |nodes[id].children|
    ensures var c := nodes[id].children[k]; c in nodes && id < c && Reaches(paths, id, c) && paths[c].parent == id
  {
    assert ChildrenOk(nodes, id, {});
    var c := nodes[id].children[k];
    assert nodes[c].parent == id && paths[c].parent == id;
    assert id in paths && paths[id].parent < id;
    assert Reaches(paths, id, id);
  }

  lemma {:induction false} MeasureStarts(orig: Nodes, paths: map<nat, PathNode>, id: nat)
    requires Ordered(paths) && PartTree(orig, paths, {}) && id in orig
    ensures Measuring(orig, orig[id := orig[id].(inclusive := orig[id].selfNs)], paths, id, 0)
  {
    assert UnderAny(paths, orig, orig[id].children[..0]) == {};
  }

  /** The part of a tree already measured keeps its measure while a sibling's part is measured. */
  lemma {:induction false} SiblingLeavesMeasured(before: Nodes, mid: Nodes, paths: map<nat, PathNode>, c: nat, x: nat)
    requires Ordered(paths) && PartTree(before, paths, {}) && SameShape(before, mid) && c in before && x in before
    requires forall y :: y in mid && !Reaches(paths, c, y) ==> mid[y] == before[y]
    requires !Reaches(paths, c, x) && before[c].parent != x && MeasuredAt(before, paths, x)
    ensures MeasuredAt(mid, paths, x)
  {
    forall y | y in before[x].children && y in before
      ensures mid[y].inclusive == before[y].inclusive
    {
      assert ChildrenOk(before, x, {});
      assert paths[y].parent == x;
      assert y != c;
    }
    MeasuredStays(before, mid, paths, x);
  }

  /** Changing one node's own time leaves every measured node above it in number alone. */
  lemma {:induction false} HeadLeavesMeasured(mid: Nodes, after: Nodes, paths: map<nat, PathNode>, id: nat, x: nat)
    requires Ordered(paths) && PartTree(mid, paths, {}) && SameShape(mid, after) && id in mid && x in mid && id < x
    requires forall y :: y in mid && y != id ==> after[y] == mid[y]
    requires MeasuredAt(mid, paths, x)
    ensures MeasuredAt(after, paths, x)
  {
    forall y | y in mid[x].children && y in mid
      ensures after[y].inclusive == mid[y].inclusive
    {
      assert ChildrenOk(mid, x, {});
      assert paths[y].parent == x;
    }
    MeasuredStays(mid, after, paths, x);
  }

  lemma {:induction false} ReachedFromOneMore(paths: map<nat, PathNode>, tops: seq<nat>, top: nat, x: nat)
    requires Ordered(paths)
    ensures ReachedFrom(paths, tops + [top], x) <==> ReachedFrom(paths, tops, x) || Reaches(paths, top, x)
  {
    if ReachedFrom(paths, tops, x) {
      var t :| t in tops && Reaches(paths, t, x);
      assert t in tops + [top];
    }
    if Reaches(paths, top, x) {
      assert top in tops + [top] by { assert (tops + [top])[|tops|] == top; }
    }
  }

  /** The tops reach no node twice. */
  ghost predicate ApartFrom(paths: map<nat, PathNode>, nodes: Nodes, tops: seq<nat>, top: nat)
    requires Ordered(paths)
  {
    forall x :: x in nodes && Reaches(paths, top, x) ==> !ReachedFrom(paths, tops, x)
  }

  lemma {:induction false} SelfOfOneMore(nodes: Nodes, paths: map<nat, PathNode>, tops: seq<nat>, top: nat)
    requires Ordered(paths) && ApartFrom(paths, nodes, tops, top)
    ensures SelfSum(nodes, UnderAny(paths, nodes, tops + [top])) ==
            SelfSum(nodes, UnderAny(paths, nodes, tops)) + SelfSum(nodes, Under(paths, nodes, top))
  {
    forall x | x in nodes
      ensures ReachedFrom(paths, tops + [top], x) <==> ReachedFrom(paths, tops, x) || Reaches(paths, top, x)
    {
      ReachedFromOneMore(paths, tops, top, x);
    }
    assert UnderAny(paths, nodes, tops + [top]) == UnderAny(paths, nodes, tops) + Under(paths, nodes, top);
    SumApart(UnderAny(paths, nodes, tops), Under(paths, nodes, top), SelfAt(nodes));
  }

  lemma {:induction false} ChildApart(nodes: Nodes, paths: map<nat, PathNode>, id: nat, k: nat)
    requires Ordered(paths) && PartTree(nodes, paths, {}) && id in nodes && k < |nodes[id].children|
    ensures ApartFrom(paths, nodes, nodes[id].children[..k], nodes[id].children[k])
  {
    var cs := nodes[id].children;
    assert ChildrenOk(nodes, id, {});
    forall x | x in nodes && Reaches(paths, cs[k], x)
      ensures !ReachedFrom(paths, cs[..k], x)
    {
      if c :| c in cs[..k] && Reaches(paths, c, x) {
        var i :| 0 <= i < k && cs[i] == c;
        ChildIsAbove(nodes, paths, id, i);
        ChildIsAbove(nodes, paths, id, k);
        SiblingsApart(paths, c, cs[k], x);
        assert false;
      }
    }
  }

  lemma {:induction false} GoesOnInTotal(orig: Nodes, before: Nodes, mid: Nodes, paths: map<nat, PathNode>, id: nat, k: nat)
    requires Ordered(paths) && PartTree(orig, paths, {}) && id in orig && k < |orig[id].children|
    requires SameShape(orig, before) && SameShape(orig, mid) && mid[id] == before[id]
    requires before[id].inclusive == orig[id].selfNs + SelfSum(orig, UnderAny(paths, orig, orig[id].children[..k]))
    requires orig[id].children[k] in mid && MeasuredAt(mid, paths, orig[id].children[k])
    ensures mid[id].inclusive + mid[orig[id].children[k]].inclusive ==
            orig[id].selfNs + SelfSum(orig, UnderAny(paths, orig, orig[id].children[..k + 1]))
  {
    var cs := orig[id].children;
    ChildApart(orig, paths, id, k);
    assert cs[..k + 1] == cs[..k] + [cs[k]];
    SelfOfOneMore(orig, paths, cs[..k], cs[k]);
    assert Under(paths, mid, cs[k]) == Under(paths, orig, cs[k]);
    SelfSumKept(orig, mid, Under(paths, orig, cs[k]));
  }

  lemma {:induction false} GoesOnMeasured(orig: Nodes, before: Nodes, mid: Nodes, after: Nodes, paths: map<nat, PathNode>, id: nat, k: nat, x: nat)
    requires Ordered(paths) && PartTree(orig, paths, {}) && id in orig && k < |orig[id].children|
    requires SameShape(orig, before) && MeasuredFrom(before, mid, paths, orig[id].children[k])
    requires SameShape(mid, after) && forall y :: y in mid && y != id ==> after[y] == mid[y]
    requires x in orig && ReachedFrom(paths, orig[id].children[..k + 1], x)
    requires ReachedFrom(paths, orig[id].children[..k], x) ==> MeasuredAt(before, paths, x)
    ensures MeasuredAt(after, paths, x)
  {
    var cs := orig[id].children;
    ChildIsAbove(orig, paths, id, k);
    assert cs[..k + 1] == cs[..k] + [cs[k]];
    ReachedFromOneMore(paths, cs[..k], cs[k], x);
    ReachedIsAbove(orig, paths, id, k + 1, x);
    ShapeKeepsTree(orig, before, paths);
    ShapeKeepsTree(before, mid, paths);
    if Reaches(paths, cs[k], x) {
      assert MeasuredAt(mid, paths, x);
    } else {
      assert before[cs[k]].parent == id by { assert before[cs[k]].parent == paths[cs[k]].parent; }
      SiblingLeavesMeasured(before, mid, paths, cs[k], x);
    }
    HeadLeavesMeasured(mid, after, paths, id, x);
  }

  /** A node's inclusive time, with that of one more child. */
  function TimeAdded(nodes: Nodes, id: nat, more: nat): Nodes
    requires id in nodes
  {
    nodes[id := nodes[id].(inclusive := nodes[id].inclusive + more)]
  }

  lemma {:induction false} GoesOnElsewhere(orig: Nodes, before: Nodes, mid: Nodes, paths: map<nat, PathNode>, id: nat, k: nat, x: nat)
    requires Ordered(paths) && id in orig && k < |orig[id].children|
    requires Measuring(orig, before, paths, id, k) && MeasuredFrom(before, mid, paths, orig[id].children[k])
    requires x in mid && x != id && !ReachedFrom(paths, orig[id].children[..k + 1], x)
    ensures mid[x] == orig[x]
  {
    var cs := orig[id].children;
    assert cs[..k + 1] == cs[..k] + [cs[k]];
    ReachedFromOneMore(paths, cs[..k], cs[k], x);
  }

  lemma {:induction false} MeasureGoesOn(orig: Nodes, before: Nodes, mid: Nodes, paths: map<nat, PathNode>, id: nat, k: nat)
    requires Ordered(paths) && PartTree(orig, paths, {}) && id in orig && k < |orig[id].children|
    requires Measuring(orig, before, paths, id, k) && MeasuredFrom(before, mid, paths, orig[id].children[k])
    ensures var c := orig[id].children[k];
            id in mid && c in mid && Measuring(orig, TimeAdded(mid, id, mid[c].inclusive), paths, id, k + 1)
  {
    var cs := orig[id].children;
    var c := cs[k];
    ChildIsAbove(orig, paths, id, k);
    assert !Reaches(paths, c, id) by { if Reaches(paths, c, id) { ReachesUp(paths, c, id); } }
    var after := TimeAdded(mid, id, mid[c].inclusive);
    ShapeTransfers(orig, before, mid);
    ShapeIgnoresTime(mid, id, mid[id].inclusive + mid[c].inclusive);
    ShapeTransfers(orig, mid, after);
    assert MeasuredAt(mid, paths, c) by { assert Reaches(paths, c, c); }
    GoesOnInTotal(orig, before, mid, paths, id, k);
    var part := cs[..k + 1];
    forall x | x in after && x != id && !ReachedFrom(paths, part, x)
      ensures after[x] == orig[x]
    {
      GoesOnElsewhere(orig, before, mid, paths, id, k, x);
    }
    forall x | x in after && ReachedFrom(paths, part, x)
      ensures MeasuredAt(after, paths, x)
    {
      assert ReachedFrom(paths, cs[..k], x) ==> MeasuredAt(before, paths, x);
      GoesOnMeasured(orig, before, mid, after, paths, id, k, x);
    }
    MeasuringHolds(orig, after, paths, id, k + 1, part);
  }

  lemma {:induction false} MeasuringHolds(orig: Nodes, nodes: Nodes, paths: map<nat, PathNode>, id: nat, k: nat, part: seq<nat>)
    requires Ordered(paths) && id in orig && k <= |orig[id].children| && part == orig[id].children[..k]
    requires SameShape(orig, nodes) && nodes[id].children == orig[id].children
    requires forall x :: x in nodes && x != id && !ReachedFrom(paths, part, x) ==> nodes[x] == orig[x]
    requires forall x {:trigger MeasuredAt(nodes, paths, x)} :: x in nodes && ReachedFrom(paths, part, x) ==> MeasuredAt(nodes, paths, x)
    requires nodes[id].inclusive == orig[id].selfNs + SelfSum(orig, UnderAny(paths, orig, part))
    ensures Measuring(orig, nodes, paths, id, k)
  {
  }

  lemma {:induction false} ReachedIsAbove(nodes: Nodes, paths: map<nat, PathNode>, id: nat, k: nat, x: nat)
    requires Ordered(paths) && PartTree(nodes, paths, {}) && id in nodes && k <= |nodes[id].children|
    requires ReachedFrom(paths, nodes[id].children[..k], x)
    ensures id < x && Reaches(paths, id, x)
  {
    var c :| c in nodes[id].children[..k] && Reaches(paths, c, x);
    var i :| 0 <= i < k && nodes[id].children[i] == c;
    ChildIsAbove(nodes, paths, id, i);
    ReachesUp(paths, c, x);
    ReachesThrough(paths, id, c, x);
  }

  /** What is under a node is the node and what is under its children. */
  lemma {:induction false} UnderUnfolds(nodes: Nodes, paths: map<nat, PathNode>, id: nat)
    requires Ordered(paths) && PartTree(nodes, paths, {}) && id in nodes
    ensures Under(paths, nodes, id) == {id} + UnderAny(paths, nodes, nodes[id].children)
    ensures id !in UnderAny(paths, nodes, nodes[id].children)
  {
    var cs := nodes[id].children;
    assert cs[..|cs|] == cs;
    forall x | x in nodes
      ensures Reaches(paths, id, x) <==> x == id || ReachedFrom(paths, cs, x)
      ensures ReachedFrom(paths, cs, x) ==> x != id
    {
      if ReachedFrom(paths, cs, x) { ReachedIsAbove(nodes, paths, id, |cs|, x); }
      if Reaches(paths, id, x) && x != id {
        var c := Towards(paths, id, x);
        TreeIsClosed(nodes, paths, c, x);
        assert Attached(nodes, paths, c);
        assert nodes[c].parent == id;
        assert id != 0 && id in paths;
        assert c in cs;
      }
    }
  }

  lemma {:induction false} EndsAtHead(orig: Nodes, after: Nodes, paths: map<nat, PathNode>, id: nat)
    requires Ordered(paths) && PartTree(orig, paths, {}) && id in orig && SameShape(orig, after)
    requires after[id].inclusive == orig[id].selfNs + SelfSum(orig, UnderAny(paths, orig, orig[id].children))
    requires Descending(after, after[id].children)
    ensures MeasuredAt(after, paths, id)
  {
    UnderUnfolds(orig, paths, id);
    assert Under(paths, after, id) == Under(paths, orig, id);
    SelfSumKept(orig, after, Under(paths, orig, id));
    SumApart({id}, UnderAny(paths, orig, orig[id].children), SelfAt(orig));
    SumPick({id}, id, SelfAt(orig));
    assert {id} - {id} == {};
  }

  lemma {:induction false} SortKeepsShape(nodes: Nodes, id: nat, children: seq<nat>)
    requires id in nodes && nodes[id].children == children && forall c :: c in children ==> c in nodes
    ensures var after := nodes[id := nodes[id].(children := SortedByInclusive(nodes, children))];
            SameShape(nodes, after) && Descending(after, after[id].children)
  {
    var after := nodes[id := nodes[id].(children := SortedByInclusive(nodes, children))];
    assert multiset(after[id].children) == multiset(children);
    assert forall c :: c in nodes ==> after[c].inclusive == nodes[c].inclusive;
  }

  lemma {:induction false} ChildrenMeasured(orig: Nodes, last: Nodes, paths: map<nat, PathNode>, id: nat)
    requires Ordered(paths) && PartTree(orig, paths, {}) && id in orig
    requires Measuring(orig, last, paths, id, |orig[id].children|)
    ensures forall c :: c in orig[id].children ==> c in last
    ensures last[id].inclusive == orig[id].selfNs + SelfSum(orig, UnderAny(paths, orig, orig[id].children))
  {
    var cs := orig[id].children;
    assert cs[..|cs|] == cs;
    assert ChildrenOk(orig, id, {});
  }

  lemma {:induction false} MeasureEnds(orig: Nodes, last: Nodes, paths: map<nat, PathNode>, id: nat)
    requires Ordered(paths) && PartTree(orig, paths, {}) && id in orig
    requires Measuring(orig, last, paths, id, |orig[id].children|)
    ensures forall c :: c in orig[id].children ==> c in last
    ensures MeasuredFrom(orig, last[id := last[id].(children := SortedByInclusive(last, orig[id].children))], paths, id)
  {
    ChildrenMeasured(orig, last, paths, id);
    var after := last[id := last[id].(children := SortedByInclusive(last, orig[id].children))];
    SortKeepsShape(last, id, orig[id].children);
    ShapeTransfers(orig, last, after);
    EndsAtHead(orig, after, paths, id);
    ShapeKeepsTree(orig, last, paths);
    EndsEverywhere(orig, last, after, paths, id);
  }

  lemma {:induction false} EndsEverywhere(orig: Nodes, last: Nodes, after: Nodes, paths: map<nat, PathNode>, id: nat)
    requires Ordered(paths) && PartTree(orig, paths, {}) && PartTree(last, paths, {}) && id in orig
    requires Measuring(orig, last, paths, id, |orig[id].children|) && SameShape(last, after) && MeasuredAt(after, paths, id)
    requires forall y :: y in last && y != id ==> after[y] == last[y]
    ensures forall x :: x in after ==>
              (!Reaches(paths, id, x) ==> after[x] == orig[x]) && (Reaches(paths, id, x) ==> MeasuredAt(after, paths, x))
  {
    forall x | x in after
      ensures !Reaches(paths, id, x) ==> after[x] == orig[x]
      ensures Reaches(paths, id, x) ==> MeasuredAt(after, paths, x)
    {
      EndsElsewhere(orig, last, after, paths, id, x);
    }
  }

  lemma {:induction false} EndsElsewhere(orig: Nodes, last: Nodes, after: Nodes, paths: map<nat, PathNode>, id: nat, x: nat)
    requires Ordered(paths) && PartTree(orig, paths, {}) && PartTree(last, paths, {}) && id in orig && x in after
    requires Measuring(orig, last, paths, id, |orig[id].children|) && SameShape(last, after) && MeasuredAt(after, paths, id)
    requires forall y :: y in last && y != id ==> after[y] == last[y]
    ensures !Reaches(paths, id, x) ==> after[x] == orig[x]
    ensures Reaches(paths, id, x) ==> MeasuredAt(after, paths, x)
  {
    var cs := orig[id].children;
    assert cs[..|cs|] == cs;
    UnderUnfolds(orig, paths, id);
    assert Reaches(paths, id, x) <==> x in Under(paths, orig, id);
    if x != id {
      assert Reaches(paths, id, x) <==> ReachedFrom(paths, cs, x) by {
        assert x in UnderAny(paths, orig, cs) <==> ReachedFrom(paths, cs, x);
      }
      if Reaches(paths, id, x) {
        ReachedIsAbove(orig, paths, id, |cs|, x);
        assert MeasuredAt(last, paths, x);
        HeadLeavesMeasured(last, after, paths, id, x);
      }
    } else {
      assert id in paths;
    }
  }
}
