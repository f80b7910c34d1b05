/** The flame graph's call tree: built from one bucket's rows, measured, and totalled. */
module FlameTree {
  import opened CallTree
  import opened PathRegistry
  import opened Sums

  class TreeBuilder {
    const paths: map<nat, PathNode>
    var nodes: Nodes

    constructor (paths: map<nat, PathNode>)
      ensures this.paths == paths && nodes == map[]
    {
      this.paths := paths;
      nodes := map[];
    }

    /** Adds a context and every known context it was reached through. */
    method Ensure(id: nat, ghost pending: set<nat>) returns (found: bool)
      requires Ordered(paths) && PartTree(nodes, paths, pending)
      requires forall p :: p in pending ==> id < p
      modifies this`nodes
      ensures PartTree(nodes, paths, pending)
      ensures found <==> id in paths
      ensures found ==> id in nodes
      ensures Grew(old(nodes), nodes, paths, id)
      decreases id
    {
      if id in nodes {
        return true;
      }
      if id !in paths {
        return false;
      }
      ghost var before := nodes;
      nodes := nodes[id := Blank(paths[id])];
      NewNode(before, paths, pending, id);
      var parent := paths[id].parent;
      if parent != 0 {
        ghost var mid := nodes;
        var hasParent := Ensure(parent, pending + {id});
        GrewThrough(before, mid, nodes, paths, id);
        if hasParent {
          AttachNode(nodes, paths, pending, id);
          nodes := nodes[parent := nodes[parent].(children := nodes[parent].children + [id])];
        } else {
          Detached(nodes, paths, pending, id);
        }
      } else {
        Detached(nodes, paths, pending, id);
      }
      return true;
    }

    /** Adds a row's figures to its node, with its callers; a row of an unknown context is passed over. */
    method AddRow(row: Row) returns (ghost grown: Nodes)
      requires Ordered(paths) && PartTree(nodes, paths, {})
      modifies this`nodes
      ensures PartTree(grown, paths, {}) && Grew(old(nodes), grown, paths, row.path)
      ensures row.path in grown <==> row.path in paths
      ensures nodes == Credited(grown, row)
    {
      var found := Ensure(row.path, {});
      grown := nodes;
      assert row.path in nodes ==> row.path in paths;
      if found {
        var node := nodes[row.path];
        nodes := nodes[row.path := node.(selfNs := node.selfNs + row.selfNs, calls := node.calls + row.calls)];
      }
    }

    method AddRows(rows: seq<Row>)
      requires Ordered(paths) && nodes == map[]
      modifies this`nodes
      ensures Added(nodes, paths, rows)
    {
      NothingAdded(paths);
      for i := 0 to |rows|
        invariant Added(nodes, paths, rows[..i])
      {
        ghost var before := nodes;
        ghost var grown := AddRow(rows[i]);
        RowAdded(before, grown, paths, rows[..i], rows[i]);
        assert rows[..i] + [rows[i]] == rows[..i + 1];
      }
      assert rows[..|rows|] == rows;
    }

    method Measure(id: nat) returns (inclusive: nat)
      requires Ordered(paths) && PartTree(nodes, paths, {}) && id in nodes
      modifies this`nodes
      ensures MeasuredFrom(old(nodes), nodes, paths, id)
      ensures inclusive == nodes[id].inclusive
      decreases Above(nodes, id)
    {
      ghost var orig := nodes;
      var children := nodes[id].children;
      nodes := nodes[id := nodes[id].(inclusive := nodes[id].selfNs)];
      MeasureStarts(orig, paths, id);
      var i := 0;
      while i < |children|
        invariant i <= |children|
        invariant Measuring(orig, nodes, paths, id, i)
      {
        ghost var before := nodes;
        ShapeKeepsTree(orig, nodes, paths);
        ChildIsAbove(orig, paths, id, i);
        AboveShrinks(orig, nodes, id, children[i]);
        var part := Measure(children[i]);
        ghost var mid := nodes;
        nodes := TimeAdded(nodes, id, part);
        MeasureGoesOn(orig, before, mid, paths, id, i);
        i := i + 1;
      }
      MeasureEnds(orig, nodes, paths, id);
      nodes := nodes[id := nodes[id].(children := SortedByInclusive(nodes, children))];
      inclusive := nodes[id].inclusive;
    }

    method Roots() returns (roots: seq<nat>)
      ensures ListsRoots(nodes, roots)
    {
      roots := [];
      var left := nodes.Keys;
      while left != {}
        invariant left <= nodes.Keys && Distinct(roots)
        invariant forall id :: id in roots <==> IsRoot(nodes, id) && id !in left
        decreases left
      {
        var id :| id in left;
        left := left - {id};
        if nodes[id].parent == 0 || nodes[id].parent !in nodes {
          roots := roots + [id];
        }
      }
    }

    method MeasureRoots(roots: seq<nat>)
      requires Ordered(paths) && PartTree(nodes, paths, {}) && ListsRoots(nodes, roots)
      modifies this`nodes
      ensures SameShape(old(nodes), nodes) && Whole(nodes, paths) && ListsRoots(nodes, roots)
    {
      ghost var grown := nodes;
      for i := 0 to |roots|
        invariant SameShape(grown, nodes)
        invariant MeasuredUnder(nodes, paths, roots[..i])
      {
        ghost var before := nodes;
        ShapeKeepsTree(grown, nodes, paths);
        ShapeKeepsRoots(grown, nodes, roots);
        assert roots[i] in roots;
        var part := Measure(roots[i]);
        ShapeTransfers(grown, before, nodes);
        RootMeasured(before, nodes, paths, roots, i);
      }
      ShapeKeepsTree(grown, nodes, paths);
      ShapeKeepsRoots(grown, nodes, roots);
      assert roots[..|roots|] == roots;
      RootsMeasureAll(nodes, paths, roots);
    }

    method Total(roots: seq<nat>) returns (total: nat)
      requires forall root :: root in roots ==> root in nodes
      ensures total == Span(nodes, roots)
    {
      total := 0;
      for i := 0 to |roots|
        invariant total == Span(nodes, roots[..i])
      {
        total := total + nodes[roots[i]].inclusive;
        assert roots[..i + 1][..i] == roots[..i];
      }
      assert roots[..|roots|] == roots;
    }

    /** The call tree of a bucket: every node measured, its roots longest first, and their total. */
    method BuildTree(rows: seq<Row>) returns (roots: seq<nat>, total: nat)
      requires Ordered(paths) && nodes == map[]
      modifies this`nodes
      ensures Whole(nodes, paths) && Holds(nodes, paths, rows)
      ensures ListsRoots(nodes, roots) && Descending(nodes, roots)
      ensures total == Span(nodes, roots) == KnownSelf(paths, rows)
    {
      AddRows(rows);
      ghost var grown := nodes;
      var listed := Roots();
      MeasureRoots(listed);
      ShapeHolds(grown, nodes, paths, rows);
      roots := SortedByInclusive(nodes, listed);
      RearrangedRoots(nodes, listed, roots);
      total := Total(roots);
      RootsSpanAll(nodes, paths, roots);
      SelfSumKept(grown, nodes, nodes.Keys);
    }
  }

  lemma {:induction false} AboveShrinks(orig: Nodes, nodes: Nodes, id: nat, c: nat)
    requires orig.Keys == nodes.Keys && c in nodes && id < c
    ensures Above(nodes, c) < Above(orig, id)
  {
    assert c in Above(orig, id) && c !in Above(nodes, c);
  }

  lemma {:induction false} NothingAdded(paths: map<nat, PathNode>)
    requires Ordered(paths)
    ensures Added(map[], paths, [])
  {
    var none: Nodes := map[];
    assert none.Keys == {};
  }

  // ---------------------------------------------------------------- roots

  /** The topmost known context a context was reached through. */
  function RootOf(paths: map<nat, PathNode>, id: nat): (root: nat)
    requires Ordered(paths) && id in paths
    ensures root in paths && Reaches(paths, root, id)
    ensures paths[root].parent == 0 || paths[root].parent !in paths
    decreases id
  {
    if paths[id].parent == 0 || paths[id].parent !in paths then id else RootOf(paths, paths[id].parent)
  }

  lemma {:induction false} RootsAreUnparented(nodes: Nodes, paths: map<nat, PathNode>, id: nat)
    requires PartTree(nodes, paths, {}) && id in nodes
    ensures IsRoot(nodes, id) <==> paths[id].parent == 0 || paths[id].parent !in paths
  {
    assert Attached(nodes, paths, id);
  }

  /** Every node hangs under exactly one root. */
  lemma {:induction false} EachUnderOneRoot(nodes: Nodes, paths: map<nat, PathNode>, id: nat)
    requires Ordered(paths) && PartTree(nodes, paths, {}) && id in nodes
    ensures IsRoot(nodes, RootOf(paths, id)) && Reaches(paths, RootOf(paths, id), id)
    ensures forall root :: IsRoot(nodes, root) && Reaches(paths, root, id) ==> root == RootOf(paths, id)
  {
    var top := RootOf(paths, id);
    TreeIsClosed(nodes, paths, top, id);
    RootsAreUnparented(nodes, paths, top);
    forall root | IsRoot(nodes, root) && Reaches(paths, root, id)
      ensures root == top
    {
      RootsAreUnparented(nodes, paths, root);
      ReachersAreInLine(paths, root, top, id);
    }
  }

  lemma {:induction false} RootMeasured(before: Nodes, after: Nodes, paths: map<nat, PathNode>, roots: seq<nat>, k: nat)
    requires Ordered(paths) && PartTree(before, paths, {}) && ListsRoots(before, roots) && k < |roots|
    requires MeasuredUnder(before, paths, roots[..k]) && MeasuredFrom(before, after, paths, roots[k])
    ensures MeasuredUnder(after, paths, roots[..k + 1])
  {
    assert roots[..k + 1] == roots[..k] + [roots[k]];
    assert IsRoot(before, roots[k]);
    forall x | x in after && ReachedFrom(paths, roots[..k + 1], x)
      ensures MeasuredAt(after, paths, x)
    {
      ReachedFromOneMore(paths, roots[..k], roots[k], x);
      if Reaches(paths, roots[k], x) {
        assert MeasuredAt(after, paths, x);
      } else {
        assert MeasuredAt(before, paths, x);
        SiblingLeavesMeasured(before, after, paths, roots[k], x);
      }
    }
  }

  lemma {:induction false} RootsMeasureAll(nodes: Nodes, paths: map<nat, PathNode>, roots: seq<nat>)
    requires Ordered(paths) && PartTree(nodes, paths, {}) && ListsRoots(nodes, roots) && MeasuredUnder(nodes, paths, roots)
    ensures Whole(nodes, paths)
  {
    forall x | x in nodes
      ensures MeasuredAt(nodes, paths, x)
    {
      EachUnderOneRoot(nodes, paths, x);
      assert RootOf(paths, x) in roots;
    }
  }

  lemma {:induction false} ShapeKeepsRoots(nodes: Nodes, nodes': Nodes, roots: seq<nat>)
    requires SameShape(nodes, nodes') && ListsRoots(nodes, roots)
    ensures ListsRoots(nodes', roots)
  {
    forall id
      ensures IsRoot(nodes', id) <==> IsRoot(nodes, id)
    {
      if id in nodes { assert SameNode(nodes[id], nodes'[id]); }
    }
  }

  lemma {:induction false} RearrangedRoots(nodes: Nodes, roots: seq<nat>, roots': seq<nat>)
    requires ListsRoots(nodes, roots) && multiset(roots) == multiset(roots')
    ensures ListsRoots(nodes, roots')
  {
    RearrangedIsDistinct(roots, roots');
    forall id
      ensures id in roots' <==> id in roots
    {
      assert id in roots' <==> id in multiset(roots');
      assert id in roots <==> id in multiset(roots);
    }
  }

  lemma {:induction false} ShapeHolds(nodes: Nodes, nodes': Nodes, paths: map<nat, PathNode>, rows: seq<Row>)
    requires Ordered(paths) && SameShape(nodes, nodes') && Holds(nodes, paths, rows)
    ensures Holds(nodes', paths, rows)
  {
    forall x | x in nodes'
      ensures nodes'[x].selfNs == SelfOf(rows, x) && nodes'[x].calls == CallsOf(rows, x)
    {
      assert SameNode(nodes[x], nodes'[x]);
    }
  }

  // ---------------------------------------------------------------- adding up inclusive times

  /** No node is under two of the tops. */
  ghost predicate Apart(nodes: Nodes, paths: map<nat, PathNode>, tops: seq<nat>)
    requires Ordered(paths)
  {
    forall k {:trigger tops[k]} :: 0 <= k < |tops| ==> ApartFrom(paths, nodes, tops[..k], tops[k])
  }

  /** Inclusive times add up to the self time of everything they cover. */
  lemma {:induction false} SpanIsSelfSum(nodes: Nodes, paths: map<nat, PathNode>, tops: seq<nat>)
    requires Ordered(paths) && Whole(nodes, paths) && Apart(nodes, paths, tops)
    requires forall top :: top in tops ==> top in nodes
    ensures Span(nodes, tops) == SelfSum(nodes, UnderAny(paths, nodes, tops))
  {
    if tops == [] {
      assert UnderAny(paths, nodes, tops) == {};
    } else {
      var n := |tops| - 1;
      ApartFront(nodes, paths, tops);
      SpanIsSelfSum(nodes, paths, tops[..n]);
      SelfOfOneMore(nodes, paths, tops[..n], tops[n]);
      assert tops[..n] + [tops[n]] == tops;
      assert MeasuredAt(nodes, paths, tops[n]);
    }
  }

  lemma {:induction false} ApartFront(nodes: Nodes, paths: map<nat, PathNode>, tops: seq<nat>)
    requires Ordered(paths) && Apart(nodes, paths, tops) && tops != []
    ensures Apart(nodes, paths, tops[..|tops| - 1])
    ensures ApartFrom(paths, nodes, tops[..|tops| - 1], tops[|tops| - 1])
  {
    var front := tops[..|tops| - 1];
    forall k | 0 <= k < |front|
      ensures ApartFrom(paths, nodes, front[..k], front[k])
    {
      assert front[..k] == tops[..k] && front[k] == tops[k];
    }
  }

  lemma {:induction false} RootsApart(nodes: Nodes, paths: map<nat, PathNode>, roots: seq<nat>)
    requires Ordered(paths) && PartTree(nodes, paths, {}) && ListsRoots(nodes, roots)
    ensures Apart(nodes, paths, roots)
  {
    forall k | 0 <= k < |roots|
      ensures ApartFrom(paths, nodes, roots[..k], roots[k])
    {
      forall x | x in nodes && Reaches(paths, roots[k], x)
        ensures !ReachedFrom(paths, roots[..k], x)
      {
        if root :| root in roots[..k] && Reaches(paths, root, x) {
          var i :| 0 <= i < k && roots[i] == root;
          assert roots[i] in roots && roots[k] in roots;
          EachUnderOneRoot(nodes, paths, x);
          assert false;
        }
      }
    }
  }

  lemma {:induction false} ChildrenApart(nodes: Nodes, paths: map<nat, PathNode>, id: nat)
    requires Ordered(paths) && PartTree(nodes, paths, {}) && id in nodes
    ensures Apart(nodes, paths, nodes[id].children)
  {
    var cs := nodes[id].children;
    forall k | 0 <= k < |cs|
      ensures ApartFrom(paths, nodes, cs[..k], cs[k])
    {
      ChildApart(nodes, paths, id, k);
    }
  }

  lemma {:induction false} SelfSumWithin(nodes: Nodes, a: set<nat>, b: set<nat>)
    requires a <= b
    ensures SelfSum(nodes, a) <= SelfSum(nodes, b)
  {
    SumWithin(a, b, SelfAt(nodes));
  }

  lemma {:induction false} RootsSpanAll(nodes: Nodes, paths: map<nat, PathNode>, roots: seq<nat>)
    requires Ordered(paths) && Whole(nodes, paths) && ListsRoots(nodes, roots)
    ensures Span(nodes, roots) == SelfSum(nodes, nodes.Keys)
  {
    RootsApart(nodes, paths, roots);
    SpanIsSelfSum(nodes, paths, roots);
    forall x | x in nodes
      ensures ReachedFrom(paths, roots, x)
    {
      EachUnderOneRoot(nodes, paths, x);
      assert RootOf(paths, x) in roots;
    }
    assert UnderAny(paths, nodes, roots) == nodes.Keys;
  }

  /** A node's time is its own and its children's. */
  lemma {:induction false} TimeDivides(nodes: Nodes, paths: map<nat, PathNode>, id: nat)
    requires Ordered(paths) && Whole(nodes, paths) && id in nodes
    ensures forall c :: c in nodes[id].children ==> c in nodes && id < c && nodes[c].parent == id
    ensures nodes[id].inclusive == nodes[id].selfNs + Span(nodes, nodes[id].children)
  {
    var cs := nodes[id].children;
    forall c | c in cs
      ensures c in nodes && id < c && nodes[c].parent == id
    {
      var k :| 0 <= k < |cs| && cs[k] == c;
      ChildIsAbove(nodes, paths, id, k);
    }
    ChildrenApart(nodes, paths, id);
    SpanIsSelfSum(nodes, paths, cs);
    UnderUnfolds(nodes, paths, id);
    SumApart({id}, UnderAny(paths, nodes, cs), SelfAt(nodes));
    SumPick({id}, id, SelfAt(nodes));
    assert {id} - {id} == {};
    assert MeasuredAt(nodes, paths, id);
  }
}
