/** The call tree laid out as boxes, over real-valued pixels. */
module FlameLayout {
  import opened CallTree
  import opened FlameTree
  import opened PathRegistry

  const ROW_HEIGHT := 20.0
  const MIN_WIDTH := 0.5

  datatype Box = Box(node: nat, x: real, y: real, w: real, depth: nat)

  /** Children are above their parent in number, name it, and together take no more time. */
  predicate DividedAt(nodes: Nodes, id: nat)
    requires id in nodes
  {
    && (forall c :: c in nodes[id].children ==> c in nodes && id < c && nodes[c].parent == id)
    && Span(nodes, nodes[id].children) <= nodes[id].inclusive
  }

  predicate Divided(nodes: Nodes) {
    forall id {:trigger DividedAt(nodes, id)} :: id in nodes ==> DividedAt(nodes, id)
  }

  /** Nodes still to be drawn, all numbered above `low`. */
  predicate Queued(nodes: Nodes, low: nat, ids: seq<nat>) {
    forall id :: id in ids ==> id in nodes && low < id
  }

  function Wide(time: nat, scale: real): real {
    time as real * scale
  }

  /** The boxes of one subtree whose left edge is at `x`. */
  function Placed(nodes: Nodes, scale: real, id: nat, x: real, depth: nat): seq<Box>
    requires Divided(nodes) && id in nodes
    decreases Above(nodes, id), |nodes[id].children| + 1
  {
    assert DividedAt(nodes, id);
    var w := Wide(nodes[id].inclusive, scale);
    if w < MIN_WIDTH then []
    else [Box(id, x, depth as real * ROW_HEIGHT, w, depth)] + Strip(nodes, scale, id, nodes[id].children, x, depth + 1)
  }

  /** The boxes of siblings, side by side from `at`. */
  function Strip(nodes: Nodes, scale: real, low: nat, ids: seq<nat>, at: real, depth: nat): seq<Box>
    requires Divided(nodes) && Queued(nodes, low, ids)
    decreases Above(nodes, low), |ids|
  {
    if ids == [] then []
    else
      assert ids[0] in Above(nodes, low) && ids[0] !in Above(nodes, ids[0]);
      assert forall id :: id in ids[1..] ==> id in ids;
      Placed(nodes, scale, ids[0], at, depth) +
      Strip(nodes, scale, low, ids[1..], at + Wide(nodes[ids[0]].inclusive, scale), depth)
  }

  class Layout {
    const nodes: Nodes
    const scale: real
    var boxes: seq<Box>

    constructor (nodes: Nodes, scale: real)
      ensures this.nodes == nodes && this.scale == scale && boxes == []
    {
      this.nodes := nodes;
      this.scale := scale;
      boxes := [];
    }

    /** Draws a node and what is under it, unless it is too thin to see. */
    method Place(id: nat, x: real, depth: nat)
      requires Divided(nodes) && id in nodes
      modifies this`boxes
      ensures boxes == old(boxes) + Placed(nodes, scale, id, x, depth)
      decreases Above(nodes, id)
    {
      var w := Wide(nodes[id].inclusive, scale);
      if w < MIN_WIDTH {
        return;
      }
      ghost var goal := boxes + Placed(nodes, scale, id, x, depth);
      var box := Box(id, x, depth as real * ROW_HEIGHT, w, depth);
      assert DividedAt(nodes, id);
      var children := nodes[id].children;
      PlacedUnfolds(nodes, scale, id, x, depth);
      Regroup(boxes, [box], Strip(nodes, scale, id, children, x, depth + 1));
      boxes := boxes + [box];
      var at := x;
      assert children[0..] == children;
      for i := 0 to |children|
        invariant Queued(nodes, id, children[i..])
        invariant boxes + Strip(nodes, scale, id, children[i..], at, depth + 1) == goal
      {
        NextSibling(nodes, scale, id, children, i, at, depth + 1);
        ghost var before, left := boxes, at;
        Place(children[i], at, depth + 1);
        at := at + Wide(nodes[children[i]].inclusive, scale);
        Regroup(before, Placed(nodes, scale, children[i], left, depth + 1),
                Strip(nodes, scale, id, children[i + 1..], at, depth + 1));
      }
    }
  }

  /** The boxes of a whole tree across `width` pixels. */
  method LayOut(nodes: Nodes, roots: seq<nat>, total: nat, width: real) returns (boxes: seq<Box>)
    requires Divided(nodes) && Queued(nodes, 0, roots)
    ensures boxes == Boxes(nodes, roots, total, width)
  {
    if total == 0 {
      return [];
    }
    boxes := DrawAll(nodes, roots, width / total as real);
  }

  /** The roots side by side from the left edge. */
  method DrawAll(nodes: Nodes, roots: seq<nat>, scale: real) returns (boxes: seq<Box>)
    requires Divided(nodes) && Queued(nodes, 0, roots)
    ensures boxes == Strip(nodes, scale, 0, roots, 0.0, 0)
  {
    ghost var goal := Strip(nodes, scale, 0, roots, 0.0, 0);
    var layout := new Layout(nodes, scale);
    var at := 0.0;
    assert roots[0..] == roots;
    for i := 0 to |roots|
      invariant layout.nodes == nodes && layout.scale == scale && Queued(nodes, 0, roots[i..])
      invariant layout.boxes + Strip(nodes, scale, 0, roots[i..], at, 0) == goal
    {
      NextSibling(nodes, scale, 0, roots, i, at, 0);
      ghost var before, left := layout.boxes, at;
      layout.Place(roots[i], at, 0);
      at := at + Wide(nodes[roots[i]].inclusive, scale);
      Regroup(before, Placed(nodes, scale, roots[i], left, 0), Strip(nodes, scale, 0, roots[i + 1..], at, 0));
    }
    boxes := layout.boxes;
  }

  function Boxes(nodes: Nodes, roots: seq<nat>, total: nat, width: real): seq<Box>
    requires Divided(nodes) && Queued(nodes, 0, roots)
  {
    if total == 0 then [] else Strip(nodes, width / total as real, 0, roots, 0.0, 0)
  }

  lemma {:induction false} PlacedUnfolds(nodes: Nodes, scale: real, id: nat, x: real, depth: nat)
    requires Divided(nodes) && id in nodes && Wide(nodes[id].inclusive, scale) >= MIN_WIDTH
    ensures Queued(nodes, id, nodes[id].children)
    ensures Placed(nodes, scale, id, x, depth) ==
            [Box(id, x, depth as real * ROW_HEIGHT, Wide(nodes[id].inclusive, scale), depth)] +
            Strip(nodes, scale, id, nodes[id].children, x, depth + 1)
  {
    assert DividedAt(nodes, id);
  }

  lemma {:induction false} Regroup(a: seq<Box>, b: seq<Box>, c: seq<Box>)
    ensures (a + b) + c == a + (b + c)
  {
  }

  lemma {:induction false} NextSibling(nodes: Nodes, scale: real, low: nat, ids: seq<nat>, i: nat, at: real, depth: nat)
    requires Divided(nodes) && i < |ids| && Queued(nodes, low, ids[i..])
    ensures Queued(nodes, low, ids[i + 1..]) && ids[i] in nodes && Above(nodes, ids[i]) < Above(nodes, low)
    ensures Strip(nodes, scale, low, ids[i..], at, depth) ==
            Placed(nodes, scale, ids[i], at, depth) +
            Strip(nodes, scale, low, ids[i + 1..], at + Wide(nodes[ids[i]].inclusive, scale), depth)
  {
    assert ids[i..][0] == ids[i] && ids[i..][1..] == ids[i + 1..];
    assert forall k :: i < k < |ids| ==> ids[i..][k - i] == ids[k];
    assert forall k :: i < k < |ids| ==> ids[k] in ids[i..];
    forall id | id in ids[i + 1..]
      ensures id in nodes && low < id
    {
      var k :| i < k < |ids| && ids[k] == id;
    }
    assert ids[i] in Above(nodes, low) && ids[i] !in Above(nodes, ids[i]);
  }

  // ---------------------------------------------------------------- arithmetic

  lemma {:induction false} WideAdds(a: nat, b: nat, scale: real)
    ensures Wide(a + b, scale) == Wide(a, scale) + Wide(b, scale)
  {
  }

  lemma {:induction false} WideGrows(a: nat, b: nat, scale: real)
    requires a <= b && scale >= 0.0
    ensures 0.0 <= Wide(a, scale) <= Wide(b, scale)
  {
    WideAdds(a, b - a, scale);
    assert (b - a) as real * scale >= 0.0;
    assert a as real * scale >= 0.0;
  }

  lemma {:induction false} SpanFront(nodes: Nodes, ids: seq<nat>)
    requires ids != [] && forall id :: id in ids ==> id in nodes
    ensures Span(nodes, ids) == nodes[ids[0]].inclusive + Span(nodes, ids[1..])
  {
    var n := |ids| - 1;
    if n == 0 {
      assert ids[..0] == [] && ids[1..] == [];
    } else {
      SpanFront(nodes, ids[..n]);
      assert ids[..n][1..] == ids[1..][..n - 1];
      assert ids[1..][n - 1] == ids[n];
    }
  }

  lemma {:induction false} WholeIsDivided(nodes: Nodes, paths: map<nat, PathNode>)
    requires Ordered(paths) && Whole(nodes, paths)
    ensures Divided(nodes)
  {
    forall id | id in nodes
      ensures DividedAt(nodes, id)
    {
      TimeDivides(nodes, paths, id);
    }
  }

  // ---------------------------------------------------------------- where boxes lie

  /** Boxes at one depth come left to right and do not overlap. */
  predicate Disjoint(boxes: seq<Box>) {
    forall i, j :: 0 <= i < j < |boxes| && boxes[i].depth == boxes[j].depth ==> boxes[i].x + boxes[i].w <= boxes[j].x
  }

  /** Every box is as wide as its node's time, in the row of its depth, and inside the stretch. */
  predicate Within(nodes: Nodes, scale: real, boxes: seq<Box>, left: real, right: real, depth: nat) {
    forall b :: b in boxes ==>
      && b.node in nodes && b.w == Wide(nodes[b.node].inclusive, scale) && b.w >= MIN_WIDTH
      && left <= b.x && b.x + b.w <= right
      && depth <= b.depth && b.y == b.depth as real * ROW_HEIGHT
  }

  /** The box is of one of `ids`, where the time of those before it ends, counted from `left`. */
  ghost predicate Lies(nodes: Nodes, scale: real, ids: seq<nat>, left: real, b: Box) {
    exists i :: 0 <= i < |ids| && LiesAt(nodes, scale, ids, left, b, i)
  }

  predicate LiesAt(nodes: Nodes, scale: real, ids: seq<nat>, left: real, b: Box, i: nat)
    requires i < |ids|
  {
    && ids[i] == b.node && (forall id :: id in ids[..i] ==> id in nodes)
    && b.x == left + Wide(Span(nodes, ids[..i]), scale)
  }

  /** `inner` is drawn one row below `outer`, inside its edges, where its elder siblings' time ends. */
  ghost predicate Inside(nodes: Nodes, scale: real, inner: Box, outer: Box) {
    && inner.node in nodes && outer.node in nodes && nodes[inner.node].parent == outer.node
    && inner.depth == outer.depth + 1
    && outer.x <= inner.x && inner.x + inner.w <= outer.x + outer.w
    && Lies(nodes, scale, nodes[outer.node].children, outer.x, inner)
  }

  /** Every box is one of `ids` on the top row, side by side from `left`, or inside its parent's box. */
  ghost predicate Nested(nodes: Nodes, scale: real, boxes: seq<Box>, ids: seq<nat>, left: real, depth: nat) {
    forall b :: b in boxes ==>
      (b.depth == depth && Lies(nodes, scale, ids, left, b)) || exists a :: a in boxes && Inside(nodes, scale, b, a)
  }

  lemma {:induction false} SideBySide(nodes: Nodes, scale: real, a: seq<Box>, b: seq<Box>, left: real, middle: real, right: real, depth: nat)
    requires left <= middle <= right
    requires Within(nodes, scale, a, left, middle, depth) && Disjoint(a)
    requires Within(nodes, scale, b, middle, right, depth) && Disjoint(b)
    ensures Within(nodes, scale, a + b, left, right, depth) && Disjoint(a + b)
  {
    forall i, j | 0 <= i < j < |a + b| && (a + b)[i].depth == (a + b)[j].depth
      ensures (a + b)[i].x + (a + b)[i].w <= (a + b)[j].x
    {
      if i < |a| <= j {
        assert (a + b)[i] in a && (a + b)[j] in b;
      }
    }
  }

  lemma {:induction false} PlacedFits(nodes: Nodes, scale: real, id: nat, x: real, depth: nat)
    requires Divided(nodes) && id in nodes && scale >= 0.0
    ensures Within(nodes, scale, Placed(nodes, scale, id, x, depth), x, x + Wide(nodes[id].inclusive, scale), depth)
    ensures Disjoint(Placed(nodes, scale, id, x, depth))
    decreases Above(nodes, id), |nodes[id].children| + 1
  {
    var w := Wide(nodes[id].inclusive, scale);
    if w >= MIN_WIDTH {
      assert DividedAt(nodes, id);
      var children := nodes[id].children;
      StripFits(nodes, scale, id, children, x, depth + 1);
      WideGrows(Span(nodes, children), nodes[id].inclusive, scale);
    }
  }

  lemma {:induction false} StripFits(nodes: Nodes, scale: real, low: nat, ids: seq<nat>, at: real, depth: nat)
    requires Divided(nodes) && scale >= 0.0 && Queued(nodes, low, ids)
    ensures Within(nodes, scale, Strip(nodes, scale, low, ids, at, depth), at, at + Wide(Span(nodes, ids), scale), depth)
    ensures Disjoint(Strip(nodes, scale, low, ids, at, depth))
    decreases Above(nodes, low), |ids|
  {
    if ids != [] {
      assert ids[0..] == ids;
      NextSibling(nodes, scale, low, ids, 0, at, depth);
      var time := nodes[ids[0]].inclusive;
      var rest := Span(nodes, ids[1..]);
      PlacedFits(nodes, scale, ids[0], at, depth);
      StripFits(nodes, scale, low, ids[1..], at + Wide(time, scale), depth);
      SpanFront(nodes, ids);
      WideAdds(time, rest, scale);
      WideGrows(0, time, scale);
      WideGrows(0, rest, scale);
      SideBySide(nodes, scale, Placed(nodes, scale, ids[0], at, depth),
                 Strip(nodes, scale, low, ids[1..], at + Wide(time, scale), depth),
                 at, at + Wide(time, scale), at + Wide(time + rest, scale), depth);
    }
  }

  lemma {:induction false} FirstLies(nodes: Nodes, scale: real, b: Box)
    ensures Lies(nodes, scale, [b.node], b.x, b)
  {
    assert [b.node][..0] == [];
    assert LiesAt(nodes, scale, [b.node], b.x, b, 0);
  }

  /** A place among the younger siblings is a place among all. */
  lemma {:induction false} RestLies(nodes: Nodes, scale: real, ids: seq<nat>, left: real, b: Box)
    requires ids != [] && ids[0] in nodes
    requires Lies(nodes, scale, ids[1..], left + Wide(nodes[ids[0]].inclusive, scale), b)
    ensures Lies(nodes, scale, ids, left, b)
  {
    var after := left + Wide(nodes[ids[0]].inclusive, scale);
    var i :| 0 <= i < |ids[1..]| && LiesAt(nodes, scale, ids[1..], after, b, i);
    assert ids[1..][..i] == ids[..i + 1][1..];
    SpanFront(nodes, ids[..i + 1]);
    WideAdds(nodes[ids[0]].inclusive, Span(nodes, ids[1..][..i]), scale);
    assert LiesAt(nodes, scale, ids, left, b, i + 1);
  }

  lemma {:induction false} FrontLies(nodes: Nodes, scale: real, ids: seq<nat>, left: real, b: Box)
    requires ids != [] && Lies(nodes, scale, [ids[0]], left, b)
    ensures Lies(nodes, scale, ids, left, b)
  {
    var i :| 0 <= i < |[ids[0]]| && LiesAt(nodes, scale, [ids[0]], left, b, i);
    assert ids[..0] == [ids[0]][..0];
    assert LiesAt(nodes, scale, ids, left, b, 0);
  }

  lemma {:induction false} PlacedNests(nodes: Nodes, scale: real, id: nat, x: real, depth: nat)
    requires Divided(nodes) && id in nodes && scale >= 0.0
    ensures Nested(nodes, scale, Placed(nodes, scale, id, x, depth), [id], x, depth)
    decreases Above(nodes, id), |nodes[id].children| + 1
  {
    var w := Wide(nodes[id].inclusive, scale);
    if w >= MIN_WIDTH {
      assert DividedAt(nodes, id);
      var children := nodes[id].children;
      var box := Box(id, x, depth as real * ROW_HEIGHT, w, depth);
      var below := Strip(nodes, scale, id, children, x, depth + 1);
      StripFits(nodes, scale, id, children, x, depth + 1);
      WideGrows(Span(nodes, children), nodes[id].inclusive, scale);
      StripNests(nodes, scale, id, children, x, depth + 1);
      FirstLies(nodes, scale, box);
      BoxOver(nodes, scale, box, below);
    }
  }

  /** A box over the strip of its node's children. */
  lemma {:induction false} BoxOver(nodes: Nodes, scale: real, box: Box, below: seq<Box>)
    requires box.node in nodes && DividedAt(nodes, box.node) && Lies(nodes, scale, [box.node], box.x, box)
    requires Nested(nodes, scale, below, nodes[box.node].children, box.x, box.depth + 1)
    requires forall b :: b in below ==> b.node in nodes && box.x <= b.x && b.x + b.w <= box.x + box.w
    ensures Nested(nodes, scale, [box] + below, [box.node], box.x, box.depth)
  {
    var all := [box] + below;
    forall b | b in all
      ensures (b.depth == box.depth && Lies(nodes, scale, [box.node], box.x, b)) || exists a :: a in all && Inside(nodes, scale, b, a)
    {
      if b != box {
        if a :| a in below && Inside(nodes, scale, b, a) {
          assert a in all;
        } else {
          var i :| 0 <= i < |nodes[box.node].children| && LiesAt(nodes, scale, nodes[box.node].children, box.x, b, i);
          assert Inside(nodes, scale, b, box);
          assert all[0] == box;
        }
      }
    }
  }

  lemma {:induction false} NestsJoin(nodes: Nodes, scale: real, a: seq<Box>, b: seq<Box>, ids: seq<nat>, left: real, depth: nat)
    requires ids != [] && ids[0] in nodes && Nested(nodes, scale, a, [ids[0]], left, depth)
    requires Nested(nodes, scale, b, ids[1..], left + Wide(nodes[ids[0]].inclusive, scale), depth)
    ensures Nested(nodes, scale, a + b, ids, left, depth)
  {
    forall x: Box | x in a + b
      ensures (x.depth == depth && Lies(nodes, scale, ids, left, x)) || exists o :: o in a + b && Inside(nodes, scale, x, o)
    {
      var part := if x in a then a else b;
      if o :| o in part && Inside(nodes, scale, x, o) {
        assert o in a + b;
      } else if x in a {
        FrontLies(nodes, scale, ids, left, x);
      } else {
        RestLies(nodes, scale, ids, left, x);
      }
    }
  }

  lemma {:induction false} StripNests(nodes: Nodes, scale: real, low: nat, ids: seq<nat>, at: real, depth: nat)
    requires Divided(nodes) && scale >= 0.0 && Queued(nodes, low, ids)
    ensures Nested(nodes, scale, Strip(nodes, scale, low, ids, at, depth), ids, at, depth)
    decreases Above(nodes, low), |ids|
  {
    if ids != [] {
      assert ids[0..] == ids;
      NextSibling(nodes, scale, low, ids, 0, at, depth);
      var after := at + Wide(nodes[ids[0]].inclusive, scale);
      PlacedNests(nodes, scale, ids[0], at, depth);
      StripNests(nodes, scale, low, ids[1..], after, depth);
      NestsJoin(nodes, scale, Placed(nodes, scale, ids[0], at, depth), Strip(nodes, scale, low, ids[1..], after, depth), ids, at, depth);
    }
  }

  // ---------------------------------------------------------------- which nodes are drawn

  predicate Draws(boxes: seq<Box>, id: nat) {
    exists b :: b in boxes && b.node == id
  }

  ghost predicate OnceEach(boxes: seq<Box>) {
    forall i, j :: 0 <= i < j < |boxes| ==> boxes[i].node != boxes[j].node
  }

  /** The boxes draw, once each, just the nodes under `ids` that are wide enough to see. */
  ghost predicate DrawsUnder(nodes: Nodes, paths: map<nat, PathNode>, scale: real, boxes: seq<Box>, ids: seq<nat>)
    requires Ordered(paths)
  {
    && OnceEach(boxes)
    && forall d :: Draws(boxes, d) <==>
         d in nodes && ReachedFrom(paths, ids, d) && Wide(nodes[d].inclusive, scale) >= MIN_WIDTH
  }

  lemma {:induction false} DrawsJoin(a: seq<Box>, b: seq<Box>, d: nat)
    ensures Draws(a + b, d) <==> Draws(a, d) || Draws(b, d)
  {
    if Draws(a, d) { var x :| x in a && x.node == d; assert x in a + b; }
    if Draws(b, d) { var x :| x in b && x.node == d; assert x in a + b; }
  }

  lemma {:induction false} OnceJoin(a: seq<Box>, b: seq<Box>)
    requires OnceEach(a) && OnceEach(b) && forall d :: !(Draws(a, d) && Draws(b, d))
    ensures OnceEach(a + b)
  {
    forall i, j | 0 <= i < j < |a + b|
      ensures (a + b)[i].node != (a + b)[j].node
    {
      if i < |a| <= j {
        assert (a + b)[i] in a && (a + b)[j] in b;
        assert Draws(a, (a + b)[i].node) && Draws(b, (a + b)[j].node);
      }
    }
  }

  lemma {:induction false} ThinnerBelow(nodes: Nodes, paths: map<nat, PathNode>, scale: real, top: nat, d: nat)
    requires Ordered(paths) && Whole(nodes, paths) && scale >= 0.0 && top in nodes && d in nodes && Reaches(paths, top, d)
    ensures Wide(nodes[d].inclusive, scale) <= Wide(nodes[top].inclusive, scale)
  {
    assert MeasuredAt(nodes, paths, top) && MeasuredAt(nodes, paths, d);
    forall x | x in Under(paths, nodes, d)
      ensures x in Under(paths, nodes, top)
    {
      ReachesThrough(paths, top, d, x);
    }
    SelfSumWithin(nodes, Under(paths, nodes, d), Under(paths, nodes, top));
    WideGrows(nodes[d].inclusive, nodes[top].inclusive, scale);
  }

  lemma {:induction false} PlacedDraws(nodes: Nodes, paths: map<nat, PathNode>, scale: real, id: nat, x: real, depth: nat)
    requires Ordered(paths) && Whole(nodes, paths) && Divided(nodes) && id in nodes && scale >= 0.0
    ensures DrawsUnder(nodes, paths, scale, Placed(nodes, scale, id, x, depth), [id])
    decreases Above(nodes, id), |nodes[id].children| + 1
  {
    var boxes := Placed(nodes, scale, id, x, depth);
    var w := Wide(nodes[id].inclusive, scale);
    var children := nodes[id].children;
    UnderUnfolds(nodes, paths, id);
    if w < MIN_WIDTH {
      forall d
        ensures !(d in nodes && ReachedFrom(paths, [id], d) && Wide(nodes[d].inclusive, scale) >= MIN_WIDTH)
      {
        if d in nodes && ReachedFrom(paths, [id], d) { ThinnerBelow(nodes, paths, scale, id, d); }
      }
    } else {
      assert DividedAt(nodes, id);
      ChildrenApart(nodes, paths, id);
      StripDraws(nodes, paths, scale, id, children, x, depth + 1);
      var box := Box(id, x, depth as real * ROW_HEIGHT, w, depth);
      var below := Strip(nodes, scale, id, children, x, depth + 1);
      forall d
        ensures Draws([box], d) <==> d == id
      {
        assert box in [box];
      }
      forall d
        ensures Draws(boxes, d) <==> d in nodes && ReachedFrom(paths, [id], d) && Wide(nodes[d].inclusive, scale) >= MIN_WIDTH
      {
        DrawsJoin([box], below, d);
        OnlyOne(paths, id, d);
        if d in nodes { assert d in Under(paths, nodes, id) <==> d == id || d in UnderAny(paths, nodes, children); }
      }
      forall d
        ensures !(Draws([box], d) && Draws(below, d))
      {
        assert id !in UnderAny(paths, nodes, children);
      }
      OnceJoin([box], below);
    }
  }

  lemma {:induction false} OnlyOne(paths: map<nat, PathNode>, id: nat, d: nat)
    requires Ordered(paths)
    ensures ReachedFrom(paths, [id], d) <==> Reaches(paths, id, d)
  {
    assert id in [id];
  }

  lemma {:induction false} FrontOrRest(paths: map<nat, PathNode>, ids: seq<nat>, d: nat)
    requires Ordered(paths) && ids != []
    ensures ReachedFrom(paths, ids, d) <==> ReachedFrom(paths, [ids[0]], d) || ReachedFrom(paths, ids[1..], d)
  {
    OnlyOne(paths, ids[0], d);
    if ReachedFrom(paths, ids, d) {
      var top :| top in ids && Reaches(paths, top, d);
      if top != ids[0] { assert top in ids[1..]; }
    }
    if ReachedFrom(paths, ids[1..], d) {
      var top :| top in ids[1..] && Reaches(paths, top, d);
      assert top in ids;
    }
  }

  lemma {:induction false} PairApart(nodes: Nodes, paths: map<nat, PathNode>, ids: seq<nat>, i: nat, k: nat, d: nat)
    requires Ordered(paths) && Apart(nodes, paths, ids) && i < k < |ids| && d in nodes
    ensures !(Reaches(paths, ids[i], d) && Reaches(paths, ids[k], d))
  {
    assert ApartFrom(paths, nodes, ids[..k], ids[k]);
    assert ids[..k][i] == ids[i];
    assert ids[i] in ids[..k];
  }

  lemma {:induction false} ApartRest(nodes: Nodes, paths: map<nat, PathNode>, ids: seq<nat>)
    requires Ordered(paths) && Apart(nodes, paths, ids) && ids != []
    ensures Apart(nodes, paths, ids[1..])
    ensures forall d :: d in nodes && Reaches(paths, ids[0], d) ==> !ReachedFrom(paths, ids[1..], d)
  {
    var rest := ids[1..];
    forall k | 0 <= k < |rest|
      ensures ApartFrom(paths, nodes, rest[..k], rest[k])
    {
      forall d, top | d in nodes && Reaches(paths, rest[k], d) && top in rest[..k]
        ensures !Reaches(paths, top, d)
      {
        var i :| 0 <= i < k && rest[i] == top;
        PairApart(nodes, paths, ids, i + 1, k + 1, d);
      }
    }
    forall d, top | d in nodes && Reaches(paths, ids[0], d) && top in rest
      ensures !Reaches(paths, top, d)
    {
      var k :| 0 <= k < |rest| && rest[k] == top;
      PairApart(nodes, paths, ids, 0, k + 1, d);
    }
  }

  lemma {:induction false} StripDraws(nodes: Nodes, paths: map<nat, PathNode>, scale: real, low: nat, ids: seq<nat>, at: real, depth: nat)
    requires Ordered(paths) && Whole(nodes, paths) && Divided(nodes) && scale >= 0.0
    requires Apart(nodes, paths, ids) && Queued(nodes, low, ids)
    ensures DrawsUnder(nodes, paths, scale, Strip(nodes, scale, low, ids, at, depth), ids)
    decreases Above(nodes, low), |ids|
  {
    if ids != [] {
      assert ids[0..] == ids;
      NextSibling(nodes, scale, low, ids, 0, at, depth);
      var first := Placed(nodes, scale, ids[0], at, depth);
      var rest := Strip(nodes, scale, low, ids[1..], at + Wide(nodes[ids[0]].inclusive, scale), depth);
      ApartRest(nodes, paths, ids);
      PlacedDraws(nodes, paths, scale, ids[0], at, depth);
      StripDraws(nodes, paths, scale, low, ids[1..], at + Wide(nodes[ids[0]].inclusive, scale), depth);
      forall d
        ensures Draws(first + rest, d) <==> d in nodes && ReachedFrom(paths, ids, d) && Wide(nodes[d].inclusive, scale) >= MIN_WIDTH
        ensures !(Draws(first, d) && Draws(rest, d))
      {
        DrawsJoin(first, rest, d);
        FrontOrRest(paths, ids, d);
        OnlyOne(paths, ids[0], d);
      }
      OnceJoin(first, rest);
    }
  }

  /**
   * The boxes of a whole tree: as wide as their nodes' share of the time, inside the picture and their
   * parents' boxes, each where its elder siblings' time ends, never overlapping in a row, and one for
   * each node wide enough to see.
   */
  lemma {:induction false} BoxesAreTheTree(nodes: Nodes, paths: map<nat, PathNode>, roots: seq<nat>, total: nat, width: real)
    requires Ordered(paths) && Whole(nodes, paths) && ListsRoots(nodes, roots) && total == Span(nodes, roots) && width >= 0.0
    ensures Divided(nodes) && Queued(nodes, 0, roots)
    ensures var boxes := Boxes(nodes, roots, total, width);
            if total == 0 then boxes == []
            else
              var scale := width / total as real;
              && Disjoint(boxes) && Nested(nodes, scale, boxes, roots, 0.0, 0)
              && Within(nodes, scale, boxes, 0.0, width, 0)
              && DrawsUnder(nodes, paths, scale, boxes, roots)
  {
    WholeIsDivided(nodes, paths);
    forall root | root in roots
      ensures root in nodes && 0 < root
    {
      assert IsRoot(nodes, root) && root in paths;
    }
    if total > 0 {
      var scale := width / total as real;
      assert Wide(total, scale) == width;
      StripFits(nodes, scale, 0, roots, 0.0, 0);
      StripNests(nodes, scale, 0, roots, 0.0, 0);
      RootsApart(nodes, paths, roots);
      StripDraws(nodes, paths, scale, 0, roots, 0.0, 0);
    }
  }
}
