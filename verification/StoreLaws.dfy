/** Agreements between the forms the daemon keeps of one stream: graph and tree, coarse and fine, reading and window. */
module StoreLaws {
  import opened Basics
  import opened Words
  import opened Sums
  import opened PathRegistry
  import opened Ledger
  import opened Windows
  import opened RingModel
  import opened StoreModel
  import opened StoreInvariant

  // ---------------------------------------------------------------- saturating sums

  lemma {:induction false} SumPoint<T(!new)>(s: set<T>, x: T, n: nat, f: T -> nat)
    requires forall y :: y in s ==> f(y) == if y == x then n else 0
    ensures SumOver(s, f) == if x in s then n else 0
  {
    if x in s {
      SumPick(s, x, f);
      SumZero(s - {x}, f);
    } else {
      SumZero(s, f);
    }
  }

  lemma {:induction false} SumZero<T(!new)>(s: set<T>, f: T -> nat)
    requires forall y :: y in s ==> f(y) == 0
    ensures SumOver(s, f) == 0
  {
    SumWiden({}, s, f);
  }

  /** A saturating sum of saturating totals is the saturating sum of what they stand for. */
  lemma {:induction false} ClipOfSum<T(!new)>(s: set<T>, shown: T -> nat, exact: T -> nat)
    requires forall x :: x in s ==> shown(x) == Clip(exact(x))
    ensures Clip(SumOver(s, shown)) == Clip(SumOver(s, exact))
  {
    if s != {} {
      var x :| x in s;
      SumPick(s, x, shown);
      SumPick(s, x, exact);
      ClipOfSum(s - {x}, shown, exact);
    }
  }

  // ---------------------------------------------------------------- the graph is a reading of the tree

  /** Contexts of `to` whose parent is a context of `from`. */
  function NodesUnder(paths: map<nat, PathNode>, from: nat, to: nat): set<nat> {
    set p | p in paths && paths[p].func == to
            && paths[p].parent != 0 && paths[p].parent in paths && paths[paths[p].parent].func == from
  }

  function NodesOf(paths: map<nat, PathNode>, func: nat): set<nat> {
    set p | p in paths && paths[p].func == func
  }

  function ExactCalls(log: seq<Entry>, span: Span): nat -> nat {
    (p: nat) => Exact(log, PathCalls(p), span)
  }

  function ExactSelf(log: seq<Entry>, span: Span): nat -> nat {
    (p: nat) => Exact(log, PathSelf(p), span)
  }

  /** What one entry adds to each context's calls over a span. */
  ghost function CallsHere(e: Entry, span: Span): nat -> nat {
    (p: nat) => if Covers(span, e.t) then Share(PathCalls(p), e.what) else 0
  }

  lemma {:induction false} EdgeHere(s: Store, e: Entry, from: nat, to: nat, span: Span)
    requires Grounded(e, s)
    ensures SumOver(NodesUnder(s.paths, from, to), CallsHere(e, span))
         == if Covers(span, e.t) then Share(EdgeOf(from, to), e.what) else 0
  {
    var nodes := NodesUnder(s.paths, from, to);
    if e.what.StackAccepted? && Covers(span, e.t) {
      SumPoint(nodes, e.what.path, e.what.count, CallsHere(e, span));
    } else {
      SumZero(nodes, CallsHere(e, span));
    }
  }

  lemma {:induction false} EdgeIsSumOfNodes(s: Store, log: seq<Entry>, from: nat, to: nat, span: Span)
    requires forall k :: 0 <= k < |log| ==> Grounded(log[k], s)
    ensures Exact(log, EdgeOf(from, to), span) == SumOver(NodesUnder(s.paths, from, to), ExactCalls(log, span))
  {
    var nodes := NodesUnder(s.paths, from, to);
    if log == [] {
      SumZero(nodes, ExactCalls(log, span));
    } else {
      var front, e := log[..|log| - 1], log[|log| - 1];
      EdgeIsSumOfNodes(s, front, from, to, span);
      SumPlus(nodes, ExactCalls(front, span), CallsHere(e, span), ExactCalls(log, span));
      EdgeHere(s, e, from, to, span);
    }
  }

  ghost function SelfHere(e: Entry, span: Span): nat -> nat {
    (p: nat) => if Covers(span, e.t) then Share(PathSelf(p), e.what) else 0
  }

  lemma {:induction false} FuncSelfHere(s: Store, e: Entry, func: nat, span: Span)
    requires Grounded(e, s)
    ensures SumOver(NodesOf(s.paths, func), SelfHere(e, span)) == if Covers(span, e.t) then Share(FuncSelf(func), e.what) else 0
  {
    var nodes := NodesOf(s.paths, func);
    if e.what.StackAccepted? && Covers(span, e.t) {
      SumPoint(nodes, e.what.path, e.what.selfNs, SelfHere(e, span));
    } else {
      SumZero(nodes, SelfHere(e, span));
    }
  }

  lemma {:induction false} SelfIsSumOfNodes(s: Store, log: seq<Entry>, func: nat, span: Span)
    requires forall k :: 0 <= k < |log| ==> Grounded(log[k], s)
    ensures Exact(log, FuncSelf(func), span) == SumOver(NodesOf(s.paths, func), ExactSelf(log, span))
  {
    var nodes := NodesOf(s.paths, func);
    if log == [] {
      SumZero(nodes, ExactSelf(log, span));
    } else {
      var front, e := log[..|log| - 1], log[|log| - 1];
      SelfIsSumOfNodes(s, front, func, span);
      SumPlus(nodes, ExactSelf(front, span), SelfHere(e, span), ExactSelf(log, span));
      FuncSelfHere(s, e, func, span);
    }
  }

  function LifetimeCalls(s: Store): nat -> nat { (p: nat) => LifetimeRead(s, PathCalls(p)) }

  function LifetimeSelf(s: Store): nat -> nat { (p: nat) => LifetimeRead(s, PathSelf(p)) }

  function WindowCalls(w: Window): nat -> nat { (p: nat) => Read(w, PathCalls(p)) }

  /**
    The derived graph agrees with the tree. After any frames, an edge's weight
    is the saturating sum of call totals over the contexts it stands for, a
    function's self time that of self times over its contexts, and the same edge
    law holds inside every window either ring holds.
   */
  lemma {:induction false} GraphReadsTheTree(frames: seq<Frame>, from: nat, to: nat, w: Window)
    requires forall k :: 0 <= k < |frames| ==> FrameOk(frames[k])
    ensures var s := ApplyAll(FRESH, frames);
            && TreeSound(s)
            && LifetimeRead(s, EdgeOf(from, to)) == Clip(SumOver(NodesUnder(s.paths, from, to), LifetimeCalls(s)))
            && LifetimeRead(s, FuncSelf(to)) == Clip(SumOver(NodesOf(s.paths, to), LifetimeSelf(s)))
            && (w in s.fine || w in s.coarse ==>
                  Read(w, EdgeOf(from, to)) == Clip(SumOver(NodesUnder(s.paths, from, to), WindowCalls(w))))
  {
    var s := ApplyAll(FRESH, frames);
    FreshIsTrue();
    RunKeepsTrue(FRESH, frames);
    LifetimeGraph(s, from, to);
    if w in s.fine {
      var k :| 0 <= k < |s.fine| && s.fine[k] == w;
      WindowGraph(s, w, from, to, Slot(FINE_RESOLUTION_NS, w.index));
    } else if w in s.coarse {
      var k :| 0 <= k < |s.coarse| && s.coarse[k] == w;
      WindowGraph(s, w, from, to, Slot(COARSE_RESOLUTION_NS, w.index));
    }
  }

  lemma {:induction false} LifetimeGraph(s: Store, from: nat, to: nat)
    requires StoreTrue(s)
    ensures LifetimeRead(s, EdgeOf(from, to)) == Clip(SumOver(NodesUnder(s.paths, from, to), LifetimeCalls(s)))
    ensures LifetimeRead(s, FuncSelf(to)) == Clip(SumOver(NodesOf(s.paths, to), LifetimeSelf(s)))
  {
    EdgeIsSumOfNodes(s, s.log, from, to, Always);
    SelfIsSumOfNodes(s, s.log, to, Always);
    forall p
      ensures LifetimeCalls(s)(p) == Clip(ExactCalls(s.log, Always)(p))
      ensures LifetimeSelf(s)(p) == Clip(ExactSelf(s.log, Always)(p))
    {
      assert TotalTrue(s, PathCalls(p)) && TotalTrue(s, PathSelf(p));
    }
    ClipOfSum(NodesUnder(s.paths, from, to), LifetimeCalls(s), ExactCalls(s.log, Always));
    ClipOfSum(NodesOf(s.paths, to), LifetimeSelf(s), ExactSelf(s.log, Always));
    assert TotalTrue(s, EdgeOf(from, to)) && TotalTrue(s, FuncSelf(to));
  }

  lemma {:induction false} WindowGraph(s: Store, w: Window, from: nat, to: nat, span: Span)
    requires LogGrounded(s) && Matches(w, s.log, span)
    ensures Read(w, EdgeOf(from, to)) == Clip(SumOver(NodesUnder(s.paths, from, to), WindowCalls(w)))
  {
    EdgeIsSumOfNodes(s, s.log, from, to, span);
    forall p
      ensures WindowCalls(w)(p) == Clip(ExactCalls(s.log, span)(p))
    {
      assert Shows(w, s.log, span, PathCalls(p));
    }
    ClipOfSum(NodesUnder(s.paths, from, to), WindowCalls(w), ExactCalls(s.log, span));
    assert Shows(w, s.log, span, EdgeOf(from, to));
  }

  /** Once registered, a context keeps its node through any further frames. */
  lemma {:induction false} NodesNeverChange(frames: seq<Frame>, more: seq<Frame>, id: nat)
    requires forall k :: 0 <= k < |frames| ==> FrameOk(frames[k])
    requires forall k :: 0 <= k < |more| ==> FrameOk(more[k])
    ensures var s := ApplyAll(FRESH, frames);
            id in s.paths ==> id in ApplyAll(s, more).paths && ApplyAll(s, more).paths[id] == s.paths[id]
  {
    FreshIsTrue();
    RunKeepsTrue(FRESH, frames);
    RunKeepsTrue(ApplyAll(FRESH, frames), more);
  }

  // ---------------------------------------------------------------- coarse windows roll up fine ones

  const FINE_PER_COARSE: nat := 10

  /** What the fine ring shows at an index it may not hold. */
  function FineRead(s: Store, index: nat, q: Query): nat {
    var w := Get(s.fine, index);
    if w.Some? then Read(w.value, q) else 0
  }

  /** The sum over the first `n` fine windows inside a coarse one. */
  function FineReads(s: Store, coarse: nat, q: Query, n: nat): nat {
    if n == 0 then 0 else FineReads(s, coarse, q, n - 1) + FineRead(s, FINE_PER_COARSE * coarse + n - 1, q)
  }

  function FineExact(log: seq<Entry>, coarse: nat, q: Query, n: nat): nat {
    if n == 0 then 0
    else
      FineExact(log, coarse, q, n - 1)
      + Exact(log, q, Slot(FINE_RESOLUTION_NS, FINE_PER_COARSE * coarse + n - 1))
  }

  lemma {:induction false} FineExactPush(log: seq<Entry>, e: Entry, coarse: nat, q: Query, n: nat)
    ensures FineExact(log + [e], coarse, q, n)
         == FineExact(log, coarse, q, n)
            + if FINE_PER_COARSE * coarse <= FineIndex(e.t) < FINE_PER_COARSE * coarse + n then Share(q, e.what) else 0
  {
    if n != 0 {
      FineExactPush(log, e, coarse, q, n - 1);
      ExactPush(log, e, q, Slot(FINE_RESOLUTION_NS, FINE_PER_COARSE * coarse + n - 1));
    }
  }

  lemma {:induction false} FineExactEmpty(coarse: nat, q: Query, n: nat)
    ensures FineExact([], coarse, q, n) == 0
  {
    if n != 0 { FineExactEmpty(coarse, q, n - 1); }
  }

  lemma {:induction false} TenFineInACoarse(t: nat, coarse: nat)
    ensures t / COARSE_RESOLUTION_NS == coarse
       <==> FINE_PER_COARSE * coarse <= FineIndex(t) < FINE_PER_COARSE * coarse + FINE_PER_COARSE
  {
  }

  /** A coarse slot's exact total is that of the ten fine slots inside it. */
  lemma {:induction false} CoarseExact(log: seq<Entry>, coarse: nat, q: Query)
    ensures Exact(log, q, Slot(COARSE_RESOLUTION_NS, coarse)) == FineExact(log, coarse, q, FINE_PER_COARSE)
  {
    if log == [] {
      FineExactEmpty(coarse, q, FINE_PER_COARSE);
    } else {
      var front, e := log[..|log| - 1], log[|log| - 1];
      CoarseExact(front, coarse, q);
      assert log == front + [e];
      FineExactPush(front, e, coarse, q, FINE_PER_COARSE);
      TenFineInACoarse(e.t, coarse);
    }
  }

  lemma {:induction false} HeldMatches(ws: seq<Window>, log: seq<Entry>, index: nat, resolution: nat, capacity: nat)
    requires RingTrue(ws, log, resolution, capacity)
    ensures Get(ws, index).Some? ==> Matches(Get(ws, index).value, log, Slot(resolution, index))
  {
    if Get(ws, index).Some? {
      assert ws[index - ws[0].index].index == ws[0].index + (index - ws[0].index);
      assert Matches(ws[index - ws[0].index], log, Slot(resolution, index));
    }
  }

  /** Past its oldest window a ring shows every slot's total, held or still to come. */
  lemma {:induction false} FineReadIsExact(s: Store, index: nat, q: Query)
    requires RingTrue(s.fine, s.log, FINE_RESOLUTION_NS, FINE_CAPACITY)
    requires Windowed(q) && s.fine != [] && Oldest(s.fine) <= index
    ensures FineRead(s, index, q) == Clip(Exact(s.log, q, Slot(FINE_RESOLUTION_NS, index)))
  {
    HeldMatches(s.fine, s.log, index, FINE_RESOLUTION_NS, FINE_CAPACITY);
    if Get(s.fine, index).Some? {
      assert Shows(Get(s.fine, index).value, s.log, Slot(FINE_RESOLUTION_NS, index), q);
    } else {
      assert s.fine[|s.fine| - 1].index == s.fine[0].index + (|s.fine| - 1);
      EmptySpan(s.log, q, 0, Slot(FINE_RESOLUTION_NS, index));
    }
  }

  lemma {:induction false} FineReadsAreExact(s: Store, coarse: nat, q: Query, n: nat)
    requires RingTrue(s.fine, s.log, FINE_RESOLUTION_NS, FINE_CAPACITY)
    requires Windowed(q) && s.fine != [] && Oldest(s.fine) <= FINE_PER_COARSE * coarse
    ensures Clip(FineReads(s, coarse, q, n)) == Clip(FineExact(s.log, coarse, q, n))
  {
    if n != 0 {
      FineReadsAreExact(s, coarse, q, n - 1);
      FineReadIsExact(s, FINE_PER_COARSE * coarse + n - 1, q);
    }
  }

  /**
    Roll-up. After any frames in any order of times, a coarse window still held
    shows the saturating sum of the ten fine windows inside it, as long as the
    fine ring has not yet dropped any of them.
   */
  lemma {:induction false} CoarseRollsUpFine(frames: seq<Frame>, coarse: nat, q: Query)
    requires forall k :: 0 <= k < |frames| ==> FrameOk(frames[k])
    requires Windowed(q)
    ensures var s := ApplyAll(FRESH, frames);
            Get(s.coarse, coarse).Some? && s.fine != [] && Oldest(s.fine) <= FINE_PER_COARSE * coarse ==>
              Read(Get(s.coarse, coarse).value, q) == Clip(FineReads(s, coarse, q, FINE_PER_COARSE))
  {
    var s := ApplyAll(FRESH, frames);
    FreshIsTrue();
    RunKeepsTrue(FRESH, frames);
    HeldMatches(s.coarse, s.log, coarse, COARSE_RESOLUTION_NS, COARSE_CAPACITY);
    if Get(s.coarse, coarse).Some? && s.fine != [] && Oldest(s.fine) <= FINE_PER_COARSE * coarse {
      RollsUp(s, Get(s.coarse, coarse).value, coarse, q);
    }
  }

  lemma {:induction false} RollsUp(s: Store, w: Window, coarse: nat, q: Query)
    requires RingTrue(s.fine, s.log, FINE_RESOLUTION_NS, FINE_CAPACITY) && Windowed(q)
    requires Matches(w, s.log, Slot(COARSE_RESOLUTION_NS, coarse))
    requires s.fine != [] && Oldest(s.fine) <= FINE_PER_COARSE * coarse
    ensures Read(w, q) == Clip(FineReads(s, coarse, q, FINE_PER_COARSE))
  {
    assert Shows(w, s.log, Slot(COARSE_RESOLUTION_NS, coarse), q);
    CoarseExact(s.log, coarse, q);
    FineReadsAreExact(s, coarse, q, FINE_PER_COARSE);
  }

  // ---------------------------------------------------------------- census

  /** In a slot holding a type's latest reading of all, that is the slot's; later slots hold none. */
  lemma {:induction false} LatestInSlots(log: seq<Entry>, ty: nat, resolution: nat, index: nat)
    requires resolution > 0 && Latest(log, ty, Always).Some?
    requires forall k :: 0 <= k < |log| ==> (log[k].what.CensusAccepted? ==> log[k].what.reading.at == log[k].t)
    ensures var r := Latest(log, ty, Always).value;
            && (index == r.at / resolution ==> Latest(log, ty, Slot(resolution, index)) == Some(r))
            && (index > r.at / resolution ==> Latest(log, ty, Slot(resolution, index)) == None)
  {
    var r, span := Latest(log, ty, Always).value, Slot(resolution, index);
    var k := LatestIsGreatest(log, ty, Always);
    var j := LatestIsGreatest(log, ty, span);
    if Latest(log, ty, span).Some? {
      assert Reports(log[j], ty, Always);
      QuotientMonotone(log[j].t, r.at, resolution);
    }
    if index == r.at / resolution {
      assert Reports(log[k], ty, span);
    }
  }

  /**
    Census agreement. For any order of arrival a type's latest reading is the
    one of greatest time, the last arrival on ties; every window of either ring
    covering that time and still held shows exactly that reading, and no later
    window shows one for the type.
   */
  lemma {:induction false} LatestReadingIsInItsWindows(frames: seq<Frame>, ty: nat) returns (k: nat)
    requires forall k :: 0 <= k < |frames| ==> FrameOk(frames[k])
    ensures var s := ApplyAll(FRESH, frames);
            ty in s.types && s.types[ty].latest.Some? ==>
              && IsLatestAt(s.log, ty, Always, k) && s.types[ty].latest.value == s.log[k].what.reading
              && s.types[ty].latest.value.at == s.log[k].t
              && CensusPlaced(s.fine, ty, s.types[ty].latest.value, FINE_RESOLUTION_NS)
              && CensusPlaced(s.coarse, ty, s.types[ty].latest.value, COARSE_RESOLUTION_NS)
    ensures var s := ApplyAll(FRESH, frames);
            ty in s.types && s.types[ty].latest.None? ==>
              forall j :: 0 <= j < |s.log| ==> !Reports(s.log[j], ty, Always)
  {
    var s := ApplyAll(FRESH, frames);
    FreshIsTrue();
    RunKeepsTrue(FRESH, frames);
    k := LatestIsGreatest(s.log, ty, Always);
    assert LatestTrue(s, ty);
    if ty in s.types && s.types[ty].latest.Some? {
      assert Grounded(s.log[k], s);
      PlacedInRing(s, s.fine, ty, FINE_RESOLUTION_NS, FINE_CAPACITY);
      PlacedInRing(s, s.coarse, ty, COARSE_RESOLUTION_NS, COARSE_CAPACITY);
    }
  }

  ghost predicate CensusPlaced(ws: seq<Window>, ty: nat, r: Reading, resolution: nat)
    requires resolution > 0
  {
    forall k :: 0 <= k < |ws| ==>
      && (ws[k].index == r.at / resolution ==> CensusIn(ws[k], ty) == Some(r))
      && (ws[k].index > r.at / resolution ==> CensusIn(ws[k], ty) == None)
  }

  lemma {:induction false} PlacedInRing(s: Store, ws: seq<Window>, ty: nat, resolution: nat, capacity: nat)
    requires LogGrounded(s) && RingTrue(ws, s.log, resolution, capacity) && Latest(s.log, ty, Always).Some?
    ensures CensusPlaced(ws, ty, Latest(s.log, ty, Always).value, resolution)
  {
    ReadingsAreStamped(s);
    forall k | 0 <= k < |ws|
      ensures var r := Latest(s.log, ty, Always).value;
              && (ws[k].index == r.at / resolution ==> CensusIn(ws[k], ty) == Some(r))
              && (ws[k].index > r.at / resolution ==> CensusIn(ws[k], ty) == None)
    {
      MatchesCensus(ws[k], s.log, Slot(resolution, ws[k].index), ty);
      LatestInSlots(s.log, ty, resolution, ws[k].index);
    }
  }

  lemma {:induction false} MatchesCensus(w: Window, log: seq<Entry>, span: Span, ty: nat)
    requires Matches(w, log, span)
    ensures CensusIn(w, ty) == Latest(log, ty, span)
  {
  }

  lemma {:induction false} ReadingsAreStamped(s: Store)
    requires LogGrounded(s)
    ensures forall k :: 0 <= k < |s.log| ==> (s.log[k].what.CensusAccepted? ==> s.log[k].what.reading.at == s.log[k].t)
  {
    forall k | 0 <= k < |s.log|
      ensures s.log[k].what.CensusAccepted? ==> s.log[k].what.reading.at == s.log[k].t
    {
      assert Grounded(s.log[k], s);
    }
  }
}
