/** One window of time, and the ring of contiguous windows a process keeps. */
module Windows {
  import opened Basics
  import opened Words
  import opened PathRegistry
  import opened Ledger

  datatype CallDelta = CallDelta(calls: u64, ns: u64)

  datatype StackDelta = StackDelta(calls: u64, selfNs: u64)

  datatype Window = Window(
    index: nat,
    resolution: nat,
    calls: map<nat, CallDelta>,
    edges: map<(nat, nat), u64>,
    stacks: map<nat, StackDelta>,
    census: map<nat, Reading>)

  /** What an accepted event does to a window; one stack event may also stand for an edge. */
  datatype Applied =
    | CallsApplied(func: nat, calls: nat, ns: nat)
    | EdgeApplied(from: nat, to: nat, calls: nat)
    | StackApplied(path: nat, calls: nat, selfNs: nat)
    | CensusApplied(ty: nat, reading: Reading)

  function EmptyWindow(index: nat, resolution: nat): Window {
    Window(index, resolution, map[], map[], map[], map[])
  }

  predicate IsEmpty(w: Window) {
    w.calls == map[] && w.edges == map[] && w.stacks == map[] && w.census == map[]
  }

  function AddCalls(calls: map<nat, CallDelta>, func: nat, count: nat, ns: nat): map<nat, CallDelta> {
    var held := if func in calls then calls[func] else CallDelta(0, 0);
    calls[func := CallDelta(SatAdd(held.calls, count), SatAdd(held.ns, ns))]
  }

  function AddEdge(edges: map<(nat, nat), u64>, from: nat, to: nat, count: nat): map<(nat, nat), u64> {
    var held := if (from, to) in edges then edges[(from, to)] else 0;
    edges[(from, to) := SatAdd(held, count)]
  }

  function AddStack(stacks: map<nat, StackDelta>, path: nat, count: nat, selfNs: nat): map<nat, StackDelta> {
    var held := if path in stacks then stacks[path] else StackDelta(0, 0);
    stacks[path := StackDelta(SatAdd(held.calls, count), SatAdd(held.selfNs, selfNs))]
  }

  function RecordCensus(census: map<nat, Reading>, ty: nat, reading: Reading): map<nat, Reading> {
    if ty in census && census[ty].at > reading.at then census else census[ty := reading]
  }

  function FoldOne(w: Window, item: Applied): Window {
    match item
    case CallsApplied(func, calls, ns) => w.(calls := AddCalls(w.calls, func, calls, ns))
    case EdgeApplied(from, to, calls) => w.(edges := AddEdge(w.edges, from, to, calls))
    case StackApplied(path, calls, selfNs) => w.(stacks := AddStack(w.stacks, path, calls, selfNs))
    case CensusApplied(ty, reading) => w.(census := RecordCensus(w.census, ty, reading))
  }

  function Fold(w: Window, items: seq<Applied>): Window {
    if items == [] then w else FoldOne(Fold(w, items[..|items| - 1]), items[|items| - 1])
  }

  /** The items one accepted event stands for. */
  function Items(a: Accepted): seq<Applied> {
    match a
    case CallsAccepted(func, count, ns, _) => [CallsApplied(func, count, ns)]
    case StackAccepted(path, node, caller, count, selfNs) =>
      [StackApplied(path, count, selfNs)]
      + (if caller.Some? then [EdgeApplied(caller.value, node.func, count)] else [])
    case CensusAccepted(ty, reading) => [CensusApplied(ty, reading)]
  }

  function AllItems(accepted: seq<Accepted>): seq<Applied> {
    if accepted == [] then [] else AllItems(accepted[..|accepted| - 1]) + Items(accepted[|accepted| - 1])
  }

  // ---------------------------------------------------------------- reading a window

  /** Whether a window keeps the quantity at all. */
  predicate Windowed(q: Query) {
    !q.FuncSelf?
  }

  predicate Holds(w: Window, q: Query) {
    match q
    case CallsOf(func) => func in w.calls
    case NsOf(func) => func in w.calls
    case EdgeOf(from, to) => (from, to) in w.edges
    case PathCalls(path) => path in w.stacks
    case PathSelf(path) => path in w.stacks
    case FuncSelf(_) => false
  }

  /** What a window shows of a quantity; nothing held reads as zero. */
  function Read(w: Window, q: Query): u64 {
    if !Holds(w, q) then 0
    else
      match q
      case CallsOf(func) => w.calls[func].calls
      case NsOf(func) => w.calls[func].ns
      case EdgeOf(from, to) => w.edges[(from, to)]
      case PathCalls(path) => w.stacks[path].calls
      case PathSelf(path) => w.stacks[path].selfNs
      case FuncSelf(_) => 0
  }

  function CensusIn(w: Window, ty: nat): Option<Reading> {
    if ty in w.census then Some(w.census[ty]) else None
  }

  /** The window shows a quantity's total over the span, clipped to a word. */
  ghost predicate Shows(w: Window, log: seq<Entry>, span: Span, q: Query) {
    Read(w, q) == Clip(Exact(log, q, span)) && (Holds(w, q) <==> Touched(log, q, span))
  }

  /** The window is the fold of the log over the span: every quantity, and every type's reading. */
  ghost predicate Matches(w: Window, log: seq<Entry>, span: Span) {
    && (forall q :: Windowed(q) ==> Shows(w, log, span, q))
    && (forall ty :: CensusIn(w, ty) == Latest(log, ty, span))
  }

  lemma {:induction false} FoldConcat(w: Window, items: seq<Applied>, item: Applied)
    ensures Fold(w, items + [item]) == FoldOne(Fold(w, items), item)
  {
    assert (items + [item])[..|items|] == items;
  }

  /** What folding one accepted event's items does to a window. */
  lemma {:induction false} FoldItems(w: Window, a: Accepted)
    ensures var w' := Fold(w, Items(a));
            && w'.index == w.index && w'.resolution == w.resolution
            && w'.calls == (if a.CallsAccepted? then AddCalls(w.calls, a.func, a.count, a.ns) else w.calls)
            && w'.stacks == (if a.StackAccepted? then AddStack(w.stacks, a.path, a.count, a.selfNs) else w.stacks)
            && w'.edges == (if a.StackAccepted? && a.caller.Some?
                            then AddEdge(w.edges, a.caller.value, a.node.func, a.count) else w.edges)
            && w'.census == (if a.CensusAccepted? then RecordCensus(w.census, a.ty, a.reading) else w.census)
  {
    match a
    case CallsAccepted(func, count, ns, _) =>
      FoldConcat(w, [], CallsApplied(func, count, ns));
      assert [] + [CallsApplied(func, count, ns)] == Items(a);
    case StackAccepted(path, node, caller, count, selfNs) =>
      FoldConcat(w, [], StackApplied(path, count, selfNs));
      assert [] + [StackApplied(path, count, selfNs)] == [StackApplied(path, count, selfNs)];
      if caller.Some? {
        FoldConcat(w, [StackApplied(path, count, selfNs)], EdgeApplied(caller.value, node.func, count));
      }
    case CensusAccepted(ty, reading) =>
      FoldConcat(w, [], CensusApplied(ty, reading));
      assert [] + [CensusApplied(ty, reading)] == Items(a);
  }

  lemma {:induction false} FoldedCalls(w: Window, e: Entry, q: Query)
    requires e.what.CallsAccepted? && Windowed(q)
    ensures Read(Fold(w, Items(e.what)), q) == SatAdd(Read(w, q), Share(q, e.what))
    ensures Holds(Fold(w, Items(e.what)), q) <==> Holds(w, q) || Concerns(q, e.what)
  {
    FoldItems(w, e.what);
  }

  lemma {:induction false} FoldedStack(w: Window, e: Entry, q: Query)
    requires e.what.StackAccepted? && Windowed(q)
    ensures Read(Fold(w, Items(e.what)), q) == SatAdd(Read(w, q), Share(q, e.what))
    ensures Holds(Fold(w, Items(e.what)), q) <==> Holds(w, q) || Concerns(q, e.what)
  {
    FoldItems(w, e.what);
  }

  lemma {:induction false} FoldedCensus(w: Window, e: Entry, q: Query)
    requires e.what.CensusAccepted? && Windowed(q)
    ensures Read(Fold(w, Items(e.what)), q) == Read(w, q)
    ensures Holds(Fold(w, Items(e.what)), q) <==> Holds(w, q)
    ensures !Concerns(q, e.what)
  {
    FoldItems(w, e.what);
  }

  /** Folding an accepted event in moves each quantity by the event's share, up to the word's top. */
  lemma {:induction false} FoldedShows(w: Window, log: seq<Entry>, span: Span, e: Entry, q: Query)
    requires Covers(span, e.t) && Windowed(q) && Shows(w, log, span, q)
    ensures Shows(Fold(w, Items(e.what)), log + [e], span, q)
  {
    match e.what {
      case CallsAccepted(_, _, _, _) => FoldedCalls(w, e, q);
      case StackAccepted(_, _, _, _, _) => FoldedStack(w, e, q);
      case CensusAccepted(_, _) => FoldedCensus(w, e, q);
    }
    ExactPush(log, e, q, span);
  }

  lemma {:induction false} FoldedMatches(w: Window, log: seq<Entry>, span: Span, e: Entry)
    requires Covers(span, e.t) && Matches(w, log, span)
    ensures Matches(Fold(w, Items(e.what)), log + [e], span)
  {
    var w' := Fold(w, Items(e.what));
    forall q | Windowed(q)
      ensures Shows(w', log + [e], span, q)
    {
      FoldedShows(w, log, span, e, q);
    }
    forall ty
      ensures CensusIn(w', ty) == Latest(log + [e], ty, span)
    {
      FoldItems(w, e.what);
      LatestPush(log, e, ty, span);
      assert CensusIn(w, ty) == Latest(log, ty, span);
    }
  }

  lemma {:induction false} FoldSplit(w: Window, first: seq<Applied>, second: seq<Applied>)
    ensures Fold(w, first + second) == Fold(Fold(w, first), second)
  {
    if second == [] {
      assert first + second == first;
    } else {
      assert (first + second)[..|first + second| - 1] == first + second[..|second| - 1];
      FoldSplit(w, first, second[..|second| - 1]);
    }
  }

  /** Folding a frame's survivors into the window they fall in keeps it the fold of the log. */
  lemma {:induction false} FoldedAllMatches(w: Window, log: seq<Entry>, span: Span, accepted: seq<Accepted>, t: nat)
    requires Covers(span, t) && Matches(w, log, span)
    ensures Matches(Fold(w, AllItems(accepted)), log + Stamp(accepted, t), span)
    ensures Fold(w, AllItems(accepted)).index == w.index && Fold(w, AllItems(accepted)).resolution == w.resolution
  {
    if accepted == [] {
      assert log + Stamp(accepted, t) == log;
    } else {
      var front, a := accepted[..|accepted| - 1], accepted[|accepted| - 1];
      FoldedAllMatches(w, log, span, front, t);
      FoldSplit(w, AllItems(front), Items(a));
      FoldItems(Fold(w, AllItems(front)), a);
      FoldedMatches(Fold(w, AllItems(front)), log + Stamp(front, t), span, Entry(t, a));
      StampPush(accepted, t);
      assert log + Stamp(accepted, t) == (log + Stamp(front, t)) + [Entry(t, a)];
    }
  }

  /** Entries outside a window's span leave it matching. */
  lemma {:induction false} OutsideMatches(w: Window, log: seq<Entry>, more: seq<Entry>, span: Span)
    requires Matches(w, log, span) && forall k :: 0 <= k < |more| ==> !Covers(span, more[k].t)
    ensures Matches(w, log + more, span)
  {
    forall q | Windowed(q)
      ensures Shows(w, log + more, span, q)
    {
      assert Shows(w, log, span, q);
      ExactOutside(log, more, q, span);
    }
    forall ty
      ensures CensusIn(w, ty) == Latest(log + more, ty, span)
    {
      assert CensusIn(w, ty) == Latest(log, ty, span);
      LatestOutside(log, more, ty, span);
    }
  }

  lemma {:induction false} EmptyMatches(index: nat, resolution: nat, log: seq<Entry>, span: Span)
    requires forall k :: 0 <= k < |log| ==> !Covers(span, log[k].t)
    ensures Matches(EmptyWindow(index, resolution), log, span)
  {
    forall q | Windowed(q)
      ensures Shows(EmptyWindow(index, resolution), log, span, q)
    {
      EmptySpan(log, q, 0, span);
    }
    forall ty
      ensures Latest(log, ty, span) == None
    {
      EmptySpan(log, CallsOf(0), ty, span);
    }
  }

  /** A window that matches is empty exactly when no event fell in its span. */
  lemma {:induction false} MatchesEmpty(w: Window, log: seq<Entry>, span: Span)
    requires Matches(w, log, span)
    ensures IsEmpty(w) <==> forall k :: 0 <= k < |log| ==> !Covers(span, log[k].t)
  {
    if k :| 0 <= k < |log| && Covers(span, log[k].t) {
      match log[k].what
      case CallsAccepted(func, _, _, _) =>
        assert Concerns(CallsOf(func), log[k].what);
        assert Shows(w, log, span, CallsOf(func));
      case StackAccepted(path, _, _, _, _) =>
        assert Concerns(PathCalls(path), log[k].what);
        assert Shows(w, log, span, PathCalls(path));
      case CensusAccepted(ty, _) =>
        var j := LatestIsGreatest(log, ty, span);
        assert Reports(log[k], ty, span);
        assert CensusIn(w, ty) == Latest(log, ty, span);
    } else {
      NothingHeld(w, log, span);
    }
  }

  lemma {:induction false} NothingHeld(w: Window, log: seq<Entry>, span: Span)
    requires Matches(w, log, span) && forall k :: 0 <= k < |log| ==> !Covers(span, log[k].t)
    ensures IsEmpty(w)
  {
    forall f: nat
      ensures f !in w.calls
    {
      assert Shows(w, log, span, CallsOf(f));
      EmptySpan(log, CallsOf(f), 0, span);
    }
    forall p: nat
      ensures p !in w.stacks
    {
      assert Shows(w, log, span, PathCalls(p));
      EmptySpan(log, PathCalls(p), 0, span);
    }
    forall e: (nat, nat)
      ensures e !in w.edges
    {
      assert Shows(w, log, span, EdgeOf(e.0, e.1));
      EmptySpan(log, EdgeOf(e.0, e.1), 0, span);
    }
    forall ty: nat
      ensures ty !in w.census
    {
      assert CensusIn(w, ty) == Latest(log, ty, span);
      EmptySpan(log, CallsOf(0), ty, span);
    }
    assert w.calls.Keys == {} && w.stacks.Keys == {} && w.edges.Keys == {} && w.census.Keys == {};
  }
}
