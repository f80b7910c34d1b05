/** How far a pushed window is final: exactly when a later frame changes it, and two runs in which one does. */
module StreamLimits {
  import opened Basics
  import opened Words
  import opened Distribution
  import opened PathRegistry
  import opened Ledger
  import opened Windows
  import opened RingModel
  import opened StoreModel
  import opened StoreInvariant
  import opened UpdateStream

  // ---------------------------------------------------------------- what would change a window

  /** A counter that an event would leave as it is: nothing to add, or already at the word's top. */
  predicate Unmoved(counter: u64, share: nat) {
    share == 0 || counter == U64_MAX
  }

  /** The event names only what the window already holds, and moves none of its counters. */
  predicate AddsNothing(w: Window, a: Accepted) {
    match a
    case CallsAccepted(func, count, ns, _) =>
      func in w.calls && Unmoved(w.calls[func].calls, count) && Unmoved(w.calls[func].ns, ns)
    case StackAccepted(path, node, caller, count, selfNs) =>
      && path in w.stacks && Unmoved(w.stacks[path].calls, count) && Unmoved(w.stacks[path].selfNs, selfNs)
      && (caller.Some? ==> (caller.value, node.func) in w.edges && Unmoved(w.edges[(caller.value, node.func)], count))
    case CensusAccepted(_, _) => true
  }

  /** The reading settled on outside the window is older than the one it holds, or the same. */
  predicate Outdated(w: Window, ty: nat, reading: Option<Reading>) {
    reading.Some? ==> ty in w.census && (w.census[ty].at > reading.value.at || w.census[ty] == reading.value)
  }

  /** Later entries have nothing new for the window. */
  ghost predicate NothingNew(w: Window, more: seq<Entry>, span: Span) {
    && (forall k :: 0 <= k < |more| && Covers(span, more[k].t) ==> AddsNothing(w, more[k].what))
    && (forall ty :: Outdated(w, ty, Latest(more, ty, span)))
  }

  /** Some entry alone has at most the share all have together. */
  lemma {:induction false} ShareWithin(more: seq<Entry>, q: Query, span: Span, k: nat)
    requires k < |more| && Covers(span, more[k].t)
    ensures Share(q, more[k].what) <= Exact(more, q, span)
  {
    var n := |more| - 1;
    if k < n {
      assert more[..n][k] == more[k];
      ShareWithin(more[..n], q, span, k);
    }
  }

  /** What an unmoving entry means for one quantity. */
  predicate QuietFor(w: Window, a: Accepted, q: Query) {
    Concerns(q, a) ==> Holds(w, q) && Unmoved(Read(w, q), Share(q, a))
  }

  lemma {:induction false} AddsNothingForAll(w: Window, a: Accepted)
    ensures AddsNothing(w, a) <==> forall q :: Windowed(q) ==> QuietFor(w, a, q)
  {
    if forall q :: Windowed(q) ==> QuietFor(w, a, q) {
      match a
      case CallsAccepted(func, _, _, _) =>
        assert QuietFor(w, a, CallsOf(func)) && QuietFor(w, a, NsOf(func));
      case StackAccepted(path, node, caller, _, _) =>
        assert QuietFor(w, a, PathCalls(path)) && QuietFor(w, a, PathSelf(path));
        if caller.Some? { assert QuietFor(w, a, EdgeOf(caller.value, node.func)); }
      case CensusAccepted(_, _) =>
    }
  }

  /** Entries that each leave a quantity as it is leave it so together. */
  lemma {:induction false} QuietTogether(w: Window, more: seq<Entry>, q: Query, span: Span)
    requires forall k :: 0 <= k < |more| && Covers(span, more[k].t) ==> QuietFor(w, more[k].what, q)
    ensures Unmoved(Read(w, q), Exact(more, q, span)) && (Touched(more, q, span) ==> Holds(w, q))
  {
    if more != [] { QuietTogether(w, more[..|more| - 1], q, span); }
  }

  /** A quantity shows as before exactly when each later entry leaves it as it is. */
  lemma {:induction false} ShowsStill(w: Window, log: seq<Entry>, more: seq<Entry>, q: Query, span: Span)
    requires Shows(w, log, span, q)
    ensures Shows(w, log + more, span, q) <==>
            forall k :: 0 <= k < |more| && Covers(span, more[k].t) ==> QuietFor(w, more[k].what, q)
  {
    ExactConcat(log, more, q, span);
    if Shows(w, log + more, span, q) {
      forall k | 0 <= k < |more| && Covers(span, more[k].t)
        ensures QuietFor(w, more[k].what, q)
      {
        ShareWithin(more, q, span, k);
      }
    } else if forall k :: 0 <= k < |more| && Covers(span, more[k].t) ==> QuietFor(w, more[k].what, q) {
      QuietTogether(w, more, q, span);
    }
  }

  lemma {:induction false} CensusStill(w: Window, log: seq<Entry>, more: seq<Entry>, ty: nat, span: Span)
    requires CensusIn(w, ty) == Latest(log, ty, span)
    ensures CensusIn(w, ty) == Latest(log + more, ty, span) <==> Outdated(w, ty, Latest(more, ty, span))
  {
    LatestConcat(log, more, ty, span);
  }

  /** A window that matches a log goes on matching it exactly when what follows has nothing new for it. */
  lemma {:induction false} MatchesStill(w: Window, log: seq<Entry>, more: seq<Entry>, span: Span)
    requires Matches(w, log, span)
    ensures Matches(w, log + more, span) <==> NothingNew(w, more, span)
  {
    forall ty
      ensures CensusIn(w, ty) == Latest(log + more, ty, span) <==> Outdated(w, ty, Latest(more, ty, span))
    {
      CensusStill(w, log, more, ty, span);
    }
    forall q | Windowed(q)
      ensures Shows(w, log + more, span, q) <==>
              forall k :: 0 <= k < |more| && Covers(span, more[k].t) ==> QuietFor(w, more[k].what, q)
    {
      ShowsStill(w, log, more, q, span);
    }
    forall k | 0 <= k < |more|
      ensures AddsNothing(w, more[k].what) <==> forall q :: Windowed(q) ==> QuietFor(w, more[k].what, q)
    {
      AddsNothingForAll(w, more[k].what);
    }
  }

  // ---------------------------------------------------------------- frames after a push

  /** What frame `i` of a run is believed about. */
  ghost function BelievedOf(s: Store, frames: seq<Frame>, i: nat): seq<Entry>
    requires i < |frames| && forall k :: 0 <= k < |frames| ==> FrameOk(frames[k])
  {
    Stamp(SurvivorsOf(ApplyAll(s, frames[..i]), frames[i]), frames[i].t)
  }

  function Joined(parts: seq<seq<Entry>>): seq<Entry> {
    if parts == [] then [] else Joined(parts[..|parts| - 1]) + parts[|parts| - 1]
  }

  /** What a run of frames is believed about, in order. */
  ghost function Believed(s: Store, frames: seq<Frame>): seq<Entry>
    requires forall k :: 0 <= k < |frames| ==> FrameOk(frames[k])
  {
    Joined(seq(|frames|, i requires 0 <= i < |frames| => BelievedOf(s, frames, i)))
  }

  lemma {:induction false} FrameBelieves(s: Store, frames: seq<Frame>, i: nat)
    requires StoreTrue(s) && i < |frames| && forall k :: 0 <= k < |frames| ==> FrameOk(frames[k])
    ensures ApplyAll(s, frames[..i + 1]).log == ApplyAll(s, frames[..i]).log + BelievedOf(s, frames, i)
    ensures ApplyAll(s, frames[..i]).pushed <= ApplyAll(s, frames[..i + 1]).pushed
  {
    assert frames[..i + 1][..i] == frames[..i];
    RunKeepsTrue(s, frames[..i]);
    FrameMoves(ApplyAll(s, frames[..i]), frames[i]);
  }

  /** States that each add a part to the log and to what was pushed add all of it in the end. */
  lemma {:induction false} StatesAddUp(states: seq<Store>, parts: seq<seq<Entry>>)
    requires |states| == |parts| + 1
    requires forall i :: 0 <= i < |parts| ==> states[i + 1].log == states[i].log + parts[i]
    requires forall i :: 0 <= i < |parts| ==> states[i].pushed <= states[i + 1].pushed
    ensures states[|parts|].log == states[0].log + Joined(parts) && states[0].pushed <= states[|parts|].pushed
  {
    if parts != [] {
      var n := |parts| - 1;
      StatesAddUp(states[..n + 1], parts[..n]);
      assert states[..n + 1][n] == states[n];
      assert (states[0].log + Joined(parts[..n])) + parts[n] == states[0].log + (Joined(parts[..n]) + parts[n]);
    }
  }

  lemma {:induction false} RunBelieves(s: Store, frames: seq<Frame>)
    requires StoreTrue(s) && forall k :: 0 <= k < |frames| ==> FrameOk(frames[k])
    ensures ApplyAll(s, frames).log == s.log + Believed(s, frames) && s.pushed <= ApplyAll(s, frames).pushed
  {
    var states := seq(|frames| + 1, i requires 0 <= i <= |frames| => ApplyAll(s, frames[..i]));
    var parts := seq(|frames|, i requires 0 <= i < |frames| => BelievedOf(s, frames, i));
    forall i | 0 <= i < |frames|
      ensures states[i + 1].log == states[i].log + parts[i] && states[i].pushed <= states[i + 1].pushed
    {
      FrameBelieves(s, frames, i);
    }
    StatesAddUp(states, parts);
    assert frames[..|frames|] == frames;
  }

  /** A window is right at the moment a frame pushes it. */
  lemma {:induction false} PushedIsRight(s: Store, f: Frame)
    requires FrameOk(f) && StreamTrue(s) && ClosedBy(s, f.t).Some?
    ensures var w, after := ClosedBy(s, f.t).value, ApplyFrame(s, f);
            after.pushed == s.pushed + [w] && Matches(w, after.log, Slot(FINE_RESOLUTION_NS, w.index))
  {
    FrameMoves(s, f);
    OpenWindow(s, s.openIndex.value);
    OutsideMatches(ClosedBy(s, f.t).value, s.log, Stamp(SurvivorsOf(s, f), f.t), Slot(FINE_RESOLUTION_NS, s.openIndex.value));
  }

  /**
    How long a push stays final. A window that was right when it was pushed is
    still right after any run of frames, in any order of times, exactly when
    every event the run was believed about in that window's time names only what
    the window holds and moves none of its counters, and no type settles on a
    reading newer than the one it holds.
   */
  lemma {:induction false} PushedStaysRight(s: Store, frames: seq<Frame>, k: nat)
    requires StoreTrue(s) && forall k :: 0 <= k < |frames| ==> FrameOk(frames[k])
    requires k < |s.pushed| && Matches(s.pushed[k], s.log, Slot(FINE_RESOLUTION_NS, s.pushed[k].index))
    ensures var w, after := s.pushed[k], ApplyAll(s, frames);
            && k < |after.pushed| && after.pushed[k] == w
            && (Matches(w, after.log, Slot(FINE_RESOLUTION_NS, w.index)) <==>
                NothingNew(w, Believed(s, frames), Slot(FINE_RESOLUTION_NS, w.index)))
  {
    RunBelieves(s, frames);
    MatchesStill(s.pushed[k], s.log, Believed(s, frames), Slot(FINE_RESOLUTION_NS, s.pushed[k].index));
  }

  lemma {:induction false} LatestOfFrame(more: seq<Entry>, t: nat, ty: nat, span: Span)
    requires Covers(span, t) && forall k :: 0 <= k < |more| ==> more[k].t == t
    ensures Latest(more, ty, span) == Latest(more, ty, Always)
  {
    if more != [] { LatestOfFrame(more[..|more| - 1], t, ty, span); }
  }

  /** What a frame's survivors would have to be for the window they fall in not to change. */
  ghost predicate FrameAddsNothing(w: Window, accepted: seq<Accepted>, t: nat) {
    && (forall k :: 0 <= k < |accepted| ==> AddsNothing(w, accepted[k]))
    && (forall ty :: Outdated(w, ty, Latest(Stamp(accepted, t), ty, Always)))
  }

  lemma {:induction false} FrameInWindow(w: Window, accepted: seq<Accepted>, t: nat, span: Span)
    requires Covers(span, t)
    ensures NothingNew(w, Stamp(accepted, t), span) <==> FrameAddsNothing(w, accepted, t)
  {
    var more := Stamp(accepted, t);
    assert forall k :: 0 <= k < |accepted| ==> more[k] == Entry(t, accepted[k]);
    forall ty
      ensures Latest(more, ty, span) == Latest(more, ty, Always)
    {
      LatestOfFrame(more, t, ty, span);
    }
    if NothingNew(w, more, span) {
      forall k | 0 <= k < |accepted|
        ensures AddsNothing(w, accepted[k])
      {
        assert Covers(span, more[k].t);
      }
    }
  }

  /** One frame: it falls in another window, or has nothing new for this one. */
  lemma {:induction false} PushedSurvivesFrame(s: Store, f: Frame, k: nat)
    requires FrameOk(f) && StoreTrue(s)
    requires k < |s.pushed| && Matches(s.pushed[k], s.log, Slot(FINE_RESOLUTION_NS, s.pushed[k].index))
    ensures var w := s.pushed[k];
            Matches(w, ApplyFrame(s, f).log, Slot(FINE_RESOLUTION_NS, w.index)) <==>
            FineIndex(f.t) != w.index || FrameAddsNothing(w, SurvivorsOf(s, f), f.t)
  {
    var w, more := s.pushed[k], Stamp(SurvivorsOf(s, f), f.t);
    var span := Slot(FINE_RESOLUTION_NS, w.index);
    FrameMoves(s, f);
    if FineIndex(f.t) != w.index {
      OutsideMatches(w, s.log, more, span);
    } else {
      MatchesStill(w, s.log, more, span);
      FrameInWindow(w, SurvivorsOf(s, f), f.t, span);
    }
  }

  // ---------------------------------------------------------------- two runs

  const OPENING: Frame := Frame(0, [RegisterFunction(1, "f")], [Calls(1, 1, Raw([]))])
  const NEXT_WINDOW: Frame := Frame(100_000_000, [], [])
  const STRAGGLER: Frame := Frame(0, [], [Calls(1, 1, Raw([]))])

  const ONE_CALL: Accepted := CallsAccepted(1, 1, 0, [])

  lemma {:induction false} NoBins()
    ensures Histogram([], 0) == []
  {
    var h := Histogram([], 0);
    HistogramSame([]);
    if h != [] {
      AtPresent(h, h[0].index);
      assert At([], h[0].index).Absent?;
    }
  }

  lemma {:induction false} OneCall(s: Store, f: Frame)
    requires f.events == [Calls(1, 1, Raw([]))] && 1 in AdmitAll(s, f.registers).functions
    ensures FrameOk(f) && SurvivorsOf(s, f) == [ONE_CALL]
  {
    var named := AdmitAll(s, f.registers);
    assert Bins(Raw([])) == [];
    assert forall index: nat :: At([], index).Samples() == 0;
    assert EventOk(f.events[0]);
    NoBins();
    assert Accept(named, f.events[0], f.t) == Some(ONE_CALL);
    assert f.events[..0] == [];
    assert Survivors(named, f.events[..0], f.t) == [];
  }

  lemma {:induction false} OpeningRun() returns (s: Store)
    ensures FrameOk(OPENING) && s == ApplyFrame(FRESH, OPENING) && StreamTrue(s)
    ensures s.log == [Entry(0, ONE_CALL)] && s.pushed == [] && s.openIndex == Some(0)
  {
    s := FRESH;
    assert OPENING.registers[..0] == [];
    OneCall(FRESH, OPENING);
    FreshIsTrue();
    FrameMoves(FRESH, OPENING);
    FrameKeepsStream(FRESH, OPENING);
    s := ApplyFrame(FRESH, OPENING);
  }

  lemma {:induction false} WindowCloses(first: Store) returns (sent: Store, w: Window)
    requires StreamTrue(first) && first.log == [Entry(0, ONE_CALL)] && first.pushed == [] && first.openIndex == Some(0)
    ensures FrameOk(NEXT_WINDOW) && sent == ApplyFrame(first, NEXT_WINDOW) && StoreTrue(sent)
    ensures sent.log == [Entry(0, ONE_CALL)] && sent.pushed == [w] && w.index == 0
    ensures Matches(w, first.log, Slot(FINE_RESOLUTION_NS, 0))
  {
    OpenWindow(first, 0);
    assert FineIndex(first.log[0].t) == 0;
    w := Get(first.fine, 0).value;
    FrameMoves(first, NEXT_WINDOW);
    FrameKeepsStream(first, NEXT_WINDOW);
    sent := ApplyFrame(first, NEXT_WINDOW);
    assert SurvivorsOf(first, NEXT_WINDOW) == [];
    assert Stamp([], 100_000_000) == [];
  }

  /** One more call at time 0, whatever was pushed meanwhile. */
  lemma {:induction false} StragglerLands(s: Store) returns (later: Store)
    requires StoreTrue(s) && s.log == [Entry(0, ONE_CALL)]
    ensures FrameOk(STRAGGLER) && later == ApplyFrame(s, STRAGGLER) && StoreTrue(later)
    ensures later.log == [Entry(0, ONE_CALL)] + [Entry(0, ONE_CALL)]
    ensures later.openIndex == OpenAfter(s.openIndex, 0)
    ensures later.pushed == s.pushed
  {
    assert Grounded(s.log[0], s);
    OneCall(s, STRAGGLER);
    FrameMoves(s, STRAGGLER);
    FrameKeepsTrue(s, STRAGGLER);
    later := ApplyFrame(s, STRAGGLER);
    assert Stamp([ONE_CALL], 0) == [Entry(0, ONE_CALL)];
  }

  /** Times that go back: a window is pushed with one call, and then the ring counts two in it. */
  lemma {:induction false} APushedWindowCanChange() returns (sent: Store, later: Store, w: Window, held: Window)
    ensures FrameOk(OPENING) && FrameOk(NEXT_WINDOW) && FrameOk(STRAGGLER)
    ensures sent == ApplyFrame(ApplyFrame(FRESH, OPENING), NEXT_WINDOW) && later == ApplyFrame(sent, STRAGGLER)
    ensures sent.pushed == [w] && later.pushed == [w] && Get(later.fine, w.index) == Some(held)
    ensures Read(w, CallsOf(1)) == 1 && Read(held, CallsOf(1)) == 2
  {
    var first := OpeningRun();
    sent, w := WindowCloses(first);
    later := StragglerLands(sent);
    held := StragglerHeld(later);
    OneThenTwo(w, held);
  }

  lemma {:induction false} StragglerHeld(later: Store) returns (held: Window)
    requires StoreTrue(later) && later.log == [Entry(0, ONE_CALL)] + [Entry(0, ONE_CALL)]
    ensures Get(later.fine, 0) == Some(held)
    ensures Matches(held, [Entry(0, ONE_CALL)] + [Entry(0, ONE_CALL)], Slot(FINE_RESOLUTION_NS, 0))
  {
    held := FirstHeld(later);
  }

  lemma {:induction false} OneThenTwo(one: Window, two: Window)
    requires Matches(one, [Entry(0, ONE_CALL)], Slot(FINE_RESOLUTION_NS, 0))
    requires Matches(two, [Entry(0, ONE_CALL)] + [Entry(0, ONE_CALL)], Slot(FINE_RESOLUTION_NS, 0))
    ensures Read(one, CallsOf(1)) == 1 && Read(two, CallsOf(1)) == 2
  {
    var span := Slot(FINE_RESOLUTION_NS, 0);
    ExactPush([], Entry(0, ONE_CALL), CallsOf(1), span);
    assert [] + [Entry(0, ONE_CALL)] == [Entry(0, ONE_CALL)];
    ExactPush([Entry(0, ONE_CALL)], Entry(0, ONE_CALL), CallsOf(1), span);
    assert Shows(one, [Entry(0, ONE_CALL)], span, CallsOf(1));
    assert Shows(two, [Entry(0, ONE_CALL)] + [Entry(0, ONE_CALL)], span, CallsOf(1));
  }

  /** A ring whose every event is at time 0 holds just window 0. */
  lemma {:induction false} FirstHeld(s: Store) returns (held: Window)
    requires RingTrue(s.fine, s.log, FINE_RESOLUTION_NS, FINE_CAPACITY) && s.log != []
    requires forall k :: 0 <= k < |s.log| ==> s.log[k].t == 0
    ensures Get(s.fine, 0) == Some(held) && held.index == 0 && Matches(held, s.log, Slot(FINE_RESOLUTION_NS, 0))
  {
    assert FineIndex(s.log[0].t) == 0;
    OpenWindow(s, 0);
    held := Get(s.fine, 0).value;
  }

  lemma {:induction false} FirstDisconnect(first: Store) returns (once: Store)
    requires StreamTrue(first) && first.log == [Entry(0, ONE_CALL)] && first.pushed == [] && first.openIndex == Some(0)
    ensures once == Flush(first) && StoreTrue(once) && once.log == first.log && once.openIndex == None
    ensures |once.pushed| == 1 && once.pushed[0].index == 0
  {
    var w := FirstHeld(first);
    FlushPushes(first);
    FlushKeepsTrue(first);
    once := Flush(first);
  }

  lemma {:induction false} SecondDisconnect(second: Store)
    requires StoreTrue(second) && second.log == [Entry(0, ONE_CALL)] + [Entry(0, ONE_CALL)] && second.openIndex == Some(0)
    ensures |Flush(second).pushed| == |second.pushed| + 1 && second.pushed <= Flush(second).pushed
    ensures Flush(second).pushed[|second.pushed|].index == 0
  {
    var held := FirstHeld(second);
    MatchesEmpty(held, second.log, Slot(FINE_RESOLUTION_NS, 0));
    assert Covers(Slot(FINE_RESOLUTION_NS, 0), second.log[0].t);
  }

  /** A second connection: the disconnects push the same window twice. */
  lemma {:induction false} ASecondConnectionRepeatsAWindow() returns (once: Store, twice: Store)
    ensures FrameOk(OPENING) && FrameOk(STRAGGLER)
    ensures once == Flush(ApplyFrame(FRESH, OPENING)) && twice == Flush(ApplyFrame(once, STRAGGLER))
    ensures |once.pushed| == 1 && |twice.pushed| == 2 && twice.pushed[0] == once.pushed[0]
    ensures twice.pushed[0].index == twice.pushed[1].index
  {
    var first := OpeningRun();
    once := FirstDisconnect(first);
    var second := StragglerLands(once);
    SecondDisconnect(second);
    twice := Flush(second);
  }
}
