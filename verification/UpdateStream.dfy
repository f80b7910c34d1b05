/** What subscribers are sent: each fine window once, when a later frame or the last disconnect closes it. */
module UpdateStream {
  import opened Basics
  import opened Words
  import opened Distribution
  import opened PathRegistry
  import opened Ledger
  import opened Windows
  import opened RingModel
  import opened StoreModel
  import opened StoreInvariant

  predicate Ascending(ws: seq<Window>) {
    forall i, j :: 0 <= i < j < |ws| ==> ws[i].index < ws[j].index
  }

  predicate AllNonempty(ws: seq<Window>) {
    forall k :: 0 <= k < |ws| ==> !IsEmpty(ws[k])
  }

  /** In any order of frame times: the open index bounds what was seen, and what was pushed lies below it. */
  ghost predicate Bounded(s: Store) {
    match s.openIndex
    case None => s.log == [] && s.pushed == []
    case Some(o) =>
      && (forall k :: 0 <= k < |s.log| ==> FineIndex(s.log[k].t) <= o)
      && (forall k :: 0 <= k < |s.pushed| ==> s.pushed[k].index < o)
  }

  ghost predicate StreamTrue(s: Store) {
    StoreTrue(s) && Bounded(s) && Ascending(s.pushed) && AllNonempty(s.pushed)
  }

  /** The ring holds the open window exactly when some event fell in it, and then it is its newest. */
  lemma {:induction false} OpenWindow(s: Store, o: nat)
    requires RingTrue(s.fine, s.log, FINE_RESOLUTION_NS, FINE_CAPACITY)
    requires forall k :: 0 <= k < |s.log| ==> FineIndex(s.log[k].t) <= o
    ensures Get(s.fine, o).Some? <==> exists k :: 0 <= k < |s.log| && FineIndex(s.log[k].t) == o
    ensures Get(s.fine, o).Some? ==>
              var w := Get(s.fine, o).value;
              w.index == o && !IsEmpty(w) && Matches(w, s.log, Slot(FINE_RESOLUTION_NS, o))
  {
    var ws := s.fine;
    if ws != [] {
      assert ws[|ws| - 1].index == ws[0].index + (|ws| - 1);
      var n :| 0 <= n < |s.log| && s.log[n].t / FINE_RESOLUTION_NS == Newest(ws);
      assert FineIndex(s.log[n].t) <= o;
      if Get(ws, o).Some? {
        var w := ws[o - ws[0].index];
        assert w.index == ws[0].index + (o - ws[0].index);
        assert Matches(w, s.log, Slot(FINE_RESOLUTION_NS, o));
        MatchesEmpty(w, s.log, Slot(FINE_RESOLUTION_NS, o));
        assert Covers(Slot(FINE_RESOLUTION_NS, o), s.log[n].t);
      }
    }
  }

  lemma {:induction false} RegisteredFrame(s: Store, f: Frame)
    ensures var n := Registered(s, f);
            && n.log == s.log && n.fine == s.fine && n.pushed == s.pushed && n.openIndex == s.openIndex
            && n.counts.lateFrames == s.counts.lateFrames
  {
    AdmitAllFrame(OneFrame(s), f.registers);
  }

  lemma {:induction false} LandedFrame(s: Store, f: Frame)
    requires FrameOk(f) && StoreTrue(s)
    ensures var accepted, s' := Survivors(s, f.events, f.t), Landed(s, f);
            && s'.openIndex == s.openIndex && s'.pushed == s.pushed
            && s'.counts.lateFrames == s.counts.lateFrames + if accepted != [] && Late(s.fine, FineIndex(f.t)) then 1 else 0
  {
    PostAllKeepsTrue(s, f.events, f.t);
  }

  /** What a frame does to the stream's bookkeeping. */
  ghost predicate StreamMoves(s: Store, s': Store, t: nat, accepted: seq<Accepted>) {
    && s'.openIndex == OpenAfter(s.openIndex, t)
    && s'.pushed == s.pushed + (if ClosedBy(s, t).Some? then [ClosedBy(s, t).value] else [])
    && s'.log == s.log + Stamp(accepted, t)
    && s'.counts.lateFrames == s.counts.lateFrames + if accepted != [] && Late(s.fine, FineIndex(t)) then 1 else 0
  }

  lemma {:induction false} LandedMoves(s: Store, f: Frame)
    requires FrameOk(f) && StoreTrue(s)
    ensures var moved, landed := Moved(Registered(s, f), f.t), Landed(Moved(Registered(s, f), f.t), f);
            && landed.openIndex == moved.openIndex && landed.pushed == moved.pushed
            && landed.log == s.log + Stamp(SurvivorsOf(s, f), f.t)
            && landed.counts.lateFrames == moved.counts.lateFrames +
                 if SurvivorsOf(s, f) != [] && Late(moved.fine, FineIndex(f.t)) then 1 else 0
  {
    var named := Registered(s, f);
    RegisteredKeepsTrue(s, f);
    MovedKeepsTrue(named, f.t);
    LandedFrame(Moved(named, f.t), f);
    LandedKeepsTrue(Moved(named, f.t), f);
    SurvivorsNamed(s, f);
  }

  lemma {:induction false} MovesThrough(s: Store, named: Store, landed: Store, t: nat, accepted: seq<Accepted>)
    requires named.fine == s.fine && named.pushed == s.pushed && named.openIndex == s.openIndex
    requires named.counts.lateFrames == s.counts.lateFrames
    requires landed.openIndex == OpenAfter(named.openIndex, t) && landed.pushed == named.pushed
    requires landed.log == s.log + Stamp(accepted, t)
    requires landed.counts.lateFrames == named.counts.lateFrames +
               if accepted != [] && Late(named.fine, FineIndex(t)) then 1 else 0
    ensures StreamMoves(s, Push(landed, ClosedBy(named, t)), t, accepted)
  {
  }

  lemma {:induction false} FrameMoves(s: Store, f: Frame)
    requires FrameOk(f) && StoreTrue(s)
    ensures StreamMoves(s, ApplyFrame(s, f), f.t, SurvivorsOf(s, f))
  {
    var named := Registered(s, f);
    RegisteredFrame(s, f);
    LandedMoves(s, f);
    MovesThrough(s, named, Landed(Moved(named, f.t), f), f.t, SurvivorsOf(s, f));
  }

  lemma {:induction false} BoundedMoves(s: Store, s': Store, t: nat, accepted: seq<Accepted>)
    requires StreamTrue(s) && StreamMoves(s, s', t, accepted)
    ensures Bounded(s') && Ascending(s'.pushed) && AllNonempty(s'.pushed)
  {
    if s.openIndex.Some? { OpenWindow(s, s.openIndex.value); }
    assert forall k :: |s.log| <= k < |s'.log| ==> s'.log[k].t == t;
  }

  lemma {:induction false} FrameKeepsStream(s: Store, f: Frame)
    requires FrameOk(f) && StreamTrue(s)
    ensures StreamTrue(ApplyFrame(s, f))
  {
    FrameKeepsTrue(s, f);
    FrameMoves(s, f);
    BoundedMoves(s, ApplyFrame(s, f), f.t, SurvivorsOf(s, f));
  }

  lemma {:induction false} RunKeepsStream(frames: seq<Frame>)
    requires forall k :: 0 <= k < |frames| ==> FrameOk(frames[k])
    ensures StreamTrue(ApplyAll(FRESH, frames))
  {
    if frames == [] {
      FreshIsTrue();
    } else {
      RunKeepsStream(frames[..|frames| - 1]);
      FrameKeepsStream(ApplyAll(FRESH, frames[..|frames| - 1]), frames[|frames| - 1]);
    }
  }

  // ---------------------------------------------------------------- frames in order

  /** Frame times never go back. */
  predicate InOrder(frames: seq<Frame>) {
    forall i, j :: 0 <= i < j < |frames| ==> frames[i].t <= frames[j].t
  }

  predicate PushedAt(ws: seq<Window>, index: nat) {
    exists j :: 0 <= j < |ws| && ws[j].index == index
  }

  /** When times do not go back: pushed windows are final, and every event's window is pushed or open. */
  ghost predicate Settled(s: Store, last: nat) {
    && s.counts.lateFrames == 0
    && (s.openIndex.Some? ==> s.openIndex.value == FineIndex(last))
    && (forall k :: 0 <= k < |s.pushed| ==> Matches(s.pushed[k], s.log, Slot(FINE_RESOLUTION_NS, s.pushed[k].index)))
    && (forall k :: 0 <= k < |s.log| ==>
          PushedAt(s.pushed, FineIndex(s.log[k].t)) || s.openIndex == Some(FineIndex(s.log[k].t)))
  }

  lemma {:induction false} IndexMonotone(a: nat, b: nat)
    requires a <= b
    ensures FineIndex(a) <= FineIndex(b)
  {
  }

  lemma {:induction false} FrameSettles(s: Store, f: Frame, last: nat)
    requires FrameOk(f) && StreamTrue(s) && Settled(s, last) && last <= f.t
    ensures Settled(ApplyFrame(s, f), f.t)
  {
    FrameMoves(s, f);
    SettledMoves(s, ApplyFrame(s, f), f.t, SurvivorsOf(s, f), last);
  }

  lemma {:induction false} SettledMoves(s: Store, s': Store, t: nat, accepted: seq<Accepted>, last: nat)
    requires StreamTrue(s) && Settled(s, last) && last <= t && StreamMoves(s, s', t, accepted)
    ensures Settled(s', t)
  {
    IndexMonotone(last, t);
    NoFrameIsLate(s, t);
    PushedStayFinal(s, s', t, accepted);
    EntriesStayPlaced(s, s', t, accepted);
  }

  lemma {:induction false} PushedStayFinal(s: Store, s': Store, t: nat, accepted: seq<Accepted>)
    requires StreamTrue(s) && StreamMoves(s, s', t, accepted)
    requires s.openIndex.Some? ==> s.openIndex.value <= FineIndex(t)
    requires forall k :: 0 <= k < |s.pushed| ==> Matches(s.pushed[k], s.log, Slot(FINE_RESOLUTION_NS, s.pushed[k].index))
    ensures forall k :: 0 <= k < |s'.pushed| ==> Matches(s'.pushed[k], s'.log, Slot(FINE_RESOLUTION_NS, s'.pushed[k].index))
  {
    if ClosedBy(s, t).Some? { OpenWindow(s, s.openIndex.value); }
    forall k | 0 <= k < |s'.pushed|
      ensures Matches(s'.pushed[k], s'.log, Slot(FINE_RESOLUTION_NS, s'.pushed[k].index))
    {
      if k < |s.pushed| { assert s'.pushed[k] == s.pushed[k]; }
      OutsideMatches(s'.pushed[k], s.log, Stamp(accepted, t), Slot(FINE_RESOLUTION_NS, s'.pushed[k].index));
    }
  }

  lemma {:induction false} EntriesStayPlaced(s: Store, s': Store, t: nat, accepted: seq<Accepted>)
    requires StreamTrue(s) && StreamMoves(s, s', t, accepted)
    requires s.openIndex.Some? ==> s.openIndex.value <= FineIndex(t)
    requires forall k :: 0 <= k < |s.log| ==>
      PushedAt(s.pushed, FineIndex(s.log[k].t)) || s.openIndex == Some(FineIndex(s.log[k].t))
    ensures forall k :: 0 <= k < |s'.log| ==>
      PushedAt(s'.pushed, FineIndex(s'.log[k].t)) || s'.openIndex == Some(FineIndex(s'.log[k].t))
  {
    forall k | 0 <= k < |s'.log|
      ensures PushedAt(s'.pushed, FineIndex(s'.log[k].t)) || s'.openIndex == Some(FineIndex(s'.log[k].t))
    {
      if k < |s.log| {
        assert s'.log[k] == s.log[k];
        OpenClosesOrStays(s, s', t, accepted, k);
        EntryStaysPlaced(s, s', k);
      } else {
        assert s'.log[k].t == t;
      }
    }
  }

  lemma {:induction false} OpenClosesOrStays(s: Store, s': Store, t: nat, accepted: seq<Accepted>, k: nat)
    requires StreamTrue(s) && StreamMoves(s, s', t, accepted) && k < |s.log|
    ensures s.openIndex == Some(FineIndex(s.log[k].t)) ==>
              s'.openIndex == s.openIndex || PushedAt(s'.pushed, FineIndex(s.log[k].t))
  {
    if s.openIndex == Some(FineIndex(s.log[k].t)) && FineIndex(t) > s.openIndex.value {
      OpenWindow(s, s.openIndex.value);
      assert s'.pushed[|s.pushed|].index == s.openIndex.value;
    }
  }

  lemma {:induction false} EntryStaysPlaced(s: Store, s': Store, k: nat)
    requires k < |s.log| && s.pushed <= s'.pushed
    requires PushedAt(s.pushed, FineIndex(s.log[k].t)) || s.openIndex == Some(FineIndex(s.log[k].t))
    requires s.openIndex == Some(FineIndex(s.log[k].t)) ==>
      s'.openIndex == s.openIndex || PushedAt(s'.pushed, FineIndex(s.log[k].t))
    ensures PushedAt(s'.pushed, FineIndex(s.log[k].t)) || s'.openIndex == Some(FineIndex(s.log[k].t))
  {
    if PushedAt(s.pushed, FineIndex(s.log[k].t)) {
      var j :| 0 <= j < |s.pushed| && s.pushed[j].index == FineIndex(s.log[k].t);
      assert s'.pushed[j] == s.pushed[j];
    }
  }

  lemma {:induction false} NoFrameIsLate(s: Store, t: nat)
    requires StreamTrue(s) && (s.openIndex.Some? ==> s.openIndex.value <= FineIndex(t))
    ensures !Late(s.fine, FineIndex(t))
  {
    if s.fine != [] {
      assert s.fine[|s.fine| - 1].index == s.fine[0].index + (|s.fine| - 1);
      var n :| 0 <= n < |s.log| && s.log[n].t / FINE_RESOLUTION_NS == Newest(s.fine);
      assert FineIndex(s.log[n].t) <= s.openIndex.value;
    }
  }

  lemma {:induction false} RunSettles(frames: seq<Frame>)
    requires InOrder(frames) && forall k :: 0 <= k < |frames| ==> FrameOk(frames[k])
    ensures Settled(ApplyAll(FRESH, frames), if frames == [] then 0 else frames[|frames| - 1].t)
  {
    if frames != [] {
      var front, f := frames[..|frames| - 1], frames[|frames| - 1];
      RunSettles(front);
      RunKeepsStream(front);
      FrameSettles(ApplyAll(FRESH, front), f, if front == [] then 0 else front[|front| - 1].t);
    }
  }

  // ---------------------------------------------------------------- the partition

  /** The sum of what the pushed windows show of a quantity. */
  function PushedTotal(ws: seq<Window>, q: Query): nat {
    if ws == [] then 0 else PushedTotal(ws[..|ws| - 1], q) + Read(ws[|ws| - 1], q)
  }

  function PushedExact(log: seq<Entry>, ws: seq<Window>, q: Query): nat {
    if ws == [] then 0
    else PushedExact(log, ws[..|ws| - 1], q) + Exact(log, q, Slot(FINE_RESOLUTION_NS, ws[|ws| - 1].index))
  }

  lemma {:induction false} PushedExactPush(log: seq<Entry>, e: Entry, ws: seq<Window>, q: Query)
    requires Ascending(ws)
    ensures PushedExact(log + [e], ws, q)
         == PushedExact(log, ws, q) + if PushedAt(ws, FineIndex(e.t)) then Share(q, e.what) else 0
  {
    if ws != [] {
      var front, w := ws[..|ws| - 1], ws[|ws| - 1];
      PushedExactPush(log, e, front, q);
      ExactPush(log, e, q, Slot(FINE_RESOLUTION_NS, w.index));
      PushedAtSplit(ws, FineIndex(e.t));
    }
  }

  lemma {:induction false} PushedAtSplit(ws: seq<Window>, index: nat)
    requires ws != [] && Ascending(ws)
    ensures PushedAt(ws, index) <==> PushedAt(ws[..|ws| - 1], index) || ws[|ws| - 1].index == index
    ensures ws[|ws| - 1].index == index ==> !PushedAt(ws[..|ws| - 1], index)
  {
    var front := ws[..|ws| - 1];
    assert forall j :: 0 <= j < |front| ==> front[j] == ws[j];
  }

  lemma {:induction false} PushedExactOfNothing(ws: seq<Window>, q: Query)
    ensures PushedExact([], ws, q) == 0
  {
    if ws != [] { PushedExactOfNothing(ws[..|ws| - 1], q); }
  }

  /** Windows at distinct indices that between them cover every entry share out the exact total. */
  lemma {:induction false} WindowsShareTheTotal(log: seq<Entry>, ws: seq<Window>, q: Query)
    requires Ascending(ws) && forall k :: 0 <= k < |log| ==> PushedAt(ws, FineIndex(log[k].t))
    ensures PushedExact(log, ws, q) == Exact(log, q, Always)
  {
    if log == [] {
      PushedExactOfNothing(ws, q);
    } else {
      var front, e := log[..|log| - 1], log[|log| - 1];
      WindowsShareTheTotal(front, ws, q);
      PushedExactPush(front, e, ws, q);
      assert log == front + [e];
    }
  }

  lemma {:induction false} PushedTotalIsExact(log: seq<Entry>, ws: seq<Window>, q: Query)
    requires Windowed(q)
    requires forall k :: 0 <= k < |ws| ==> Matches(ws[k], log, Slot(FINE_RESOLUTION_NS, ws[k].index))
    ensures Clip(PushedTotal(ws, q)) == Clip(PushedExact(log, ws, q))
  {
    if ws != [] {
      var front, w := ws[..|ws| - 1], ws[|ws| - 1];
      PushedTotalIsExact(log, front, q);
      assert Matches(w, log, Slot(FINE_RESOLUTION_NS, w.index));
      assert Shows(w, log, Slot(FINE_RESOLUTION_NS, w.index), q);
    }
  }

  /** What the last disconnect sends: the open window if the ring holds it, nothing otherwise. */
  lemma {:induction false} FlushPushes(s: Store)
    requires StreamTrue(s)
    ensures var sealed := if s.openIndex.Some? then Get(s.fine, s.openIndex.value) else None;
            && Flush(s) == Push(s.(openIndex := None), sealed)
            && (sealed.Some? ==>
                  && sealed.value.index == s.openIndex.value && !IsEmpty(sealed.value)
                  && Matches(sealed.value, s.log, Slot(FINE_RESOLUTION_NS, s.openIndex.value)))
            && (s.openIndex.Some? && sealed.None? ==>
                  forall k :: 0 <= k < |s.log| ==> FineIndex(s.log[k].t) != s.openIndex.value)
  {
    if s.openIndex.Some? { OpenWindow(s, s.openIndex.value); }
  }

  lemma {:induction false} FlushedStream(s: Store)
    requires StreamTrue(s)
    ensures var e := Flush(s);
            StoreTrue(e) && Ascending(e.pushed) && AllNonempty(e.pushed) && e.log == s.log && e.counts == s.counts
  {
    FlushKeepsTrue(s);
    FlushPushes(s);
  }

  lemma {:induction false} FlushKeepsTrue(s: Store)
    requires StoreTrue(s)
    ensures StoreTrue(Flush(s))
  {
    RingsAside(s, Flush(s));
  }

  lemma {:induction false} FlushedAreFinal(s: Store, last: nat)
    requires StreamTrue(s) && Settled(s, last)
    ensures forall k :: 0 <= k < |Flush(s).pushed| ==>
              Matches(Flush(s).pushed[k], s.log, Slot(FINE_RESOLUTION_NS, Flush(s).pushed[k].index))
  {
    FlushPushes(s);
  }

  lemma {:induction false} FlushSettles(s: Store, last: nat)
    requires StreamTrue(s) && Settled(s, last)
    ensures var e := Flush(s);
            && (forall k :: 0 <= k < |e.pushed| ==> Matches(e.pushed[k], e.log, Slot(FINE_RESOLUTION_NS, e.pushed[k].index)))
            && (forall k :: 0 <= k < |e.log| ==> PushedAt(e.pushed, FineIndex(e.log[k].t)))
  {
    FlushedAreFinal(s, last);
    forall k | 0 <= k < |s.log|
      ensures PushedAt(Flush(s).pushed, FineIndex(s.log[k].t))
    {
      FlushPlaces(s, k);
    }
  }

  lemma {:induction false} FlushPlaces(s: Store, k: nat)
    requires StreamTrue(s) && k < |s.log|
    requires PushedAt(s.pushed, FineIndex(s.log[k].t)) || s.openIndex == Some(FineIndex(s.log[k].t))
    ensures PushedAt(Flush(s).pushed, FineIndex(s.log[k].t))
  {
    FlushPushes(s);
    var e := Flush(s);
    if PushedAt(s.pushed, FineIndex(s.log[k].t)) {
      var j :| 0 <= j < |s.pushed| && s.pushed[j].index == FineIndex(s.log[k].t);
      assert e.pushed[j] == s.pushed[j];
    } else {
      assert e.pushed[|s.pushed|].index == FineIndex(s.log[k].t);
    }
  }

  /**
    The stream partitions what happened. From a fresh process to its first
    disconnect, subscribers are sent windows of strictly increasing index, none
    empty, whatever the order of frame times. If the times do not go back, no
    frame is late, each window sent is final, every event believed is in exactly
    one of them, and their saturating sum is the lifetime total.
   */
  lemma {:induction false} StreamPartition(frames: seq<Frame>, q: Query)
    requires Windowed(q) && forall k :: 0 <= k < |frames| ==> FrameOk(frames[k])
    ensures var end := Flush(ApplyAll(FRESH, frames));
            && Ascending(end.pushed) && AllNonempty(end.pushed)
            && (InOrder(frames) ==>
                  && end.counts.lateFrames == 0
                  && (forall k :: 0 <= k < |end.pushed| ==>
                        Matches(end.pushed[k], end.log, Slot(FINE_RESOLUTION_NS, end.pushed[k].index)))
                  && (forall k :: 0 <= k < |end.log| ==> PushedAt(end.pushed, FineIndex(end.log[k].t)))
                  && LifetimeRead(end, q) == Clip(PushedTotal(end.pushed, q)))
  {
    var s := ApplyAll(FRESH, frames);
    RunKeepsStream(frames);
    FlushedStream(s);
    if InOrder(frames) {
      RunSettles(frames);
      FlushSettles(s, if frames == [] then 0 else frames[|frames| - 1].t);
      var end := Flush(s);
      assert TotalTrue(end, q);
      WindowsShareTheTotal(end.log, end.pushed, q);
      PushedTotalIsExact(end.log, end.pushed, q);
    }
  }
}
