/**
  What a process remembers, added up from the frames it was sent: every total and
  every ring window against the events themselves.
 */
module FrameTotals {
  import opened Basics
  import opened Words
  import opened Distribution
  import opened PathRegistry
  import opened Ledger
  import opened Windows
  import opened RingModel
  import opened StoreModel
  import opened StoreInvariant

  /** The event names something the process knows. */
  predicate NamesKnown(s: Store, e: Event) {
    match e
    case Calls(func, _, _) => func in s.functions
    case Stack(path, _, _) => path in s.paths
    case Census(ty, _, _, _) => ty in s.types
  }

  /** Nanoseconds a distribution stands for: the samples themselves, or midpoints by counts. */
  function DistNs(d: Dist): nat {
    match d
    case Raw(v) => Sum(v)
    case Buckets(b) => Weigh(b, MidpointOf)
  }

  /** A figure that events add to: a function's, or a context's. */
  datatype Figure = FuncCalls(func: nat) | FuncNs(func: nat) | ContextCalls(path: nat) | ContextNs(path: nat)

  /** What one event says of it. */
  function Says(e: Event, figure: Figure): nat {
    match figure
    case FuncCalls(func) => if e.Calls? && e.func == func then e.count else 0
    case FuncNs(func) => if e.Calls? && e.func == func then DistNs(e.ns) else 0
    case ContextCalls(path) => if e.Stack? && e.path == path then e.count else 0
    case ContextNs(path) => if e.Stack? && e.path == path then e.selfNs else 0
  }

  /** What the events that name something known say together. */
  function EventsSay(known: Store, es: seq<Event>, figure: Figure): nat {
    if es == [] then 0
    else
      var e := es[|es| - 1];
      EventsSay(known, es[..|es| - 1], figure) + if NamesKnown(known, e) then Says(e, figure) else 0
  }

  /** What a run of frames says of a figure over a span; a frame's own registrations come before its events. */
  ghost function FramesSay(frames: seq<Frame>, figure: Figure, span: Span): nat
    requires forall k :: 0 <= k < |frames| ==> FrameOk(frames[k])
  {
    if frames == [] then 0
    else
      var f := frames[|frames| - 1];
      FramesSay(frames[..|frames| - 1], figure, span)
      + if Covers(span, f.t) then EventsSay(ApplyAll(FRESH, frames), f.events, figure) else 0
  }

  // ---------------------------------------------------------------- one event

  /** The quantity of the log a figure is. */
  function LoggedAs(figure: Figure): Query {
    match figure
    case FuncCalls(func) => CallsOf(func)
    case FuncNs(func) => NsOf(func)
    case ContextCalls(path) => PathCalls(path)
    case ContextNs(path) => PathSelf(path)
  }

  lemma {:induction false} DurationIsClipped(d: Dist, buckets: seq<Bin>)
    requires DistOk(d) && buckets == Histogram(Bins(d), 0) && WithinRange(buckets)
    ensures DurationTotal(d, buckets) == Clip(DistNs(d))
  {
    match d
    case Raw(v) => SaturatingSumIsClip(v);
    case Buckets(b) =>
      SaturatingMidpointsIsClip(buckets);
      HistogramKeepsWeight(b, MidpointOf);
  }

  lemma {:induction false} CallsAccept(s: Store, e: Event, t: nat)
    requires EventOk(e) && e.Calls? && e.func in s.functions
    ensures Accept(s, e, t) == Some(CallsAccepted(e.func, e.count, Clip(DistNs(e.ns)), Histogram(Bins(e.ns), 0)))
  {
    BucketsWithinRange(e.ns);
    DurationIsClipped(e.ns, Histogram(Bins(e.ns), 0));
  }

  lemma {:induction false} CallsShare(e: Event, buckets: seq<Bin>, figure: Figure)
    requires e.Calls?
    ensures Clip(Share(LoggedAs(figure), CallsAccepted(e.func, e.count, Clip(DistNs(e.ns)), buckets))) == Clip(Says(e, figure))
  {
  }

  lemma {:induction false} CallsAreBelieved(s: Store, e: Event, t: nat, figure: Figure)
    requires EventOk(e) && e.Calls? && e.func in s.functions
    ensures Accept(s, e, t).Some? && Clip(Share(LoggedAs(figure), Accept(s, e, t).value)) == Clip(Says(e, figure))
  {
    CallsAccept(s, e, t);
    CallsShare(e, Histogram(Bins(e.ns), 0), figure);
  }

  lemma {:induction false} StackIsBelieved(s: Store, e: Event, t: nat, figure: Figure)
    requires EventOk(e) && e.Stack? && e.path in s.paths
    ensures Accept(s, e, t).Some? && Share(LoggedAs(figure), Accept(s, e, t).value) == Says(e, figure)
  {
  }

  /** An event is believed about what it says, time clipped to a word. */
  lemma {:induction false} EventIsBelieved(s: Store, e: Event, t: nat, figure: Figure)
    requires EventOk(e)
    ensures Accept(s, e, t).Some? <==> NamesKnown(s, e)
    ensures Accept(s, e, t).Some? ==> Clip(Share(LoggedAs(figure), Accept(s, e, t).value)) == Clip(Says(e, figure))
  {
    if NamesKnown(s, e) {
      if e.Calls? {
        CallsAreBelieved(s, e, t, figure);
      } else if e.Stack? {
        StackIsBelieved(s, e, t, figure);
      }
    }
  }

  lemma {:induction false} ClipAdds(a: nat, b: nat, c: nat, d: nat)
    requires Clip(a) == Clip(b) && Clip(c) == Clip(d)
    ensures Clip(a + c) == Clip(b + d)
  {
  }

  /** The log of a frame's survivors says what the frame's known events say. */
  lemma {:induction false} SurvivorsSay(s: Store, es: seq<Event>, t: nat, figure: Figure, span: Span)
    requires Covers(span, t) && forall k :: 0 <= k < |es| ==> EventOk(es[k])
    ensures Clip(Exact(Stamp(Survivors(s, es, t), t), LoggedAs(figure), span)) == Clip(EventsSay(s, es, figure))
  {
    if es != [] {
      var front, e := es[..|es| - 1], es[|es| - 1];
      SurvivorsSay(s, front, t, figure, span);
      EventIsBelieved(s, e, t, figure);
      if NamesKnown(s, e) {
        var a := Accept(s, e, t).value;
        StampPush(Survivors(s, es, t), t);
        assert Survivors(s, es, t)[..|Survivors(s, es, t)| - 1] == Survivors(s, front, t);
        ExactPush(Stamp(Survivors(s, front, t), t), Entry(t, a), LoggedAs(figure), span);
        ClipAdds(Exact(Stamp(Survivors(s, front, t), t), LoggedAs(figure), span), EventsSay(s, front, figure),
                 Share(LoggedAs(figure), a), Says(e, figure));
      } else {
        assert Survivors(s, es, t) == Survivors(s, front, t);
      }
    }
  }

  lemma {:induction false} SameNamesSay(s: Store, s': Store, es: seq<Event>, figure: Figure)
    requires SameNames(s, s')
    ensures EventsSay(s, es, figure) == EventsSay(s', es, figure)
  {
    if es != [] { SameNamesSay(s, s', es[..|es| - 1], figure); }
  }

  lemma {:induction false} AdmittedNames(s: Store, f: Frame)
    requires FrameOk(f) && StoreTrue(s)
    ensures SameNames(AdmitAll(s, f.registers), ApplyFrame(s, f))
  {
    AdmitAllSameNames(s, OneFrame(s), f.registers);
    FrameNames(s, f);
    SameNamesChain(AdmitAll(s, f.registers), Registered(s, f), ApplyFrame(s, f));
  }

  /** What a frame adds to the log, in a span, is what its known events say if the span covers it. */
  lemma {:induction false} FrameSays(s: Store, f: Frame, next: Store, figure: Figure, span: Span)
    requires FrameOk(f) && StoreTrue(s) && next == ApplyFrame(s, f)
    ensures Clip(Exact(Stamp(SurvivorsOf(s, f), f.t), LoggedAs(figure), span))
         == Clip(if Covers(span, f.t) then EventsSay(next, f.events, figure) else 0)
  {
    var more := Stamp(SurvivorsOf(s, f), f.t);
    if Covers(span, f.t) {
      SurvivorsSay(AdmitAll(s, f.registers), f.events, f.t, figure, span);
      AdmittedNames(s, f);
      SameNamesSay(AdmitAll(s, f.registers), next, f.events, figure);
    } else {
      assert [] + more == more;
      ExactOutside([], more, LoggedAs(figure), span);
    }
  }

  lemma {:induction false} ReachedIsTrue(frames: seq<Frame>)
    requires forall k :: 0 <= k < |frames| ==> FrameOk(frames[k])
    ensures StoreTrue(ApplyAll(FRESH, frames))
  {
    FreshIsTrue();
    RunKeepsTrue(FRESH, frames);
  }

  lemma {:induction false} LogGrowsBy(s: Store, f: Frame)
    requires FrameOk(f) && StoreTrue(s)
    ensures ApplyFrame(s, f).log == s.log + Stamp(SurvivorsOf(s, f), f.t)
  {
    FrameKeepsTrue(s, f);
  }

  /** The log of a run says what its frames say. */
  lemma {:induction false} LogSays(frames: seq<Frame>, figure: Figure, span: Span)
    requires forall k :: 0 <= k < |frames| ==> FrameOk(frames[k])
    ensures Clip(Exact(ApplyAll(FRESH, frames).log, LoggedAs(figure), span)) == Clip(FramesSay(frames, figure, span))
  {
    if frames != [] {
      var front, f := frames[..|frames| - 1], frames[|frames| - 1];
      LogSays(front, figure, span);
      LogSaysMore(frames, figure, span);
    }
  }

  lemma {:induction false} LogSaysMore(frames: seq<Frame>, figure: Figure, span: Span)
    requires frames != [] && forall k :: 0 <= k < |frames| ==> FrameOk(frames[k])
    requires var front := frames[..|frames| - 1];
             Clip(Exact(ApplyAll(FRESH, front).log, LoggedAs(figure), span)) == Clip(FramesSay(front, figure, span))
    ensures Clip(Exact(ApplyAll(FRESH, frames).log, LoggedAs(figure), span)) == Clip(FramesSay(frames, figure, span))
  {
    var front, f := frames[..|frames| - 1], frames[|frames| - 1];
    var s := ApplyAll(FRESH, front);
    var more := Stamp(SurvivorsOf(s, f), f.t);
    ReachedIsTrue(front);
    LogGrowsBy(s, f);
    FrameSays(s, f, ApplyAll(FRESH, frames), figure, span);
    SumsMore(s.log, more, LoggedAs(figure), span, FramesSay(front, figure, span),
             if Covers(span, f.t) then EventsSay(ApplyAll(FRESH, frames), f.events, figure) else 0);
  }

  lemma {:induction false} SumsMore(log: seq<Entry>, more: seq<Entry>, q: Query, span: Span, said: nat, saidMore: nat)
    requires Clip(Exact(log, q, span)) == Clip(said) && Clip(Exact(more, q, span)) == Clip(saidMore)
    ensures Clip(Exact(log + more, q, span)) == Clip(said + saidMore)
  {
    ExactConcat(log, more, q, span);
    ClipAdds(Exact(log, q, span), said, Exact(more, q, span), saidMore);
  }

  lemma {:induction false} TotalSays(frames: seq<Frame>, figure: Figure)
    requires forall k :: 0 <= k < |frames| ==> FrameOk(frames[k])
    ensures LifetimeRead(ApplyAll(FRESH, frames), LoggedAs(figure)) == Clip(FramesSay(frames, figure, Always))
  {
    ReachedIsTrue(frames);
    assert TotalTrue(ApplyAll(FRESH, frames), LoggedAs(figure));
    LogSays(frames, figure, Always);
  }

  /**
    Lifetime totals from the frames. What the process holds of a context is the
    sum of the counts and of the self times of the stack events that named it in
    frames by which it was registered, and what it holds of a function the sum of
    its call events' counts and of the time their distributions stand for, each
    clipped once to a word.
   */
  lemma {:induction false} LifetimeFromFrames(frames: seq<Frame>, func: nat, path: nat)
    requires forall k :: 0 <= k < |frames| ==> FrameOk(frames[k])
    ensures var s := ApplyAll(FRESH, frames);
            && (if path in s.pathTotals then s.pathTotals[path] else StackDelta(0, 0))
            == StackDelta(Clip(FramesSay(frames, ContextCalls(path), Always)), Clip(FramesSay(frames, ContextNs(path), Always)))
            && (if func in s.functions then s.functions[func].calls else 0) == Clip(FramesSay(frames, FuncCalls(func), Always))
            && (if func in s.functions then s.functions[func].nsTotal else 0) == Clip(FramesSay(frames, FuncNs(func), Always))
  {
    TotalSays(frames, ContextCalls(path));
    TotalSays(frames, ContextNs(path));
    TotalSays(frames, FuncCalls(func));
    TotalSays(frames, FuncNs(func));
  }

  /** What one window holds of a context and of a function, against the frames in its time. */
  ghost predicate WindowSays(w: Window, frames: seq<Frame>, span: Span, func: nat, path: nat)
    requires forall k :: 0 <= k < |frames| ==> FrameOk(frames[k])
  {
    && (if path in w.stacks then w.stacks[path] else StackDelta(0, 0))
    == StackDelta(Clip(FramesSay(frames, ContextCalls(path), span)), Clip(FramesSay(frames, ContextNs(path), span)))
    && (if func in w.calls then w.calls[func] else CallDelta(0, 0))
    == CallDelta(Clip(FramesSay(frames, FuncCalls(func), span)), Clip(FramesSay(frames, FuncNs(func), span)))
  }

  lemma {:induction false} WindowShows(w: Window, frames: seq<Frame>, span: Span, figure: Figure)
    requires forall k :: 0 <= k < |frames| ==> FrameOk(frames[k])
    requires Matches(w, ApplyAll(FRESH, frames).log, span)
    ensures Read(w, LoggedAs(figure)) == Clip(FramesSay(frames, figure, span))
  {
    assert Shows(w, ApplyAll(FRESH, frames).log, span, LoggedAs(figure));
    LogSays(frames, figure, span);
  }

  lemma {:induction false} MatchingWindowSays(w: Window, frames: seq<Frame>, span: Span, func: nat, path: nat)
    requires forall k :: 0 <= k < |frames| ==> FrameOk(frames[k])
    requires Matches(w, ApplyAll(FRESH, frames).log, span)
    ensures WindowSays(w, frames, span, func, path)
  {
    WindowShows(w, frames, span, ContextCalls(path));
    WindowShows(w, frames, span, ContextNs(path));
    WindowShows(w, frames, span, FuncCalls(func));
    WindowShows(w, frames, span, FuncNs(func));
  }

  /** A window either ring holds shows the same sums, over the frames whose time falls in it. */
  lemma {:induction false} WindowFromFrames(frames: seq<Frame>, k: nat, func: nat, path: nat)
    requires forall k :: 0 <= k < |frames| ==> FrameOk(frames[k])
    ensures var s := ApplyAll(FRESH, frames);
            && (k < |s.fine| ==> WindowSays(s.fine[k], frames, Slot(FINE_RESOLUTION_NS, s.fine[k].index), func, path))
            && (k < |s.coarse| ==> WindowSays(s.coarse[k], frames, Slot(COARSE_RESOLUTION_NS, s.coarse[k].index), func, path))
  {
    var s := ApplyAll(FRESH, frames);
    ReachedIsTrue(frames);
    if k < |s.fine| { MatchingWindowSays(s.fine[k], frames, Slot(FINE_RESOLUTION_NS, s.fine[k].index), func, path); }
    if k < |s.coarse| { MatchingWindowSays(s.coarse[k], frames, Slot(COARSE_RESOLUTION_NS, s.coarse[k].index), func, path); }
  }

  // ---------------------------------------------------------------- duration histograms

  /** Samples of one duration bucket that known events report for a function. */
  function EventsCount(known: Store, es: seq<Event>, func: nat, index: nat): nat {
    if es == [] then 0
    else
      var e := es[|es| - 1];
      EventsCount(known, es[..|es| - 1], func, index)
      + if e.Calls? && e.func == func && NamesKnown(known, e) then At(Bins(e.ns), index).Samples() else 0
  }

  ghost function FramesCount(frames: seq<Frame>, func: nat, index: nat): nat
    requires forall k :: 0 <= k < |frames| ==> FrameOk(frames[k])
  {
    if frames == [] then 0
    else
      FramesCount(frames[..|frames| - 1], func, index)
      + EventsCount(ApplyAll(FRESH, frames), frames[|frames| - 1].events, func, index)
  }

  lemma {:induction false} BucketSumConcat(a: seq<Entry>, b: seq<Entry>, func: nat, index: nat)
    ensures BucketSum(a + b, func, index) == BucketSum(a, func, index) + BucketSum(b, func, index)
  {
    if b == [] {
      assert a + b == a;
    } else {
      assert (a + b)[..|a + b| - 1] == a + b[..|b| - 1];
      BucketSumConcat(a, b[..|b| - 1], func, index);
    }
  }

  lemma {:induction false} SurvivorsCount(s: Store, es: seq<Event>, t: nat, func: nat, index: nat)
    requires forall k :: 0 <= k < |es| ==> EventOk(es[k])
    ensures BucketSum(Stamp(Survivors(s, es, t), t), func, index) == EventsCount(s, es, func, index)
  {
    if es != [] {
      var front, e := es[..|es| - 1], es[|es| - 1];
      SurvivorsCount(s, front, t, func, index);
      EventIsBelieved(s, e, t, FuncCalls(func));
      if NamesKnown(s, e) {
        StampPush(Survivors(s, es, t), t);
        assert Survivors(s, es, t)[..|Survivors(s, es, t)| - 1] == Survivors(s, front, t);
        BucketSumConcat(Stamp(Survivors(s, front, t), t), [Entry(t, Accept(s, e, t).value)], func, index);
        assert [Entry(t, Accept(s, e, t).value)][..0] == [];
        if e.Calls? { HistogramTells(Bins(e.ns), 0, index); }
      } else {
        assert Survivors(s, es, t) == Survivors(s, front, t);
      }
    }
  }

  lemma {:induction false} SameNamesCount(s: Store, s': Store, es: seq<Event>, func: nat, index: nat)
    requires SameNames(s, s')
    ensures EventsCount(s, es, func, index) == EventsCount(s', es, func, index)
  {
    if es != [] { SameNamesCount(s, s', es[..|es| - 1], func, index); }
  }

  lemma {:induction false} FrameCounts(s: Store, f: Frame, next: Store, func: nat, index: nat)
    requires FrameOk(f) && StoreTrue(s) && next == ApplyFrame(s, f)
    ensures BucketSum(next.log, func, index) == BucketSum(s.log, func, index) + EventsCount(next, f.events, func, index)
  {
    LogGrowsBy(s, f);
    BucketSumConcat(s.log, Stamp(SurvivorsOf(s, f), f.t), func, index);
    SurvivorsCount(AdmitAll(s, f.registers), f.events, f.t, func, index);
    AdmittedNames(s, f);
    SameNamesCount(AdmitAll(s, f.registers), next, f.events, func, index);
  }

  lemma {:induction false} LogCounts(frames: seq<Frame>, func: nat, index: nat)
    requires forall k :: 0 <= k < |frames| ==> FrameOk(frames[k])
    ensures BucketSum(ApplyAll(FRESH, frames).log, func, index) == FramesCount(frames, func, index)
  {
    if frames != [] {
      var front := frames[..|frames| - 1];
      LogCounts(front, func, index);
      ReachedIsTrue(front);
      FrameCounts(ApplyAll(FRESH, front), frames[|frames| - 1], ApplyAll(FRESH, frames), func, index);
    }
  }

  /** A function's duration histogram holds, bucket by bucket, the samples its events reported, none clipped. */
  lemma {:induction false} HistogramFromFrames(frames: seq<Frame>, func: nat, index: nat)
    requires forall k :: 0 <= k < |frames| ==> FrameOk(frames[k])
    ensures var s := ApplyAll(FRESH, frames);
            FramesCount(frames, func, index)
            == if func in s.functions && index in s.functions[func].nsBuckets then s.functions[func].nsBuckets[index] else 0
  {
    ReachedIsTrue(frames);
    LogCounts(frames, func, index);
    assert HistogramTrue(ApplyAll(FRESH, frames), func, index);
  }

  // ---------------------------------------------------------------- readings

  predicate NamesType(f: Frame, ty: nat) {
    exists b :: 0 <= b < |f.registers| && f.registers[b].RegisterType? && f.registers[b].id == ty
  }

  /** One of the frames registers the type. */
  predicate TypeSent(frames: seq<Frame>, ty: nat) {
    exists a :: 0 <= a < |frames| && NamesType(frames[a], ty)
  }

  lemma {:induction false} TypesAdmitted(s: Store, rs: seq<Register>, ty: nat)
    ensures ty in AdmitAll(s, rs).types <==>
            ty in s.types || exists b :: 0 <= b < |rs| && rs[b].RegisterType? && rs[b].id == ty
  {
    if rs != [] {
      var front := rs[..|rs| - 1];
      TypesAdmitted(s, front, ty);
      assert forall b :: 0 <= b < |front| ==> front[b] == rs[b];
      if rs[|rs| - 1].RegisterType? && rs[|rs| - 1].id == ty { assert ty in AdmitAll(s, rs).types; }
    }
  }

  lemma {:induction false} TypeSentSplit(frames: seq<Frame>, ty: nat)
    requires frames != []
    ensures TypeSent(frames, ty) <==> TypeSent(frames[..|frames| - 1], ty) || NamesType(frames[|frames| - 1], ty)
  {
    var front := frames[..|frames| - 1];
    assert forall a :: 0 <= a < |front| ==> front[a] == frames[a];
    if a :| 0 <= a < |front| && NamesType(front[a], ty) { assert NamesType(frames[a], ty); }
  }

  /** The types a process knows are those its frames registered. */
  lemma {:induction false} TypesAreSent(frames: seq<Frame>, ty: nat)
    requires forall k :: 0 <= k < |frames| ==> FrameOk(frames[k])
    ensures ty in ApplyAll(FRESH, frames).types <==> TypeSent(frames, ty)
  {
    if frames != [] {
      var front, f := frames[..|frames| - 1], frames[|frames| - 1];
      TypesAreSent(front, ty);
      ReachedIsTrue(front);
      AdmittedNames(ApplyAll(FRESH, front), f);
      TypesAdmitted(ApplyAll(FRESH, front), f.registers, ty);
      TypeSentSplit(frames, ty);
    }
  }

  /** Event `j` of frame `i` is a reading of the type, registered by then, in the span. */
  predicate Reads(frames: seq<Frame>, i: nat, j: nat, ty: nat, span: Span) {
    && i < |frames| && j < |frames[i].events| && Covers(span, frames[i].t)
    && frames[i].events[j].Census? && frames[i].events[j].ty == ty
    && TypeSent(frames[..i + 1], ty)
  }

  /** What a census event says, dated by its frame. */
  function ReadingOf(e: Event, t: nat): Reading
    requires e.Census?
  {
    Reading(e.live, e.bytes, Histogram(Bins(e.sizes), 0), t)
  }

  /** Event `(x, y)` does not come after event `(i, j)`: by frame time, then by arrival. */
  predicate NoNewer(frames: seq<Frame>, x: nat, y: nat, i: nat, j: nat)
    requires x < |frames| && i < |frames|
  {
    frames[x].t < frames[i].t || (frames[x].t == frames[i].t && (x < i || (x == i && y <= j)))
  }

  /** The reading held is that of event `(i, j)`, and no other of the type is newer. */
  ghost predicate SettlesOn(frames: seq<Frame>, ty: nat, span: Span, held: Reading, i: nat, j: nat)
  {
    && Reads(frames, i, j, ty, span) && held == ReadingOf(frames[i].events[j], frames[i].t)
    && forall x: nat, y: nat :: Reads(frames, x, y, ty, span) ==> NoNewer(frames, x, y, i, j)
  }

  /** Nothing is held only if nothing was read; otherwise the newest reading is. */
  ghost predicate Settles(frames: seq<Frame>, ty: nat, span: Span, held: Option<Reading>)
  {
    match held
    case None => forall x: nat, y: nat :: !Reads(frames, x, y, ty, span)
    case Some(r) => exists i: nat, j: nat :: SettlesOn(frames, ty, span, r, i, j)
  }

  predicate ReadsType(known: Store, e: Event, ty: nat) {
    e.Census? && e.ty == ty && NamesKnown(known, e)
  }

  /** What one event reads of a type. */
  lemma {:induction false} EventReads(s: Store, e: Event, t: nat, ty: nat)
    requires EventOk(e)
    ensures var a := Accept(s, e, t);
            if ReadsType(s, e, ty) then a == Some(CensusAccepted(ty, ReadingOf(e, t)))
            else a.Some? ==> !(a.value.CensusAccepted? && a.value.ty == ty)
  {
  }

  /** The last reading of a type among a frame's events, if there is one. */
  predicate LastOf(s: Store, es: seq<Event>, ty: nat, j: nat) {
    j < |es| && ReadsType(s, es[j], ty) && forall y :: j < y < |es| ==> !ReadsType(s, es[y], ty)
  }

  predicate NoneOf(s: Store, es: seq<Event>, ty: nat) {
    forall y :: 0 <= y < |es| ==> !ReadsType(s, es[y], ty)
  }

  /** Within a frame the last reading of a type is the one that counts. */
  lemma {:induction false} SurvivorsRead(s: Store, es: seq<Event>, t: nat, ty: nat, span: Span) returns (j: nat)
    requires Covers(span, t) && forall k :: 0 <= k < |es| ==> EventOk(es[k])
    ensures var latest := Latest(Stamp(Survivors(s, es, t), t), ty, span);
            if latest.None? then NoneOf(s, es, ty)
            else LastOf(s, es, ty, j) && latest.value == ReadingOf(es[j], t)
  {
    j := 0;
    if es != [] {
      var front, e := es[..|es| - 1], es[|es| - 1];
      j := SurvivorsRead(s, front, t, ty, span);
      LatestOneMore(s, front, e, t, ty, span);
      assert es == front + [e];
      assert forall y :: 0 <= y < |front| ==> front[y] == es[y];
      if ReadsType(s, e, ty) { j := |es| - 1; }
    }
  }

  lemma {:induction false} LatestOneMore(s: Store, front: seq<Event>, e: Event, t: nat, ty: nat, span: Span)
    requires Covers(span, t) && (forall k :: 0 <= k < |front| ==> EventOk(front[k])) && EventOk(e)
    ensures forall k :: 0 <= k < |front + [e]| ==> EventOk((front + [e])[k])
    ensures Latest(Stamp(Survivors(s, front + [e], t), t), ty, span)
         == if ReadsType(s, e, ty) then Newer(Latest(Stamp(Survivors(s, front, t), t), ty, span), ReadingOf(e, t))
            else Latest(Stamp(Survivors(s, front, t), t), ty, span)
  {
    SurvivorsOneMore(s, front, e, t);
    EventReads(s, e, t, ty);
    var before := Stamp(Survivors(s, front, t), t);
    if Accept(s, e, t).Some? {
      LatestPush(before, Entry(t, Accept(s, e, t).value), ty, span);
    } else {
      assert before + [] == before;
    }
  }

  lemma {:induction false} EarlierReads(frames: seq<Frame>, x: nat, y: nat, ty: nat, span: Span)
    requires x + 1 < |frames|
    ensures Reads(frames, x, y, ty, span) <==> Reads(frames[..|frames| - 1], x, y, ty, span)
  {
    assert frames[..|frames| - 1][..x + 1] == frames[..x + 1];
  }

  lemma {:induction false} LastReads(frames: seq<Frame>, y: nat, ty: nat, span: Span)
    requires frames != [] && forall k :: 0 <= k < |frames| ==> FrameOk(frames[k])
    ensures var n := |frames| - 1;
            Reads(frames, n, y, ty, span) <==>
            Covers(span, frames[n].t) && y < |frames[n].events| && ReadsType(ApplyAll(FRESH, frames), frames[n].events[y], ty)
  {
    assert frames[..|frames|] == frames;
    TypesAreSent(frames, ty);
  }

  /** What the last frame reads of a type. */
  ghost predicate LastFrameReads(frames: seq<Frame>, ty: nat, span: Span, more: Option<Reading>, y: nat)
    requires frames != []
  {
    var n := |frames| - 1;
    if more.None? then forall z: nat :: !Reads(frames, n, z, ty, span)
    else
      && Reads(frames, n, y, ty, span) && more.value == ReadingOf(frames[n].events[y], frames[n].t)
      && forall z: nat :: Reads(frames, n, z, ty, span) ==> z <= y
  }

  lemma {:induction false} FrameReads(frames: seq<Frame>, ty: nat, span: Span, more: Option<Reading>) returns (y: nat)
    requires frames != [] && forall k :: 0 <= k < |frames| ==> FrameOk(frames[k])
    requires var n := |frames| - 1;
             more == Latest(Stamp(SurvivorsOf(ApplyAll(FRESH, frames[..n]), frames[n]), frames[n].t), ty, span)
    ensures LastFrameReads(frames, ty, span, more, y)
  {
    var n := |frames| - 1;
    var s, f := ApplyAll(FRESH, frames[..n]), frames[n];
    y := 0;
    if Covers(span, f.t) {
      ReachedIsTrue(frames[..n]);
      AdmittedNames(s, f);
      y := SurvivorsRead(AdmitAll(s, f.registers), f.events, f.t, ty, span);
      TypesAlike(AdmitAll(s, f.registers), ApplyAll(FRESH, frames), f.events, ty);
      CoveredReads(frames, ty, span, more, y);
    } else {
      assert [] + Stamp(SurvivorsOf(s, f), f.t) == Stamp(SurvivorsOf(s, f), f.t);
      LatestOutside([], Stamp(SurvivorsOf(s, f), f.t), ty, span);
    }
  }

  lemma {:induction false} TypesAlike(s: Store, s': Store, es: seq<Event>, ty: nat)
    requires SameNames(s, s')
    ensures NoneOf(s, es, ty) <==> NoneOf(s', es, ty)
    ensures forall j :: LastOf(s, es, ty, j) <==> LastOf(s', es, ty, j)
  {
    assert forall y :: 0 <= y < |es| ==> (ReadsType(s, es[y], ty) <==> ReadsType(s', es[y], ty));
  }

  lemma {:induction false} CoveredReads(frames: seq<Frame>, ty: nat, span: Span, more: Option<Reading>, y: nat)
    requires frames != [] && forall k :: 0 <= k < |frames| ==> FrameOk(frames[k])
    requires var f, s := frames[|frames| - 1], ApplyAll(FRESH, frames);
             && Covers(span, f.t)
             && (if more.None? then NoneOf(s, f.events, ty)
                 else LastOf(s, f.events, ty, y) && more.value == ReadingOf(f.events[y], f.t))
    ensures LastFrameReads(frames, ty, span, more, y)
  {
    var n := |frames| - 1;
    forall z: nat
      ensures Reads(frames, n, z, ty, span) <==>
              z < |frames[n].events| && ReadsType(ApplyAll(FRESH, frames), frames[n].events[z], ty)
    {
      LastReads(frames, z, ty, span);
    }
  }

  /** A reading kept through one more frame. */
  lemma {:induction false} StillSettles(frames: seq<Frame>, ty: nat, span: Span, held: Reading, i: nat, j: nat, more: Option<Reading>, y: nat)
    requires frames != []
    requires SettlesOn(frames[..|frames| - 1], ty, span, held, i, j) && LastFrameReads(frames, ty, span, more, y)
    requires more.Some? ==> held.at > more.value.at
    ensures SettlesOn(frames, ty, span, held, i, j)
  {
    EarlierReads(frames, i, j, ty, span);
    forall x: nat, z: nat | Reads(frames, x, z, ty, span)
      ensures NoNewer(frames, x, z, i, j)
    {
      StillNoNewer(frames, ty, span, held, i, j, more, y, x, z);
    }
  }

  lemma {:induction false} StillNoNewer(
    frames: seq<Frame>, ty: nat, span: Span, held: Reading, i: nat, j: nat, more: Option<Reading>, y: nat, x: nat, z: nat)
    requires frames != []
    requires SettlesOn(frames[..|frames| - 1], ty, span, held, i, j) && LastFrameReads(frames, ty, span, more, y)
    requires (more.Some? ==> held.at > more.value.at) && Reads(frames, x, z, ty, span)
    ensures NoNewer(frames, x, z, i, j)
  {
    if x < |frames| - 1 {
      EarlierReads(frames, x, z, ty, span);
      assert NoNewer(frames[..|frames| - 1], x, z, i, j);
    }
  }

  /** A reading replaced by the last frame's. */
  lemma {:induction false} NewlySettles(frames: seq<Frame>, ty: nat, span: Span, held: Option<Reading>, more: Reading, y: nat)
    requires frames != []
    requires Settles(frames[..|frames| - 1], ty, span, held) && LastFrameReads(frames, ty, span, Some(more), y)
    requires held.Some? ==> held.value.at <= more.at
    ensures SettlesOn(frames, ty, span, more, |frames| - 1, y)
  {
    var front, n := frames[..|frames| - 1], |frames| - 1;
    forall x: nat, z: nat | Reads(frames, x, z, ty, span)
      ensures NoNewer(frames, x, z, n, y)
    {
      if x < n {
        EarlierReads(frames, x, z, ty, span);
        if held.Some? {
          var i: nat, j: nat :| SettlesOn(front, ty, span, held.value, i, j);
          assert NoNewer(front, x, z, i, j);
        }
      }
    }
  }

  lemma {:induction false} OneMoreSettles(frames: seq<Frame>, ty: nat, span: Span, held: Option<Reading>, more: Option<Reading>, y: nat)
    requires frames != []
    requires Settles(frames[..|frames| - 1], ty, span, held) && LastFrameReads(frames, ty, span, more, y)
    ensures Settles(frames, ty, span, if more.None? then held else Newer(held, more.value))
  {
    if more.Some? && !(held.Some? && held.value.at > more.value.at) {
      NewlySettles(frames, ty, span, held, more.value, y);
    } else if held.Some? {
      var i: nat, j: nat :| SettlesOn(frames[..|frames| - 1], ty, span, held.value, i, j);
      StillSettles(frames, ty, span, held.value, i, j, more, y);
    } else {
      forall x: nat, z: nat
        ensures !Reads(frames, x, z, ty, span)
      {
        if x < |frames| - 1 { EarlierReads(frames, x, z, ty, span); }
      }
    }
  }

  /** What the log settles on is what the frames do. */
  lemma {:induction false} LatestSettles(frames: seq<Frame>, ty: nat, span: Span)
    requires forall k :: 0 <= k < |frames| ==> FrameOk(frames[k])
    ensures Settles(frames, ty, span, Latest(ApplyAll(FRESH, frames).log, ty, span))
  {
    if frames != [] {
      var front, f := frames[..|frames| - 1], frames[|frames| - 1];
      LatestSettles(front, ty, span);
      var s := ApplyAll(FRESH, front);
      var more := Stamp(SurvivorsOf(s, f), f.t);
      ReachedIsTrue(front);
      LogGrowsBy(s, f);
      LatestConcat(s.log, more, ty, span);
      var y := FrameReads(frames, ty, span, Latest(more, ty, span));
      OneMoreSettles(frames, ty, span, Latest(s.log, ty, span), Latest(more, ty, span), y);
    }
  }

  lemma {:induction false} WindowSettles(w: Window, frames: seq<Frame>, ty: nat, span: Span)
    requires forall k :: 0 <= k < |frames| ==> FrameOk(frames[k])
    requires Matches(w, ApplyAll(FRESH, frames).log, span)
    ensures Settles(frames, ty, span, if ty in w.census then Some(w.census[ty]) else None)
  {
    assert CensusIn(w, ty) == Latest(ApplyAll(FRESH, frames).log, ty, span);
    LatestSettles(frames, ty, span);
  }

  /**
    Readings from the frames. What the process holds as a type's latest reading,
    and what any window of either ring shows for it, is word for word a census
    event of the frames: its live count, its bytes and the histogram of its sizes,
    dated by its frame. It is the newest of those sent once the type was known, in
    the window's time, the last to arrive among equals; nothing is held only if
    none was sent.
   */
  lemma {:induction false} ReadingFromFrames(frames: seq<Frame>, ty: nat, k: nat)
    requires forall k :: 0 <= k < |frames| ==> FrameOk(frames[k])
    ensures var s := ApplyAll(FRESH, frames);
            && Settles(frames, ty, Always, if ty in s.types then s.types[ty].latest else None)
            && (k < |s.fine| ==>
                  Settles(frames, ty, Slot(FINE_RESOLUTION_NS, s.fine[k].index),
                          if ty in s.fine[k].census then Some(s.fine[k].census[ty]) else None))
            && (k < |s.coarse| ==>
                  Settles(frames, ty, Slot(COARSE_RESOLUTION_NS, s.coarse[k].index),
                          if ty in s.coarse[k].census then Some(s.coarse[k].census[ty]) else None))
  {
    var s := ApplyAll(FRESH, frames);
    ReachedIsTrue(frames);
    assert LatestTrue(s, ty);
    LatestSettles(frames, ty, Always);
    if k < |s.fine| { WindowSettles(s.fine[k], frames, ty, Slot(FINE_RESOLUTION_NS, s.fine[k].index)); }
    if k < |s.coarse| { WindowSettles(s.coarse[k], frames, ty, Slot(COARSE_RESOLUTION_NS, s.coarse[k].index)); }
  }

  // ---------------------------------------------------------------- counters

  /** Events that name nothing the process knows. */
  function Unnamed(known: Store, es: seq<Event>): nat {
    if es == [] then 0 else Unnamed(known, es[..|es| - 1]) + if NamesKnown(known, es[|es| - 1]) then 0 else 1
  }

  /** Context registrations refused as their turn comes. */
  function Refused(s: Store, rs: seq<Register>): nat {
    if rs == [] then 0
    else
      var front, r := rs[..|rs| - 1], rs[|rs| - 1];
      Refused(s, front) + if r.RegisterPath? && RefusesPath(AdmitAll(s, front), r.id, r.node) then 1 else 0
  }

  function EventsIn(frames: seq<Frame>): nat {
    if frames == [] then 0 else EventsIn(frames[..|frames| - 1]) + |frames[|frames| - 1].events|
  }

  ghost function UnknownIn(frames: seq<Frame>): nat
    requires forall k :: 0 <= k < |frames| ==> FrameOk(frames[k])
  {
    if frames == [] then 0
    else
      var front, f := frames[..|frames| - 1], frames[|frames| - 1];
      UnknownIn(front) + Refused(ApplyAll(FRESH, front), f.registers) + Unnamed(ApplyAll(FRESH, frames), f.events)
  }

  lemma {:induction false} SurvivorsAreNamed(s: Store, es: seq<Event>, t: nat)
    requires forall k :: 0 <= k < |es| ==> EventOk(es[k])
    ensures |Survivors(s, es, t)| + Unnamed(s, es) == |es|
  {
    if es != [] {
      SurvivorsAreNamed(s, es[..|es| - 1], t);
      EventIsBelieved(s, es[|es| - 1], t, FuncCalls(0));
    }
  }

  lemma {:induction false} SameNamesUnnamed(s: Store, s': Store, es: seq<Event>)
    requires SameNames(s, s')
    ensures Unnamed(s, es) == Unnamed(s', es)
  {
    if es != [] { SameNamesUnnamed(s, s', es[..|es| - 1]); }
  }

  lemma {:induction false} RefusalsCounted(s: Store, rs: seq<Register>)
    ensures AdmitAll(s, rs).counts.unknownId == s.counts.unknownId + Refused(s, rs)
  {
    if rs != [] { RefusalsCounted(s, rs[..|rs| - 1]); }
  }

  lemma {:induction false} SameNamesRefuse(s: Store, s': Store, rs: seq<Register>)
    requires SameNames(s, s')
    ensures Refused(s, rs) == Refused(s', rs)
  {
    if rs != [] {
      SameNamesRefuse(s, s', rs[..|rs| - 1]);
      AdmitAllSameNames(s, s', rs[..|rs| - 1]);
    }
  }

  /** What a frame's registrations do to the counters. */
  lemma {:induction false} RegisteredCounts(s: Store, f: Frame)
    ensures var n := Registered(s, f);
            && n.counts.frames == s.counts.frames + 1 && n.counts.events == s.counts.events
            && n.counts.unknownId == s.counts.unknownId + Refused(s, f.registers)
            && n.counts.malformedLines == s.counts.malformedLines
  {
    AdmitAllFrame(OneFrame(s), f.registers);
    RefusalsCounted(OneFrame(s), f.registers);
    SameNamesRefuse(s, OneFrame(s), f.registers);
  }

  /** What its events do. */
  lemma {:induction false} LandedCounts(s: Store, f: Frame)
    requires FrameOk(f) && StoreTrue(s)
    ensures var n := Landed(s, f);
            && n.counts.frames == s.counts.frames && n.counts.events == s.counts.events + |f.events|
            && n.counts.unknownId == s.counts.unknownId + Unnamed(s, f.events)
  {
    PostAllKeepsTrue(s, f.events, f.t);
    SurvivorsAreNamed(s, f.events, f.t);
  }

  lemma {:induction false} FrameMovesCounts(s: Store, f: Frame)
    requires FrameOk(f) && StoreTrue(s)
    ensures var n := ApplyFrame(s, f);
            && n.counts.frames == s.counts.frames + 1 && n.counts.events == s.counts.events + |f.events|
            && n.counts.unknownId == s.counts.unknownId + Refused(s, f.registers) + Unnamed(n, f.events)
  {
    var named := Registered(s, f);
    RegisteredKeepsTrue(s, f);
    MovedKeepsTrue(named, f.t);
    RegisteredCounts(s, f);
    LandedCounts(Moved(named, f.t), f);
    FrameNames(s, f);
    SameNamesUnnamed(Moved(named, f.t), ApplyFrame(s, f), f.events);
  }

  /** The counters of a process say how many frames and events it was sent, and how much of them named nothing. */
  lemma {:induction false} CountsFromFrames(frames: seq<Frame>)
    requires forall k :: 0 <= k < |frames| ==> FrameOk(frames[k])
    ensures var counts := ApplyAll(FRESH, frames).counts;
            && counts.frames == |frames| && counts.events == EventsIn(frames) && counts.unknownId == UnknownIn(frames)
  {
    if frames != [] {
      var front := frames[..|frames| - 1];
      CountsFromFrames(front);
      ReachedIsTrue(front);
      FrameMovesCounts(ApplyAll(FRESH, front), frames[|frames| - 1]);
    }
  }
}
