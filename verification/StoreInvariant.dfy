/** In every reachable state the totals, the rings and the tree are what the log says. */
module StoreInvariant {
  import opened Basics
  import opened Words
  import opened Distribution
  import opened PathRegistry
  import opened Ledger
  import opened Windows
  import opened RingModel
  import opened StoreModel

  // ---------------------------------------------------------------- the call tree

  /** A context's id is above its parent's, its parent is the root or known, and its function is known. */
  predicate TreeSound(s: Store) {
    forall id {:trigger s.paths[id]} :: id in s.paths ==>
      && s.paths[id].parent < id
      && (s.paths[id].parent == 0 || s.paths[id].parent in s.paths)
      && s.paths[id].func in s.functions
  }

  /** Names are only ever added, and a context's node never changes. */
  predicate NamesGrow(s: Store, s': Store) {
    && s.functions.Keys <= s'.functions.Keys
    && s.types.Keys <= s'.types.Keys
    && forall id {:trigger s.paths[id]} {:trigger s'.paths[id]} :: id in s.paths ==> id in s'.paths && s'.paths[id] == s.paths[id]
  }

  /** An entry still resolves to what it resolved to when it was accepted. */
  predicate Grounded(e: Entry, s: Store) {
    match e.what
    case CallsAccepted(func, _, _, _) => func in s.functions
    case StackAccepted(path, node, caller, _, _) =>
      path in s.paths && s.paths[path] == node && caller == CallerOf(s.paths, node)
    case CensusAccepted(ty, reading) => ty in s.types && reading.at == e.t
  }

  predicate LogGrounded(s: Store) {
    forall k :: 0 <= k < |s.log| ==> Grounded(s.log[k], s)
  }

  lemma {:induction false} GroundedGrows(e: Entry, s: Store, s': Store)
    requires TreeSound(s) && Grounded(e, s) && NamesGrow(s, s')
    ensures Grounded(e, s')
  {
  }

  // ---------------------------------------------------------------- lifetime totals

  function LifetimeRead(s: Store, q: Query): u64 {
    match q
    case CallsOf(func) => if func in s.functions then s.functions[func].calls else 0
    case NsOf(func) => if func in s.functions then s.functions[func].nsTotal else 0
    case FuncSelf(func) => if func in s.functions then s.functions[func].selfNsTotal else 0
    case EdgeOf(from, to) => if (from, to) in s.edges then s.edges[(from, to)] else 0
    case PathCalls(path) => if path in s.pathTotals then s.pathTotals[path].calls else 0
    case PathSelf(path) => if path in s.pathTotals then s.pathTotals[path].selfNs else 0
  }

  /** Edges and context totals appear only once something touched them. */
  predicate LifetimeHolds(s: Store, q: Query) {
    match q
    case CallsOf(func) => func in s.functions
    case NsOf(func) => func in s.functions
    case FuncSelf(func) => func in s.functions
    case EdgeOf(from, to) => (from, to) in s.edges
    case PathCalls(path) => path in s.pathTotals
    case PathSelf(path) => path in s.pathTotals
  }

  predicate HeldOnceTouched(q: Query) {
    q.EdgeOf? || q.PathCalls? || q.PathSelf?
  }

  ghost predicate TotalTrue(s: Store, q: Query) {
    && LifetimeRead(s, q) == Clip(Exact(s.log, q, Always))
    && (HeldOnceTouched(q) ==> (LifetimeHolds(s, q) <==> Touched(s.log, q, Always)))
  }

  ghost predicate LatestTrue(s: Store, ty: nat) {
    (if ty in s.types then s.types[ty].latest else None) == Latest(s.log, ty, Always)
  }

  /** Samples of one duration bucket reported for a function, exactly. */
  function BucketSum(log: seq<Entry>, func: nat, index: nat): nat {
    if log == [] then 0
    else
      var a := log[|log| - 1].what;
      BucketSum(log[..|log| - 1], func, index)
      + if a.CallsAccepted? && a.func == func then At(a.buckets, index).Samples() else 0
  }

  function BinAt(bins: map<nat, nat>, index: nat): nat {
    if index in bins then bins[index] else 0
  }

  ghost predicate HistogramTrue(s: Store, func: nat, index: nat) {
    (if func in s.functions then BinAt(s.functions[func].nsBuckets, index) else 0) == BucketSum(s.log, func, index)
  }

  ghost predicate TotalsTrue(s: Store) {
    && (forall q :: TotalTrue(s, q))
    && (forall ty :: LatestTrue(s, ty))
    && (forall func, index :: HistogramTrue(s, func, index))
  }

  ghost predicate StoreTrue(s: Store) {
    && TreeSound(s)
    && LogGrounded(s)
    && TotalsTrue(s)
    && RingTrue(s.fine, s.log, FINE_RESOLUTION_NS, FINE_CAPACITY)
    && RingTrue(s.coarse, s.log, COARSE_RESOLUTION_NS, COARSE_CAPACITY)
  }

  lemma {:induction false} FreshIsTrue()
    ensures StoreTrue(FRESH)
  {
  }

  // ---------------------------------------------------------------- registering

  lemma {:induction false} PathAdmitted(s: Store, id: nat, node: PathNode)
    requires TreeSound(s) && !RefusesPath(s, id, node)
    ensures TreeSound(s.(paths := s.paths[id := node])) && NamesGrow(s, s.(paths := s.paths[id := node]))
  {
  }

  lemma {:induction false} AdmitNames(s: Store, r: Register)
    requires TreeSound(s)
    ensures TreeSound(Admit(s, r)) && NamesGrow(s, Admit(s, r))
  {
    if r.RegisterPath? {
      if !RefusesPath(s, r.id, r.node) { PathAdmitted(s, r.id, r.node); }
    } else {
      assert Admit(s, r).paths == s.paths && s.functions.Keys <= Admit(s, r).functions.Keys;
    }
  }

  /** Registering keeps every counter: a re-registration carries new metadata but not a new history. */
  lemma {:induction false} AdmitKeepsTotal(s: Store, r: Register, q: Query)
    ensures LifetimeRead(Admit(s, r), q) == LifetimeRead(s, q)
    ensures HeldOnceTouched(q) ==> (LifetimeHolds(Admit(s, r), q) <==> LifetimeHolds(s, q))
  {
  }

  lemma {:induction false} AdmitKeepsLatest(s: Store, r: Register, ty: nat)
    requires LatestTrue(s, ty)
    ensures LatestTrue(Admit(s, r), ty)
  {
  }

  lemma {:induction false} AdmitKeepsHistogram(s: Store, r: Register, func: nat, index: nat)
    requires HistogramTrue(s, func, index)
    ensures HistogramTrue(Admit(s, r), func, index)
  {
  }

  lemma {:induction false} AdmitKeepsTotals(s: Store, r: Register)
    requires TotalsTrue(s)
    ensures TotalsTrue(Admit(s, r))
  {
    var s' := Admit(s, r);
    forall q
      ensures TotalTrue(s', q)
    {
      assert TotalTrue(s, q);
      AdmitKeepsTotal(s, r, q);
    }
    forall ty
      ensures LatestTrue(s', ty)
    {
      assert LatestTrue(s, ty);
      AdmitKeepsLatest(s, r, ty);
    }
    forall func, index
      ensures HistogramTrue(s', func, index)
    {
      assert HistogramTrue(s, func, index);
      AdmitKeepsHistogram(s, r, func, index);
    }
  }

  lemma {:induction false} AdmitKeepsTrue(s: Store, r: Register)
    requires TreeSound(s) && LogGrounded(s) && TotalsTrue(s)
    ensures TreeSound(Admit(s, r)) && LogGrounded(Admit(s, r)) && TotalsTrue(Admit(s, r))
    ensures NamesGrow(s, Admit(s, r))
  {
    var s' := Admit(s, r);
    AdmitNames(s, r);
    forall k | 0 <= k < |s.log|
      ensures Grounded(s.log[k], s')
    {
      GroundedGrows(s.log[k], s, s');
    }
    AdmitKeepsTotals(s, r);
  }

  /** What registering leaves alone. */
  lemma {:induction false} AdmitAllFrame(s: Store, rs: seq<Register>)
    ensures var s' := AdmitAll(s, rs);
            && s'.log == s.log && s'.fine == s.fine && s'.coarse == s.coarse && s'.pushed == s.pushed
            && s'.openIndex == s.openIndex && s'.edges == s.edges && s'.pathTotals == s.pathTotals
            && s'.counts == s.counts.(unknownId := s'.counts.unknownId)
  {
    if rs != [] { AdmitAllFrame(s, rs[..|rs| - 1]); }
  }

  lemma {:induction false} AdmitAllKeepsTrue(s: Store, rs: seq<Register>)
    requires TreeSound(s) && LogGrounded(s) && TotalsTrue(s)
    ensures TreeSound(AdmitAll(s, rs)) && LogGrounded(AdmitAll(s, rs)) && TotalsTrue(AdmitAll(s, rs))
    ensures NamesGrow(s, AdmitAll(s, rs))
  {
    if rs != [] {
      AdmitAllKeepsTrue(s, rs[..|rs| - 1]);
      AdmitKeepsTrue(AdmitAll(s, rs[..|rs| - 1]), rs[|rs| - 1]);
    }
  }

  // ---------------------------------------------------------------- events

  /** Posting an event changes no name. */
  predicate SameNames(s: Store, s': Store) {
    && s'.functions.Keys == s.functions.Keys && s'.types.Keys == s.types.Keys && s'.paths == s.paths
    && (forall id :: id in s.functions ==> s'.functions[id].name == s.functions[id].name)
    && (forall id :: id in s.types ==> s'.types[id].name == s.types[id].name)
  }

  lemma {:induction false} AcceptIsGrounded(s: Store, e: Event, t: nat)
    requires EventOk(e) && TreeSound(s)
    ensures Accept(s, e, t).Some? ==> Grounded(Entry(t, Accept(s, e, t).value), s)
    ensures Accept(s, e, t).Some? && Accept(s, e, t).value.StackAccepted? ==>
              Accept(s, e, t).value.node.func in s.functions
  {
  }

  lemma {:induction false} PostFrame(s: Store, a: Accepted, t: nat)
    requires Grounded(Entry(t, a), s)
    ensures var s' := Post(s, a, t);
            && SameNames(s, s') && s'.log == s.log + [Entry(t, a)]
            && s'.fine == s.fine && s'.coarse == s.coarse && s'.openIndex == s.openIndex
            && s'.pushed == s.pushed && s'.counts == s.counts
  {
  }

  /** What posting does to one quantity: its share of the event is added, up to the word's top. */
  lemma {:induction false} PostMovesRead(s: Store, a: Accepted, t: nat, q: Query)
    requires Grounded(Entry(t, a), s) && (a.StackAccepted? ==> a.node.func in s.functions)
    ensures LifetimeRead(Post(s, a, t), q) == SatAdd(LifetimeRead(s, q), Share(q, a))
    ensures HeldOnceTouched(q) ==> (LifetimeHolds(Post(s, a, t), q) <==> LifetimeHolds(s, q) || Concerns(q, a))
  {
    match a
    case CallsAccepted(_, _, _, _) =>
    case StackAccepted(_, _, _, _, _) => PostStackMovesRead(s, a, t, q);
    case CensusAccepted(_, _) =>
  }

  lemma {:induction false} PostStackMovesRead(s: Store, a: Accepted, t: nat, q: Query)
    requires a.StackAccepted? && a.node.func in s.functions
    ensures LifetimeRead(Post(s, a, t), q) == SatAdd(LifetimeRead(s, q), Share(q, a))
    ensures HeldOnceTouched(q) ==> (LifetimeHolds(Post(s, a, t), q) <==> LifetimeHolds(s, q) || Concerns(q, a))
  {
    match q
    case CallsOf(_) =>
    case NsOf(_) =>
    case EdgeOf(_, _) =>
    case PathCalls(_) =>
    case PathSelf(_) =>
    case FuncSelf(_) =>
  }

  lemma {:induction false} PostMovesTotal(s: Store, a: Accepted, t: nat, q: Query)
    requires Grounded(Entry(t, a), s) && (a.StackAccepted? ==> a.node.func in s.functions) && TotalTrue(s, q)
    ensures TotalTrue(Post(s, a, t), q)
  {
    PostFrame(s, a, t);
    PostMovesRead(s, a, t, q);
    ExactPush(s.log, Entry(t, a), q, Always);
  }

  lemma {:induction false} PostMovesLatest(s: Store, a: Accepted, t: nat, ty: nat)
    requires Grounded(Entry(t, a), s) && LatestTrue(s, ty)
    ensures LatestTrue(Post(s, a, t), ty)
  {
    LatestPush(s.log, Entry(t, a), ty, Always);
  }

  lemma {:induction false} AddBinsAt(held: map<nat, nat>, bins: seq<Bin>, index: nat)
    ensures BinAt(AddBins(held, bins), index) == BinAt(held, index) + At(bins, index).Samples()
  {
    if bins != [] { AddBinsAt(held, bins[..|bins| - 1], index); }
  }

  lemma {:induction false} PostMovesHistogram(s: Store, a: Accepted, t: nat, func: nat, index: nat)
    requires Grounded(Entry(t, a), s) && HistogramTrue(s, func, index)
    ensures HistogramTrue(Post(s, a, t), func, index)
  {
    var log := s.log + [Entry(t, a)];
    assert log[..|log| - 1] == s.log;
    if a.CallsAccepted? && a.func == func { AddBinsAt(s.functions[func].nsBuckets, a.buckets, index); }
  }

  lemma {:induction false} PostKeepsTrue(s: Store, a: Accepted, t: nat)
    requires TreeSound(s) && LogGrounded(s) && TotalsTrue(s)
    requires Grounded(Entry(t, a), s) && (a.StackAccepted? ==> a.node.func in s.functions)
    ensures TreeSound(Post(s, a, t)) && LogGrounded(Post(s, a, t)) && TotalsTrue(Post(s, a, t))
  {
    var s' := Post(s, a, t);
    PostFrame(s, a, t);
    forall k | 0 <= k < |s'.log|
      ensures Grounded(s'.log[k], s')
    {
      if k < |s.log| { GroundedGrows(s.log[k], s, s'); }
    }
    forall q
      ensures TotalTrue(s', q)
    {
      PostMovesTotal(s, a, t, q);
    }
    forall ty
      ensures LatestTrue(s', ty)
    {
      PostMovesLatest(s, a, t, ty);
    }
    forall func, index
      ensures HistogramTrue(s', func, index)
    {
      PostMovesHistogram(s, a, t, func, index);
    }
  }

  /** Which events are believed does not depend on the ones posted before them. */
  lemma {:induction false} AcceptSameNames(s: Store, s': Store, e: Event, t: nat)
    requires EventOk(e) && SameNames(s, s')
    ensures Accept(s, e, t) == Accept(s', e, t)
  {
  }

  /** What a frame's events do: every event counted, each believed or counted unknown. */
  ghost predicate Posted(s: Store, s': Store, es: seq<Event>, t: nat)
    requires forall k :: 0 <= k < |es| ==> EventOk(es[k])
  {
    && SameNames(s, s') && s'.log == s.log + Stamp(Survivors(s, es, t), t)
    && s'.fine == s.fine && s'.coarse == s.coarse && s'.openIndex == s.openIndex && s'.pushed == s.pushed
    && s'.counts.events == s.counts.events + |es|
    && s'.counts.unknownId + |Survivors(s, es, t)| == s.counts.unknownId + |es|
    && s'.counts.frames == s.counts.frames && s'.counts.lateFrames == s.counts.lateFrames
  }

  lemma {:induction false} PostAllKeepsTrue(s: Store, es: seq<Event>, t: nat)
    requires forall k :: 0 <= k < |es| ==> EventOk(es[k])
    requires TreeSound(s) && LogGrounded(s) && TotalsTrue(s)
    ensures Posted(s, PostAll(s, es, t), es, t)
    ensures TreeSound(PostAll(s, es, t)) && LogGrounded(PostAll(s, es, t)) && TotalsTrue(PostAll(s, es, t))
  {
    if es == [] {
      assert s.log + Stamp([], t) == s.log;
    } else {
      var front, e := es[..|es| - 1], es[|es| - 1];
      PostAllKeepsTrue(s, front, t);
      var mid := PostAll(s, front, t);
      AcceptSameNames(s, mid, e, t);
      CountedKeepsTrue(mid, e, t);
      PostedOneMore(s, mid, front, e, t);
      assert es == front + [e];
    }
  }

  lemma {:induction false} CountedKeepsTrue(s: Store, e: Event, t: nat)
    requires EventOk(e) && TreeSound(s) && LogGrounded(s) && TotalsTrue(s)
    ensures TreeSound(PostEvent(s, e, t)) && LogGrounded(PostEvent(s, e, t)) && TotalsTrue(PostEvent(s, e, t))
  {
    AcceptIsGrounded(s, e, t);
    CountsAside(s, OneEvent(s));
    CountsAside(s, OneUnknown(OneEvent(s)));
    var a := Accept(s, e, t);
    if a.Some? { PostKeepsTrue(OneEvent(s), a.value, t); }
  }

  /** The counters of what was refused have no part in the invariant. */
  lemma {:induction false} CountsAside(s: Store, s': Store)
    requires TreeSound(s) && LogGrounded(s) && TotalsTrue(s) && s' == s.(counts := s'.counts)
    ensures TreeSound(s') && LogGrounded(s') && TotalsTrue(s')
  {
    forall q ensures TotalTrue(s', q) { assert TotalTrue(s, q); }
    forall ty ensures LatestTrue(s', ty) { assert LatestTrue(s, ty); }
    forall f, i ensures HistogramTrue(s', f, i) { assert HistogramTrue(s, f, i); }
    forall k | 0 <= k < |s.log| ensures Grounded(s'.log[k], s') { assert Grounded(s.log[k], s); }
  }

  lemma {:induction false} SameNamesChain(a: Store, b: Store, c: Store)
    requires SameNames(a, b) && SameNames(b, c)
    ensures SameNames(a, c)
  {
  }

  /** Whatever state agrees with one more posted event is the events posted with it. */
  lemma {:induction false} OneMorePosted(
    s: Store, mid: Store, after: Store, front: seq<Event>, e: Event, t: nat, a: Accepted)
    requires (forall k :: 0 <= k < |front| ==> EventOk(front[k])) && EventOk(e)
    requires Posted(s, mid, front, t) && Accept(s, e, t) == Some(a)
    requires SameNames(mid, after) && after.log == mid.log + [Entry(t, a)]
    requires after.fine == mid.fine && after.coarse == mid.coarse && after.openIndex == mid.openIndex
    requires after.pushed == mid.pushed && after.counts == OneEvent(mid).counts
    ensures forall k :: 0 <= k < |front + [e]| ==> EventOk((front + [e])[k])
    ensures Posted(s, after, front + [e], t)
  {
    SurvivorsOneMore(s, front, e, t);
    SameNamesChain(s, mid, after);
    assert s.log + (Stamp(Survivors(s, front, t), t) + [Entry(t, a)]) == mid.log + [Entry(t, a)];
  }

  lemma {:induction false} AcceptedOneMore(s: Store, mid: Store, front: seq<Event>, e: Event, t: nat, a: Accepted)
    requires (forall k :: 0 <= k < |front| ==> EventOk(front[k])) && EventOk(e)
    requires TreeSound(mid) && Posted(s, mid, front, t) && Accept(s, e, t) == Accept(mid, e, t) == Some(a)
    ensures forall k :: 0 <= k < |front + [e]| ==> EventOk((front + [e])[k])
    ensures Posted(s, Post(OneEvent(mid), a, t), front + [e], t)
  {
    AcceptIsGrounded(mid, e, t);
    PostFrame(OneEvent(mid), a, t);
    OneMorePosted(s, mid, Post(OneEvent(mid), a, t), front, e, t, a);
  }

  lemma {:induction false} PostedOneMore(s: Store, mid: Store, front: seq<Event>, e: Event, t: nat)
    requires (forall k :: 0 <= k < |front| ==> EventOk(front[k])) && EventOk(e)
    requires TreeSound(mid) && Posted(s, mid, front, t) && Accept(s, e, t) == Accept(mid, e, t)
    ensures forall k :: 0 <= k < |front + [e]| ==> EventOk((front + [e])[k])
    ensures Posted(s, PostEvent(mid, e, t), front + [e], t)
  {
    var a := Accept(mid, e, t);
    if a.Some? {
      AcceptedOneMore(s, mid, front, e, t, a.value);
    } else {
      SurvivorsOneMore(s, front, e, t);
    }
  }

  lemma {:induction false} SurvivorsOneMore(s: Store, front: seq<Event>, e: Event, t: nat)
    requires (forall k :: 0 <= k < |front| ==> EventOk(front[k])) && EventOk(e)
    ensures forall k :: 0 <= k < |front + [e]| ==> EventOk((front + [e])[k])
    ensures Survivors(s, front + [e], t) ==
            Survivors(s, front, t) + if Accept(s, e, t).Some? then [Accept(s, e, t).value] else []
    ensures Stamp(Survivors(s, front + [e], t), t) ==
            Stamp(Survivors(s, front, t), t) + if Accept(s, e, t).Some? then [Entry(t, Accept(s, e, t).value)] else []
  {
    assert (front + [e])[..|front|] == front;
    if Accept(s, e, t).Some? { StampPush(Survivors(s, front + [e], t), t); }
  }

  // ---------------------------------------------------------------- a whole frame

  lemma {:induction false} IntoRingsKeepsTrue(s: Store, log0: seq<Entry>, accepted: seq<Accepted>, t: nat)
    requires TreeSound(s) && LogGrounded(s) && TotalsTrue(s) && s.log == log0 + Stamp(accepted, t)
    requires RingTrue(s.fine, log0, FINE_RESOLUTION_NS, FINE_CAPACITY)
    requires RingTrue(s.coarse, log0, COARSE_RESOLUTION_NS, COARSE_CAPACITY)
    ensures StoreTrue(IntoRings(s, accepted, t))
  {
    if accepted == [] {
      assert s.log == log0;
    } else {
      RingRefinesLog(s.fine, log0, t, accepted, FINE_RESOLUTION_NS, FINE_CAPACITY);
      RingRefinesLog(s.coarse, log0, t, accepted, COARSE_RESOLUTION_NS, COARSE_CAPACITY);
      RingsAside(s, IntoRings(s, accepted, t));
    }
  }

  /** The rings, what was pushed and the counters have no part in the tree or the totals. */
  lemma {:induction false} RingsAside(s: Store, s': Store)
    requires TreeSound(s) && LogGrounded(s) && TotalsTrue(s)
    requires s' == s.(counts := s'.counts, fine := s'.fine, coarse := s'.coarse, pushed := s'.pushed, openIndex := s'.openIndex)
    ensures TreeSound(s') && LogGrounded(s') && TotalsTrue(s')
  {
    forall q ensures TotalTrue(s', q) { assert TotalTrue(s, q); }
    forall ty ensures LatestTrue(s', ty) { assert LatestTrue(s, ty); }
    forall f, i ensures HistogramTrue(s', f, i) { assert HistogramTrue(s, f, i); }
    forall k | 0 <= k < |s.log| ensures Grounded(s'.log[k], s') { assert Grounded(s.log[k], s); }
  }

  lemma {:induction false} PushKeepsTrue(s: Store, closed: Option<Window>)
    requires StoreTrue(s)
    ensures StoreTrue(Push(s, closed))
  {
    RingsAside(s, Push(s, closed));
  }

  /** The survivors of a frame, resolved after its registers landed. */
  ghost function SurvivorsOf(s: Store, f: Frame): seq<Accepted>
    requires FrameOk(f)
  {
    Survivors(AdmitAll(s, f.registers), f.events, f.t)
  }

  lemma {:induction false} RegisteredKeepsTrue(s: Store, f: Frame)
    requires StoreTrue(s)
    ensures StoreTrue(Registered(s, f)) && NamesGrow(s, Registered(s, f)) && Registered(s, f).log == s.log
  {
    var counted := OneFrame(s);
    CountsAside(s, counted);
    AdmitAllKeepsTrue(counted, f.registers);
    AdmitAllFrame(counted, f.registers);
  }

  lemma {:induction false} MovedKeepsTrue(s: Store, t: nat)
    requires StoreTrue(s)
    ensures StoreTrue(Moved(s, t))
  {
    RingsAside(s, Moved(s, t));
  }

  lemma {:induction false} LandedKeepsTrue(s: Store, f: Frame)
    requires FrameOk(f) && StoreTrue(s)
    ensures StoreTrue(Landed(s, f)) && SameNames(s, Landed(s, f))
    ensures Landed(s, f).log == s.log + Stamp(Survivors(s, f.events, f.t), f.t)
  {
    PostAllKeepsTrue(s, f.events, f.t);
    IntoRingsKeepsTrue(PostAll(s, f.events, f.t), s.log, Survivors(s, f.events, f.t), f.t);
  }

  lemma {:induction false} SurvivorsNamed(s: Store, f: Frame)
    requires FrameOk(f)
    ensures Survivors(Moved(Registered(s, f), f.t), f.events, f.t) == SurvivorsOf(s, f)
  {
    var counted := OneFrame(s);
    AdmitAllSameNames(s, counted, f.registers);
    SurvivorsSame(AdmitAll(s, f.registers), Moved(Registered(s, f), f.t), f.events, f.t);
  }

  /** A frame keeps every agreement, and the log grows by exactly the events it was believed about. */
  lemma {:induction false} FrameKeepsTrue(s: Store, f: Frame)
    requires FrameOk(f) && StoreTrue(s)
    ensures StoreTrue(ApplyFrame(s, f))
    ensures NamesGrow(s, ApplyFrame(s, f))
    ensures ApplyFrame(s, f).log == s.log + Stamp(SurvivorsOf(s, f), f.t)
  {
    var named := Registered(s, f);
    RegisteredKeepsTrue(s, f);
    MovedKeepsTrue(named, f.t);
    LandedKeepsTrue(Moved(named, f.t), f);
    PushKeepsTrue(Landed(Moved(named, f.t), f), ClosedBy(named, f.t));
    SurvivorsNamed(s, f);
  }

  lemma {:induction false} PushNames(named: Store, t: nat, landed: Store, closed: Option<Window>)
    requires SameNames(Moved(named, t), landed)
    ensures SameNames(named, Push(landed, closed))
  {
  }

  /** Only a frame's registers name anything. */
  lemma {:induction false} FrameNames(s: Store, f: Frame)
    requires FrameOk(f) && StoreTrue(s)
    ensures SameNames(Registered(s, f), ApplyFrame(s, f))
  {
    var named := Registered(s, f);
    RegisteredKeepsTrue(s, f);
    MovedKeepsTrue(named, f.t);
    LandedKeepsTrue(Moved(named, f.t), f);
    PushNames(named, f.t, Landed(Moved(named, f.t), f), ClosedBy(named, f.t));
  }

  lemma {:induction false} NamedAlike(s: Store, s': Store, id: nat, name: string)
    requires SameNames(s, s')
    ensures Named(s'.functions, id, name).Keys == Named(s.functions, id, name).Keys
    ensures TypeNamed(s'.types, id, name).Keys == TypeNamed(s.types, id, name).Keys
    ensures forall f :: f in Named(s.functions, id, name) ==> Named(s'.functions, id, name)[f].name == Named(s.functions, id, name)[f].name
    ensures forall ty :: ty in TypeNamed(s.types, id, name) ==>
              TypeNamed(s'.types, id, name)[ty].name == TypeNamed(s.types, id, name)[ty].name
  {
  }

  lemma {:induction false} AdmitSameNames(s: Store, s': Store, r: Register)
    requires SameNames(s, s')
    ensures SameNames(Admit(s, r), Admit(s', r))
  {
    match r
    case RegisterFunction(id, name) => NamedAlike(s, s', id, name);
    case RegisterType(id, name) => NamedAlike(s, s', id, name);
    case RegisterPath(id, node) => assert RefusesPath(s, id, node) <==> RefusesPath(s', id, node);
  }

  lemma {:induction false} AdmitAllSameNames(s: Store, s': Store, rs: seq<Register>)
    requires SameNames(s, s')
    ensures SameNames(AdmitAll(s, rs), AdmitAll(s', rs))
  {
    if rs != [] {
      AdmitAllSameNames(s, s', rs[..|rs| - 1]);
      AdmitSameNames(AdmitAll(s, rs[..|rs| - 1]), AdmitAll(s', rs[..|rs| - 1]), rs[|rs| - 1]);
    }
  }

  lemma {:induction false} SurvivorsSame(s: Store, s': Store, es: seq<Event>, t: nat)
    requires forall k :: 0 <= k < |es| ==> EventOk(es[k])
    requires SameNames(s, s')
    ensures Survivors(s, es, t) == Survivors(s', es, t)
  {
    if es != [] {
      SurvivorsSame(s, s', es[..|es| - 1], t);
      AcceptSameNames(s, s', es[|es| - 1], t);
    }
  }

  lemma {:induction false} RunKeepsTrue(s: Store, frames: seq<Frame>)
    requires StoreTrue(s) && forall k :: 0 <= k < |frames| ==> FrameOk(frames[k])
    ensures StoreTrue(ApplyAll(s, frames))
    ensures NamesGrow(s, ApplyAll(s, frames))
  {
    if frames != [] {
      RunKeepsTrue(s, frames[..|frames| - 1]);
      FrameKeepsTrue(ApplyAll(s, frames[..|frames| - 1]), frames[|frames| - 1]);
    }
  }
}
