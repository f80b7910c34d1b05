/**
  From the threads to the daemon: what becomes of every asked a thread records,
  and what the daemon's totals are of it.
 */
module Delivery {
  import opened Basics
  import opened Words
  import opened Sums
  import opened Distribution
  import opened LogLinear
  import opened PathRegistry
  import opened SampleStore
  import opened Calls
  import opened Ledger
  import opened StoreModel
  import opened StoreInvariant
  import opened FrameTotals
  import opened Emitters
  import opened Protocol
  import opened ProtocolSafety
  import ChargeLedger
  import Durations
  import Probe = ProbeRuns

  /** A figure, or the samples of one duration bucket of a function. */
  datatype Asked = SumOf(figure: Figure) | SamplesOf(func: nat, index: nat)

  /** What an accumulator holds of it. */
  function Amount(a: Accum, asked: Asked): nat {
    match asked
    case SumOf(figure) => FigureAmount(a, figure)
    case SamplesOf(func, index) => FormAt(CallAt(a.calls, func).ns, index).Samples()
  }

  function FigureAmount(a: Accum, figure: Figure): nat {
    match figure
    case FuncCalls(func) => CallAt(a.calls, func).count
    case FuncNs(func) => DistNs(IntoDist(CallAt(a.calls, func).ns))
    case ContextCalls(path) => StackAt(a.stacks, path).count
    case ContextNs(path) => StackAt(a.stacks, path).selfNs
  }

  function HeldAmount(held: Option<Accum>, asked: Asked): nat {
    if held.Some? then Amount(held.value, asked) else 0
  }

  /** What the drained accumulators of some flights hold together. */
  function Carried(flights: seq<Flight>, asked: Asked): nat {
    if flights == [] then 0
    else Carried(flights[..|flights| - 1], asked) + Amount(flights[|flights| - 1].drained, asked)
  }

  /** What is on its way, over all connections. */
  function InFlight(links: seq<Link>, asked: Asked): nat {
    if links == [] then 0
    else InFlight(links[..|links| - 1], asked) + Carried(links[|links| - 1].queue, asked)
  }

  /** The flights read once one more step is taken. */
  function ReadNow(w: World, step: Step, read: seq<Flight>): seq<Flight> {
    if step.Deliver? && step.link < |w.links| && w.links[step.link].queue != [] then read + [w.links[step.link].queue[0]]
    else if step.Restart? then []
    else read
  }

  /** The flights read by the daemon that runs now. */
  ghost function Delivered(steps: seq<Step>, cap: nat): seq<Flight> {
    if steps == [] then []
    else
      var front, step := steps[..|steps| - 1], steps[|steps| - 1];
      if Enabled(Play(front, cap), step) then ReadNow(Play(front, cap), step, Delivered(front, cap)) else Delivered(front, cap)
  }

  /**
    What a step loses for good: drained with nobody to send to, in a frame the
    socket did not take over, in flight on a connection that dies, or forgotten
    with a daemon that is replaced.
   */
  function Loses(w: World, step: Step, read: seq<Flight>, asked: Asked): nat {
    match step
    case GiveUp => HeldAmount(w.held, asked)
    case SendFrame(_, _, _, delivered) => if delivered then 0 else HeldAmount(w.held, asked)
    case DropLink(c) => if c < |w.links| then Carried(w.links[c].queue, asked) else 0
    case Restart => InFlight(w.links, asked) + Carried(read, asked)
    case _ => 0
  }

  /** All that was ever lost. */
  ghost function Gone(steps: seq<Step>, cap: nat, asked: Asked): nat {
    if steps == [] then 0
    else
      var front, step := steps[..|steps| - 1], steps[|steps| - 1];
      Gone(front, cap, asked)
      + if Enabled(Play(front, cap), step) then Loses(Play(front, cap), step, Delivered(front, cap), asked) else 0
  }

  // ---------------------------------------------------------------- what an accumulator's report says

  function KeyOf(asked: Asked): Key {
    match asked
    case SamplesOf(func, _) => OfFunction(func)
    case SumOf(figure) =>
      match figure
      case FuncCalls(func) => OfFunction(func)
      case FuncNs(func) => OfFunction(func)
      case ContextCalls(path) => OfContext(path)
      case ContextNs(path) => OfContext(path)
  }

  predicate KeyKnown(s: Store, key: Key) {
    match key
    case OfFunction(func) => func in s.functions
    case OfContext(path) => path in s.paths
  }

  /** What events that name something known give of it. */
  function Given(s: Store, events: seq<Event>, asked: Asked): nat {
    match asked
    case SumOf(figure) => EventsSay(s, events, figure)
    case SamplesOf(func, index) => EventsCount(s, events, func, index)
  }

  lemma {:induction false} WireSamples(form: Form, index: nat)
    ensures At(Bins(IntoDist(form)), index) == FormAt(form, index)
  {
    if form.BucketForm? { SortedBinsAt(form.buckets, 0, index); }
  }

  lemma {:induction false} EventTells(s: Store, a: Accum, front: seq<Event>, e: Event, asked: Asked)
    requires Figures(a, e)
    ensures Given(s, front + [e], asked)
         == Given(s, front, asked) + if About(e, KeyOf(asked)) && KeyKnown(s, KeyOf(asked)) then Amount(a, asked) else 0
  {
    assert (front + [e])[..|front|] == front;
    if asked.SamplesOf? && e.Calls? { WireSamples(a.calls[e.func].ns, asked.index); }
  }

  lemma {:induction false} EventsTell(s: Store, a: Accum, events: seq<Event>, asked: Asked)
    requires Times(events, KeyOf(asked)) <= 1 && forall k :: 0 <= k < |events| ==> Figures(a, events[k])
    ensures Given(s, events, asked)
         == if KeyKnown(s, KeyOf(asked)) && Times(events, KeyOf(asked)) == 1 then Amount(a, asked) else 0
  {
    if events != [] {
      var front, e := events[..|events| - 1], events[|events| - 1];
      assert front + [e] == events;
      EventsTell(s, a, front, asked);
      EventTells(s, a, front, e, asked);
    }
  }

  lemma {:induction false} NothingHeld(a: Accum, asked: Asked)
    requires !Holding(a, KeyOf(asked))
    ensures Amount(a, asked) == 0
  {
    if asked.SumOf? && asked.figure.FuncNs? { assert IntoDist(NO_SAMPLES).v == []; }
  }

  /** A frame's events give exactly what was drained, if its name is known. */
  lemma {:induction false} ReportTells(s: Store, a: Accum, events: seq<Event>, asked: Asked)
    requires TellsAll(a, events)
    ensures Given(s, events, asked) == if KeyKnown(s, KeyOf(asked)) then Amount(a, asked) else 0
  {
    EventsTell(s, a, events, asked);
    if !Holding(a, KeyOf(asked)) { NothingHeld(a, asked); }
  }

  // ---------------------------------------------------------------- what the daemon knows of what it was sent

  function Reach(flights: seq<Flight>): Position {
    if flights == [] then NOWHERE else Further(Reach(flights[..|flights| - 1]), flights[|flights| - 1].stop)
  }

  predicate InReach(p: Position, key: Key) {
    match key
    case OfFunction(func) => 1 <= func <= p.functions
    case OfContext(path) => 1 <= path <= p.paths
  }

  /** What was drained for the flights by which its name had been sent. */
  function Told(flights: seq<Flight>, asked: Asked): nat {
    if flights == [] then 0
    else
      Told(flights[..|flights| - 1], asked)
      + if InReach(Reach(flights), KeyOf(asked)) then Amount(flights[|flights| - 1].drained, asked) else 0
  }

  lemma {:induction false} ReachMoves(w: World, step: Step, read: seq<Flight>)
    ensures Reach(ReadNow(w, step, read)) == KnownAfter(w, step, Reach(read))
  {
    if step.Deliver? && step.link < |w.links| && w.links[step.link].queue != [] {
      assert ReadNow(w, step, read)[..|read|] == read;
    }
  }

  lemma {:induction false} RunKnows(steps: seq<Step>, cap: nat)
    ensures WorldTrue(Play(steps, cap), Reach(Delivered(steps, cap)))
  {
    if steps == [] {
      StartIsTrue();
    } else {
      var front, step := steps[..|steps| - 1], steps[|steps| - 1];
      RunKnows(front, cap);
      StepKnows(Play(front, cap), step, cap, Play(steps, cap), Delivered(front, cap), Delivered(steps, cap));
    }
  }

  lemma {:induction false} StepKnows(w: World, step: Step, cap: nat, next: World, read: seq<Flight>, more: seq<Flight>)
    requires WorldTrue(w, Reach(read)) && next == if Enabled(w, step) then Do(w, step, cap) else w
    requires more == if Enabled(w, step) then ReadNow(w, step, read) else read
    ensures WorldTrue(next, Reach(more))
  {
    if Enabled(w, step) {
      StepKeepsTrue(w, step, cap, Reach(read));
      ReachMoves(w, step, read);
    }
  }

  lemma {:induction false} KnownIsReach(s: Store, t: Tables, known: Position, key: Key)
    requires Knows(s, t, known)
    ensures KeyKnown(s, key) <==> InReach(known, key)
  {
  }

  /** What the daemon's log adds up to. Samples are never clipped. */
  ghost predicate LogTells(s: Store, asked: Asked, told: nat) {
    match asked
    case SumOf(figure) => Clip(Exact(s.log, LoggedAs(figure), Always)) == Clip(told)
    case SamplesOf(func, index) => BucketSum(s.log, func, index) == told
  }

  lemma {:induction false} FrameGives(s: Store, f: Frame, next: Store, asked: Asked, told: nat)
    requires FrameOk(f) && StoreTrue(s) && next == ApplyFrame(s, f) && LogTells(s, asked, told)
    ensures LogTells(next, asked, told + Given(next, f.events, asked))
  {
    match asked
    case SumOf(figure) =>
      LogGrowsBy(s, f);
      FrameSays(s, f, next, figure, Always);
      SumsMore(s.log, Stamp(SurvivorsOf(s, f), f.t), LoggedAs(figure), Always, told, EventsSay(next, f.events, figure));
    case SamplesOf(func, index) => FrameCounts(s, f, next, func, index);
  }

  lemma {:induction false} FlightTells(s: Store, fl: Flight, t: Tables, known: Position, next: Store, asked: Asked, told: nat)
    requires FlightTrue(fl, t) && StoreTrue(s) && next == ApplyFrame(s, fl.frame) && Knows(next, t, known)
    requires LogTells(s, asked, told)
    ensures LogTells(next, asked, told + if InReach(known, KeyOf(asked)) then Amount(fl.drained, asked) else 0)
  {
    FrameGives(s, fl.frame, next, asked, told);
    ReportTells(next, fl.drained, fl.frame.events, asked);
    KnownIsReach(next, t, known, KeyOf(asked));
  }

  lemma {:induction false} FlushTells(s: Store, asked: Asked, told: nat)
    requires LogTells(s, asked, told)
    ensures LogTells(Flush(s), asked, told)
  {
  }

  /** Reading the frame at the head of a connection. */
  lemma {:induction false} HeadApplied(w: World, c: nat, known: Position)
    requires WorldTrue(w, known) && c < |w.links| && w.links[c].queue != []
    ensures var fl := w.links[c].queue[0];
            FlightTrue(fl, TablesOf(w)) && Knows(ApplyFrame(w.store, fl.frame), TablesOf(w), Further(known, fl.stop))
  {
    HeadRead(w.links[c], TablesOf(w), known);
    ProbeTables(w.probe, w.held, |w.functions|);
    FlightApplied(w.store, w.links[c].queue[0], TablesOf(w), known);
  }

  lemma {:induction false} MoreTold(read: seq<Flight>, fl: Flight, asked: Asked)
    ensures Reach(read + [fl]) == Further(Reach(read), fl.stop)
    ensures Told(read + [fl], asked)
         == Told(read, asked) + if InReach(Further(Reach(read), fl.stop), KeyOf(asked)) then Amount(fl.drained, asked) else 0
    ensures Carried(read + [fl], asked) == Carried(read, asked) + Amount(fl.drained, asked)
  {
    assert (read + [fl])[..|read|] == read;
  }

  lemma {:induction false} DeliverTells(w: World, c: nat, read: seq<Flight>, asked: Asked)
    requires WorldTrue(w, Reach(read)) && c < |w.links| && w.links[c].queue != []
    requires LogTells(w.store, asked, Told(read, asked))
    ensures FrameOk(w.links[c].queue[0].frame)
    ensures LogTells(ApplyFrame(w.store, w.links[c].queue[0].frame), asked, Told(read + [w.links[c].queue[0]], asked))
  {
    var fl := w.links[c].queue[0];
    HeadApplied(w, c, Reach(read));
    MoreTold(read, fl, asked);
    FlightTells(w.store, fl, TablesOf(w), Further(Reach(read), fl.stop), ApplyFrame(w.store, fl.frame), asked, Told(read, asked));
  }

  /** What a step does to the daemon. */
  lemma {:induction false} StoreMoves(w: World, step: Step, cap: nat)
    requires Enabled(w, step)
    ensures Do(w, step, cap).store ==
              match step
              case Deliver(c) => ApplyFrame(w.store, w.links[c].queue[0].frame)
              case LastDisconnect => Flush(w.store)
              case Restart => FRESH
              case _ => w.store
  {
  }

  lemma {:induction false} StepTells(w: World, step: Step, cap: nat, next: Store, read: seq<Flight>, asked: Asked)
    requires WorldTrue(w, Reach(read)) && Enabled(w, step) && LogTells(w.store, asked, Told(read, asked))
    requires next == Do(w, step, cap).store
    ensures LogTells(next, asked, Told(ReadNow(w, step, read), asked))
  {
    StoreMoves(w, step, cap);
    if step.Deliver? {
      DeliverTells(w, step.link, read, asked);
    } else if step.LastDisconnect? {
      FlushTells(w.store, asked, Told(read, asked));
    }
  }

  lemma {:induction false} RunTells(steps: seq<Step>, cap: nat, asked: Asked)
    ensures LogTells(Play(steps, cap).store, asked, Told(Delivered(steps, cap), asked))
  {
    if steps != [] {
      var front, step := steps[..|steps| - 1], steps[|steps| - 1];
      RunTells(front, cap, asked);
      RunKnows(front, cap);
      if Enabled(Play(front, cap), step) {
        StepTells(Play(front, cap), step, cap, Play(steps, cap).store, Delivered(front, cap), asked);
      }
    }
  }

  // ---------------------------------------------------------------- figures that never lack their name

  /** Of functions, always; of contexts but the root, when no flight had its contexts cut short. */
  predicate NeverCut(flights: seq<Flight>, asked: Asked) {
    KeyOf(asked).OfFunction? || (KeyOf(asked).path != 0 && forall k :: 0 <= k < |flights| ==> flights[k].whole)
  }

  lemma {:induction false} SomeEventAbout(events: seq<Event>, key: Key) returns (k: nat)
    requires Times(events, key) > 0
    ensures k < |events| && About(events[k], key)
  {
    k := |events| - 1;
    if !About(events[k], key) { k := SomeEventAbout(events[..k], key); }
  }

  /** What was drained for a flight is of names it or an earlier one carries. */
  lemma {:induction false} FlightInReach(fl: Flight, t: Tables, asked: Asked)
    requires FlightTrue(fl, t) && NeverCut([fl], asked)
    ensures InReach(fl.stop, KeyOf(asked)) || Amount(fl.drained, asked) == 0
  {
    assert [fl][0].whole == fl.whole;
    if Holding(fl.drained, KeyOf(asked)) {
      assert Times(fl.frame.events, KeyOf(asked)) == 1;
      var k := SomeEventAbout(fl.frame.events, KeyOf(asked));
    } else {
      NothingHeld(fl.drained, asked);
    }
  }

  lemma {:induction false} CarriedMore(read: seq<Flight>, fl: Flight, asked: Asked)
    requires InReach(fl.stop, KeyOf(asked)) || Amount(fl.drained, asked) == 0
    requires Told(read, asked) == Carried(read, asked)
    ensures Told(read + [fl], asked) == Carried(read + [fl], asked)
  {
    MoreTold(read, fl, asked);
  }

  lemma {:induction false} ReadIsCarried(w: World, c: nat, known: Position, asked: Asked)
    requires LinksTrue(w.links, TablesOf(w), known) && c < |w.links| && w.links[c].queue != []
    requires NeverCut([w.links[c].queue[0]], asked)
    ensures InReach(w.links[c].queue[0].stop, KeyOf(asked)) || Amount(w.links[c].queue[0].drained, asked) == 0
  {
    assert LinkTrue(w.links[c], TablesOf(w), known);
    FlightInReach(w.links[c].queue[0], TablesOf(w), asked);
  }

  lemma {:induction false} NeverCutParts(read: seq<Flight>, fl: Flight, asked: Asked)
    requires NeverCut(read + [fl], asked)
    ensures NeverCut(read, asked) && NeverCut([fl], asked)
  {
    assert (read + [fl])[|read|] == fl;
    assert forall k :: 0 <= k < |read| ==> (read + [fl])[k] == read[k];
  }

  lemma {:induction false} ToldIsCarried(steps: seq<Step>, cap: nat, asked: Asked)
    requires NeverCut(Delivered(steps, cap), asked)
    ensures Told(Delivered(steps, cap), asked) == Carried(Delivered(steps, cap), asked)
  {
    if steps != [] {
      var front, step := steps[..|steps| - 1], steps[|steps| - 1];
      var w := Play(front, cap);
      if Enabled(w, step) && step.Deliver? {
        NeverCutParts(Delivered(front, cap), w.links[step.link].queue[0], asked);
        ToldIsCarried(front, cap, asked);
        RunKnows(front, cap);
        ReadIsCarried(w, step.link, Reach(Delivered(front, cap)), asked);
        CarriedMore(Delivered(front, cap), w.links[step.link].queue[0], asked);
      } else if !Enabled(w, step) || !step.Restart? {
        ToldIsCarried(front, cap, asked);
      }
    }
  }

  /** What the daemon shows of it, over the life of the process. */
  function Shown(s: Store, asked: Asked): nat {
    match asked
    case SumOf(figure) => LifetimeRead(s, LoggedAs(figure))
    case SamplesOf(func, index) => if func in s.functions then BinAt(s.functions[func].nsBuckets, index) else 0
  }

  /** Figures are words; samples are counted without bound. */
  function Kept(n: nat, asked: Asked): nat {
    if asked.SumOf? then Clip(n) else n
  }

  lemma {:induction false} LogIsShown(s: Store, asked: Asked, told: nat)
    requires StoreTrue(s) && LogTells(s, asked, told)
    ensures Shown(s, asked) == Kept(told, asked)
  {
    match asked
    case SumOf(figure) => assert TotalTrue(s, LoggedAs(figure));
    case SamplesOf(func, index) => assert HistogramTrue(s, func, index);
  }

  /**
    The daemon's totals are what was drained. After any steps, its lifetime
    total of a asked is what the accumulators drained for the frames it has
    read since it started hold of it, clipped once to a word. Of a function that
    is all they hold, whatever was cut short. Of a context it is all they hold
    from the frame on by which its name had come, and simply all if no frame
    read had its contexts cut short.
   */
  lemma {:induction false} DaemonHoldsWhatWasDrained(steps: seq<Step>, cap: nat, asked: Asked)
    ensures var shown := Shown(Play(steps, cap).store, asked);
            && shown == Kept(Told(Delivered(steps, cap), asked), asked)
            && (NeverCut(Delivered(steps, cap), asked) ==> shown == Kept(Carried(Delivered(steps, cap), asked), asked))
  {
    RunKnows(steps, cap);
    RunTells(steps, cap, asked);
    LogIsShown(Play(steps, cap).store, asked, Told(Delivered(steps, cap), asked));
    if NeverCut(Delivered(steps, cap), asked) { ToldIsCarried(steps, cap, asked); }
  }

  // ---------------------------------------------------------------- where everything drained has got to

  /** The steps of the probe's threads and drains alone. */
  ghost function Threading(steps: seq<Step>, cap: nat): seq<Probe.Step> {
    if steps == [] then []
    else
      var front, step := steps[..|steps| - 1], steps[|steps| - 1];
      Threading(front, cap) + if step.Mutate? && Enabled(Play(front, cap), step) then [step.step] else []
  }

  /** All that drains ever collected, whatever the emitter has done with it since. */
  ghost function EverTaken(steps: seq<Step>, cap: nat): Accum {
    Probe.Play(Probe.START, Threading(steps, cap), cap).taken
  }

  /** What merging adds up exactly; a duration total may move by what bucketing does to it. */
  predicate Additive(asked: Asked) {
    asked.SumOf? ==> !asked.figure.FuncNs?
  }

  lemma {:induction false} AbsorbAmount(mine: Accum, theirs: Accum, asked: Asked)
    requires Additive(asked)
    ensures Amount(AbsorbAccum(mine, theirs), asked) == Amount(mine, asked) + Amount(theirs, asked)
    ensures Amount(NOTHING, asked) == 0
  {
    if asked.SamplesOf? {
      AbsorbedAt(CallAt(mine.calls, asked.func).ns, CallAt(theirs.calls, asked.func).ns, asked.index);
    }
  }

  /** The probe of the joint machine is the probe of its threads' steps, but for what the emitter collected. */
  lemma {:induction false} ProbeIsItsThreads(steps: seq<Step>, cap: nat)
    ensures var probe := Play(steps, cap).probe;
            probe == Probe.Play(Probe.START, Threading(steps, cap), cap).(taken := probe.taken)
  {
    if steps != [] {
      var front, step := steps[..|steps| - 1], steps[|steps| - 1];
      ProbeIsItsThreads(front, cap);
      ThreadingStep(Play(front, cap), step, cap, Play(steps, cap), Threading(front, cap), Threading(steps, cap));
    }
  }

  lemma {:induction false} ThreadingStep(
    w: World, step: Step, cap: nat, next: World, before: seq<Probe.Step>, after: seq<Probe.Step>)
    requires next == if Enabled(w, step) then Do(w, step, cap) else w
    requires after == before + if step.Mutate? && Enabled(w, step) then [step.step] else []
    requires w.probe == Probe.Play(Probe.START, before, cap).(taken := w.probe.taken)
    ensures next.probe == Probe.Play(Probe.START, after, cap).(taken := next.probe.taken)
  {
    if step.Mutate? && Enabled(w, step) {
      assert after[..|after| - 1] == before && after[|after| - 1] == step.step;
      NextAside(Probe.Play(Probe.START, before, cap), w.probe.taken, step.step, cap);
    } else {
      assert after == before;
    }
  }

  /** What has been collected has no bearing on the next step but for itself. */
  lemma {:induction false} NextAside(sys: Probe.System, taken: Accum, step: Probe.Step, cap: nat)
    ensures var next := Probe.Next(sys.(taken := taken), step, cap);
            next == Probe.Next(sys, step, cap).(taken := next.taken)
  {
  }

  lemma {:induction false} ConcatCarried(a: seq<Flight>, b: seq<Flight>, asked: Asked)
    ensures Carried(a + b, asked) == Carried(a, asked) + Carried(b, asked)
  {
    if b == [] {
      assert a + b == a;
    } else {
      assert (a + b)[..|a + b| - 1] == a + b[..|b| - 1];
      ConcatCarried(a, b[..|b| - 1], asked);
    }
  }

  lemma {:induction false} OneCarried(fl: Flight, asked: Asked)
    ensures Carried([fl], asked) == Amount(fl.drained, asked)
  {
    assert [fl][..0] == [];
  }

  lemma {:induction false} StoredInFlight(links: seq<Link>, c: nat, link: Link, asked: Asked)
    requires c < |links|
    ensures InFlight(links[c := link], asked) + Carried(links[c].queue, asked)
         == InFlight(links, asked) + Carried(link.queue, asked)
  {
    var n := |links| - 1;
    if c == n {
      assert links[c := link][..n] == links[..n];
    } else {
      assert links[c := link][..n] == links[..n][c := link];
      StoredInFlight(links[..n], c, link, asked);
    }
  }

  lemma {:induction false} NoneInFlight(links: seq<Link>, asked: Asked)
    ensures InFlight(AllDead(links), asked) == 0
  {
    if links != [] {
      assert AllDead(links)[..|links| - 1] == AllDead(links[..|links| - 1]);
      NoneInFlight(links[..|links| - 1], asked);
    }
  }

  /** What there is of a asked between the drains and the daemon. */
  function OnTheWay(w: World, asked: Asked): nat {
    Amount(w.probe.taken, asked) + HeldAmount(w.held, asked) + InFlight(w.links, asked)
  }

  lemma {:induction false} EmitterAccounts(w: World, step: Step, cap: nat, next: World, asked: Asked)
    requires Enabled(w, step) && next == Do(w, step, cap) && (step.Collect? || step.GiveUp? || step.Greet? || step.SendFrame?)
    ensures OnTheWay(next, asked) + Loses(w, step, [], asked)
         == OnTheWay(w, asked) + if step.Collect? then Amount(NOTHING, asked) else 0
  {
    if step.SendFrame? && step.delivered {
      var c, fl := CurrentLink(w), FlightNow(TablesOf(w), w.marks, step.t, step.events, w.held.value);
      StoredInFlight(w.links, c, Sending(w.links[c], fl), asked);
      ConcatCarried(w.links[c].queue, [fl], asked);
      OneCarried(fl, asked);
    } else if step.Greet? {
      assert (w.links + [NEW_LINK])[..|w.links|] == w.links;
    }
  }

  lemma {:induction false} DeliverAccounts(links: seq<Link>, c: nat, read: seq<Flight>, asked: Asked)
    requires c < |links| && links[c].queue != []
    ensures InFlight(links[c := Read(links[c])], asked) + Carried(read + [links[c].queue[0]], asked)
         == InFlight(links, asked) + Carried(read, asked)
  {
    var q := links[c].queue;
    StoredInFlight(links, c, Read(links[c]), asked);
    assert q == [q[0]] + q[1..];
    ConcatCarried([q[0]], q[1..], asked);
    OneCarried(q[0], asked);
    MoreTold(read, q[0], asked);
  }

  lemma {:induction false} DropAccounts(links: seq<Link>, c: nat, asked: Asked)
    requires c < |links|
    ensures InFlight(links[c := Dead(links[c])], asked) + Carried(links[c].queue, asked) == InFlight(links, asked)
  {
    StoredInFlight(links, c, Dead(links[c]), asked);
  }

  lemma {:induction false} DaemonAccounts(w: World, step: Step, cap: nat, next: World, read: seq<Flight>, asked: Asked)
    requires Enabled(w, step) && next == Do(w, step, cap)
    requires step.Deliver? || step.DropLink? || step.LastDisconnect? || step.Restart?
    ensures OnTheWay(next, asked) + Carried(ReadNow(w, step, read), asked) + Loses(w, step, read, asked)
         == OnTheWay(w, asked) + Carried(read, asked)
  {
    match step
    case Deliver(c) => DeliverAccounts(w.links, c, read, asked);
    case DropLink(c) => DropAccounts(w.links, c, asked);
    case Restart => NoneInFlight(w.links, asked);
    case _ =>
  }

  /** A drain collects the same from the threads whatever was collected before. */
  lemma {:induction false} ThreadAccounts(sys: Probe.System, taken: Accum, step: Probe.Step, cap: nat, asked: Asked)
    requires Additive(asked)
    ensures Amount(Probe.Next(sys.(taken := taken), step, cap).taken, asked) + Amount(sys.taken, asked)
         == Amount(taken, asked) + Amount(Probe.Next(sys, step, cap).taken, asked)
  {
    if step.Drain? {
      AbsorbAmount(taken, Probe.LaneOf(sys, step.tid).thread.accum, asked);
      AbsorbAmount(sys.taken, Probe.LaneOf(sys, step.tid).thread.accum, asked);
    }
  }

  lemma {:induction false} ThreadStepAccounts(w: World, step: Step, cap: nat, next: World, sys: Probe.System, asked: Asked)
    requires Additive(asked) && Enabled(w, step) && step.Mutate? && next == Do(w, step, cap)
    requires w.probe == sys.(taken := w.probe.taken)
    ensures OnTheWay(next, asked) + Amount(sys.taken, asked)
         == OnTheWay(w, asked) + Amount(Probe.Next(sys, step.step, cap).taken, asked)
  {
    ThreadAccounts(sys, w.probe.taken, step.step, cap, asked);
  }

  lemma {:induction false} StepAccounts(w: World, step: Step, cap: nat, next: World, read: seq<Flight>, asked: Asked)
    requires Additive(asked) && Enabled(w, step) && !step.Mutate? && next == Do(w, step, cap)
    ensures OnTheWay(next, asked) + Carried(ReadNow(w, step, read), asked) + Loses(w, step, read, asked)
         == OnTheWay(w, asked) + Carried(read, asked)
  {
    if step.Deliver? || step.DropLink? || step.LastDisconnect? || step.Restart? {
      DaemonAccounts(w, step, cap, next, read, asked);
    } else if step.Collect? || step.GiveUp? || step.Greet? || step.SendFrame? {
      EmitterAccounts(w, step, cap, next, asked);
      AbsorbAmount(NOTHING, NOTHING, asked);
    }
  }

  lemma {:induction false} MoreThreading(before: seq<Probe.Step>, step: Probe.Step, cap: nat)
    ensures Probe.Play(Probe.START, before + [step], cap) == Probe.Next(Probe.Play(Probe.START, before, cap), step, cap)
  {
    assert (before + [step])[..|before|] == before;
  }

  lemma {:induction false} AnyStepAccounts(
    w: World, step: Step, cap: nat, next: World, before: seq<Probe.Step>, after: seq<Probe.Step>, read: seq<Flight>,
    asked: Asked)
    requires Additive(asked) && Enabled(w, step) && next == Do(w, step, cap)
    requires after == before + if step.Mutate? then [step.step] else []
    requires w.probe == Probe.Play(Probe.START, before, cap).(taken := w.probe.taken)
    ensures OnTheWay(next, asked) + Carried(ReadNow(w, step, read), asked) + Loses(w, step, read, asked)
            + Amount(Probe.Play(Probe.START, before, cap).taken, asked)
         == OnTheWay(w, asked) + Carried(read, asked) + Amount(Probe.Play(Probe.START, after, cap).taken, asked)
  {
    if step.Mutate? {
      MoreThreading(before, step.step, cap);
      ThreadStepAccounts(w, step, cap, next, Probe.Play(Probe.START, before, cap), asked);
    } else {
      assert after == before;
      StepAccounts(w, step, cap, next, read, asked);
    }
  }

  /** All that was ever collected is still with the probe, on its way, with the daemon, or gone. */
  lemma {:induction false} TakenIsAccounted(steps: seq<Step>, cap: nat, asked: Asked)
    requires Additive(asked)
    ensures Amount(EverTaken(steps, cap), asked)
         == OnTheWay(Play(steps, cap), asked) + Carried(Delivered(steps, cap), asked) + Gone(steps, cap, asked)
  {
    if steps == [] {
      AbsorbAmount(NOTHING, NOTHING, asked);
    } else {
      var front, step := steps[..|steps| - 1], steps[|steps| - 1];
      TakenIsAccounted(front, cap, asked);
      if Enabled(Play(front, cap), step) {
        ProbeIsItsThreads(front, cap);
        AnyStepAccounts(Play(front, cap), step, cap, Play(steps, cap), Threading(front, cap), Threading(steps, cap),
                        Delivered(front, cap), asked);
      } else {
        assert Threading(steps, cap) == Threading(front, cap);
      }
    }
  }

  // ---------------------------------------------------------------- the threads' own steps are a legal run

  lemma {:induction false} LegalAmongMore(steps: seq<Probe.Step>, cap: nat, funcs: set<nat>, more: set<nat>)
    requires Probe.LegalRun(Probe.START, steps, cap, funcs) && funcs <= more
    ensures Probe.LegalRun(Probe.START, steps, cap, more)
  {
    if steps != [] { LegalAmongMore(steps[..|steps| - 1], cap, funcs, more); }
  }

  lemma {:induction false} FunctionsStay(w: World, step: Step, cap: nat, next: World)
    requires next == if Enabled(w, step) then Do(w, step, cap) else w
    ensures |w.functions| <= |next.functions|
  {
  }

  lemma {:induction false} ThreadsAreLegal(steps: seq<Step>, cap: nat)
    ensures Probe.LegalRun(Probe.START, Threading(steps, cap), cap, Ids(|Play(steps, cap).functions|))
  {
    if steps != [] {
      var front, step := steps[..|steps| - 1], steps[|steps| - 1];
      var w, before := Play(front, cap), Threading(front, cap);
      ThreadsAreLegal(front, cap);
      FunctionsStay(w, step, cap, Play(steps, cap));
      IdsGrow(|w.functions|, |Play(steps, cap).functions|);
      LegalAmongMore(before, cap, Ids(|w.functions|), Ids(|Play(steps, cap).functions|));
      if step.Mutate? && Enabled(w, step) {
        ProbeIsItsThreads(front, cap);
        assert Threading(steps, cap)[..|before|] == before;
        LegalAside(Probe.Play(Probe.START, before, cap), w.probe.taken, step.step, Ids(|w.functions|));
      } else {
        assert Threading(steps, cap) == before;
      }
    }
  }

  lemma {:induction false} LegalAside(sys: Probe.System, taken: Accum, step: Probe.Step, funcs: set<nat>)
    ensures Probe.Legal(sys.(taken := taken), step, funcs) <==> Probe.Legal(sys, step, funcs)
  {
  }

  // ---------------------------------------------------------------- from the threads to the daemon

  function One(duration: int): nat { 1 }

  /** Whether a duration lies in a bucket. */
  function LiesIn(index: nat): int -> nat {
    (duration: int) => if 0 <= duration < U64_LIMIT && BucketOf(duration) == index then 1 else 0
  }

  /** What each finished call of a function counts for. */
  function CountsFor(asked: Asked): int -> nat {
    if asked.SamplesOf? then LiesIn(asked.index) else One
  }

  predicate OfCalls(asked: Asked, func: nat) {
    asked == SumOf(FuncCalls(func)) || (asked.SamplesOf? && asked.func == func)
  }

  lemma {:induction false} TotalledOne(s: seq<int>)
    ensures Durations.Totalled(s, One) == |s|
  {
    if s != [] { TotalledOne(s[..|s| - 1]); }
  }

  lemma {:induction false} TotalledSamples(s: seq<u64>, index: nat)
    ensures Durations.Totalled(s, LiesIn(index)) == At(RawBins(s), index).Samples()
  {
    if s != [] {
      var n := |s| - 1;
      TotalledSamples(s[..n], index);
      assert RawBins(s)[..n] == RawBins(s[..n]);
    }
  }

  /** A recorded figure that holds a list of durations holds what they count for. */
  lemma {:induction false} HeldCounts(a: Accum, func: nat, asked: Asked, durations: seq<int>)
    requires OfCalls(asked, func) && Durations.Holds(CallAt(a.calls, func), durations)
    ensures Durations.Totalled(durations, CountsFor(asked)) == Amount(a, asked)
  {
    if asked.SamplesOf? { TotalledSamples(durations, asked.index); } else { TotalledOne(durations); }
  }

  /** What waits in each thread. */
  ghost function LaneAmount(probe: Probe.System, asked: Asked): nat -> nat {
    (tid: nat) => Amount(Probe.LaneOf(probe, tid).thread.accum, asked)
  }

  lemma {:induction false} LanesCount(
    steps: seq<Probe.Step>, cap: nat, funcs: set<nat>, probe: Probe.System, func: nat, asked: Asked)
    requires Probe.LegalRun(Probe.START, steps, cap, funcs) && OfCalls(asked, func)
    requires probe == Probe.Play(Probe.START, steps, cap).(taken := probe.taken)
    ensures Durations.Totalled(Durations.Lasted(steps, func), CountsFor(asked))
         == SumOver(Durations.Threads(steps), LaneAmount(probe, asked))
            + Amount(Probe.Play(Probe.START, steps, cap).taken, asked)
  {
    var sys := Probe.Play(Probe.START, steps, cap);
    Durations.DurationsAreRecorded(steps, cap, funcs, func, CountsFor(asked));
    HeldCounts(sys.taken, func, asked, Durations.Taken(steps, func));
    forall tid: nat
      ensures Durations.WaitingTotal(steps, func, CountsFor(asked))(tid) == LaneAmount(probe, asked)(tid)
    {
      assert Probe.LaneOf(probe, tid) == Probe.LaneOf(sys, tid);
      HeldCounts(Probe.LaneOf(sys, tid).thread.accum, func, asked, Durations.Waiting(steps, tid, func));
    }
    SumSame(Durations.Threads(steps), Durations.WaitingTotal(steps, func, CountsFor(asked)), LaneAmount(probe, asked));
  }

  lemma {:induction false} FinishedAreAccounted(steps: seq<Step>, cap: nat, func: nat, asked: Asked)
    requires OfCalls(asked, func)
    ensures var w, threading, read := Play(steps, cap), Threading(steps, cap), Carried(Delivered(steps, cap), asked);
            && Durations.Totalled(Durations.Lasted(threading, func), CountsFor(asked))
            == SumOver(Durations.Threads(threading), LaneAmount(w.probe, asked)) + OnTheWay(w, asked) + read
               + Gone(steps, cap, asked)
            && Shown(w.store, asked) == Kept(read, asked)
  {
    ThreadsAreLegal(steps, cap);
    ProbeIsItsThreads(steps, cap);
    LanesCount(Threading(steps, cap), cap, Ids(|Play(steps, cap).functions|), Play(steps, cap).probe, func, asked);
    TakenIsAccounted(steps, cap, asked);
    DaemonHoldsWhatWasDrained(steps, cap, asked);
  }

  /**
    Every call, from the thread that made it to the daemon. After any steps of
    threads, emitter, network and daemon, the finished outermost calls of a
    function, found from the entries and exits alone, are: those waiting in
    threads, those drained and not yet offered to a socket, those in flight,
    those of the frames the daemon has read, and those lost by then with a tick
    that had no listener, a frame not taken over, a connection or an earlier
    daemon. The count the daemon shows is the part it has read, clipped to a word.
   */
  lemma {:induction false} EveryCallIsAccounted(steps: seq<Step>, cap: nat, func: nat)
    ensures var w, threading, asked := Play(steps, cap), Threading(steps, cap), SumOf(FuncCalls(func));
            var read := Carried(Delivered(steps, cap), asked);
            && |Durations.Lasted(threading, func)|
            == SumOver(Durations.Threads(threading), LaneAmount(w.probe, asked)) + OnTheWay(w, asked) + read
               + Gone(steps, cap, asked)
            && LifetimeRead(w.store, CallsOf(func)) == Clip(read)
  {
    FinishedAreAccounted(steps, cap, func, SumOf(FuncCalls(func)));
    TotalledOne(Durations.Lasted(Threading(steps, cap), func));
  }

  /**
    And every duration. Bucket by bucket, the calls that took so long from entry
    to exit are in the same places, and the daemon's histogram of the function is
    the part it has read: no merge, cap or fold on the way moves a call to
    another bucket.
   */
  lemma {:induction false} EveryDurationIsAccounted(steps: seq<Step>, cap: nat, func: nat, index: nat)
    ensures var w, threading, asked := Play(steps, cap), Threading(steps, cap), SamplesOf(func, index);
            var read := Carried(Delivered(steps, cap), asked);
            && Durations.Totalled(Durations.Lasted(threading, func), LiesIn(index))
            == SumOver(Durations.Threads(threading), LaneAmount(w.probe, asked)) + OnTheWay(w, asked) + read
               + Gone(steps, cap, asked)
            && (if func in w.store.functions then BinAt(w.store.functions[func].nsBuckets, index) else 0) == read
  {
    FinishedAreAccounted(steps, cap, func, SamplesOf(func, index));
  }

  function ContextFigure(path: nat, of: ChargeLedger.Figure): Figure {
    match of
    case Nanos => ContextNs(path)
    case Counts => ContextCalls(path)
  }

  lemma {:induction false} ChargesAreHeld(
    steps: seq<Probe.Step>, cap: nat, probe: Probe.System, path: nat, of: ChargeLedger.Figure)
    requires probe == Probe.Play(Probe.START, steps, cap).(taken := probe.taken)
    ensures ChargeLedger.AllCharged(probe, path, of)
         == MapSum(probe.lanes, ChargeLedger.LaneHolds(path, of))
            + Amount(Probe.Play(Probe.START, steps, cap).taken, SumOf(ContextFigure(path, of)))
  {
    ChargeLedger.ChargesAreTheLedger(steps, cap, path, of);
  }

  /**
    Likewise for the self time and the calls of a context: what closing calls
    charged to it on all threads is what waits there, what is on its way, what
    the daemon has read and what is lost. The daemon shows the part it has read,
    clipped to a word, unless the context is the root or the contexts of a frame
    it has read were cut short.
   */
  lemma {:induction false} EveryChargeIsAccounted(steps: seq<Step>, cap: nat, path: nat, of: ChargeLedger.Figure)
    ensures var w, asked := Play(steps, cap), SumOf(ContextFigure(path, of));
            var read := Carried(Delivered(steps, cap), asked);
            && ChargeLedger.AllCharged(w.probe, path, of)
            == MapSum(w.probe.lanes, ChargeLedger.LaneHolds(path, of)) + OnTheWay(w, asked) + read + Gone(steps, cap, asked)
            && (NeverCut(Delivered(steps, cap), asked) ==> Shown(w.store, asked) == Clip(read))
  {
    ProbeIsItsThreads(steps, cap);
    ChargesAreHeld(Threading(steps, cap), cap, Play(steps, cap).probe, path, of);
    TakenIsAccounted(steps, cap, SumOf(ContextFigure(path, of)));
    DaemonHoldsWhatWasDrained(steps, cap, SumOf(ContextFigure(path, of)));
  }
}
