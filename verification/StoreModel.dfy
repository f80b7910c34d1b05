/** What the daemon remembers about one process, and what a frame does to it. */
module StoreModel {
  import opened Basics
  import opened Words
  import opened Distribution
  import opened LogLinear
  import opened PathRegistry
  import opened Ledger
  import opened Windows
  import opened RingModel

  datatype FunctionState = FunctionState(
    name: string, calls: u64, nsTotal: u64, selfNsTotal: u64, nsBuckets: map<nat, nat>)

  datatype TypeState = TypeState(name: string, latest: Option<Reading>)

  datatype Counts = Counts(frames: nat, events: nat, unknownId: nat, malformedLines: nat, lateFrames: nat)

  datatype Register =
    | RegisterFunction(id: nat, name: string)
    | RegisterType(id: nat, name: string)
    | RegisterPath(id: nat, node: PathNode)

  datatype Event =
    | Calls(func: nat, count: nat, ns: Dist)
    | Stack(path: nat, count: nat, selfNs: nat)
    | Census(ty: nat, live: nat, bytes: nat, sizes: Dist)

  datatype Frame = Frame(t: nat, registers: seq<Register>, events: seq<Event>)

  /** `pushed` is every window sent to subscribers; `log`, every event believed, is not stored. */
  datatype Store = Store(
    functions: map<nat, FunctionState>,
    types: map<nat, TypeState>,
    paths: map<nat, PathNode>,
    edges: map<(nat, nat), u64>,
    pathTotals: map<nat, StackDelta>,
    fine: seq<Window>,
    coarse: seq<Window>,
    openIndex: Option<nat>,
    counts: Counts,
    pushed: seq<Window>,
    log: seq<Entry>)

  const FRESH: Store :=
    Store(map[], map[], map[], map[], map[], [], [], None, Counts(0, 0, 0, 0, 0), [], [])

  /** A distribution the fold can take: known buckets, and no index past a `u32` of samples. */
  ghost predicate DistOk(d: Dist) {
    && (d.Raw? || WithinRange(d.b))
    && forall index: nat :: At(Bins(d), index).Samples() <= U32_MAX
  }

  ghost predicate EventOk(e: Event) {
    match e
    case Calls(_, _, ns) => DistOk(ns)
    case Stack(_, _, _) => true
    case Census(_, _, _, sizes) => DistOk(sizes)
  }

  ghost predicate FrameOk(f: Frame) {
    forall k :: 0 <= k < |f.events| ==> EventOk(f.events[k])
  }

  // ---------------------------------------------------------------- registering

  function Named(functions: map<nat, FunctionState>, id: nat, name: string): map<nat, FunctionState> {
    var held := if id in functions then functions[id] else FunctionState("", 0, 0, 0, map[]);
    functions[id := held.(name := name)]
  }

  function TypeNamed(types: map<nat, TypeState>, id: nat, name: string): map<nat, TypeState> {
    var held := if id in types then types[id] else TypeState("", None);
    types[id := held.(name := name)]
  }

  /** Why a context is not taken: out of order, an end unknown, or at odds with what is held. */
  predicate RefusesPath(s: Store, id: nat, node: PathNode) {
    || id <= node.parent
    || node.func !in s.functions
    || (node.parent != 0 && node.parent !in s.paths)
    || (id in s.paths && s.paths[id] != node)
  }

  function OneUnknown(s: Store): Store {
    s.(counts := s.counts.(unknownId := s.counts.unknownId + 1))
  }

  function Admit(s: Store, r: Register): Store {
    match r
    case RegisterFunction(id, name) => s.(functions := Named(s.functions, id, name))
    case RegisterType(id, name) => s.(types := TypeNamed(s.types, id, name))
    case RegisterPath(id, node) =>
      if RefusesPath(s, id, node) then OneUnknown(s) else s.(paths := s.paths[id := node])
  }

  function AdmitAll(s: Store, rs: seq<Register>): Store {
    if rs == [] then s else Admit(AdmitAll(s, rs[..|rs| - 1]), rs[|rs| - 1])
  }

  // ---------------------------------------------------------------- events

  /** The function that reaches `node`; none for a root. */
  function CallerOf(paths: map<nat, PathNode>, node: PathNode): Option<nat> {
    if node.parent == 0 || node.parent !in paths then None else Some(paths[node.parent].func)
  }

  /** What an event says once its id is resolved; none if the id is unknown. */
  ghost function Accept(s: Store, e: Event, t: nat): Option<Accepted>
    requires EventOk(e)
  {
    match e
    case Calls(func, count, ns) =>
      var buckets := Histogram(Bins(ns), 0);
      BucketsWithinRange(ns);
      if func in s.functions then Some(CallsAccepted(func, count, DurationTotal(ns, buckets), buckets)) else None
    case Stack(path, count, selfNs) =>
      if path in s.paths
      then Some(StackAccepted(path, s.paths[path], CallerOf(s.paths, s.paths[path]), count, selfNs))
      else None
    case Census(ty, live, bytes, sizes) =>
      if ty in s.types then Some(CensusAccepted(ty, Reading(live, bytes, Histogram(Bins(sizes), 0), t))) else None
  }

  lemma {:induction false} BucketsWithinRange(d: Dist)
    requires DistOk(d)
    ensures WithinRange(Histogram(Bins(d), 0))
  {
    var h := Histogram(Bins(d), 0);
    forall k | 0 <= k < |h|
      ensures h[k].index <= MAX_BUCKET
    {
      HistogramNames(Bins(d), k);
    }
  }

  function AddBins(held: map<nat, nat>, bins: seq<Bin>): map<nat, nat> {
    if bins == [] then held
    else
      var rest := AddBins(held, bins[..|bins| - 1]);
      var Bin(index, count) := bins[|bins| - 1];
      rest[index := count + if index in rest then rest[index] else 0]
  }

  /** Lifetime totals after one accepted event. */
  function Post(s: Store, a: Accepted, t: nat): Store {
    var log := s.log + [Entry(t, a)];
    match a
    case CallsAccepted(func, count, ns, buckets) =>
      if func !in s.functions then s.(log := log)
      else
        var f := s.functions[func];
        var f' := f.(
          calls := SatAdd(f.calls, count), nsTotal := SatAdd(f.nsTotal, ns), nsBuckets := AddBins(f.nsBuckets, buckets));
        s.(functions := s.functions[func := f'], log := log)
    case StackAccepted(path, node, caller, count, selfNs) =>
      var functions :=
        if node.func !in s.functions then s.functions
        else
          var f := s.functions[node.func];
          s.functions[node.func := f.(selfNsTotal := SatAdd(f.selfNsTotal, selfNs))];
      s.(pathTotals := AddStack(s.pathTotals, path, count, selfNs),
         functions := functions,
         edges := if caller.None? then s.edges else AddEdge(s.edges, caller.value, node.func, count),
         log := log)
    case CensusAccepted(ty, reading) =>
      if ty !in s.types then s.(log := log)
      else s.(types := s.types[ty := s.types[ty].(latest := Newer(s.types[ty].latest, reading))], log := log)
  }

  function OneEvent(s: Store): Store {
    s.(counts := s.counts.(events := s.counts.events + 1))
  }

  ghost function PostEvent(s: Store, e: Event, t: nat): Store
    requires EventOk(e)
  {
    match Accept(s, e, t)
    case None => OneUnknown(OneEvent(s))
    case Some(a) => Post(OneEvent(s), a, t)
  }

  ghost function PostAll(s: Store, es: seq<Event>, t: nat): Store
    requires forall k :: 0 <= k < |es| ==> EventOk(es[k])
  {
    if es == [] then s else PostEvent(PostAll(s, es[..|es| - 1], t), es[|es| - 1], t)
  }

  /** The events of a frame that name known ids, in order. */
  ghost function Survivors(s: Store, es: seq<Event>, t: nat): seq<Accepted>
    requires forall k :: 0 <= k < |es| ==> EventOk(es[k])
  {
    if es == [] then []
    else
      var last := Accept(s, es[|es| - 1], t);
      Survivors(s, es[..|es| - 1], t) + if last.Some? then [last.value] else []
  }

  // ---------------------------------------------------------------- windows

  function FineIndex(t: nat): nat { t / FINE_RESOLUTION_NS }

  /** The open fine window after a frame at `t` arrives. */
  function OpenAfter(openIndex: Option<nat>, t: nat): Option<nat> {
    if openIndex.Some? && FineIndex(t) <= openIndex.value then openIndex else Some(FineIndex(t))
  }

  /** The fine window that a frame at `t` puts out of reach, if the ring holds it. */
  function ClosedBy(s: Store, t: nat): Option<Window> {
    if s.openIndex.Some? && FineIndex(t) > s.openIndex.value then Get(s.fine, s.openIndex.value) else None
  }

  function IntoRings(s: Store, accepted: seq<Accepted>, t: nat): Store {
    if accepted == [] then s
    else
      var late := if Late(s.fine, FineIndex(t)) then 1 else 0;
      s.(coarse := RingAfter(s.coarse, t, AllItems(accepted), COARSE_RESOLUTION_NS, COARSE_CAPACITY),
         fine := RingAfter(s.fine, t, AllItems(accepted), FINE_RESOLUTION_NS, FINE_CAPACITY),
         counts := s.counts.(lateFrames := s.counts.lateFrames + late))
  }

  function Push(s: Store, closed: Option<Window>): Store {
    if closed.Some? then s.(pushed := s.pushed + [closed.value]) else s
  }

  /** The frame counted and its registers in. */
  function Registered(s: Store, f: Frame): Store {
    AdmitAll(OneFrame(s), f.registers)
  }

  function OneFrame(s: Store): Store {
    s.(counts := s.counts.(frames := s.counts.frames + 1))
  }

  function Moved(s: Store, t: nat): Store {
    s.(openIndex := OpenAfter(s.openIndex, t))
  }

  /** The frame's events in: totals first, then the windows its survivors fall in. */
  ghost function Landed(s: Store, f: Frame): Store
    requires FrameOk(f)
  {
    IntoRings(PostAll(s, f.events, f.t), Survivors(s, f.events, f.t), f.t)
  }

  /** One frame folded in. Registers land before events. */
  ghost function ApplyFrame(s: Store, f: Frame): Store
    requires FrameOk(f)
  {
    var named := Registered(s, f);
    Push(Landed(Moved(named, f.t), f), ClosedBy(named, f.t))
  }

  /** Lines that were no usable frame, counted. */
  function Malformed(s: Store, lines: nat): Store {
    s.(counts := s.counts.(malformedLines := s.counts.malformedLines + lines))
  }

  /** The last connection is gone: the window still open is pushed, unless it holds nothing. */
  function Flush(s: Store): Store {
    var sealed := if s.openIndex.Some? then Get(s.fine, s.openIndex.value) else None;
    Push(s.(openIndex := None), if sealed.Some? && !IsEmpty(sealed.value) then sealed else None)
  }

  ghost function ApplyAll(s: Store, frames: seq<Frame>): Store
    requires forall k :: 0 <= k < |frames| ==> FrameOk(frames[k])
  {
    if frames == [] then s else ApplyFrame(ApplyAll(s, frames[..|frames| - 1]), frames[|frames| - 1])
  }
}
