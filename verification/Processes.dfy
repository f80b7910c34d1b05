/** One process's state updated in place, frame by frame, and the registry that admits and ends streams. */
module Processes {
  import opened Basics
  import opened Words
  import opened Distribution
  import opened PathRegistry
  import opened Ledger
  import opened Windows
  import opened RingModel
  import opened StoreModel

  lemma {:induction false} ItemsNonempty(a: Accepted)
    ensures Items(a) != []
  {
  }

  lemma {:induction false} NoItemsNoSurvivors(accepted: seq<Accepted>)
    ensures AllItems(accepted) == [] <==> accepted == []
  {
    if accepted != [] { ItemsNonempty(accepted[|accepted| - 1]); }
  }

  /** Both rings moved and a late frame counted: that is the survivors landing. */
  lemma {:induction false} RingsLanded(before: Store, after: Store, accepted: seq<Accepted>, t: nat)
    requires accepted != []
    requires after == before.(coarse := after.coarse, fine := after.fine, counts := after.counts)
    requires after.coarse == RingAfter(before.coarse, t, AllItems(accepted), COARSE_RESOLUTION_NS, COARSE_CAPACITY)
    requires after.fine == RingAfter(before.fine, t, AllItems(accepted), FINE_RESOLUTION_NS, FINE_CAPACITY)
    requires after.counts == before.counts.(lateFrames := before.counts.lateFrames +
                                              if Late(before.fine, t / FINE_RESOLUTION_NS) then 1 else 0)
    ensures after == IntoRings(before, accepted, t)
  {
  }

  /** A distribution's buckets, and the nanoseconds it stands for. */
  method Measure(ns: Dist) returns (buckets: seq<Bin>, elapsed: u64)
    requires DistOk(ns)
    ensures buckets == Histogram(Bins(ns), 0) && WithinRange(buckets) && elapsed == DurationTotal(ns, buckets)
  {
    buckets := ToBuckets(ns);
    BucketsWithinRange(ns);
    elapsed := DurationTotal(ns, buckets);
  }

  /** What a call event comes to, once measured. */
  lemma {:induction false} CallsResolve(s: Store, e: Event, t: nat, buckets: seq<Bin>, elapsed: u64)
    returns (accepted: Option<Accepted>)
    requires EventOk(e) && e.Calls? && WithinRange(buckets)
    requires buckets == Histogram(Bins(e.ns), 0) && elapsed == DurationTotal(e.ns, buckets)
    ensures accepted == Accept(s, e, t)
    ensures accepted == if e.func in s.functions then Some(CallsAccepted(e.func, e.count, elapsed, buckets)) else None
    ensures PostEvent(s, e, t) == if accepted.Some? then Post(OneEvent(s), accepted.value, t) else OneUnknown(OneEvent(s))
  {
    accepted := Accept(s, e, t);
  }

  class ProcessState {
    var functions: map<nat, FunctionState>
    var types: map<nat, TypeState>
    var paths: map<nat, PathNode>
    var edges: map<(nat, nat), u64>
    var pathTotals: map<nat, StackDelta>
    const fine: Ring
    const coarse: Ring
    var openFineIndex: Option<nat>
    var counts: Counts
    var updates: seq<Window>
    var ended: bool
    var liveConnections: nat
    ghost var log: seq<Entry>

    ghost predicate Valid()
      reads fine, coarse
    {
      && fine.Valid() && coarse.Valid() && fine != coarse
      && fine.resolution == FINE_RESOLUTION_NS && fine.capacity == FINE_CAPACITY
      && coarse.resolution == COARSE_RESOLUTION_NS && coarse.capacity == COARSE_CAPACITY
    }

    ghost function Value(): Store
      reads this, fine, coarse
    {
      Store(functions, types, paths, edges, pathTotals, fine.windows, coarse.windows, openFineIndex, counts, updates, log)
    }

    constructor ()
      ensures Valid() && Value() == FRESH && !ended && liveConnections == 0
      ensures fresh(fine) && fresh(coarse)
    {
      functions, types, paths, edges, pathTotals := map[], map[], map[], map[], map[];
      fine := new Ring(FINE_RESOLUTION_NS, FINE_CAPACITY);
      coarse := new Ring(COARSE_RESOLUTION_NS, COARSE_CAPACITY);
      openFineIndex, counts, updates, ended, liveConnections := None, Counts(0, 0, 0, 0, 0), [], false, 0;
      log := [];
    }

    method RegisterOne(r: Register)
      requires Valid()
      modifies this
      ensures Valid() && Value() == Admit(old(Value()), r)
      ensures ended == old(ended) && liveConnections == old(liveConnections)
    {
      match r {
        case RegisterFunction(id, name) =>
          var entry := if id in functions then functions[id] else FunctionState("", 0, 0, 0, map[]);
          functions := functions[id := entry.(name := name)];
        case RegisterType(id, name) =>
          var entry := if id in types then types[id] else TypeState("", None);
          types := types[id := entry.(name := name)];
        case RegisterPath(id, node) =>
          if id <= node.parent || node.func !in functions {
            CountUnknown();
            return;
          }
          if node.parent != 0 && node.parent !in paths {
            CountUnknown();
            return;
          }
          if id in paths {
            if paths[id] != node {
              CountUnknown();
            } else {
              assert paths[id := node] == paths;
            }
            return;
          }
          paths := paths[id := node];
      }
    }

    method CountUnknown()
      requires Valid()
      modifies this`counts
      ensures Valid() && Value() == OneUnknown(old(Value()))
    {
      counts := counts.(unknownId := counts.unknownId + 1);
    }

    method CountEvent()
      requires Valid()
      modifies this`counts
      ensures Valid() && Value() == OneEvent(old(Value()))
    {
      counts := counts.(events := counts.events + 1);
    }

    /** The fine window that a frame at `t` puts out of reach, if any. */
    method CloseOpenWindowBefore(t: nat) returns (closed: Option<Window>)
      requires Valid()
      modifies this`openFineIndex
      ensures Valid() && Value() == Moved(old(Value()), t)
      ensures closed == ClosedBy(old(Value()), t)
    {
      var index := fine.IndexOf(t);
      match openFineIndex {
        case Some(o) =>
          if index > o {
            openFineIndex := Some(index);
            closed := Get(fine.windows, o);
          } else {
            closed := None;
          }
        case None =>
          openFineIndex := Some(index);
          closed := None;
      }
    }

    method AccumulateCalls(e: Event, t: nat) returns (items: seq<Applied>, ghost accepted: Option<Accepted>)
      requires Valid() && EventOk(e) && e.Calls?
      modifies this
      ensures Valid() && Value() == PostEvent(old(Value()), e, t)
      ensures accepted == Accept(old(Value()), e, t)
      ensures items == if accepted.Some? then Items(accepted.value) else []
      ensures ended == old(ended) && liveConnections == old(liveConnections)
    {
      var buckets, elapsed := Measure(e.ns);
      accepted := CallsResolve(Value(), e, t, buckets, elapsed);
      items := TakeCalls(e.func, e.count, elapsed, buckets, t);
    }

    /** Counts the event, and posts it if the function is known. */
    method TakeCalls(func: nat, count: nat, elapsed: u64, buckets: seq<Bin>, t: nat) returns (items: seq<Applied>)
      requires Valid()
      modifies this`counts, this`functions, this`log
      ensures Valid()
      ensures func in old(functions) ==>
                && Value() == Post(OneEvent(old(Value())), CallsAccepted(func, count, elapsed, buckets), t)
                && items == [CallsApplied(func, count, elapsed)]
      ensures func !in old(functions) ==> Value() == OneUnknown(OneEvent(old(Value()))) && items == []
    {
      CountEvent();
      if func !in functions {
        CountUnknown();
        return [];
      }
      PostCalls(func, count, elapsed, buckets, t);
      items := [CallsApplied(func, count, elapsed)];
    }

    method PostCalls(func: nat, count: nat, elapsed: u64, buckets: seq<Bin>, t: nat)
      requires Valid() && func in functions
      modifies this`functions, this`log
      ensures Valid() && Value() == Post(old(Value()), CallsAccepted(func, count, elapsed, buckets), t)
    {
      var state := functions[func];
      functions := functions[func := state.(
        calls := SatAdd(state.calls, count),
        nsTotal := SatAdd(state.nsTotal, elapsed),
        nsBuckets := AddBins(state.nsBuckets, buckets))];
      log := log + [Entry(t, CallsAccepted(func, count, elapsed, buckets))];
    }

    method PostStack(path: nat, node: PathNode, caller: Option<nat>, count: nat, selfNs: nat, t: nat)
      requires Valid()
      modifies this`functions, this`pathTotals, this`edges, this`log
      ensures Valid() && Value() == Post(old(Value()), StackAccepted(path, node, caller, count, selfNs), t)
    {
      pathTotals := AddStack(pathTotals, path, count, selfNs);
      if node.func in functions {
        var state := functions[node.func];
        functions := functions[node.func := state.(selfNsTotal := SatAdd(state.selfNsTotal, selfNs))];
      }
      if caller.Some? {
        edges := AddEdge(edges, caller.value, node.func, count);
      }
      log := log + [Entry(t, StackAccepted(path, node, caller, count, selfNs))];
    }

    method AccumulateStack(e: Event, t: nat) returns (items: seq<Applied>, ghost accepted: Option<Accepted>)
      requires Valid() && EventOk(e) && e.Stack?
      modifies this
      ensures Valid() && Value() == PostEvent(old(Value()), e, t)
      ensures accepted == Accept(old(Value()), e, t)
      ensures items == if accepted.Some? then Items(accepted.value) else []
      ensures ended == old(ended) && liveConnections == old(liveConnections)
    {
      accepted := Accept(Value(), e, t);
      CountEvent();
      if e.path !in paths {
        CountUnknown();
        return [], accepted;
      }
      var node := paths[e.path];
      var caller := CallerOf(paths, node);
      PostStack(e.path, node, caller, e.count, e.selfNs, t);
      items := [StackApplied(e.path, e.count, e.selfNs)];
      if caller.Some? {
        items := items + [EdgeApplied(caller.value, node.func, e.count)];
      }
    }

    method AccumulateCensus(e: Event, t: nat) returns (items: seq<Applied>, ghost accepted: Option<Accepted>)
      requires Valid() && EventOk(e) && e.Census?
      modifies this
      ensures Valid() && Value() == PostEvent(old(Value()), e, t)
      ensures accepted == Accept(old(Value()), e, t)
      ensures items == if accepted.Some? then Items(accepted.value) else []
      ensures ended == old(ended) && liveConnections == old(liveConnections)
    {
      accepted := Accept(Value(), e, t);
      CountEvent();
      var buckets := ToBuckets(e.sizes);
      var reading := Reading(e.live, e.bytes, buckets, t);
      if e.ty !in types {
        CountUnknown();
        return [], accepted;
      }
      var state := types[e.ty];
      var newerAlreadyHeld := state.latest.Some? && state.latest.value.at > reading.at;
      if !newerAlreadyHeld {
        types := types[e.ty := state.(latest := Some(reading))];
      } else {
        assert types == types[e.ty := state.(latest := Newer(state.latest, reading))];
      }
      log := log + [Entry(t, accepted.value)];
      items := [CensusApplied(e.ty, reading)];
    }

    /** One event: counted, and believed only if it names a known id. */
    method AccumulateOne(e: Event, t: nat) returns (items: seq<Applied>, ghost accepted: Option<Accepted>)
      requires Valid() && EventOk(e)
      modifies this
      ensures Valid() && Value() == PostEvent(old(Value()), e, t)
      ensures accepted == Accept(old(Value()), e, t)
      ensures items == if accepted.Some? then Items(accepted.value) else []
      ensures ended == old(ended) && liveConnections == old(liveConnections)
    {
      match e {
        case Calls(_, _, _) => items, accepted := AccumulateCalls(e, t);
        case Stack(_, _, _) => items, accepted := AccumulateStack(e, t);
        case Census(_, _, _, _) => items, accepted := AccumulateCensus(e, t);
      }
    }

    method AccumulateTotals(events: seq<Event>, t: nat) returns (items: seq<Applied>, ghost accepted: seq<Accepted>)
      requires Valid() && forall k :: 0 <= k < |events| ==> EventOk(events[k])
      modifies this
      ensures Valid() && Value() == PostAll(old(Value()), events, t)
      ensures accepted == Survivors(old(Value()), events, t) && items == AllItems(accepted)
      ensures ended == old(ended) && liveConnections == old(liveConnections)
    {
      items, accepted := [], [];
      ghost var before := Value();
      for k := 0 to |events|
        invariant Valid() && Value() == PostAll(before, events[..k], t)
        invariant SameResolution(before, Value())
        invariant accepted == Survivors(before, events[..k], t) && items == AllItems(accepted)
        invariant ended == old(ended) && liveConnections == old(liveConnections)
      {
        assert events[..k + 1][..k] == events[..k];
        ghost var mid := Value();
        ghost var a;
        var more;
        more, a := AccumulateOne(events[k], t);
        EventKeepsNames(before, mid, events[k], t);
        if a.Some? {
          assert (accepted + [a.value])[..|accepted|] == accepted;
          accepted := accepted + [a.value];
        }
        items := items + more;
      }
      assert events[..|events|] == events;
    }

    /** Each ring takes the survivors its own way; a fine ring past them counts a late frame. */
    method FoldIntoRings(items: seq<Applied>, t: nat, ghost accepted: seq<Accepted>)
      requires Valid() && items == AllItems(accepted)
      modifies this`counts, fine, coarse
      ensures Valid() && Value() == IntoRings(old(Value()), accepted, t)
    {
      NoItemsNoSurvivors(accepted);
      if items == [] {
        return;
      }
      ghost var before := Value();
      var _ := coarse.Receive(t, items);
      var landed := fine.Receive(t, items);
      if !landed {
        counts := counts.(lateFrames := counts.lateFrames + 1);
      }
      RingsLanded(before, Value(), accepted, t);
    }

    method Send(closed: Option<Window>)
      requires Valid()
      modifies this`updates
      ensures Valid() && Value() == Push(old(Value()), closed)
    {
      if closed.Some? {
        updates := updates + [closed.value];
      }
    }

    method RegisterAll(registers: seq<Register>)
      requires Valid()
      modifies this
      ensures Valid() && Value() == AdmitAll(old(Value()), registers)
      ensures ended == old(ended) && liveConnections == old(liveConnections)
    {
      ghost var before := Value();
      for k := 0 to |registers|
        invariant Valid() && Value() == AdmitAll(before, registers[..k])
        invariant ended == old(ended) && liveConnections == old(liveConnections)
      {
        assert registers[..k + 1][..k] == registers[..k];
        RegisterOne(registers[k]);
      }
      assert registers[..|registers|] == registers;
    }

    method Land(f: Frame)
      requires Valid() && FrameOk(f)
      modifies this, fine, coarse
      ensures Valid() && Value() == Landed(old(Value()), f)
      ensures ended == old(ended) && liveConnections == old(liveConnections)
    {
      ghost var accepted;
      var items;
      items, accepted := AccumulateTotals(f.events, f.t);
      FoldIntoRings(items, f.t, accepted);
    }

    method CountFrame()
      requires Valid()
      modifies this`counts
      ensures Valid() && Value() == OneFrame(old(Value()))
    {
      counts := counts.(frames := counts.frames + 1);
    }

    /** Folds one frame in. Registers land before events, so a frame may name an id it introduces. */
    method Apply(f: Frame)
      requires Valid() && FrameOk(f)
      modifies this, fine, coarse
      ensures Valid() && Value() == ApplyFrame(old(Value()), f)
      ensures ended == old(ended) && liveConnections == old(liveConnections)
    {
      CountFrame();
      RegisterAll(f.registers);
      var closed := CloseOpenWindowBefore(f.t);
      Land(f);
      Send(closed);
    }

    method NoteMalformedLine()
      requires Valid()
      modifies this`counts
      ensures Valid() && Value() == Malformed(old(Value()), 1)
    {
      counts := counts.(malformedLines := counts.malformedLines + 1);
    }

    /** Seals the window still open, so the last thing a dying process did is sent. */
    method FlushOpenWindow()
      requires Valid()
      modifies this`openFineIndex, this`updates
      ensures Valid() && Value() == Flush(old(Value()))
    {
      if openFineIndex.Some? {
        var window := Get(fine.windows, openFineIndex.value);
        openFineIndex := None;
        if window.Some? && !IsEmpty(window.value) {
          Send(window);
        }
      }
    }

    method Admitted()
      requires Valid()
      modifies this`ended, this`liveConnections
      ensures Valid() && Value() == old(Value())
      ensures !ended && liveConnections == old(liveConnections) + 1
    {
      ended := false;
      liveConnections := liveConnections + 1;
    }

    /** Ends the process once its last connection is gone. */
    method Dropped()
      requires Valid()
      modifies this
      ensures Valid()
      ensures liveConnections == SatSub(old(liveConnections), 1)
      ensures liveConnections == 0 ==> ended && Value() == Flush(old(Value()))
      ensures liveConnections > 0 ==> ended == old(ended) && Value() == old(Value())
    {
      liveConnections := SatSub(liveConnections, 1);
      if liveConnections == 0 {
        ended := true;
        FlushOpenWindow();
      }
    }
  }

  /** The names an event is resolved against do not change while a frame's events are posted. */
  ghost predicate SameResolution(s: Store, s': Store) {
    s'.functions.Keys == s.functions.Keys && s'.types.Keys == s.types.Keys && s'.paths == s.paths
  }

  lemma {:induction false} EventKeepsNames(s: Store, mid: Store, e: Event, t: nat)
    requires EventOk(e) && SameResolution(s, mid)
    ensures Accept(s, e, t) == Accept(mid, e, t)
    ensures SameResolution(s, PostEvent(mid, e, t))
  {
  }

  /** Every process seen, by id. A stream that comes back resumes its own history. */
  class Registry {
    var processes: map<nat, ProcessState>

    /** No two processes share any state. */
    ghost predicate Apart(a: ProcessState, b: ProcessState) {
      a != b && {a.fine, a.coarse} !! {b.fine, b.coarse}
    }

    ghost predicate Valid()
      reads this, set p <- processes.Values :: p.fine, set p <- processes.Values :: p.coarse
    {
      && (forall id :: id in processes ==> processes[id].Valid())
      && (forall a, b :: a in processes && b in processes && a != b ==> Apart(processes[a], processes[b]))
    }

    constructor ()
      ensures Valid() && processes == map[]
    {
      processes := map[];
    }

    /** The process of that id, made now if there is none. */
    method Entry(id: nat) returns (p: ProcessState)
      requires Valid()
      modifies this
      ensures Valid() && p.Valid() && processes == old(processes)[id := p]
      ensures id in old(processes) ==> p == old(processes)[id]
      ensures id !in old(processes) ==>
                fresh(p) && fresh(p.fine) && fresh(p.coarse) && p.Value() == FRESH && p.liveConnections == 0
    {
      if id in processes {
        p := processes[id];
        assert processes[id := p] == processes;
      } else {
        p := new ProcessState();
        Joined(id, p);
        processes := processes[id := p];
      }
    }

    /** A process of its own beside the others. */
    lemma {:induction false} Joined(id: nat, p: ProcessState)
      requires Valid() && p.Valid() && id !in processes
      requires forall other :: other in processes ==> Apart(processes[other], p) && Apart(p, processes[other])
      ensures var all := processes[id := p];
              && (forall k :: k in all ==> all[k].Valid())
              && (forall a, b :: a in all && b in all && a != b ==> Apart(all[a], all[b]))
    {
    }

    method Connect(id: nat) returns (p: ProcessState)
      requires Valid()
      modifies this, if id in processes then {processes[id]} else {}
      ensures Valid() && p.Valid() && processes == old(processes)[id := p]
      ensures id in old(processes) ==> p == old(processes)[id] && p.Value() == old(processes[id].Value())
      ensures id !in old(processes) ==> fresh(p) && fresh(p.fine) && fresh(p.coarse) && p.Value() == FRESH
      ensures !p.ended && p.liveConnections == 1 + if id in old(processes) then old(processes[id].liveConnections) else 0
    {
      p := Entry(id);
      p.Admitted();
    }

    /** A connection is gone; an id never seen is ignored. */
    method Disconnect(id: nat)
      requires Valid()
      modifies if id in processes then {processes[id]} else {}
      ensures Valid()
      ensures id in processes ==>
                var p := processes[id];
                && p.Valid() && p.liveConnections == SatSub(old(p.liveConnections), 1)
                && p.Value() == (if p.liveConnections == 0 then Flush(old(p.Value())) else old(p.Value()))
                && (p.liveConnections == 0 ==> p.ended)
                && (p.liveConnections > 0 ==> p.ended == old(p.ended))
    {
      if id in processes {
        processes[id].Dropped();
      }
    }
  }
}
