/** How long the rings remember: a window is dropped only when the newest is a full ring ahead of it. */
module RingHistory {
  import opened Basics
  import opened Ledger
  import opened Windows
  import opened RingModel
  import opened StoreModel
  import opened StoreInvariant
  import opened FrameTotals
  import opened UpdateStream

  datatype Grain = Fine | Coarse

  function RingOf(s: Store, grain: Grain): seq<Window> {
    if grain.Fine? then s.fine else s.coarse
  }

  function ResolutionOf(grain: Grain): nat {
    if grain.Fine? then FINE_RESOLUTION_NS else COARSE_RESOLUTION_NS
  }

  function CapacityOf(grain: Grain): nat {
    if grain.Fine? then FINE_CAPACITY else COARSE_CAPACITY
  }

  function IndexOf(t: nat, grain: Grain): nat {
    t / ResolutionOf(grain)
  }

  /** Some event of the frame names something the process knows once it is applied. */
  predicate Believed(after: Store, f: Frame) {
    exists j :: 0 <= j < |f.events| && NamesKnown(after, f.events[j])
  }

  // ---------------------------------------------------------------- one frame

  lemma {:induction false} LandedRings(s: Store, f: Frame, grain: Grain)
    requires FrameOk(f) && StoreTrue(s)
    ensures RingOf(Landed(s, f), grain) == RingMoves(RingOf(s, grain), f.t, Survivors(s, f.events, f.t), grain)
  {
    PostAllKeepsTrue(s, f.events, f.t);
  }

  function RingMoves(ws: seq<Window>, t: nat, accepted: seq<Accepted>, grain: Grain): seq<Window> {
    if accepted == [] then ws else RingAfter(ws, t, AllItems(accepted), ResolutionOf(grain), CapacityOf(grain))
  }

  lemma {:induction false} PushLeavesRings(landed: Store, closed: Option<Window>, grain: Grain)
    ensures RingOf(Push(landed, closed), grain) == RingOf(landed, grain)
  {
  }

  lemma {:induction false} FrameRings(s: Store, f: Frame, grain: Grain)
    requires FrameOk(f) && StoreTrue(s)
    ensures RingOf(ApplyFrame(s, f), grain) == RingMoves(RingOf(s, grain), f.t, SurvivorsOf(s, f), grain)
  {
    var named := Registered(s, f);
    RegisteredKeepsTrue(s, f);
    MovedKeepsTrue(named, f.t);
    AdmitAllFrame(OneFrame(s), f.registers);
    LandedRings(Moved(named, f.t), f, grain);
    SurvivorsNamed(s, f);
    PushLeavesRings(Landed(Moved(named, f.t), f), ClosedBy(named, f.t), grain);
    assert RingOf(Moved(named, f.t), grain) == RingOf(s, grain);
  }

  lemma {:induction false} SurvivorsBelieved(s: Store, es: seq<Event>, t: nat)
    requires forall k :: 0 <= k < |es| ==> EventOk(es[k])
    ensures Survivors(s, es, t) != [] <==> exists j :: 0 <= j < |es| && NamesKnown(s, es[j])
  {
    if es != [] {
      var front, e := es[..|es| - 1], es[|es| - 1];
      SurvivorsBelieved(s, front, t);
      EventIsBelieved(s, e, t, FuncCalls(0));
      assert forall j :: 0 <= j < |front| ==> front[j] == es[j];
      if j :| 0 <= j < |front| && NamesKnown(s, front[j]) { assert NamesKnown(s, es[j]); }
    }
  }

  lemma {:induction false} SameNamesBelieve(s: Store, s': Store, f: Frame)
    requires SameNames(s, s')
    ensures Believed(s, f) == Believed(s', f)
  {
    assert forall j :: 0 <= j < |f.events| ==> (NamesKnown(s, f.events[j]) <==> NamesKnown(s', f.events[j]));
  }

  lemma {:induction false} BelievedSurvives(s: Store, f: Frame, next: Store)
    requires FrameOk(f) && StoreTrue(s) && next == ApplyFrame(s, f)
    ensures Believed(next, f) <==> SurvivorsOf(s, f) != []
  {
    AdmittedNames(s, f);
    SurvivorsBelieved(AdmitAll(s, f.registers), f.events, f.t);
    SameNamesBelieve(AdmitAll(s, f.registers), next, f);
  }

  lemma {:induction false} RingsAreTrue(s: Store, grain: Grain)
    requires StoreTrue(s)
    ensures RingTrue(RingOf(s, grain), s.log, ResolutionOf(grain), CapacityOf(grain))
  {
  }

  /** One more frame drops no window within reach of the newest, and the newest does not go back. */
  lemma {:induction false} FrameKeepsHistory(s: Store, f: Frame, next: Store, grain: Grain, held: nat)
    requires FrameOk(f) && StoreTrue(s) && next == ApplyFrame(s, f) && Get(RingOf(s, grain), held).Some?
    ensures RingOf(next, grain) != [] && Newest(RingOf(s, grain)) <= Newest(RingOf(next, grain))
    ensures held + CapacityOf(grain) > Newest(RingOf(next, grain)) ==> Get(RingOf(next, grain), held).Some?
  {
    FrameRings(s, f, grain);
    RingsAreTrue(s, grain);
    if SurvivorsOf(s, f) != [] {
      ArrivalKeepsHistory(RingOf(s, grain), f.t, AllItems(SurvivorsOf(s, f)), ResolutionOf(grain), CapacityOf(grain), held);
      RingRefinesLog(RingOf(s, grain), s.log, f.t, SurvivorsOf(s, f), ResolutionOf(grain), CapacityOf(grain));
    }
  }

  /** A frame believed in time has its window. */
  lemma {:induction false} ArrivesHeld(s: Store, f: Frame, next: Store, grain: Grain)
    requires FrameOk(f) && StoreTrue(s) && next == ApplyFrame(s, f) && Believed(next, f)
    ensures Get(RingOf(next, grain), IndexOf(f.t, grain)).Some? <==> !Late(RingOf(s, grain), IndexOf(f.t, grain))
  {
    FrameRings(s, f, grain);
    RingsAreTrue(s, grain);
    BelievedSurvives(s, f, next);
    var ws, items := RingOf(s, grain), AllItems(SurvivorsOf(s, f));
    if !Late(ws, IndexOf(f.t, grain)) {
      ArrivalIs(ws, f.t, items, ResolutionOf(grain), CapacityOf(grain));
      PlacedKeepsPlace(Slid(ws, IndexOf(f.t, grain), ResolutionOf(grain), CapacityOf(grain)), IndexOf(f.t, grain), items,
                       IndexOf(f.t, grain));
    }
  }

  // ---------------------------------------------------------------- any run

  lemma {:induction false} RunKeepsHistory(frames: seq<Frame>, i: nat, grain: Grain, held: nat)
    requires i <= |frames| && forall k :: 0 <= k < |frames| ==> FrameOk(frames[k])
    requires Get(RingOf(ApplyAll(FRESH, frames[..i]), grain), held).Some?
    ensures var ws := RingOf(ApplyAll(FRESH, frames), grain);
            && ws != [] && Newest(RingOf(ApplyAll(FRESH, frames[..i]), grain)) <= Newest(ws)
            && (held + CapacityOf(grain) > Newest(ws) ==> Get(ws, held).Some?)
    decreases |frames|
  {
    if i == |frames| {
      assert frames[..i] == frames;
    } else {
      var front := frames[..|frames| - 1];
      assert front[..i] == frames[..i];
      RunKeepsHistory(front, i, grain, held);
      ReachedIsTrue(front);
      OneMoreKeeps(ApplyAll(FRESH, front), frames[|frames| - 1], ApplyAll(FRESH, frames), grain, held);
    }
  }

  lemma {:induction false} OneMoreKeeps(s: Store, f: Frame, next: Store, grain: Grain, held: nat)
    requires FrameOk(f) && StoreTrue(s) && next == ApplyFrame(s, f) && RingOf(s, grain) != []
    requires held + CapacityOf(grain) > Newest(RingOf(s, grain)) ==> Get(RingOf(s, grain), held).Some?
    ensures RingOf(next, grain) != [] && Newest(RingOf(s, grain)) <= Newest(RingOf(next, grain))
    ensures held + CapacityOf(grain) > Newest(RingOf(next, grain)) ==> Get(RingOf(next, grain), held).Some?
  {
    RingsAreTrue(s, grain);
    var newest := Newest(RingOf(s, grain));
    assert Get(RingOf(s, grain), newest).Some?;
    FrameKeepsHistory(s, f, next, grain, newest);
    if held + CapacityOf(grain) > newest { FrameKeepsHistory(s, f, next, grain, held); }
  }

  /** A ring never reaches back further than its capacity. */
  lemma {:induction false} ReachIsBounded(s: Store, grain: Grain, held: nat)
    requires StoreTrue(s) && Get(RingOf(s, grain), held).Some?
    ensures held + CapacityOf(grain) > Newest(RingOf(s, grain))
  {
    RingsAreTrue(s, grain);
    var ws := RingOf(s, grain);
    assert ws[|ws| - 1].index == ws[0].index + (|ws| - 1);
  }

  /**
    What the rings remember. Whatever the order of frame times and however long
    the silences, a frame believed in time is still in a window of the ring, of
    either grain, exactly as long as the newest window is less than a capacity
    ahead of it; and nothing believed is newer than the newest window.
   */
  lemma {:induction false} RingsRemember(frames: seq<Frame>, i: nat, grain: Grain)
    requires i < |frames| && forall k :: 0 <= k < |frames| ==> FrameOk(frames[k])
    requires Believed(ApplyAll(FRESH, frames[..i + 1]), frames[i])
    ensures var met, ws := RingOf(ApplyAll(FRESH, frames[..i]), grain), RingOf(ApplyAll(FRESH, frames), grain);
            var index := IndexOf(frames[i].t, grain);
            && ws != [] && index <= Newest(ws)
            && (met == [] || met[0].index <= index ==>
                  (Get(ws, index).Some? <==> index + CapacityOf(grain) > Newest(ws)))
  {
    var s, f, next := ApplyAll(FRESH, frames[..i]), frames[i], ApplyAll(FRESH, frames[..i + 1]);
    assert frames[..i + 1][..i] == frames[..i];
    ReachedIsTrue(frames[..i]);
    ReachedIsTrue(frames[..i + 1]);
    ReachedIsTrue(frames);
    ArrivesHeld(s, f, next, grain);
    NewestReached(s, f, next, grain);
    NewestHeld(next, grain);
    RunKeepsHistory(frames, i + 1, grain, Newest(RingOf(next, grain)));
    if !Late(RingOf(s, grain), IndexOf(f.t, grain)) {
      RunKeepsHistory(frames, i + 1, grain, IndexOf(f.t, grain));
      if Get(RingOf(ApplyAll(FRESH, frames), grain), IndexOf(f.t, grain)).Some? {
        ReachIsBounded(ApplyAll(FRESH, frames), grain, IndexOf(f.t, grain));
      }
    }
  }

  lemma {:induction false} NewestHeld(s: Store, grain: Grain)
    requires StoreTrue(s) && RingOf(s, grain) != []
    ensures Get(RingOf(s, grain), Newest(RingOf(s, grain))).Some?
  {
    RingsAreTrue(s, grain);
    var ws := RingOf(s, grain);
    assert ws[|ws| - 1].index == ws[0].index + (|ws| - 1);
  }

  lemma {:induction false} NewestReached(s: Store, f: Frame, next: Store, grain: Grain)
    requires FrameOk(f) && StoreTrue(s) && next == ApplyFrame(s, f) && Believed(next, f)
    ensures RingOf(next, grain) != [] && IndexOf(f.t, grain) <= Newest(RingOf(next, grain))
  {
    FrameRings(s, f, grain);
    RingsAreTrue(s, grain);
    BelievedSurvives(s, f, next);
    RingRefinesLog(RingOf(s, grain), s.log, f.t, SurvivorsOf(s, f), ResolutionOf(grain), CapacityOf(grain));
  }

  // ---------------------------------------------------------------- frames that came too late

  /** The frames believed whose fine window was no longer there to take them. */
  ghost function TooLate(frames: seq<Frame>): nat
    requires forall k :: 0 <= k < |frames| ==> FrameOk(frames[k])
  {
    if frames == [] then 0
    else
      var f, s := frames[|frames| - 1], ApplyAll(FRESH, frames);
      TooLate(frames[..|frames| - 1]) + if Believed(s, f) && Get(s.fine, FineIndex(f.t)).None? then 1 else 0
  }

  lemma {:induction false} FrameIsLate(s: Store, f: Frame, next: Store)
    requires FrameOk(f) && StoreTrue(s) && next == ApplyFrame(s, f)
    ensures next.counts.lateFrames == s.counts.lateFrames +
              if Believed(next, f) && Get(next.fine, FineIndex(f.t)).None? then 1 else 0
  {
    FrameMoves(s, f);
    BelievedSurvives(s, f, next);
    if Believed(next, f) {
      ArrivesHeld(s, f, next, Fine);
      assert IndexOf(f.t, Fine) == FineIndex(f.t) && RingOf(next, Fine) == next.fine;
    }
  }

  /** The late counter counts exactly them. */
  lemma {:induction false} LateFramesCounted(frames: seq<Frame>)
    requires forall k :: 0 <= k < |frames| ==> FrameOk(frames[k])
    ensures ApplyAll(FRESH, frames).counts.lateFrames == TooLate(frames)
  {
    if frames != [] {
      var front := frames[..|frames| - 1];
      LateFramesCounted(front);
      ReachedIsTrue(front);
      FrameIsLate(ApplyAll(FRESH, front), frames[|frames| - 1], ApplyAll(FRESH, frames));
    }
  }
}
