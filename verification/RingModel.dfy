/** A fixed-length run of contiguous windows, newest at the back. */
module RingModel {
  import opened Basics
  import opened Words
  import opened Ledger
  import opened Windows

  const FINE_RESOLUTION_NS: nat := 100_000_000
  const FINE_CAPACITY: nat := 600
  const COARSE_RESOLUTION_NS: nat := 1_000_000_000
  const COARSE_CAPACITY: nat := 900

  predicate Contiguous(ws: seq<Window>) {
    forall k :: 0 <= k < |ws| ==> ws[k].index == ws[0].index + k
  }

  function Oldest(ws: seq<Window>): nat
    requires ws != []
  {
    ws[0].index
  }

  function Newest(ws: seq<Window>): nat
    requires ws != []
  {
    ws[|ws| - 1].index
  }

  /** The window held for an index, if the ring still reaches it. */
  function Get(ws: seq<Window>, index: nat): Option<Window> {
    if ws == [] || index < ws[0].index || index - ws[0].index >= |ws| then None
    else Some(ws[index - ws[0].index])
  }

  /** An index before the oldest window has nowhere to land. */
  predicate Late(ws: seq<Window>, index: nat) {
    ws != [] && index < Oldest(ws)
  }

  function Blank(from: nat, n: nat, resolution: nat): seq<Window> {
    seq(n, k requires 0 <= k < n => EmptyWindow(from + k, resolution))
  }

  function Trim(ws: seq<Window>, capacity: nat): seq<Window> {
    if |ws| > capacity then ws[|ws| - capacity..] else ws
  }

  /** The ring once it reaches `index`: idle windows appear, the oldest fall off, a long gap restarts it. */
  function Slid(ws: seq<Window>, index: nat, resolution: nat, capacity: nat): seq<Window>
    requires capacity > 0
  {
    if ws == [] then [EmptyWindow(index, resolution)]
    else if index <= Newest(ws) then ws
    else
      var gap := index - Newest(ws);
      if gap >= capacity then [EmptyWindow(index, resolution)]
      else Trim(ws + Blank(Newest(ws) + 1, gap, resolution), capacity)
  }

  /** The ring after a frame's survivors arrive at `t`. */
  function RingAfter(ws: seq<Window>, t: nat, items: seq<Applied>, resolution: nat, capacity: nat): seq<Window>
    requires capacity > 0 && resolution > 0
  {
    var index := t / resolution;
    var slid := Slid(ws, index, resolution, capacity);
    if Late(ws, index) || Get(slid, index).None? then ws
    else slid[index - slid[0].index := Fold(slid[index - slid[0].index], items)]
  }

  // ---------------------------------------------------------------- the ring is the fold of the log

  ghost predicate RingShape(ws: seq<Window>, resolution: nat, capacity: nat) {
    && resolution > 0 && capacity > 0
    && Contiguous(ws) && |ws| <= capacity
    && forall k :: 0 <= k < |ws| ==> ws[k].resolution == resolution
  }

  ghost predicate WindowsMatch(ws: seq<Window>, log: seq<Entry>, resolution: nat) {
    forall k :: 0 <= k < |ws| ==> Matches(ws[k], log, Slot(resolution, ws[k].index))
  }

  /** The newest window is the latest any entry fell in. */
  ghost predicate NewestIs(ws: seq<Window>, log: seq<Entry>, resolution: nat)
    requires resolution > 0
  {
    && (ws == [] <==> log == [])
    && (ws != [] ==>
          && (forall k :: 0 <= k < |log| ==> log[k].t / resolution <= Newest(ws))
          && (exists k :: 0 <= k < |log| && log[k].t / resolution == Newest(ws)))
  }

  ghost predicate RingTrue(ws: seq<Window>, log: seq<Entry>, resolution: nat, capacity: nat) {
    && RingShape(ws, resolution, capacity)
    && WindowsMatch(ws, log, resolution)
    && NewestIs(ws, log, resolution)
  }

  lemma {:induction false} BlankAt(from: nat, n: nat, resolution: nat, k: nat)
    requires k < n
    ensures Blank(from, n, resolution)[k] == EmptyWindow(from + k, resolution)
  {
  }

  /** Idle windows carry the run on. */
  lemma {:induction false} BlankCarriesOn(ws: seq<Window>, gap: nat, resolution: nat)
    requires Contiguous(ws) && ws != []
    ensures var all := ws + Blank(Newest(ws) + 1, gap, resolution);
            && Contiguous(all) && all[0] == ws[0] && Newest(all) == Newest(ws) + gap
            && forall k :: 0 <= k < |all| ==> all[k] == if k < |ws| then ws[k] else EmptyWindow(ws[0].index + k, resolution)
  {
    var blank := Blank(Newest(ws) + 1, gap, resolution);
    var all := ws + blank;
    forall k | 0 <= k < |all|
      ensures all[k] == if k < |ws| then ws[k] else EmptyWindow(ws[0].index + k, resolution)
    {
      if k >= |ws| {
        assert all[k] == blank[k - |ws|];
        BlankAt(Newest(ws) + 1, gap, resolution, k - |ws|);
      }
    }
    forall k | 0 <= k < |all|
      ensures all[k].index == all[0].index + k
    {
      if k < |ws| { assert ws[k].index == ws[0].index + k; }
    }
  }

  lemma {:induction false} TrimAt(all: seq<Window>, capacity: nat, k: nat)
    requires Contiguous(all) && capacity > 0 && k < |Trim(all, capacity)|
    ensures var s := Trim(all, capacity);
            s[k] == all[|all| - |s| + k] && s[k].index == all[0].index + (|all| - |s|) + k
  {
    assert all[|all| - |Trim(all, capacity)| + k].index == all[0].index + (|all| - |Trim(all, capacity)| + k);
  }

  /** Dropping the oldest windows of a run leaves a run. */
  lemma {:induction false} TrimKeepsRun(all: seq<Window>, capacity: nat)
    requires Contiguous(all) && all != [] && capacity > 0
    ensures var s := Trim(all, capacity);
            && Contiguous(s) && 0 < |s| <= capacity && s[0].index >= all[0].index && Newest(s) == Newest(all)
            && (forall k :: 0 <= k < |s| ==> s[k].index >= all[0].index && s[k] == all[|all| - |s| + k])
  {
    var s := Trim(all, capacity);
    TrimAt(all, capacity, 0);
    TrimAt(all, capacity, |s| - 1);
    forall k | 0 <= k < |s|
      ensures s[k] == all[|all| - |s| + k] && s[k].index == s[0].index + k
    {
      TrimAt(all, capacity, k);
    }
  }

  lemma {:induction false} SlidGap(ws: seq<Window>, gap: nat, resolution: nat, capacity: nat)
    requires RingShape(ws, resolution, capacity) && ws != [] && 0 < gap < capacity
    ensures var s := Trim(ws + Blank(Newest(ws) + 1, gap, resolution), capacity);
            && RingShape(s, resolution, capacity) && s != [] && Newest(s) == Newest(ws) + gap && Oldest(ws) <= Oldest(s)
            && forall k :: 0 <= k < |s| ==> FromOrBlank(ws, s[k], resolution)
  {
    var all := ws + Blank(Newest(ws) + 1, gap, resolution);
    var s := Trim(all, capacity);
    BlankCarriesOn(ws, gap, resolution);
    TrimKeepsRun(all, capacity);
    forall k | 0 <= k < |s|
      ensures s[k].resolution == resolution && FromOrBlank(ws, s[k], resolution)
    {
      assert s[k] == all[|all| - |s| + k];
      CarriedOn(ws, gap, resolution, |all| - |s| + k);
    }
  }

  lemma {:induction false} CarriedOn(ws: seq<Window>, gap: nat, resolution: nat, j: nat)
    requires Contiguous(ws) && ws != [] && j < |ws| + gap
    requires forall k :: 0 <= k < |ws| ==> ws[k].resolution == resolution
    ensures var w := (ws + Blank(Newest(ws) + 1, gap, resolution))[j];
            w.resolution == resolution && FromOrBlank(ws, w, resolution)
  {
    BlankCarriesOn(ws, gap, resolution);
    assert ws[|ws| - 1].index == ws[0].index + (|ws| - 1);
    if j < |ws| { assert ws[j].index == ws[0].index + j; }
  }

  /** A window the ring had, or a blank one past its newest. */
  ghost predicate FromOrBlank(ws: seq<Window>, w: Window, resolution: nat) {
    || (ws != [] && w.index <= Newest(ws) && Get(ws, w.index) == Some(w))
    || (w == EmptyWindow(w.index, resolution) && (ws == [] || w.index > Newest(ws)))
  }

  /** Where the ring reaches after sliding, and that every window it then holds is an old one or blank. */
  ghost predicate SlidFacts(ws: seq<Window>, s: seq<Window>, index: nat, resolution: nat, capacity: nat) {
    && RingShape(s, resolution, capacity) && s != []
    && Newest(s) == (if ws == [] || index > Newest(ws) then index else Newest(ws))
    && (ws != [] ==> Oldest(ws) <= Oldest(s))
    && (forall k :: 0 <= k < |s| ==> FromOrBlank(ws, s[k], resolution))
  }

  lemma {:induction false} SlidShape(ws: seq<Window>, index: nat, resolution: nat, capacity: nat)
    requires RingShape(ws, resolution, capacity)
    ensures SlidFacts(ws, Slid(ws, index, resolution, capacity), index, resolution, capacity)
    ensures !Late(ws, index) ==> Get(Slid(ws, index, resolution, capacity), index).Some?
  {
    var s := Slid(ws, index, resolution, capacity);
    if ws != [] { assert ws[|ws| - 1].index == ws[0].index + (|ws| - 1); }
    if ws == [] || index >= Newest(ws) + capacity {
      assert s == [EmptyWindow(index, resolution)];
    } else if index <= Newest(ws) {
      StayedPut(ws, index, resolution, capacity);
    } else {
      SlidGap(ws, index - Newest(ws), resolution, capacity);
      assert s[|s| - 1].index == s[0].index + (|s| - 1);
    }
  }

  /** Trimming drops only what is a full capacity behind the newest. */
  lemma {:induction false} TrimKeepsHistory(all: seq<Window>, capacity: nat, k: nat)
    requires Contiguous(all) && capacity > 0 && k < |all| && all[k].index + capacity > Newest(all)
    ensures Get(Trim(all, capacity), all[k].index) == Some(all[k])
  {
    var s := Trim(all, capacity);
    var drop := |all| - |s|;
    assert all[k].index == all[0].index + k && all[|all| - 1].index == all[0].index + (|all| - 1);
    assert all[drop].index == all[0].index + drop;
    assert s[0] == all[drop] && s[k - drop] == all[k];
  }

  lemma {:induction false} GapKeepsHistory(ws: seq<Window>, gap: nat, resolution: nat, capacity: nat, k: nat)
    requires Contiguous(ws) && capacity > 0 && k < |ws| && ws[k].index + capacity > Newest(ws) + gap
    ensures var s := Trim(ws + Blank(Newest(ws) + 1, gap, resolution), capacity);
            Get(s, ws[k].index) == Some(ws[k])
  {
    var all := ws + Blank(Newest(ws) + 1, gap, resolution);
    BlankCarriesOn(ws, gap, resolution);
    assert all[k] == ws[k];
    TrimKeepsHistory(all, capacity, k);
  }

  /** Sliding drops a window only once the newest is a full capacity past it. */
  lemma {:induction false} SlidKeepsHistory(ws: seq<Window>, index: nat, resolution: nat, capacity: nat, k: nat)
    requires RingShape(ws, resolution, capacity) && k < |ws|
    ensures var s := Slid(ws, index, resolution, capacity);
            s != [] && (ws[k].index + capacity > Newest(s) ==> Get(s, ws[k].index) == Some(ws[k]))
  {
    SlidShape(ws, index, resolution, capacity);
    assert ws[k].index == ws[0].index + k && ws[|ws| - 1].index == ws[0].index + (|ws| - 1);
    if Newest(ws) < index && ws[k].index + capacity > index {
      GapKeepsHistory(ws, index - Newest(ws), resolution, capacity, k);
    }
  }

  /** What an arrival that is not late does: the ring slides, and one window of it is folded into. */
  lemma {:induction false} ArrivalIs(ws: seq<Window>, t: nat, items: seq<Applied>, resolution: nat, capacity: nat)
    requires RingShape(ws, resolution, capacity) && !Late(ws, t / resolution)
    ensures var s, index := Slid(ws, t / resolution, resolution, capacity), t / resolution;
            && SlidFacts(ws, s, index, resolution, capacity) && Get(s, index).Some?
            && RingAfter(ws, t, items, resolution, capacity) == Placed(s, index, items)
  {
    SlidShape(ws, t / resolution, resolution, capacity);
  }

  function Placed(s: seq<Window>, index: nat, items: seq<Applied>): seq<Window>
    requires Get(s, index).Some?
  {
    var at := index - s[0].index;
    s[at := Fold(s[at], items)]
  }

  lemma {:induction false} PlacedKeepsPlace(s: seq<Window>, index: nat, items: seq<Applied>, held: nat)
    requires Get(s, index).Some?
    ensures var s' := Placed(s, index, items);
            && s' != [] && s'[0].index == s[0].index && Newest(s') == Newest(s)
            && (Get(s', held).Some? <==> Get(s, held).Some?)
            && (held != index ==> Get(s', held) == Get(s, held))
  {
    FoldKeepsPlace(s[index - s[0].index], items);
  }

  /** Arriving survivors drop no window still within reach. */
  lemma {:induction false} ArrivalKeepsHistory(
    ws: seq<Window>, t: nat, items: seq<Applied>, resolution: nat, capacity: nat, held: nat)
    requires RingShape(ws, resolution, capacity) && Get(ws, held).Some?
    ensures var ws' := RingAfter(ws, t, items, resolution, capacity);
            && ws' != []
            && (held + capacity > Newest(ws') ==>
                  Get(ws', held).Some? && (held != t / resolution ==> Get(ws', held) == Get(ws, held)))
  {
    var index := t / resolution;
    if !Late(ws, index) {
      ArrivalIs(ws, t, items, resolution, capacity);
      PlacedKeepsPlace(Slid(ws, index, resolution, capacity), index, items, held);
      HeldThrough(ws, index, resolution, capacity, held);
    }
  }

  lemma {:induction false} HeldThrough(ws: seq<Window>, index: nat, resolution: nat, capacity: nat, held: nat)
    requires RingShape(ws, resolution, capacity) && Get(ws, held).Some?
    ensures var s := Slid(ws, index, resolution, capacity);
            s != [] && (held + capacity > Newest(s) ==> Get(s, held) == Get(ws, held))
  {
    var k := held - ws[0].index;
    assert ws[k].index == held;
    SlidKeepsHistory(ws, index, resolution, capacity, k);
  }

  lemma {:induction false} FoldKeepsPlace(w: Window, items: seq<Applied>)
    ensures Fold(w, items).index == w.index && Fold(w, items).resolution == w.resolution
  {
    if items != [] { FoldKeepsPlace(w, items[..|items| - 1]); }
  }

  lemma {:induction false} StayedPut(ws: seq<Window>, index: nat, resolution: nat, capacity: nat)
    requires RingShape(ws, resolution, capacity) && ws != [] && index <= Newest(ws)
    ensures SlidFacts(ws, ws, index, resolution, capacity)
  {
    forall k | 0 <= k < |ws|
      ensures FromOrBlank(ws, ws[k], resolution)
    {
      assert ws[k].index == ws[0].index + k && ws[|ws| - 1].index == ws[0].index + (|ws| - 1);
    }
  }

  lemma {:induction false} SlidMatches(ws: seq<Window>, log: seq<Entry>, index: nat, resolution: nat, capacity: nat)
    requires RingTrue(ws, log, resolution, capacity)
    ensures WindowsMatch(Slid(ws, index, resolution, capacity), log, resolution)
  {
    var s := Slid(ws, index, resolution, capacity);
    SlidShape(ws, index, resolution, capacity);
    forall k | 0 <= k < |s|
      ensures Matches(s[k], log, Slot(resolution, s[k].index))
    {
      assert FromOrBlank(ws, s[k], resolution);
      if ws != [] && s[k].index <= Newest(ws) {
        assert s[k] == ws[s[k].index - ws[0].index];
      } else {
        EmptyMatches(s[k].index, resolution, log, Slot(resolution, s[k].index));
      }
    }
  }

  /**
    Whatever the order of frame times, a frame's survivors leave every window
    the ring holds equal to the fold of all survivors ever applied whose time
    falls in it; and the oldest index never goes back.
   */
  lemma {:induction false} RingRefinesLog(
    ws: seq<Window>, log: seq<Entry>, t: nat, accepted: seq<Accepted>, resolution: nat, capacity: nat)
    requires RingTrue(ws, log, resolution, capacity) && accepted != []
    ensures var ws' := RingAfter(ws, t, AllItems(accepted), resolution, capacity);
            && RingTrue(ws', log + Stamp(accepted, t), resolution, capacity)
            && ws' != [] && (ws != [] ==> Oldest(ws) <= Oldest(ws'))
            && Newest(ws') == (if ws == [] || t / resolution > Newest(ws) then t / resolution else Newest(ws))
  {
    var index, more := t / resolution, Stamp(accepted, t);
    var ws' := RingAfter(ws, t, AllItems(accepted), resolution, capacity);
    if Late(ws, index) {
      assert ws[|ws| - 1].index == ws[0].index + (|ws| - 1);
      LateMatches(ws, log, more, index, resolution);
    } else {
      OnTime(ws, log, t, accepted, resolution, capacity);
    }
    NewestMoves(ws, ws', log, more, t, resolution);
  }

  lemma {:induction false} OnTime(
    ws: seq<Window>, log: seq<Entry>, t: nat, accepted: seq<Accepted>, resolution: nat, capacity: nat)
    requires RingTrue(ws, log, resolution, capacity) && !Late(ws, t / resolution)
    ensures var ws' := RingAfter(ws, t, AllItems(accepted), resolution, capacity);
            && RingShape(ws', resolution, capacity) && WindowsMatch(ws', log + Stamp(accepted, t), resolution)
            && ws' != [] && (ws != [] ==> Oldest(ws) <= Oldest(ws'))
            && Newest(ws') == (if ws == [] || t / resolution > Newest(ws) then t / resolution else Newest(ws))
  {
    var index := t / resolution;
    var s := Slid(ws, index, resolution, capacity);
    ArrivalIs(ws, t, AllItems(accepted), resolution, capacity);
    SlidMatches(ws, log, index, resolution, capacity);
    PlacedMatches(s, log, index, t, accepted, resolution);
    PlacedShape(s, Placed(s, index, AllItems(accepted)), index - s[0].index, resolution, capacity);
  }

  lemma {:induction false} PlacedShape(s: seq<Window>, s': seq<Window>, at: nat, resolution: nat, capacity: nat)
    requires RingShape(s, resolution, capacity) && at < |s| && |s'| == |s|
    requires s' == s[at := s'[at]] && s'[at].index == s[at].index && s'[at].resolution == s[at].resolution
    ensures RingShape(s', resolution, capacity) && Oldest(s') == Oldest(s) && Newest(s') == Newest(s)
  {
  }

  lemma {:induction false} LateMatches(ws: seq<Window>, log: seq<Entry>, more: seq<Entry>, index: nat, resolution: nat)
    requires resolution > 0 && Contiguous(ws) && Late(ws, index) && WindowsMatch(ws, log, resolution)
    requires forall k :: 0 <= k < |more| ==> more[k].t / resolution == index
    ensures WindowsMatch(ws, log + more, resolution)
  {
    forall k | 0 <= k < |ws|
      ensures Matches(ws[k], log + more, Slot(resolution, ws[k].index))
    {
      OutsideMatches(ws[k], log, more, Slot(resolution, ws[k].index));
    }
  }

  lemma {:induction false} PlacedMatches(
    s: seq<Window>, log: seq<Entry>, index: nat, t: nat, accepted: seq<Accepted>, resolution: nat)
    requires resolution > 0 && Contiguous(s) && WindowsMatch(s, log, resolution)
    requires index == t / resolution && Get(s, index).Some?
    ensures var at := index - s[0].index;
            var s' := s[at := Fold(s[at], AllItems(accepted))];
            && s'[at].index == s[at].index && s'[at].resolution == s[at].resolution
            && WindowsMatch(s', log + Stamp(accepted, t), resolution)
  {
    var at := index - s[0].index;
    var s' := s[at := Fold(s[at], AllItems(accepted))];
    FoldedAllMatches(s[at], log, Slot(resolution, index), accepted, t);
    forall k | 0 <= k < |s'|
      ensures Matches(s'[k], log + Stamp(accepted, t), Slot(resolution, s'[k].index))
    {
      if k != at { OutsideMatches(s[k], log, Stamp(accepted, t), Slot(resolution, s[k].index)); }
    }
  }

  lemma {:induction false} NewestMoves(ws: seq<Window>, ws': seq<Window>, log: seq<Entry>, more: seq<Entry>, t: nat, resolution: nat)
    requires resolution > 0 && NewestIs(ws, log, resolution) && ws' != [] && more != []
    requires forall k :: 0 <= k < |more| ==> more[k].t == t
    requires Newest(ws') == if ws == [] || t / resolution > Newest(ws) then t / resolution else Newest(ws)
    ensures NewestIs(ws', log + more, resolution)
  {
    forall k | 0 <= k < |log + more|
      ensures (log + more)[k].t / resolution <= Newest(ws')
    {
      if k >= |log| { assert (log + more)[k] == more[k - |log|]; }
    }
    if ws == [] || t / resolution > Newest(ws) {
      assert (log + more)[|log|] == more[0];
    } else {
      var k :| 0 <= k < |log| && log[k].t / resolution == Newest(ws);
      assert (log + more)[k] == log[k];
    }
  }

  // ---------------------------------------------------------------- the ring in place

  class Ring {
    const resolution: nat
    const capacity: nat
    var windows: seq<Window>

    predicate Valid()
      reads this
    {
      && resolution > 0 && capacity > 0
      && Contiguous(windows) && |windows| <= capacity
    }

    constructor (resolution: nat, capacity: nat)
      requires resolution > 0 && capacity > 0
      ensures Valid() && windows == []
      ensures this.resolution == resolution && this.capacity == capacity
    {
      this.resolution, this.capacity := resolution, capacity;
      windows := [];
    }

    function IndexOf(t: nat): nat
      requires resolution > 0
    {
      t / resolution
    }

    /**
      The position of the window covering `t`, materializing it and any idle
      windows before it; none when `t` predates the oldest window still held.
     */
    method WindowFor(t: nat) returns (offset: Option<nat>)
      requires Valid()
      modifies this
      ensures Valid()
      ensures offset.None? <==> Late(old(windows), t / resolution)
      ensures offset.None? ==> windows == old(windows)
      ensures offset.Some? ==>
                && windows == Slid(old(windows), t / resolution, resolution, capacity)
                && offset.value < |windows| && offset.value == t / resolution - windows[0].index
    {
      var index := IndexOf(t);
      if windows == [] {
        windows := [EmptyWindow(index, resolution)];
      } else if index > Newest(windows) {
        if index - Newest(windows) >= capacity {
          windows := [EmptyWindow(index, resolution)];
        } else {
          MaterializeTo(index);
        }
      } else if index < Oldest(windows) {
        return None;
      }
      Evict();
      offset := Some(index - windows[0].index);
    }

    /** Pushes idle windows after the newest, up to and including `index`. */
    method MaterializeTo(index: nat)
      requires Contiguous(windows) && windows != [] && index >= Newest(windows)
      modifies this
      ensures windows == old(windows) + Blank(old(Newest(windows)) + 1, index - old(Newest(windows)), resolution)
      ensures Contiguous(windows)
    {
      ghost var before := windows;
      var newest := Newest(windows);
      for missing := newest + 1 to index + 1
        invariant windows == before + Blank(newest + 1, missing - newest - 1, resolution)
      {
        windows := windows + [EmptyWindow(missing, resolution)];
      }
      BlankCarriesOn(before, index - newest, resolution);
    }

    /** Pops the oldest windows while there are more than the ring holds. */
    method Evict()
      requires capacity > 0 && Contiguous(windows)
      modifies this
      ensures windows == Trim(old(windows), capacity)
      ensures Contiguous(windows)
    {
      ghost var all := windows;
      if windows != [] { TrimKeepsRun(windows, capacity); }
      while |windows| > capacity
        invariant |windows| >= capacity || windows == all
        invariant |windows| <= |all| && windows == all[|all| - |windows|..]
      {
        windows := windows[1..];
      }
    }

    /** Folds items into the window at a position, one after another. */
    method FoldAt(offset: nat, items: seq<Applied>)
      requires Valid() && offset < |windows|
      modifies this
      ensures Valid()
      ensures windows == old(windows)[offset := Fold(old(windows)[offset], items)]
    {
      for k := 0 to |items|
        invariant Valid() && |windows| == |old(windows)|
        invariant windows == old(windows)[offset := Fold(old(windows)[offset], items[..k])]
      {
        assert items[..k + 1][..k] == items[..k];
        FoldKeepsIndex(windows[offset], items[k]);
        windows := windows[offset := FoldOne(windows[offset], items[k])];
      }
      assert items[..|items|] == items;
    }

    /** Folds a frame's survivors in, and says whether there was a window for them. */
    method Receive(t: nat, items: seq<Applied>) returns (landed: bool)
      requires Valid()
      modifies this
      ensures Valid()
      ensures landed <==> !Late(old(windows), t / resolution)
      ensures windows == RingAfter(old(windows), t, items, resolution, capacity)
    {
      var offset := WindowFor(t);
      if offset.None? {
        return false;
      }
      FoldAt(offset.value, items);
      return true;
    }
  }

  lemma {:induction false} FoldKeepsIndex(w: Window, item: Applied)
    ensures FoldOne(w, item).index == w.index
  {
  }
}
