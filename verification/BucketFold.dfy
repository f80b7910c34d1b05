/** The client's fold of the daemon's windows into the buckets every view shares. */
module BucketFold {
  import opened Basics
  import opened Sums

  datatype StackRow = StackRow(path: nat, calls: nat, selfNs: nat)
  datatype CallRow = CallRow(func: nat, calls: nat, ns: nat)
  datatype CensusRow = CensusRow(ty: nat, live: nat, bytes: nat)

  /** A window as it arrives over the socket. */
  datatype Window = Window(index: nat, stacks: seq<StackRow>, calls: seq<CallRow>, census: seq<CensusRow>)

  datatype StackHeld = StackHeld(calls: nat, selfNs: nat)
  datatype CallHeld = CallHeld(calls: nat, ns: nat)
  datatype CensusHeld = CensusHeld(live: nat, bytes: nat, carried: bool)

  datatype Bucket = Bucket(
    key: nat,
    stacks: map<nat, StackHeld>,
    calls: map<nat, CallHeld>,
    census: map<nat, CensusHeld>,
    empty: bool)

  function EmptyBucket(key: nat): Bucket {
    Bucket(key, map[], map[], map[], true)
  }

  /** `Math.max(1, Math.round(bucketMs / windowMs))`: how many windows a bucket spans. */
  function WindowsPer(bucketMs: nat, windowMs: nat): (per: nat)
    requires windowMs > 0
    ensures per >= 1
  {
    var rounded := (2 * bucketMs + windowMs) / (2 * windowMs);
    if rounded < 1 then 1 else rounded
  }

  function AddStack(b: Bucket, row: StackRow): Bucket {
    var held := if row.path in b.stacks then b.stacks[row.path] else StackHeld(0, 0);
    b.(stacks := b.stacks[row.path := StackHeld(held.calls + row.calls, held.selfNs + row.selfNs)], empty := false)
  }

  function AddCall(b: Bucket, row: CallRow): Bucket {
    var held := if row.func in b.calls then b.calls[row.func] else CallHeld(0, 0);
    b.(calls := b.calls[row.func := CallHeld(held.calls + row.calls, held.ns + row.ns)], empty := false)
  }

  function SetCensus(b: Bucket, row: CensusRow): Bucket {
    b.(census := b.census[row.ty := CensusHeld(row.live, row.bytes, false)], empty := false)
  }

  function AddStacks(b: Bucket, rows: seq<StackRow>): Bucket {
    if rows == [] then b else AddStack(AddStacks(b, rows[..|rows| - 1]), rows[|rows| - 1])
  }

  function AddCalls(b: Bucket, rows: seq<CallRow>): Bucket {
    if rows == [] then b else AddCall(AddCalls(b, rows[..|rows| - 1]), rows[|rows| - 1])
  }

  function SetCensuses(b: Bucket, rows: seq<CensusRow>): Bucket {
    if rows == [] then b else SetCensus(SetCensuses(b, rows[..|rows| - 1]), rows[|rows| - 1])
  }

  function AddWindow(b: Bucket, w: Window): Bucket {
    SetCensuses(AddCalls(AddStacks(b, w.stacks), w.calls), w.census)
  }

  /** The bucket at `key` once the windows falling in it are folded. */
  function Filled(windows: seq<Window>, per: nat, key: nat): Bucket
    requires per > 0
  {
    if windows == [] then EmptyBucket(key)
    else
      var w := windows[|windows| - 1];
      var before := Filled(windows[..|windows| - 1], per, key);
      if w.index / per == key then AddWindow(before, w) else before
  }

  /** Readings an earlier bucket ended with, marked as carried, wherever this one has none of its own. */
  function CarryInto(own: map<nat, CensusHeld>, previous: map<nat, CensusHeld>): map<nat, CensusHeld> {
    map ty | ty in own.Keys + previous.Keys :: if ty in own then own[ty] else previous[ty].(carried := true)
  }

  function CensusThrough(filled: seq<Bucket>, k: nat): map<nat, CensusHeld>
    requires k < |filled|
  {
    CarryInto(filled[k].census, if k == 0 then map[] else CensusThrough(filled, k - 1))
  }

  predicate Ascending(windows: seq<Window>) {
    forall i, j :: 0 <= i < j < |windows| ==> windows[i].index <= windows[j].index
  }

  function FirstKey(windows: seq<Window>, per: nat): nat
    requires windows != [] && per > 0
  {
    windows[0].index / per
  }

  function LastKey(windows: seq<Window>, per: nat): nat
    requires windows != [] && per > 0
  {
    windows[|windows| - 1].index / per
  }

  /** The buckets before readings are carried forward. */
  function AllFilled(windows: seq<Window>, per: nat, first: nat, n: nat): seq<Bucket>
    requires per > 0
  {
    seq(n, k requires 0 <= k < n => Filled(windows, per, first + k))
  }

  function WithCensus(filled: seq<Bucket>): seq<Bucket> {
    seq(|filled|, k requires 0 <= k < |filled| => filled[k].(census := CensusThrough(filled, k)))
  }

  /** The whole fold, as a function of the windows and how many make a bucket. */
  function Folded(windows: seq<Window>, per: nat): seq<Bucket>
    requires per > 0
  {
    if windows == [] then []
    else
      var first, last := FirstKey(windows, per), LastKey(windows, per);
      WithCensus(AllFilled(windows, per, first, if last < first then 0 else last - first + 1))
  }

  // ---------------------------------------------------------------- the fold in place

  method FoldRows(b: Bucket, w: Window) returns (b': Bucket)
    ensures b' == AddWindow(b, w)
  {
    b' := b;
    for k := 0 to |w.stacks|
      invariant b' == AddStacks(b, w.stacks[..k])
    {
      assert w.stacks[..k + 1][..k] == w.stacks[..k];
      b' := AddStack(b', w.stacks[k]);
    }
    assert w.stacks[..|w.stacks|] == w.stacks;
    ghost var stacked := b';
    for k := 0 to |w.calls|
      invariant b' == AddCalls(stacked, w.calls[..k])
    {
      assert w.calls[..k + 1][..k] == w.calls[..k];
      b' := AddCall(b', w.calls[k]);
    }
    assert w.calls[..|w.calls|] == w.calls;
    ghost var called := b';
    for k := 0 to |w.census|
      invariant b' == SetCensuses(called, w.census[..k])
    {
      assert w.census[..k + 1][..k] == w.census[..k];
      b' := SetCensus(b', w.census[k]);
    }
    assert w.census[..|w.census|] == w.census;
  }

  lemma {:induction false} FilledByNothing(per: nat, first: nat, n: nat)
    requires per > 0
    ensures |AllFilled([], per, first, n)| == n
    ensures forall k :: 0 <= k < n ==> AllFilled([], per, first, n)[k] == EmptyBucket(first + k)
  {
    forall k | 0 <= k < n
      ensures AllFilled([], per, first, n)[k] == EmptyBucket(first + k)
    {
      assert Filled([], per, first + k) == EmptyBucket(first + k);
    }
  }

  method FillBuckets(windows: seq<Window>, per: nat, first: nat, n: nat) returns (buckets: seq<Bucket>)
    requires per > 0
    ensures buckets == AllFilled(windows, per, first, n)
  {
    buckets := [];
    for key := first to first + n
      invariant |buckets| == key - first
      invariant forall k :: 0 <= k < |buckets| ==> buckets[k] == EmptyBucket(first + k)
    {
      buckets := buckets + [EmptyBucket(key)];
    }
    assert windows[..0] == [];
    FilledByNothing(per, first, n);
    for i := 0 to |windows|
      invariant buckets == AllFilled(windows[..i], per, first, n)
    {
      var w := windows[i];
      ghost var before := buckets;
      assert windows[..i + 1][..i] == windows[..i];
      var key := w.index / per;
      if first <= key < first + n {
        var filled := FoldRows(buckets[key - first], w);
        buckets := buckets[key - first := filled];
      }
      forall k | 0 <= k < n
        ensures buckets[k] == Filled(windows[..i + 1], per, first + k)
      {
        assert before[k] == Filled(windows[..i], per, first + k);
      }
    }
    assert windows[..|windows|] == windows;
  }

  lemma {:induction false} CarryOne(filled: seq<Bucket>, k: nat)
    requires k < |filled|
    ensures var done, now := WithCensus(filled), WithCensus(filled)[..k] + filled[k..];
            && now[k] == filled[k]
            && now[k := now[k].(census := CensusThrough(filled, k))] == done[..k + 1] + filled[k + 1..]
  {
    var done := WithCensus(filled);
    assert done[k] == filled[k].(census := CensusThrough(filled, k));
  }

  method CarryForward(filled: seq<Bucket>) returns (buckets: seq<Bucket>)
    ensures buckets == WithCensus(filled)
  {
    buckets := filled;
    var previous: map<nat, CensusHeld> := map[];
    for k := 0 to |filled|
      invariant previous == if k == 0 then map[] else CensusThrough(filled, k - 1)
      invariant buckets == WithCensus(filled)[..k] + filled[k..]
    {
      CarryOne(filled, k);
      previous := CarryInto(buckets[k].census, previous);
      buckets := buckets[k := buckets[k].(census := previous)];
    }
  }

  // ---------------------------------------------------------------- deltas add

  datatype Query = PathCalls(path: nat) | PathSelf(path: nat) | FuncCalls(func: nat) | FuncNs(func: nat) | AllSelf

  function SelfOf(held: StackHeld): nat { held.selfNs }

  ghost function Read(b: Bucket, q: Query): nat {
    match q
    case PathCalls(path) => if path in b.stacks then b.stacks[path].calls else 0
    case PathSelf(path) => if path in b.stacks then b.stacks[path].selfNs else 0
    case FuncCalls(func) => if func in b.calls then b.calls[func].calls else 0
    case FuncNs(func) => if func in b.calls then b.calls[func].ns else 0
    case AllSelf => MapSum(b.stacks, SelfOf)
  }

  function StackShare(rows: seq<StackRow>, q: Query): nat {
    if rows == [] then 0
    else
      var row := rows[|rows| - 1];
      StackShare(rows[..|rows| - 1], q)
      + match q
        case PathCalls(path) => if row.path == path then row.calls else 0
        case PathSelf(path) => if row.path == path then row.selfNs else 0
        case AllSelf => row.selfNs
        case _ => 0
  }

  function CallShare(rows: seq<CallRow>, q: Query): nat {
    if rows == [] then 0
    else
      var row := rows[|rows| - 1];
      CallShare(rows[..|rows| - 1], q)
      + match q
        case FuncCalls(func) => if row.func == func then row.calls else 0
        case FuncNs(func) => if row.func == func then row.ns else 0
        case _ => 0
  }

  /** What one window says of a quantity. */
  function Share(w: Window, q: Query): nat {
    StackShare(w.stacks, q) + CallShare(w.calls, q)
  }

  function WindowsTotal(windows: seq<Window>, q: Query): nat {
    if windows == [] then 0 else WindowsTotal(windows[..|windows| - 1], q) + Share(windows[|windows| - 1], q)
  }

  /** What the windows of an index range say of a quantity. */
  function TotalWithin(windows: seq<Window>, from: nat, to: nat, q: Query): nat {
    if windows == [] then 0
    else
      var w := windows[|windows| - 1];
      TotalWithin(windows[..|windows| - 1], from, to, q) + if from <= w.index < to then Share(w, q) else 0
  }

  ghost function BucketsTotal(buckets: seq<Bucket>, q: Query): nat {
    if buckets == [] then 0 else BucketsTotal(buckets[..|buckets| - 1], q) + Read(buckets[|buckets| - 1], q)
  }

  lemma {:induction false} StacksAdd(b: Bucket, rows: seq<StackRow>, q: Query)
    ensures Read(AddStacks(b, rows), q) == Read(b, q) + StackShare(rows, q)
    ensures AddStacks(b, rows).census == b.census && AddStacks(b, rows).key == b.key
  {
    if rows != [] {
      var front, row := rows[..|rows| - 1], rows[|rows| - 1];
      StacksAdd(b, front, q);
      var mid := AddStacks(b, front);
      if q.AllSelf? {
        var held := AddStack(mid, row).stacks[row.path];
        MapSumStore(mid.stacks, row.path, held, SelfOf);
        if row.path in mid.stacks { assert WeightAt(mid.stacks, SelfOf)(row.path) == SelfOf(mid.stacks[row.path]); }
      }
    }
  }

  lemma {:induction false} CallsAdd(b: Bucket, rows: seq<CallRow>, q: Query)
    ensures Read(AddCalls(b, rows), q) == Read(b, q) + CallShare(rows, q)
    ensures AddCalls(b, rows).census == b.census && AddCalls(b, rows).stacks == b.stacks && AddCalls(b, rows).key == b.key
  {
    if rows != [] { CallsAdd(b, rows[..|rows| - 1], q); }
  }

  lemma {:induction false} CensusesSet(b: Bucket, rows: seq<CensusRow>)
    ensures var b' := SetCensuses(b, rows);
            b'.stacks == b.stacks && b'.calls == b.calls && b'.key == b.key
  {
    if rows != [] { CensusesSet(b, rows[..|rows| - 1]); }
  }

  lemma {:induction false} WindowAdds(b: Bucket, w: Window, q: Query)
    ensures Read(AddWindow(b, w), q) == Read(b, q) + Share(w, q)
  {
    StacksAdd(b, w.stacks, q);
    CallsAdd(AddStacks(b, w.stacks), w.calls, q);
    CensusesSet(AddCalls(AddStacks(b, w.stacks), w.calls), w.census);
  }

  lemma {:induction false} EmptyBucketsTotal(buckets: seq<Bucket>, q: Query)
    requires forall k :: 0 <= k < |buckets| ==> buckets[k] == EmptyBucket(buckets[k].key)
    ensures BucketsTotal(buckets, q) == 0
  {
    if buckets != [] { EmptyBucketsTotal(buckets[..|buckets| - 1], q); }
  }

  /** One more window moves exactly the bucket it falls in, by its share. */
  lemma {:induction false} FilledTotal(windows: seq<Window>, per: nat, first: nat, n: nat, q: Query)
    requires per > 0 && windows != []
    ensures BucketsTotal(AllFilled(windows, per, first, n), q)
         == BucketsTotal(AllFilled(windows[..|windows| - 1], per, first, n), q)
            + if first <= windows[|windows| - 1].index / per < first + n then Share(windows[|windows| - 1], q) else 0
    decreases n
  {
    if n != 0 {
      var front, w := windows[..|windows| - 1], windows[|windows| - 1];
      FilledTotal(windows, per, first, n - 1, q);
      assert AllFilled(windows, per, first, n)[..n - 1] == AllFilled(windows, per, first, n - 1);
      assert AllFilled(front, per, first, n)[..n - 1] == AllFilled(front, per, first, n - 1);
      assert AllFilled(windows, per, first, n)[n - 1] == Filled(windows, per, first + n - 1);
      assert AllFilled(front, per, first, n)[n - 1] == Filled(front, per, first + n - 1);
      WindowAdds(Filled(front, per, first + n - 1), w, q);
    }
  }

  lemma {:induction false} FilledIsTotal(windows: seq<Window>, per: nat, first: nat, n: nat, q: Query)
    requires per > 0 && forall k :: 0 <= k < |windows| ==> first <= windows[k].index / per < first + n
    ensures BucketsTotal(AllFilled(windows, per, first, n), q) == WindowsTotal(windows, q)
  {
    if windows == [] {
      FilledByNothing(per, first, n);
      EmptyBucketsTotal(AllFilled(windows, per, first, n), q);
    } else {
      FilledIsTotal(windows[..|windows| - 1], per, first, n, q);
      FilledTotal(windows, per, first, n, q);
    }
  }

  lemma {:induction false} CensusAside(a: seq<Bucket>, b: seq<Bucket>, q: Query)
    requires |a| == |b| && forall k :: 0 <= k < |a| ==> a[k].stacks == b[k].stacks && a[k].calls == b[k].calls
    ensures BucketsTotal(a, q) == BucketsTotal(b, q)
  {
    if a != [] { CensusAside(a[..|a| - 1], b[..|b| - 1], q); }
  }

  lemma {:induction false} KeysInRange(windows: seq<Window>, per: nat, k: nat)
    requires windows != [] && per > 0 && Ascending(windows) && k < |windows|
    ensures FirstKey(windows, per) <= windows[k].index / per <= LastKey(windows, per)
  {
    QuotientMonotone(windows[0].index, windows[k].index, per);
    QuotientMonotone(windows[k].index, windows[|windows| - 1].index, per);
  }

  /**
    Regrouping changes no total. For ascending windows and any bucket size, what
    the buckets hold of a context, of a function, or of all self time adds up to
    what the windows said, so it does not depend on the size.
   */
  lemma {:induction false} FoldKeepsTotals(windows: seq<Window>, per: nat, q: Query)
    requires per > 0 && Ascending(windows)
    ensures BucketsTotal(Folded(windows, per), q) == WindowsTotal(windows, q)
  {
    if windows != [] {
      var first, n := FirstKey(windows, per), |Folded(windows, per)|;
      FoldedSpansAll(windows, per);
      FilledIsTotal(windows, per, first, n, q);
      CensusAside(Folded(windows, per), AllFilled(windows, per, first, n), q);
    }
  }

  lemma {:induction false} FoldedSpansAll(windows: seq<Window>, per: nat)
    requires windows != [] && per > 0 && Ascending(windows)
    ensures var first, n := FirstKey(windows, per), |Folded(windows, per)|;
            && Folded(windows, per) == WithCensus(AllFilled(windows, per, first, n))
            && forall k :: 0 <= k < |windows| ==> first <= windows[k].index / per < first + n
  {
    KeysInRange(windows, per, 0);
    forall k | 0 <= k < |windows|
      ensures FirstKey(windows, per) <= windows[k].index / per <= LastKey(windows, per)
    {
      KeysInRange(windows, per, k);
    }
  }

  // ---------------------------------------------------------------- readings replace

  /** The last row of a window naming a type. */
  function LastRow(rows: seq<CensusRow>, ty: nat): Option<CensusRow> {
    if rows == [] then None
    else if rows[|rows| - 1].ty == ty then Some(rows[|rows| - 1])
    else LastRow(rows[..|rows| - 1], ty)
  }

  /** The last window, among those whose bucket is `key` or earlier, that names the type. */
  function LastNaming(windows: seq<Window>, per: nat, key: nat, ty: nat): Option<nat>
    requires per > 0
  {
    if windows == [] then None
    else
      var j := |windows| - 1;
      if windows[j].index / per <= key && LastRow(windows[j].census, ty).Some? then Some(j)
      else LastNaming(windows[..j], per, key, ty)
  }

  /** It is what it is called: it names the type in time, and no later window that does is in time. */
  lemma {:induction false} LastNamingIsLast(windows: seq<Window>, per: nat, key: nat, ty: nat)
    requires per > 0
    ensures var last := LastNaming(windows, per, key, ty);
            && (last.None? ==> forall j :: 0 <= j < |windows| && windows[j].index / per <= key ==>
                  LastRow(windows[j].census, ty).None?)
            && (last.Some? ==>
                  && last.value < |windows| && windows[last.value].index / per <= key
                  && LastRow(windows[last.value].census, ty).Some?
                  && forall j :: last.value < j < |windows| && windows[j].index / per <= key ==>
                       LastRow(windows[j].census, ty).None?)
  {
    if windows != [] {
      var front := windows[..|windows| - 1];
      LastNamingIsLast(front, per, key, ty);
      assert forall j :: 0 <= j < |front| ==> front[j] == windows[j];
    }
  }

  lemma {:induction false} CensusesSetTo(b: Bucket, rows: seq<CensusRow>, ty: nat)
    ensures var b', last := SetCensuses(b, rows), LastRow(rows, ty);
            && (last.Some? ==>
                  ty in b'.census && b'.census[ty] == CensusHeld(last.value.live, last.value.bytes, false))
            && (last.None? ==> (ty in b'.census <==> ty in b.census) && (ty in b.census ==> b'.census[ty] == b.census[ty]))
  {
    if rows != [] { CensusesSetTo(b, rows[..|rows| - 1], ty); }
  }

  /** A bucket's census for a type is the reading of that window, marked by whether its bucket is earlier. */
  ghost predicate CensusIs(census: map<nat, CensusHeld>, windows: seq<Window>, per: nat, key: nat, ty: nat)
    requires per > 0
  {
    match LastNaming(windows, per, key, ty)
    case None => ty !in census
    case Some(j) => j < |windows| && HoldsReading(census, windows[j], ty, windows[j].index / per < key)
  }

  predicate HoldsReading(census: map<nat, CensusHeld>, w: Window, ty: nat, carried: bool) {
    match LastRow(w.census, ty)
    case None => false
    case Some(row) => ty in census && census[ty] == CensusHeld(row.live, row.bytes, carried)
  }

  /** Readings of a bucket's own windows, none carried. */
  ghost predicate OwnIs(census: map<nat, CensusHeld>, windows: seq<Window>, per: nat, key: nat, ty: nat)
    requires per > 0
  {
    match LastNaming(windows, per, key, ty)
    case None => ty !in census
    case Some(j) =>
      && j < |windows|
      && if windows[j].index / per < key then ty !in census else HoldsReading(census, windows[j], ty, false)
  }

  lemma {:induction false} FilledCensus(windows: seq<Window>, per: nat, key: nat, ty: nat)
    requires per > 0 && Ascending(windows)
    ensures OwnIs(Filled(windows, per, key).census, windows, per, key, ty)
  {
    if windows != [] {
      var front, w := windows[..|windows| - 1], windows[|windows| - 1];
      FilledCensus(front, per, key, ty);
      LastNamingIsLast(front, per, key, ty);
      var before := Filled(front, per, key);
      StacksAdd(before, w.stacks, AllSelf);
      CallsAdd(AddStacks(before, w.stacks), w.calls, AllSelf);
      CensusesSetTo(AddCalls(AddStacks(before, w.stacks), w.calls), w.census, ty);
      if w.index / per < key && LastNaming(front, per, key, ty).Some? {
        var j := LastNaming(front, per, key, ty).value;
        assert front[j] == windows[j];
        QuotientMonotone(windows[j].index, w.index, per);
      }
    }
  }

  /** A key's last naming window is its own bucket's if it has one, and the earlier key's otherwise. */
  lemma {:induction false} LastNamingSteps(windows: seq<Window>, per: nat, key: nat, ty: nat)
    requires per > 0 && key > 0 && Ascending(windows)
    ensures var last := LastNaming(windows, per, key, ty);
            || (last.Some? && last.value < |windows| && windows[last.value].index / per == key)
            || last == LastNaming(windows, per, key - 1, ty)
  {
    if windows != [] {
      var front := windows[..|windows| - 1];
      LastNamingSteps(front, per, key, ty);
      LastNamingIsLast(front, per, key, ty);
    }
  }

  /** No window lies in a bucket before `key`. */
  predicate AllFrom(windows: seq<Window>, per: nat, key: nat)
    requires per > 0
  {
    forall j :: 0 <= j < |windows| ==> windows[j].index / per >= key
  }

  lemma {:induction false} NoneBefore(windows: seq<Window>, per: nat, key: nat, ty: nat)
    requires per > 0 && AllFrom(windows, per, key)
    ensures var last := LastNaming(windows, per, key, ty);
            last.Some? ==> last.value < |windows| && windows[last.value].index / per == key
  {
    if windows != [] { NoneBefore(windows[..|windows| - 1], per, key, ty); }
  }

  lemma {:induction false} ThroughCensus(windows: seq<Window>, per: nat, first: nat, n: nat, k: nat, ty: nat)
    requires per > 0 && Ascending(windows) && k < n && AllFrom(windows, per, first)
    ensures CensusIs(CensusThrough(AllFilled(windows, per, first, n), k), windows, per, first + k, ty)
  {
    var filled := AllFilled(windows, per, first, n);
    FilledCensus(windows, per, first + k, ty);
    LastNamingIsLast(windows, per, first + k, ty);
    if k == 0 {
      NoneBefore(windows, per, first, ty);
    } else {
      ThroughCensus(windows, per, first, n, k - 1, ty);
      LastNamingSteps(windows, per, first + k, ty);
      LastNamingIsLast(windows, per, first + k - 1, ty);
    }
  }

  /**
    Census carry-forward. For ascending windows, a bucket's census for a type is
    the reading of the last window at or before the bucket's end that names the
    type; it is absent exactly when there is none, and marked as carried exactly
    when that window lies in an earlier bucket.
   */
  lemma {:induction false} FoldCarriesCensus(windows: seq<Window>, per: nat, first: nat, folded: seq<Bucket>, k: nat, ty: nat)
    requires per > 0 && windows != [] && Ascending(windows) && first == FirstKey(windows, per)
    requires folded == Folded(windows, per) && k < |folded|
    ensures CensusIs(folded[k].census, windows, per, first + k, ty)
  {
    KeysFromFirst(windows, per);
    FoldedAt(windows, per, k);
    ThroughCensus(windows, per, first, |folded|, k, ty);
  }

  lemma {:induction false} FoldedAt(windows: seq<Window>, per: nat, k: nat)
    requires per > 0 && Ascending(windows) && k < |Folded(windows, per)|
    ensures Folded(windows, per)[k].census ==
            CensusThrough(AllFilled(windows, per, FirstKey(windows, per), |Folded(windows, per)|), k)
  {
  }

  lemma {:induction false} KeysFromFirst(windows: seq<Window>, per: nat)
    requires per > 0 && Ascending(windows)
    ensures windows != [] ==> AllFrom(windows, per, FirstKey(windows, per))
  {
    forall j | 0 <= j < |windows|
      ensures windows[j].index / per >= FirstKey(windows, per)
    {
      KeysInRange(windows, per, j);
    }
  }

  // ---------------------------------------------------------------- what each bucket holds

  lemma {:induction false} InBucket(index: nat, per: nat, key: nat)
    requires per > 0
    ensures index / per == key <==> key * per <= index < (key + 1) * per
  {
    var q := index / per;
    assert q * per <= index < (q + 1) * per;
    if q < key { MulMonotone(q + 1, key, per); }
    if key < q { MulMonotone(key + 1, q, per); }
  }

  /** A bucket reads what the windows of its index range say together. */
  lemma {:induction false} FilledReads(windows: seq<Window>, per: nat, key: nat, q: Query)
    requires per > 0
    ensures Read(Filled(windows, per, key), q) == TotalWithin(windows, key * per, (key + 1) * per, q)
  {
    if windows != [] {
      var front, w := windows[..|windows| - 1], windows[|windows| - 1];
      FilledReads(front, per, key, q);
      InBucket(w.index, per, key);
      WindowAdds(Filled(front, per, key), w, q);
    }
  }

  predicate Silent(w: Window) {
    w.stacks == [] && w.calls == [] && w.census == []
  }

  lemma {:induction false} RowsFill(b: Bucket, w: Window)
    ensures AddWindow(b, w).empty <==> b.empty && Silent(w)
  {
    StackRowsFill(b, w.stacks);
    CallRowsFill(AddStacks(b, w.stacks), w.calls);
    CensusRowsFill(AddCalls(AddStacks(b, w.stacks), w.calls), w.census);
  }

  lemma {:induction false} StackRowsFill(b: Bucket, rows: seq<StackRow>)
    ensures AddStacks(b, rows).empty <==> b.empty && rows == []
  {
    if rows != [] { StackRowsFill(b, rows[..|rows| - 1]); }
  }

  lemma {:induction false} CallRowsFill(b: Bucket, rows: seq<CallRow>)
    ensures AddCalls(b, rows).empty <==> b.empty && rows == []
  {
    if rows != [] { CallRowsFill(b, rows[..|rows| - 1]); }
  }

  lemma {:induction false} CensusRowsFill(b: Bucket, rows: seq<CensusRow>)
    ensures SetCensuses(b, rows).empty <==> b.empty && rows == []
  {
    if rows != [] { CensusRowsFill(b, rows[..|rows| - 1]); }
  }

  /** A bucket is empty exactly when every window of its index range is silent. */
  lemma {:induction false} FilledEmpty(windows: seq<Window>, per: nat, key: nat)
    requires per > 0
    ensures Filled(windows, per, key).key == key
    ensures Filled(windows, per, key).empty <==> AllSilent(windows, key * per, (key + 1) * per)
  {
    if windows != [] {
      var front, w := windows[..|windows| - 1], windows[|windows| - 1];
      FilledEmpty(front, per, key);
      InBucket(w.index, per, key);
      var before := Filled(front, per, key);
      RowsFill(before, w);
      StacksAdd(before, w.stacks, AllSelf);
      CallsAdd(AddStacks(before, w.stacks), w.calls, AllSelf);
      CensusesSet(AddCalls(AddStacks(before, w.stacks), w.calls), w.census);
      assert forall j :: 0 <= j < |front| ==> front[j] == windows[j];
    }
  }

  predicate AllSilent(windows: seq<Window>, from: nat, to: nat) {
    forall j :: 0 <= j < |windows| && from <= windows[j].index < to ==> Silent(windows[j])
  }

  /** The buckets are the ranges of `per` indices from the first window's to the last's. */
  predicate Covers(buckets: seq<Bucket>, windows: seq<Window>, per: nat, first: nat)
    requires windows != []
  {
    && first * per <= windows[0].index < (first + 1) * per
    && buckets != []
    && (first + |buckets| - 1) * per <= windows[|windows| - 1].index < (first + |buckets|) * per
  }

  /** What one bucket holds, against the windows of its index range. */
  ghost predicate HoldsRange(b: Bucket, windows: seq<Window>, per: nat, key: nat) {
    && b.key == key
    && (forall q :: Read(b, q) == TotalWithin(windows, key * per, (key + 1) * per, q))
    && (b.empty <==> AllSilent(windows, key * per, (key + 1) * per))
  }

  lemma {:induction false} FoldedHolds(windows: seq<Window>, per: nat, k: nat)
    requires per > 0 && windows != [] && Ascending(windows) && k < |Folded(windows, per)|
    ensures HoldsRange(Folded(windows, per)[k], windows, per, FirstKey(windows, per) + k)
  {
    var key, b := FirstKey(windows, per) + k, Folded(windows, per)[k];
    FoldedSpansAll(windows, per);
    assert b == Filled(windows, per, key).(census := b.census);
    FilledEmpty(windows, per, key);
    forall q
      ensures Read(b, q) == TotalWithin(windows, key * per, (key + 1) * per, q)
    {
      FilledReads(windows, per, key, q);
    }
  }

  lemma {:induction false} FoldedCovers(windows: seq<Window>, per: nat)
    requires per > 0 && windows != [] && Ascending(windows)
    ensures Covers(Folded(windows, per), windows, per, FirstKey(windows, per))
  {
    FoldedSpansAll(windows, per);
    InBucket(windows[0].index, per, FirstKey(windows, per));
    KeysInRange(windows, per, 0);
    InBucket(windows[|windows| - 1].index, per, LastKey(windows, per));
  }

  lemma {:induction false} RoundsToNearest(bucketMs: nat, windowMs: nat)
    requires windowMs > 0
    ensures var per := WindowsPer(bucketMs, windowMs);
            if 2 * bucketMs < windowMs then per == 1
            else 2 * per * windowMs - windowMs <= 2 * bucketMs < 2 * per * windowMs + windowMs
  {
    var n, d := 2 * bucketMs + windowMs, 2 * windowMs;
    var rounded := n / d;
    assert rounded * d <= n < rounded * d + d;
    assert rounded * d == 2 * rounded * windowMs;
  }

  /**
    Folds windows into buckets. `per`, how many windows a bucket spans, is the
    quotient of the two durations to the nearest whole number, a half rounded up,
    and at least one. The buckets tile the index ranges of `per` windows from the
    first window's to the last's, and each reads of every quantity what exactly
    the windows of its range say together.
   */
  method Fold(windows: seq<Window>, windowMs: nat, bucketMs: nat) returns (buckets: seq<Bucket>, ghost per: nat)
    requires windowMs > 0
    ensures per >= 1
    ensures if 2 * bucketMs < windowMs then per == 1
            else 2 * per * windowMs - windowMs <= 2 * bucketMs < 2 * per * windowMs + windowMs
    ensures buckets == Folded(windows, per)
    ensures windows == [] ==> buckets == []
    ensures windows != [] && Ascending(windows) ==>
              && Covers(buckets, windows, per, windows[0].index / per)
              && forall k :: 0 <= k < |buckets| ==> HoldsRange(buckets[k], windows, per, windows[0].index / per + k)
  {
    var span := WindowsPer(bucketMs, windowMs);
    per := span;
    RoundsToNearest(bucketMs, windowMs);
    if windows == [] {
      return [], per;
    }
    var first, last := FirstKey(windows, span), LastKey(windows, span);
    var filled := FillBuckets(windows, span, first, if last < first then 0 else last - first + 1);
    buckets := CarryForward(filled);
    if Ascending(windows) {
      FoldedCovers(windows, span);
      forall k | 0 <= k < |buckets|
        ensures HoldsRange(buckets[k], windows, span, windows[0].index / span + k)
      {
        FoldedHolds(windows, span, k);
      }
    }
  }

  /** The denominator a flame graph normalises to. */
  method TotalSelfNs(b: Bucket) returns (total: nat)
    ensures total == Read(b, AllSelf)
  {
    total := 0;
    var pending := b.stacks.Keys;
    while pending != {}
      invariant pending <= b.stacks.Keys
      invariant total + SumOver(pending, WeightAt(b.stacks, SelfOf)) == MapSum(b.stacks, SelfOf)
      decreases |pending|
    {
      var path :| path in pending;
      SumPick(pending, path, WeightAt(b.stacks, SelfOf));
      assert WeightAt(b.stacks, SelfOf)(path) == SelfOf(b.stacks[path]);
      total := total + b.stacks[path].selfNs;
      pending := pending - {path};
    }
  }
}
