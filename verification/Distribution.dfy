/** Distributions on the wire: raw samples or sparse buckets, and the one form both fold to. */
module Distribution {
  import opened Basics
  import opened Words
  import opened LogLinear

  const MAX_RAW_SAMPLES: nat := 1024
  const U16_LIMIT: nat := 0x1_0000

  /** A sparse bucket: how many samples fell at one index. */
  datatype Bin = Bin(index: u16, count: nat)

  datatype Dist = Raw(v: seq<u64>) | Buckets(b: seq<Bin>)

  /** One bin per raw sample; bucketed input as it came. */
  function Bins(d: Dist): (bins: seq<Bin>) {
    match d
    case Raw(v) => RawBins(v)
    case Buckets(b) => b
  }

  function RawBins(v: seq<u64>): (bins: seq<Bin>)
    ensures |bins| == |v|
    ensures forall k :: 0 <= k < |v| ==> bins[k] == Bin(BucketOf(v[k]), 1)
  {
    seq(|v|, k requires 0 <= k < |v| => Bin(BucketOf(v[k]), 1))
  }

  // ---------------------------------------------------------------- what a list of bins says

  /** What a histogram holds at one index: nothing, or a total that may be zero. */
  datatype Tally = Absent | Total(n: nat) {
    function Plus(other: Tally): Tally {
      if Absent? then other else if other.Absent? then this else Total(n + other.n)
    }

    function Samples(): nat { if Absent? then 0 else n }
  }

  function Own(bin: Bin, index: nat): Tally {
    if bin.index == index then Total(bin.count) else Absent
  }

  /** Samples recorded at one index, over all the bins naming it. */
  function At(b: seq<Bin>, index: nat): Tally {
    if b == [] then Absent else At(b[..|b| - 1], index).Plus(Own(b[|b| - 1], index))
  }

  /** Two lists of bins tell the same histogram. */
  ghost predicate SameHistogram(a: seq<Bin>, b: seq<Bin>) {
    forall index: nat :: At(a, index) == At(b, index)
  }

  predicate StrictlySorted(b: seq<Bin>) {
    forall i, j :: 0 <= i < j < |b| ==> b[i].index < b[j].index
  }

  /** The histogram written out: each named index once, ascending, from `start` on. */
  function Histogram(b: seq<Bin>, start: nat): (sorted: seq<Bin>)
    requires start <= U16_LIMIT
    decreases U16_LIMIT - start
  {
    if start == U16_LIMIT then []
    else
      var tally := At(b, start);
      (if tally.Absent? then [] else [Bin(start, tally.n)]) + Histogram(b, start + 1)
  }

  /** Total of a weight over all samples, each sample weighted by its index. */
  function Weigh(b: seq<Bin>, weight: nat -> nat): nat {
    if b == [] then 0 else Weigh(b[..|b| - 1], weight) + weight(b[|b| - 1].index) * b[|b| - 1].count
  }

  /** Total number of samples the distribution stands for. */
  function Count(d: Dist): nat {
    match d
    case Raw(v) => |v|
    case Buckets(b) => Weigh(b, (index: nat) => 1)
  }

  // ---------------------------------------------------------------- lemmas on histograms

  lemma {:induction false} AtConcat(a: seq<Bin>, b: seq<Bin>, index: nat)
    ensures At(a + b, index) == At(a, index).Plus(At(b, index))
  {
    if b == [] {
      assert a + b == a;
    } else {
      assert (a + b)[..|a + b| - 1] == a + b[..|b| - 1];
      AtConcat(a, b[..|b| - 1], index);
    }
  }

  lemma {:induction false} AtOne(bin: Bin, index: nat)
    ensures At([bin], index) == Own(bin, index)
  {
    assert [bin][..0] == [];
  }

  /** An index is named exactly when some bin carries it. */
  lemma {:induction false} AtPresent(b: seq<Bin>, index: nat)
    ensures At(b, index).Total? <==> exists k :: 0 <= k < |b| && b[k].index == index
  {
    if b != [] {
      var front := b[..|b| - 1];
      AtPresent(front, index);
      assert forall k :: 0 <= k < |front| ==> front[k] == b[k];
    }
  }

  /** Reordering bins changes nothing they say. */
  lemma {:induction false} PermutationKeepsHistogram(a: seq<Bin>, b: seq<Bin>, index: nat)
    requires multiset(a) == multiset(b)
    ensures At(a, index) == At(b, index)
    decreases |a|
  {
    assert |a| == |multiset(a)| == |multiset(b)| == |b|;
    if a != [] {
      var last := a[|a| - 1];
      assert last in multiset(b);
      var k :| 0 <= k < |b| && b[k] == last;
      RemoveOne(a, |a| - 1);
      RemoveOne(b, k);
      assert a[..|a| - 1] + a[|a|..] == a[..|a| - 1];
      PermutationKeepsHistogram(a[..|a| - 1], b[..k] + b[k + 1..], index);
      AtWithout(b, k, index);
    }
  }

  lemma {:induction false} RemoveOne(b: seq<Bin>, k: nat)
    requires k < |b|
    ensures multiset(b[..k] + b[k + 1..]) == multiset(b) - multiset{b[k]}
  {
    assert b == b[..k] + ([b[k]] + b[k + 1..]);
  }

  lemma {:induction false} AtWithout(b: seq<Bin>, k: nat, index: nat)
    requires k < |b|
    ensures At(b, index) == At(b[..k] + b[k + 1..], index).Plus(Own(b[k], index))
  {
    assert b == b[..k] + ([b[k]] + b[k + 1..]);
    AtConcat(b[..k], [b[k]] + b[k + 1..], index);
    AtConcat([b[k]], b[k + 1..], index);
    AtConcat(b[..k], b[k + 1..], index);
    AtOne(b[k], index);
  }

  /** Histograms equal from `start` on are written out identically from there. */
  lemma {:induction false} HistogramOfSame(a: seq<Bin>, b: seq<Bin>, start: nat)
    requires start <= U16_LIMIT && forall index: nat :: start <= index ==> At(a, index) == At(b, index)
    ensures Histogram(a, start) == Histogram(b, start)
    decreases U16_LIMIT - start
  {
    if start < U16_LIMIT { HistogramOfSame(a, b, start + 1); }
  }

  lemma {:induction false} HistogramSorted(b: seq<Bin>, start: nat)
    requires start <= U16_LIMIT
    ensures forall k :: 0 <= k < |Histogram(b, start)| ==> start <= Histogram(b, start)[k].index
    ensures StrictlySorted(Histogram(b, start))
    decreases U16_LIMIT - start
  {
    if start < U16_LIMIT { HistogramSorted(b, start + 1); }
  }

  /** Writing the histogram out loses and invents nothing. */
  lemma {:induction false} HistogramTells(b: seq<Bin>, start: nat, index: nat)
    requires start <= U16_LIMIT
    ensures At(Histogram(b, start), index) == if start <= index then At(b, index) else Absent
    decreases U16_LIMIT - start
  {
    if start == U16_LIMIT {
      AtPresent(b, index);
    } else {
      HistogramTells(b, start + 1, index);
      var tally := At(b, start);
      if tally.Total? {
        AtConcat([Bin(start, tally.n)], Histogram(b, start + 1), index);
        AtOne(Bin(start, tally.n), index);
      } else {
        assert Histogram(b, start) == Histogram(b, start + 1);
      }
    }
  }

  lemma {:induction false} HistogramSame(b: seq<Bin>)
    ensures SameHistogram(Histogram(b, 0), b)
  {
    forall index: nat ensures At(Histogram(b, 0), index) == At(b, index) { HistogramTells(b, 0, index); }
  }

  /** The histogram names only indices that some bin names. */
  lemma {:induction false} HistogramNames(b: seq<Bin>, k: nat)
    requires k < |Histogram(b, 0)|
    ensures exists j :: 0 <= j < |b| && b[j].index == Histogram(b, 0)[k].index
  {
    var h := Histogram(b, 0);
    AtPresent(h, h[k].index);
    HistogramTells(b, 0, h[k].index);
    AtPresent(b, h[k].index);
  }

  /** A strictly sorted list is already its own histogram. */
  lemma {:induction false} SortedIsHistogram(b: seq<Bin>, start: nat)
    requires start <= U16_LIMIT && StrictlySorted(b)
    requires b != [] ==> start <= b[0].index
    ensures Histogram(b, start) == b
    decreases U16_LIMIT - start
  {
    if start == U16_LIMIT {
      assert b == [];
    } else if b == [] || b[0].index != start {
      StartIsAbsent(b, start);
      SortedIsHistogram(b, start + 1);
    } else {
      TailIsAbove(b);
      SortedIsHistogram(b[1..], start + 1);
      HeadIsHistogram(b, start);
    }
  }

  lemma {:induction false} StartIsAbsent(b: seq<Bin>, start: nat)
    requires start < U16_LIMIT && StrictlySorted(b) && (b != [] ==> start < b[0].index)
    ensures Histogram(b, start) == Histogram(b, start + 1)
  {
    AtPresent(b, start);
    assert At(b, start).Absent?;
  }

  lemma {:induction false} TailIsAbove(b: seq<Bin>)
    requires b != [] && StrictlySorted(b)
    ensures StrictlySorted(b[1..]) && (b[1..] != [] ==> b[0].index + 1 <= b[1..][0].index)
  {
  }

  lemma {:induction false} AtHead(b: seq<Bin>, index: nat)
    requires b != []
    ensures At(b, index) == Own(b[0], index).Plus(At(b[1..], index))
  {
    assert b == [b[0]] + b[1..];
    AtConcat([b[0]], b[1..], index);
    AtOne(b[0], index);
  }

  lemma {:induction false} HeadIsHistogram(b: seq<Bin>, start: nat)
    requires start < U16_LIMIT && StrictlySorted(b) && b != [] && b[0].index == start
    requires Histogram(b[1..], start + 1) == b[1..]
    ensures Histogram(b, start) == b
  {
    forall index: nat | start < index
      ensures At(b, index) == At(b[1..], index)
    {
      AtHead(b, index);
    }
    HistogramOfSame(b, b[1..], start + 1);
    AtHead(b, start);
    AtPresent(b[1..], start);
    assert At(b, start) == Total(b[0].count);
    assert b == [b[0]] + b[1..];
  }

  // ---------------------------------------------------------------- to_buckets

  /** The order `sort_unstable_by_key` promises: by index, equal indices in any order. */
  predicate Sorted(b: seq<Bin>) {
    forall i, j :: 0 <= i < j < |b| ==> b[i].index <= b[j].index
  }

  /** Where a bin goes in a sorted list: after every bin that is not above it. */
  method InsertByIndex(b: seq<Bin>, bin: Bin) returns (sorted: seq<Bin>)
    requires Sorted(b)
    ensures Sorted(sorted)
    ensures multiset(sorted) == multiset(b) + multiset{bin}
  {
    var at := |b|;
    while at > 0 && b[at - 1].index > bin.index
      invariant 0 <= at <= |b|
      invariant forall j :: at <= j < |b| ==> b[j].index > bin.index
    {
      at := at - 1;
    }
    InsertedInOrder(b, at, bin);
    InsertedSame(b, at, bin);
    sorted := b[..at] + [bin] + b[at..];
  }

  lemma {:induction false} InsertedInOrder(b: seq<Bin>, at: nat, bin: Bin)
    requires Sorted(b) && at <= |b|
    requires at > 0 ==> b[at - 1].index <= bin.index
    requires forall j :: at <= j < |b| ==> b[j].index > bin.index
    ensures Sorted(b[..at] + [bin] + b[at..])
  {
    var all := b[..at] + [bin] + b[at..];
    forall k | 0 <= k < |all|
      ensures all[k] == if k < at then b[k] else if k == at then bin else b[k - 1]
    {
    }
    forall k | 0 <= k < at
      ensures b[k].index <= bin.index
    {
      assert b[k].index <= b[at - 1].index;
    }
  }

  /** Only what the library sort promises is visible to its caller. */
  method SortUnstableByIndex(b: seq<Bin>) returns (sorted: seq<Bin>)
    ensures Sorted(sorted)
    ensures multiset(sorted) == multiset(b)
  {
    sorted := [];
    for k := 0 to |b|
      invariant Sorted(sorted)
      invariant multiset(sorted) == multiset(b[..k])
    {
      sorted := InsertByIndex(sorted, b[k]);
      assert b[..k + 1] == b[..k] + [b[k]];
    }
    assert b[..|b|] == b;
  }

  /** Merges neighbours of equal index in a sorted list, keeping a running last entry. */
  method FoldSorted(counts: seq<Bin>) returns (folded: seq<Bin>)
    requires Sorted(counts)
    requires forall index: nat :: At(counts, index).Samples() <= U32_MAX
    ensures StrictlySorted(folded)
    ensures SameHistogram(folded, counts)
  {
    folded := [];
    for k := 0 to |counts|
      invariant folded == [] <==> k == 0
      invariant k > 0 ==> folded[|folded| - 1].index == counts[k - 1].index
      invariant StrictlySorted(folded)
      invariant SameHistogram(folded, counts[..k])
    {
      var bin := counts[k];
      assert counts[..k + 1] == counts[..k] + [bin];
      if folded != [] && folded[|folded| - 1].index == bin.index {
        var running := folded[|folded| - 1].count;
        RunningFits(folded, counts, k);
        assert running + bin.count <= U32_MAX;
        MergedBin(folded, counts[..k], bin);
        folded := folded[|folded| - 1 := Bin(bin.index, running + bin.count)];
      } else {
        AppendedBin(folded, counts[..k], bin);
        folded := folded + [bin];
      }
    }
    assert counts[..|counts|] == counts;
  }

  /**
    Collapses to sparse buckets, sorted by index. Duplicate indices from a
    sloppy client merge. The counts are the source's `u32`s, so no index may
    stand for more samples than one holds.
   */
  method ToBuckets(d: Dist) returns (folded: seq<Bin>)
    requires forall index: nat :: At(Bins(d), index).Samples() <= U32_MAX
    ensures folded == Histogram(Bins(d), 0)
  {
    var counts := UnsortedBins(d);
    var sorted := SortUnstableByIndex(counts);
    SortedSame(sorted, counts);
    folded := FoldSorted(sorted);
    SortedIsHistogram(folded, 0);
    HistogramOfSame(folded, counts, 0);
  }

  /** One bin per raw sample, pushed in order; bucketed input is copied. */
  method UnsortedBins(d: Dist) returns (counts: seq<Bin>)
    ensures counts == Bins(d)
  {
    if d.Buckets? { return d.b; }
    counts := [];
    for k := 0 to |d.v|
      invariant counts == RawBins(d.v)[..k]
    {
      counts := counts + [Bin(BucketOf(d.v[k]), 1)];
    }
  }

  lemma {:induction false} SortedSame(sorted: seq<Bin>, counts: seq<Bin>)
    requires multiset(sorted) == multiset(counts)
    ensures SameHistogram(sorted, counts)
  {
    forall index: nat ensures At(sorted, index) == At(counts, index) {
      PermutationKeepsHistogram(sorted, counts, index);
    }
  }

  /** The running entry never outgrows its word while the whole list's total does not. */
  lemma {:induction false} RunningFits(folded: seq<Bin>, counts: seq<Bin>, k: nat)
    requires k < |counts| && folded != [] && folded[|folded| - 1].index == counts[k].index
    requires SameHistogram(folded, counts[..k])
    ensures folded[|folded| - 1].count + counts[k].count <= At(counts, counts[k].index).Samples()
  {
    var index := counts[k].index;
    assert At(folded, index).n >= folded[|folded| - 1].count;
    assert counts == counts[..k] + ([counts[k]] + counts[k + 1..]);
    AtConcat(counts[..k], [counts[k]] + counts[k + 1..], index);
    AtConcat([counts[k]], counts[k + 1..], index);
    AtOne(counts[k], index);
  }

  lemma {:induction false} AppendedBin(folded: seq<Bin>, seen: seq<Bin>, bin: Bin)
    requires SameHistogram(folded, seen)
    ensures SameHistogram(folded + [bin], seen + [bin])
  {
    assert (folded + [bin])[..|folded|] == folded && (seen + [bin])[..|seen|] == seen;
  }

  lemma {:induction false} MergedBin(folded: seq<Bin>, seen: seq<Bin>, bin: Bin)
    requires folded != [] && folded[|folded| - 1].index == bin.index
    requires SameHistogram(folded, seen)
    ensures SameHistogram(folded[|folded| - 1 := Bin(bin.index, folded[|folded| - 1].count + bin.count)], seen + [bin])
  {
    var last := |folded| - 1;
    var merged := folded[last := Bin(bin.index, folded[last].count + bin.count)];
    assert merged[..last] == folded[..last];
    assert (seen + [bin])[..|seen|] == seen;
    forall index: nat
      ensures At(merged, index) == At(seen + [bin], index)
    {
      assert At(folded, index) == At(seen, index);
    }
  }

  /** The result is strictly sorted, and bucketing what is already bucketed changes nothing. */
  lemma {:induction false} ToBucketsIsIdempotent(d: Dist)
    ensures StrictlySorted(Histogram(Bins(d), 0))
    ensures Histogram(Bins(Buckets(Histogram(Bins(d), 0))), 0) == Histogram(Bins(d), 0)
  {
    HistogramSorted(Bins(d), 0);
    SortedIsHistogram(Histogram(Bins(d), 0), 0);
  }

  // ---------------------------------------------------------------- weighted totals

  /** A weighted total read off the histogram, index by index. */
  function IndexTotal(b: seq<Bin>, weight: nat -> nat, start: nat): nat
    requires start <= U16_LIMIT
    decreases U16_LIMIT - start
  {
    if start == U16_LIMIT then 0 else weight(start) * At(b, start).Samples() + IndexTotal(b, weight, start + 1)
  }

  lemma {:induction false} WeighConcat(a: seq<Bin>, b: seq<Bin>, weight: nat -> nat)
    ensures Weigh(a + b, weight) == Weigh(a, weight) + Weigh(b, weight)
  {
    if b == [] {
      assert a + b == a;
    } else {
      assert (a + b)[..|a + b| - 1] == a + b[..|b| - 1];
      WeighConcat(a, b[..|b| - 1], weight);
    }
  }

  lemma {:induction false} HistogramIndexTotal(b: seq<Bin>, weight: nat -> nat, start: nat)
    requires start <= U16_LIMIT
    ensures Weigh(Histogram(b, start), weight) == IndexTotal(b, weight, start)
    decreases U16_LIMIT - start
  {
    if start < U16_LIMIT {
      HistogramIndexTotal(b, weight, start + 1);
      var tally := At(b, start);
      if tally.Total? {
        WeighConcat([Bin(start, tally.n)], Histogram(b, start + 1), weight);
        assert Weigh([Bin(start, tally.n)], weight) == weight(start) * tally.n;
      } else {
        assert Histogram(b, start) == Histogram(b, start + 1);
      }
    }
  }

  lemma {:induction false} IndexTotalOfEmpty(weight: nat -> nat, start: nat)
    requires start <= U16_LIMIT
    ensures IndexTotal([], weight, start) == 0
    decreases U16_LIMIT - start
  {
    if start < U16_LIMIT { IndexTotalOfEmpty(weight, start + 1); }
  }

  lemma {:induction false} IndexTotalGrows(b: seq<Bin>, bin: Bin, weight: nat -> nat, start: nat)
    requires start <= U16_LIMIT
    ensures IndexTotal(b + [bin], weight, start)
         == IndexTotal(b, weight, start) + if start <= bin.index then weight(bin.index) * bin.count else 0
    decreases U16_LIMIT - start
  {
    if start < U16_LIMIT {
      IndexTotalGrows(b, bin, weight, start + 1);
      assert (b + [bin])[..|b|] == b;
      if bin.index == start {
        Distribute(weight(start), At(b, start).Samples(), bin.count);
      }
    }
  }

  lemma {:induction false} Distribute(a: nat, b: nat, c: nat)
    ensures a * (b + c) == a * b + a * c
  {
  }

  lemma {:induction false} WeighIsIndexTotal(b: seq<Bin>, weight: nat -> nat)
    ensures Weigh(b, weight) == IndexTotal(b, weight, 0)
  {
    if b == [] {
      IndexTotalOfEmpty(weight, 0);
    } else {
      WeighIsIndexTotal(b[..|b| - 1], weight);
      IndexTotalGrows(b[..|b| - 1], b[|b| - 1], weight, 0);
      assert b[..|b| - 1] + [b[|b| - 1]] == b;
    }
  }

  /** Any total weighted by index survives the fold to buckets. */
  lemma {:induction false} HistogramKeepsWeight(b: seq<Bin>, weight: nat -> nat)
    ensures Weigh(Histogram(b, 0), weight) == Weigh(b, weight)
  {
    HistogramIndexTotal(b, weight, 0);
    WeighIsIndexTotal(b, weight);
  }

  lemma {:induction false} RawCount(v: seq<u64>)
    ensures Weigh(RawBins(v), (index: nat) => 1) == |v|
  {
    if v != [] {
      RawCount(v[..|v| - 1]);
      assert RawBins(v)[..|v| - 1] == RawBins(v[..|v| - 1]);
    }
  }

  /** Folding to buckets neither loses nor invents a sample. */
  lemma {:induction false} ToBucketsKeepsCount(d: Dist)
    ensures Count(Buckets(Histogram(Bins(d), 0))) == Count(d)
  {
    HistogramKeepsWeight(Bins(d), (index: nat) => 1);
    if d.Raw? { RawCount(d.v); }
  }

  // ---------------------------------------------------------------- midpoint totals

  /** Zero past `MAX_BUCKET`, where the source has no range to take a middle of. */
  function MidpointOf(index: nat): nat {
    if index <= MAX_BUCKET then Midpoint(index) else 0
  }

  /** Every bin names a bucket that has a range. */
  predicate WithinRange(b: seq<Bin>) {
    forall k :: 0 <= k < |b| ==> b[k].index <= MAX_BUCKET
  }

  function Sum(v: seq<nat>): nat {
    if v == [] then 0 else Sum(v[..|v| - 1]) + v[|v| - 1]
  }

  /** `bytes_from_buckets`: the footprint a histogram stands for. */
  function BytesFromBuckets(b: seq<Bin>): nat
    requires WithinRange(b)
  {
    Weigh(b, MidpointOf)
  }

  function SaturatingSum(v: seq<u64>): u64 {
    if v == [] then 0 else SatAdd(SaturatingSum(v[..|v| - 1]), v[|v| - 1])
  }

  function SaturatingMidpoints(b: seq<Bin>): u64
    requires WithinRange(b)
  {
    if b == [] then 0
    else
      var Bin(index, count) := b[|b| - 1];
      SatAdd(SaturatingMidpoints(b[..|b| - 1]), SatMul(Midpoint(index), count))
  }

  /** Total nanoseconds a distribution stands for, given the buckets it folds to. */
  function DurationTotal(d: Dist, buckets: seq<Bin>): u64
    requires d.Raw? || WithinRange(buckets)
  {
    if d.Raw? then SaturatingSum(d.v) else SaturatingMidpoints(buckets)
  }

  /** Saturating at every step is saturating once, at the end. */
  lemma {:induction false} SaturatingSumIsClip(v: seq<u64>)
    ensures SaturatingSum(v) == Clip(Sum(v))
  {
    if v != [] { SaturatingSumIsClip(v[..|v| - 1]); }
  }

  lemma {:induction false} SaturatingMidpointsIsClip(b: seq<Bin>)
    requires WithinRange(b)
    ensures SaturatingMidpoints(b) == Clip(BytesFromBuckets(b))
  {
    if b != [] { SaturatingMidpointsIsClip(b[..|b| - 1]); }
  }

  lemma {:induction false} RawMidpointError(v: seq<u64>)
    ensures 32 * AbsDiff(Weigh(RawBins(v), MidpointOf), Sum(v)) <= Sum(v)
    ensures (forall k :: 0 <= k < |v| ==> v[k] < LINEAR_LIMIT) ==> Weigh(RawBins(v), MidpointOf) == Sum(v)
  {
    if v != [] {
      RawMidpointError(v[..|v| - 1]);
      assert RawBins(v)[..|v| - 1] == RawBins(v[..|v| - 1]);
      MidpointError(v[|v| - 1]);
      assert MidpointOf(BucketOf(v[|v| - 1])) * 1 == Midpoint(BucketOf(v[|v| - 1]));
    }
  }

  lemma {:induction false} RawHistogramWithinRange(v: seq<u64>)
    ensures WithinRange(Histogram(RawBins(v), 0))
  {
    var h := Histogram(RawBins(v), 0);
    forall k | 0 <= k < |h|
      ensures h[k].index <= MAX_BUCKET
    {
      HistogramSame(RawBins(v));
      AtPresent(h, h[k].index);
      AtPresent(RawBins(v), h[k].index);
    }
  }

  /**
    The midpoint total of bucketed samples is within 1/32 of their true sum, and
    exact when all are in the linear part: for a type's live bytes, and for a
    function's call durations, where the one further step is that the daemon
    clips the total to a `u64`.
   */
  lemma {:induction false} MidpointBound(v: seq<u64>)
    ensures var b := Histogram(RawBins(v), 0);
            && WithinRange(b)
            && 32 * AbsDiff(BytesFromBuckets(b), Sum(v)) <= Sum(v)
            && ((forall k :: 0 <= k < |v| ==> v[k] < LINEAR_LIMIT) ==> BytesFromBuckets(b) == Sum(v))
            && DurationTotal(Buckets(b), b) == Clip(BytesFromBuckets(b))
            && DurationTotal(Raw(v), b) == Clip(Sum(v))
  {
    RawHistogramWithinRange(v);
    HistogramKeepsWeight(RawBins(v), MidpointOf);
    RawMidpointError(v);
    SaturatingMidpointsIsClip(Histogram(RawBins(v), 0));
    SaturatingSumIsClip(v);
  }
}
