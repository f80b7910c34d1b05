/** Durations for one function in one window: raw while few, buckets once past the protocol's cap. */
module SampleStore {
  import opened Words
  import opened LogLinear
  import opened Distribution

  type Counts = map<u16, nat>

  datatype Form = RawForm(values: seq<u64>) | BucketForm(buckets: Counts)

  const NO_SAMPLES: Form := RawForm([])

  /** `*entry(index).or_insert(0) += count`. */
  function Bump(counts: Counts, index: u16, count: nat): Counts {
    counts[index := count + if index in counts then counts[index] else 0]
  }

  function TallyValues(values: seq<u64>): Counts {
    if values == [] then map[]
    else Bump(TallyValues(values[..|values| - 1]), BucketOf(values[|values| - 1]), 1)
  }

  function IntoBuckets(form: Form): Counts {
    match form
    case RawForm(values) => TallyValues(values)
    case BucketForm(buckets) => buckets
  }

  function Added(form: Form, value: u64): Form {
    if form.RawForm? && |form.values| < MAX_RAW_SAMPLES then RawForm(form.values + [value])
    else BucketForm(Bump(IntoBuckets(form), BucketOf(value), 1))
  }

  function Merged(a: Counts, b: Counts): Counts {
    map index | index in a.Keys + b.Keys :: (if index in a then a[index] else 0) + (if index in b then b[index] else 0)
  }

  function Absorbed(mine: Form, theirs: Form): Form {
    if mine.RawForm? && theirs.RawForm? && |mine.values| + |theirs.values| <= MAX_RAW_SAMPLES then
      RawForm(mine.values + theirs.values)
    else BucketForm(Merged(IntoBuckets(mine), IntoBuckets(theirs)))
  }

  /** The bins of a count map in index order, from `start` on. */
  function SortedBins(counts: Counts, start: nat): seq<Bin>
    requires start <= U16_LIMIT
    decreases U16_LIMIT - start
  {
    if start == U16_LIMIT then []
    else (if start in counts then [Bin(start, counts[start])] else []) + SortedBins(counts, start + 1)
  }

  function IntoDist(form: Form): Dist {
    match form
    case RawForm(values) => Raw(values)
    case BucketForm(buckets) => Buckets(SortedBins(buckets, 0))
  }

  // ---------------------------------------------------------------- what a form stands for

  function MapAt(counts: Counts, index: nat): Tally {
    if index in counts then Total(counts[index]) else Absent
  }

  function FormAt(form: Form, index: nat): Tally {
    match form
    case RawForm(values) => At(RawBins(values), index)
    case BucketForm(buckets) => MapAt(buckets, index)
  }

  /** A form stands for a list of samples: the list itself up to the protocol's cap, its histogram past it. */
  ghost predicate StandsFor(form: Form, samples: seq<u64>) {
    && (form.RawForm? <==> |samples| <= MAX_RAW_SAMPLES)
    && (form.RawForm? ==> form.values == samples)
    && forall index: nat :: FormAt(form, index) == At(RawBins(samples), index)
  }

  /** Any history of adds and merges, as a tree. */
  datatype History =
    | Fresh
    | Add(before: History, value: u64)
    | Merge(left: History, right: History)

  function Outcome(h: History): Form {
    match h
    case Fresh => NO_SAMPLES
    case Add(before, value) => Added(Outcome(before), value)
    case Merge(left, right) => Absorbed(Outcome(left), Outcome(right))
  }

  function AllSamples(h: History): seq<u64> {
    match h
    case Fresh => []
    case Add(before, value) => AllSamples(before) + [value]
    case Merge(left, right) => AllSamples(left) + AllSamples(right)
  }

  lemma {:induction false} RawBinsConcat(a: seq<u64>, b: seq<u64>)
    ensures RawBins(a + b) == RawBins(a) + RawBins(b)
  {
  }

  lemma {:induction false} TallyValuesAt(values: seq<u64>, index: nat)
    ensures MapAt(TallyValues(values), index) == At(RawBins(values), index)
  {
    if values != [] {
      TallyValuesAt(values[..|values| - 1], index);
      assert RawBins(values)[..|values| - 1] == RawBins(values[..|values| - 1]);
    }
  }

  lemma {:induction false} IntoBucketsAt(form: Form, index: nat)
    ensures MapAt(IntoBuckets(form), index) == FormAt(form, index)
  {
    if form.RawForm? { TallyValuesAt(form.values, index); }
  }

  lemma {:induction false} AddedStandsFor(form: Form, samples: seq<u64>, value: u64)
    requires StandsFor(form, samples)
    ensures StandsFor(Added(form, value), samples + [value])
  {
    forall index: nat
      ensures FormAt(Added(form, value), index) == At(RawBins(samples + [value]), index)
    {
      IntoBucketsAt(form, index);
      RawBinsConcat(samples, [value]);
      AtConcat(RawBins(samples), RawBins([value]), index);
      AtOne(Bin(BucketOf(value), 1), index);
      assert RawBins([value]) == [Bin(BucketOf(value), 1)];
    }
  }

  /** Merging adds up the samples at every index. */
  lemma {:induction false} AbsorbedAt(mine: Form, theirs: Form, index: nat)
    ensures FormAt(Absorbed(mine, theirs), index) == FormAt(mine, index).Plus(FormAt(theirs, index))
  {
    IntoBucketsAt(mine, index);
    IntoBucketsAt(theirs, index);
    if mine.RawForm? && theirs.RawForm? {
      RawBinsConcat(mine.values, theirs.values);
      AtConcat(RawBins(mine.values), RawBins(theirs.values), index);
    }
  }

  lemma {:induction false} AbsorbedStandsFor(mine: Form, a: seq<u64>, theirs: Form, b: seq<u64>)
    requires StandsFor(mine, a) && StandsFor(theirs, b)
    ensures StandsFor(Absorbed(mine, theirs), a + b)
  {
    forall index: nat
      ensures FormAt(Absorbed(mine, theirs), index) == At(RawBins(a + b), index)
    {
      AbsorbedAt(mine, theirs, index);
      RawBinsConcat(a, b);
      AtConcat(RawBins(a), RawBins(b), index);
    }
  }

  lemma {:induction false} OutcomeStandsFor(h: History)
    ensures StandsFor(Outcome(h), AllSamples(h))
  {
    match h
    case Fresh =>
    case Add(before, value) =>
      OutcomeStandsFor(before);
      AddedStandsFor(Outcome(before), AllSamples(before), value);
    case Merge(left, right) =>
      OutcomeStandsFor(left);
      OutcomeStandsFor(right);
      AbsorbedStandsFor(Outcome(left), AllSamples(left), Outcome(right), AllSamples(right));
  }

  lemma {:induction false} SortedBinsAt(counts: Counts, start: nat, index: nat)
    requires start <= U16_LIMIT
    ensures At(SortedBins(counts, start), index) == if start <= index then MapAt(counts, index) else Absent
    decreases U16_LIMIT - start
  {
    if start < U16_LIMIT {
      SortedBinsAt(counts, start + 1, index);
      if start in counts {
        AtConcat([Bin(start, counts[start])], SortedBins(counts, start + 1), index);
        AtOne(Bin(start, counts[start]), index);
      } else {
        assert SortedBins(counts, start) == SortedBins(counts, start + 1);
      }
    }
  }

  lemma {:induction false} SortedBinsAscend(counts: Counts, start: nat)
    requires start <= U16_LIMIT
    ensures StrictlySorted(SortedBins(counts, start))
    ensures forall k :: 0 <= k < |SortedBins(counts, start)| ==> start <= SortedBins(counts, start)[k].index < U16_LIMIT
    decreases U16_LIMIT - start
  {
    if start < U16_LIMIT { SortedBinsAscend(counts, start + 1); }
  }

  /** What goes on the wire tells the histogram of every sample ever added or merged in. */
  lemma {:induction false} WireTellsAllSamples(h: History)
    ensures SameHistogram(Bins(IntoDist(Outcome(h))), RawBins(AllSamples(h)))
  {
    OutcomeStandsFor(h);
    forall index: nat
      ensures At(Bins(IntoDist(Outcome(h))), index) == At(RawBins(AllSamples(h)), index)
    {
      match Outcome(h)
      case RawForm(values) =>
      case BucketForm(buckets) => SortedBinsAt(buckets, 0, index);
    }
  }

  /**
    Histogram homomorphism. However samples were added and merged across
    threads, the daemon folds what it is sent to the same buckets as the raw
    list of all of them, in the same number; up to the protocol's cap it is sent
    that list itself, and past it buckets in index order.
   */
  lemma {:induction false} HistogramHomomorphism(h: History)
    ensures Histogram(Bins(IntoDist(Outcome(h))), 0) == Histogram(Bins(Raw(AllSamples(h))), 0)
    ensures Count(IntoDist(Outcome(h))) == |AllSamples(h)|
    ensures match IntoDist(Outcome(h))
            case Raw(v) => |AllSamples(h)| <= MAX_RAW_SAMPLES && v == AllSamples(h)
            case Buckets(b) => |AllSamples(h)| > MAX_RAW_SAMPLES && StrictlySorted(b)
  {
    WireTellsAllSamples(h);
    OutcomeStandsFor(h);
    HistogramOfSame(Bins(IntoDist(Outcome(h))), RawBins(AllSamples(h)), 0);
    if Outcome(h).BucketForm? { SortedBinsAscend(Outcome(h).buckets, 0); }
    ToBucketsKeepsCount(IntoDist(Outcome(h)));
    ToBucketsKeepsCount(Raw(AllSamples(h)));
  }

  /** Neither grouping nor order shows: the same samples give the same buckets. */
  lemma {:induction false} GroupingAndOrderDoNotShow(g: History, h: History)
    requires multiset(AllSamples(g)) == multiset(AllSamples(h))
    ensures Histogram(Bins(IntoDist(Outcome(g))), 0) == Histogram(Bins(IntoDist(Outcome(h))), 0)
  {
    HistogramHomomorphism(g);
    HistogramHomomorphism(h);
    RawBinsPermute(AllSamples(g), AllSamples(h));
    SortedSame(RawBins(AllSamples(g)), RawBins(AllSamples(h)));
    HistogramOfSame(RawBins(AllSamples(g)), RawBins(AllSamples(h)), 0);
  }

  lemma {:induction false} RawBinsPermute(a: seq<u64>, b: seq<u64>)
    requires multiset(a) == multiset(b)
    ensures multiset(RawBins(a)) == multiset(RawBins(b))
    decreases |a|
  {
    assert |a| == |multiset(a)| == |multiset(b)| == |b|;
    if a != [] {
      var last := a[|a| - 1];
      assert last in multiset(b);
      var k :| 0 <= k < |b| && b[k] == last;
      var front, rest := a[..|a| - 1], b[..k] + b[k + 1..];
      assert a == front + [last];
      assert b == b[..k] + ([last] + b[k + 1..]);
      assert multiset(front) == multiset(a) - multiset{last};
      assert multiset(rest) == multiset(b) - multiset{last};
      RawBinsPermute(front, rest);
      RawBinsConcat(front, [last]);
      RawBinsConcat(b[..k], [last] + b[k + 1..]);
      RawBinsConcat([last], b[k + 1..]);
      RawBinsConcat(b[..k], b[k + 1..]);
    }
  }

  // ---------------------------------------------------------------- the accumulator in place

  class Samples {
    var form: Form

    constructor ()
      ensures form == NO_SAMPLES
    {
      form := NO_SAMPLES;
    }

    method Add(value: u64)
      modifies this
      ensures form == Added(old(form), value)
    {
      match form {
        case RawForm(values) =>
          if |values| < MAX_RAW_SAMPLES {
            form := RawForm(values + [value]);
          } else {
            var buckets := Fold(values);
            form := BucketForm(Bump(buckets, BucketOf(value), 1));
          }
        case BucketForm(buckets) =>
          form := BucketForm(Bump(buckets, BucketOf(value), 1));
      }
    }

    method Absorb(other: Form)
      modifies this
      ensures form == Absorbed(old(form), other)
    {
      if form.RawForm? && other.RawForm? && |form.values| + |other.values| <= MAX_RAW_SAMPLES {
        form := RawForm(form.values + other.values);
        return;
      }
      var mine := IntoBucketMap(form);
      var theirs := IntoBucketMap(other);
      var buckets := MergeCounts(mine, theirs);
      form := BucketForm(buckets);
    }
  }

  /** Adds one map's counts to another's, walking the first in no particular order. */
  method MergeCounts(mine: Counts, theirs: Counts) returns (buckets: Counts)
    ensures buckets == Merged(mine, theirs)
  {
    buckets := mine;
    var pending := theirs.Keys;
    while pending != {}
      invariant pending <= theirs.Keys
      invariant buckets == Merged(mine, theirs - pending)
      decreases |pending|
    {
      var index :| index in pending;
      MergeOne(mine, theirs, pending, index);
      buckets := Bump(buckets, index, theirs[index]);
      pending := pending - {index};
    }
    assert theirs - {} == theirs;
  }

  lemma {:induction false} MergeOne(mine: Counts, theirs: Counts, pending: set<u16>, index: u16)
    requires pending <= theirs.Keys && index in pending
    ensures Merged(mine, theirs - (pending - {index})) == Bump(Merged(mine, theirs - pending), index, theirs[index])
  {
  }

  method Fold(values: seq<u64>) returns (buckets: Counts)
    ensures buckets == TallyValues(values)
  {
    buckets := map[];
    for k := 0 to |values|
      invariant buckets == TallyValues(values[..k])
    {
      buckets := Bump(buckets, BucketOf(values[k]), 1);
      assert values[..k + 1][..k] == values[..k];
    }
    assert values[..|values|] == values;
  }

  method IntoBucketMap(form: Form) returns (buckets: Counts)
    ensures buckets == IntoBuckets(form)
  {
    match form
    case RawForm(values) => buckets := Fold(values);
    case BucketForm(held) => buckets := held;
  }
}
