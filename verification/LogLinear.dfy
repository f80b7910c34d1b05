/** Log-linear bucketing of `u64` values: exact below 32, sixteen sub-buckets per octave above. */
module LogLinear {
  import opened Basics
  import opened Words

  const LINEAR_LIMIT: nat := 32
  const SUB_BUCKETS: nat := 16
  const SUB_BITS: nat := 4
  const MAX_BUCKET: nat := 975

  function Pow2(n: nat): (p: nat)
    ensures p >= 1
  {
    if n == 0 then 1 else 2 * Pow2(n - 1)
  }

  /** How many binary digits `v` takes. */
  function BitLength(v: nat): nat {
    if v == 0 then 0 else 1 + BitLength(v / 2)
  }

  /** `u64::leading_zeros`. */
  function LeadingZeros(v: u64): (z: int)
  {
    64 - BitLength(v)
  }

  function Quotient(v: nat, d: nat): nat
    requires d > 0
  {
    v / d
  }

  /** `v >> places` on a `u64`. */
  function ShiftRight(v: nat, places: nat): nat {
    Quotient(v, Pow2(places))
  }

  /** `v << places` on a `u64`: the bits past the top are lost. */
  function ShiftLeft(v: nat, places: nat): u64 {
    (v * Pow2(places)) % U64_LIMIT
  }

  /** The bucket holding `v`. */
  function BucketOf(v: u64): (index: nat)
    ensures index <= MAX_BUCKET
  {
    if v < LINEAR_LIMIT then v
    else
      OctaveBounds(v);
      var octave := 63 - LeadingZeros(v);
      var sub := ShiftRight(v, octave - SUB_BITS) - SUB_BUCKETS;
      LINEAR_LIMIT + (octave - 5) * SUB_BUCKETS + sub
  }

  /** Inclusive value range a bucket covers. */
  function BucketRange(index: nat): (range: (u64, u64))
    requires index <= MAX_BUCKET
  {
    if index < LINEAR_LIMIT then (index, index)
    else
      var j := index - LINEAR_LIMIT;
      var octave := 5 + j / SUB_BUCKETS;
      var sub := j % SUB_BUCKETS;
      var shift := octave - SUB_BITS;
      RangeFits(shift, SUB_BUCKETS + sub);
      var lo := ShiftLeft(SUB_BUCKETS + sub, shift);
      (lo, lo + (ShiftLeft(1, shift) - 1))
  }

  function Lo(index: nat): u64 requires index <= MAX_BUCKET { BucketRange(index).0 }
  function Hi(index: nat): u64 requires index <= MAX_BUCKET { BucketRange(index).1 }

  /** The value a bucket stands for when its samples are gone. */
  function Midpoint(index: nat): nat
    requires index <= MAX_BUCKET
  {
    RangeShape(index);
    Lo(index) + (Hi(index) - Lo(index)) / 2
  }

  // ---------------------------------------------------------------- powers

  lemma {:induction false} Pow2Add(a: nat, b: nat)
    ensures Pow2(a + b) == Pow2(a) * Pow2(b)
  {
    if a != 0 { Pow2Add(a - 1, b); }
  }

  lemma {:induction false} Pow2Monotone(a: nat, b: nat)
    requires a <= b
    ensures Pow2(a) <= Pow2(b)
  {
    if a < b { Pow2Monotone(a, b - 1); }
  }

  lemma {:induction false} Pow2Of64()
    ensures Pow2(64) == U64_LIMIT
  {
    assert Pow2(8) == 256;
    Pow2Add(8, 8);
    Pow2Add(16, 16);
    Pow2Add(32, 32);
  }

  lemma {:induction false} BitLengthBounds(v: nat)
    requires v > 0
    ensures BitLength(v) >= 1
    ensures Pow2(BitLength(v) - 1) <= v < Pow2(BitLength(v))
  {
    if v > 1 { BitLengthBounds(v / 2); }
  }

  lemma {:induction false} BitLengthIs(v: nat, n: nat)
    requires Pow2(n) <= v < Pow2(n + 1)
    ensures BitLength(v) == n + 1
  {
    BitLengthBounds(v);
    if BitLength(v) <= n { Pow2Monotone(BitLength(v), n); }
    if BitLength(v) >= n + 2 { Pow2Monotone(n + 1, BitLength(v) - 1); }
  }

  lemma {:induction false} SmallPowers()
    ensures Pow2(1) == 2 && Pow2(4) == 16 && Pow2(5) == 32
  {
  }

  lemma {:induction false} QuotientBounds(v: nat, d: nat)
    requires d > 0
    ensures Quotient(v, d) * d <= v < Quotient(v, d) * d + d
  {
  }

  lemma {:induction false} QuotientIs(v: nat, d: nat, k: nat)
    requires d > 0 && k * d <= v < k * d + d
    ensures Quotient(v, d) == k
  {
    var q := Quotient(v, d);
    QuotientBounds(v, d);
    assert (q + 1) * d == q * d + d && (k + 1) * d == k * d + d;
    if q + 1 <= k { MulMonotone(q + 1, k, d); }
    if k + 1 <= q { MulMonotone(k + 1, q, d); }
  }

  lemma {:induction false} QuotientRange(v: nat, d: nat, low: nat, high: nat)
    requires d > 0 && low * d <= v < high * d
    ensures low <= Quotient(v, d) < high
  {
    var q := Quotient(v, d);
    QuotientBounds(v, d);
    assert (q + 1) * d == q * d + d;
    if q + 1 <= low { MulMonotone(q + 1, low, d); }
    if high <= q { MulMonotone(high, q, d); }
  }

  /** The octave a value falls in, and the room that leaves for its sub-bucket. */
  lemma {:induction false} OctaveBounds(v: u64)
    requires v >= LINEAR_LIMIT
    ensures 6 <= BitLength(v) <= 64
    ensures SUB_BUCKETS <= Quotient(v, Pow2(BitLength(v) - 5)) < 2 * SUB_BUCKETS
  {
    BitLengthBounds(v);
    SmallPowers();
    Pow2Of64();
    var n := BitLength(v);
    if n < 6 { Pow2Monotone(n, 5); }
    if n > 64 { Pow2Monotone(64, n - 1); }
    Pow2Add(4, n - 5);
    Pow2Add(5, n - 5);
    QuotientRange(v, Pow2(n - 5), 16, 32);
  }

  /** No shift or add in `BucketRange` passes the top of a `u64`. */
  lemma {:induction false} RangeFits(shift: nat, k: nat)
    requires shift <= 59 && k < 2 * SUB_BUCKETS
    ensures k * Pow2(shift) + Pow2(shift) <= U64_LIMIT
    ensures ShiftLeft(k, shift) == k * Pow2(shift)
    ensures ShiftLeft(1, shift) == Pow2(shift)
  {
    var d := Pow2(shift);
    PowersFit(shift);
    MulMonotone(k + 1, 32, d);
    NextMultiple(k, d);
    SmallModulo(k * d, U64_LIMIT);
    SmallModulo(d, U64_LIMIT);
  }

  lemma {:induction false} PowersFit(shift: nat)
    requires shift <= 59
    ensures 32 * Pow2(shift) <= U64_LIMIT
  {
    Pow2Of64();
    SmallPowers();
    Pow2Add(5, shift);
    Pow2Monotone(5 + shift, 64);
  }

  lemma {:induction false} NextMultiple(k: nat, d: nat)
    ensures (k + 1) * d == k * d + d
  {
  }

  lemma {:induction false} SmallModulo(a: nat, m: nat)
    requires a < m
    ensures a % m == a
  {
  }

  // ---------------------------------------------------------------- the partition

  /** A bucket's range in closed form: its sub-bucket of its octave. */
  lemma {:induction false} RangeShape(index: nat)
    requires index <= MAX_BUCKET
    ensures Lo(index) <= Hi(index)
    ensures index < LINEAR_LIMIT ==> Lo(index) == Hi(index) == index
    ensures index >= LINEAR_LIMIT ==>
              var shift := 1 + (index - LINEAR_LIMIT) / SUB_BUCKETS;
              var sub := (index - LINEAR_LIMIT) % SUB_BUCKETS;
              && Lo(index) == (SUB_BUCKETS + sub) * Pow2(shift)
              && Hi(index) == (SUB_BUCKETS + sub) * Pow2(shift) + Pow2(shift) - 1
  {
    if index >= LINEAR_LIMIT {
      RangeFits(1 + (index - LINEAR_LIMIT) / SUB_BUCKETS, SUB_BUCKETS + (index - LINEAR_LIMIT) % SUB_BUCKETS);
    }
  }

  lemma {:induction false} PlaceOf(index: nat, shift: nat, q: nat)
    requires shift >= 1 && SUB_BUCKETS <= q < 2 * SUB_BUCKETS
    requires index == LINEAR_LIMIT + (shift - 1) * SUB_BUCKETS + (q - SUB_BUCKETS)
    ensures (index - LINEAR_LIMIT) / SUB_BUCKETS == shift - 1
    ensures (index - LINEAR_LIMIT) % SUB_BUCKETS == q - SUB_BUCKETS
  {
  }

  /** The value always lies inside the range of the bucket chosen for it. */
  lemma {:induction false} BucketContains(v: u64)
    ensures Lo(BucketOf(v)) <= v <= Hi(BucketOf(v))
  {
    if v >= LINEAR_LIMIT {
      OctaveBounds(v);
      PlaceContains(BucketOf(v), BitLength(v) - 5, v);
    } else {
      RangeShape(v);
    }
  }

  lemma {:induction false} PlaceContains(index: nat, shift: nat, v: u64)
    requires 1 <= shift && SUB_BUCKETS <= Quotient(v, Pow2(shift)) < 2 * SUB_BUCKETS && index <= MAX_BUCKET
    requires index == LINEAR_LIMIT + (shift - 1) * SUB_BUCKETS + (Quotient(v, Pow2(shift)) - SUB_BUCKETS)
    ensures Lo(index) <= v <= Hi(index)
  {
    PlaceOf(index, shift, Quotient(v, Pow2(shift)));
    QuotientBounds(v, Pow2(shift));
    RangeShape(index);
  }

  /** A value inside a bucket's range is put in that bucket and no other. */
  lemma {:induction false} RangeDecides(v: u64, index: nat)
    requires index <= MAX_BUCKET && Lo(index) <= v <= Hi(index)
    ensures BucketOf(v) == index
  {
    RangeShape(index);
    if index >= LINEAR_LIMIT {
      var shift := 1 + (index - LINEAR_LIMIT) / SUB_BUCKETS;
      var sub := (index - LINEAR_LIMIT) % SUB_BUCKETS;
      var d := Pow2(shift);
      SmallPowers();
      Pow2Add(4, shift);
      Pow2Add(5, shift);
      Pow2Monotone(1, shift);
      MulMonotone(16, 16 + sub, d);
      MulMonotone(16 + sub + 1, 32, d);
      NextMultiple(16 + sub, d);
      BitLengthIs(v, 4 + shift);
      QuotientIs(v, d, 16 + sub);
    }
  }

  /** Every `u64` is in exactly one bucket: the one whose range holds it. */
  lemma {:induction false} BucketPartition(v: u64, index: nat)
    requires index <= MAX_BUCKET
    ensures BucketOf(v) == index <==> Lo(index) <= v <= Hi(index)
  {
    BucketContains(v);
    if Lo(index) <= v <= Hi(index) { RangeDecides(v, index); }
  }

  /** The ranges tile `0 ..= u64::MAX` in order, without gap or overlap. */
  lemma {:induction false} BucketsAreContiguous(index: nat)
    requires index <= MAX_BUCKET
    ensures Lo(0) == 0
    ensures Hi(MAX_BUCKET) == U64_MAX
    ensures index < MAX_BUCKET ==> Lo(index + 1) == Hi(index) + 1
  {
    FirstAndLast();
    if index < LINEAR_LIMIT - 1 {
      RangeShape(index);
      RangeShape(index + 1);
    } else if index == LINEAR_LIMIT - 1 {
      RangeShape(index);
      RangeShape(LINEAR_LIMIT);
      SmallPowers();
    } else if index < MAX_BUCKET {
      NextRange(index);
    }
  }

  lemma {:induction false} NextRange(index: nat)
    requires LINEAR_LIMIT <= index < MAX_BUCKET
    ensures Lo(index + 1) == Hi(index) + 1
  {
    var j := index - LINEAR_LIMIT;
    NextMultiple(SUB_BUCKETS + j % SUB_BUCKETS, Pow2(1 + j / SUB_BUCKETS));
    NextStart(j);
    RangeShape(index);
    RangeShape(index + 1);
    assert index + 1 - LINEAR_LIMIT == j + 1;
  }

  lemma {:induction false} NextStart(j: nat)
    ensures (SUB_BUCKETS + (j + 1) % SUB_BUCKETS) * Pow2(1 + (j + 1) / SUB_BUCKETS)
         == (SUB_BUCKETS + j % SUB_BUCKETS + 1) * Pow2(1 + j / SUB_BUCKETS)
  {
    NextSubBucket(j);
    if j % SUB_BUCKETS == SUB_BUCKETS - 1 {
      assert Pow2(2 + j / SUB_BUCKETS) == 2 * Pow2(1 + j / SUB_BUCKETS);
    }
  }

  lemma {:induction false} NextSubBucket(j: nat)
    ensures j % SUB_BUCKETS < SUB_BUCKETS - 1 ==>
              (j + 1) / SUB_BUCKETS == j / SUB_BUCKETS && (j + 1) % SUB_BUCKETS == j % SUB_BUCKETS + 1
    ensures j % SUB_BUCKETS == SUB_BUCKETS - 1 ==>
              (j + 1) / SUB_BUCKETS == j / SUB_BUCKETS + 1 && (j + 1) % SUB_BUCKETS == 0
  {
  }

  lemma {:induction false} FirstAndLast()
    ensures Lo(0) == 0
    ensures Hi(MAX_BUCKET) == U64_MAX
  {
    RangeShape(0);
    RangeShape(MAX_BUCKET);
    Pow2Of64();
    SmallPowers();
    Pow2Add(5, 59);
  }

  /** Ranges further along hold larger values. */
  lemma {:induction false} RangesAscend(i: nat, j: nat)
    requires i < j <= MAX_BUCKET
    ensures Hi(i) < Lo(j)
    decreases j
  {
    BucketsAreContiguous(j - 1);
    if i < j - 1 {
      RangesAscend(i, j - 1);
      RangeShape(j - 1);
    }
  }

  /** `BucketOf` keeps the order of values, and every index up to the largest is used. */
  lemma {:induction false} BucketOfIsMonotoneAndOnto(v: u64, w: u64, index: nat)
    requires index <= MAX_BUCKET
    ensures v <= w ==> BucketOf(v) <= BucketOf(w)
    ensures BucketOf(Lo(index)) == BucketOf(Hi(index)) == index
  {
    BucketContains(v);
    BucketContains(w);
    if BucketOf(w) < BucketOf(v) { RangesAscend(BucketOf(w), BucketOf(v)); }
    RangeShape(index);
    RangeDecides(Lo(index), index);
    RangeDecides(Hi(index), index);
  }

  /** Above the linear part a bucket is at most a sixteenth as wide as its smallest value. */
  lemma {:induction false} RelativeWidth(index: nat)
    requires LINEAR_LIMIT <= index <= MAX_BUCKET
    ensures SUB_BUCKETS * (Hi(index) - Lo(index) + 1) <= Lo(index)
  {
    RangeShape(index);
    var shift := 1 + (index - LINEAR_LIMIT) / SUB_BUCKETS;
    var sub := (index - LINEAR_LIMIT) % SUB_BUCKETS;
    assert (SUB_BUCKETS + sub) * Pow2(shift) == SUB_BUCKETS * Pow2(shift) + sub * Pow2(shift);
  }

  /** A bucket's midpoint is within 1/32 of any value in it, and exact in the linear part. */
  lemma {:induction false} MidpointError(v: u64)
    ensures 32 * AbsDiff(Midpoint(BucketOf(v)), v) <= v
    ensures v < LINEAR_LIMIT ==> Midpoint(BucketOf(v)) == v
  {
    BucketContains(v);
    var index := BucketOf(v);
    RangeShape(index);
    if v >= LINEAR_LIMIT {
      OctaveBounds(v);
      assert index >= LINEAR_LIMIT;
      RelativeWidth(index);
      var shift := 1 + (index - LINEAR_LIMIT) / SUB_BUCKETS;
      assert Pow2(shift) == 2 * Pow2(shift - 1);
    }
  }
}
