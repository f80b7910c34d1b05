/** Live-instance accounting: two counters per construction, two per drop, no lock around either pair. */
module LiveCounters {
  import opened Basics
  import opened Words
  import opened Sums
  import opened LogLinear
  import opened Distribution

  const BUCKET_COUNT: nat := MAX_BUCKET + 1
  const U32_LIMIT: nat := 0x1_0000_0000

  /** A type's shared counters: the live count, and one unsigned 32-bit counter per size bucket. */
  datatype Slot = Slot(live: int, buckets: seq<nat>)

  /** How far a token's thread has got between its two counter updates. */
  datatype Phase = Constructing | Alive | Dropping

  /** A census token. It keeps its bucket; `bytes` is what its construction, or its original's, measured. */
  datatype Token = Uncounted | Counted(phase: Phase, bucket: nat, bytes: u64)

  datatype Census = Census(slot: Slot, tokens: map<nat, Token>)

  function Zeros(n: nat): seq<nat> {
    seq(n, (k: nat) => 0)
  }

  const START: Census := Census(Slot(0, Zeros(BUCKET_COUNT)), map[])

  datatype Step =
    | BeginFromBytes(id: nat, bytes: u64)
    | BeginClone(original: nat, id: nat)
    | FinishConstruction(id: nat)
    | BeginDrop(id: nat)
    | FinishDrop(id: nat)
    | MakeUncounted(id: nat)
    | DropUncounted(id: nat)

  /** `fetch_add` and `fetch_sub` on a 32-bit counter wrap. */
  function Add32(n: nat): nat { (n + 1) % U32_LIMIT }
  function Sub32(n: nat): nat { (n + U32_LIMIT - 1) % U32_LIMIT }

  predicate IsCounted(c: Census, id: nat, phase: Phase) {
    id in c.tokens && c.tokens[id].Counted? && c.tokens[id].phase == phase
  }

  predicate Shaped(c: Census) {
    && |c.slot.buckets| == BUCKET_COUNT
    && forall id :: id in c.tokens && c.tokens[id].Counted? ==> c.tokens[id].bucket < BUCKET_COUNT
  }

  /** A token is made once, cloned and dropped while alive; fewer than 2^32 exist at a time. */
  predicate Enabled(c: Census, step: Step) {
    Shaped(c) &&
    match step
    case BeginFromBytes(id, _) => id !in c.tokens && |c.tokens| + 1 < U32_LIMIT
    case BeginClone(original, id) =>
      id !in c.tokens && |c.tokens| + 1 < U32_LIMIT
      && original in c.tokens && (c.tokens[original].Uncounted? || c.tokens[original].phase.Alive?)
    case FinishConstruction(id) => IsCounted(c, id, Constructing)
    case BeginDrop(id) => IsCounted(c, id, Alive)
    case FinishDrop(id) => IsCounted(c, id, Dropping)
    case MakeUncounted(id) => id !in c.tokens && |c.tokens| + 1 < U32_LIMIT
    case DropUncounted(id) => id in c.tokens && c.tokens[id].Uncounted?
  }

  function AddLive(s: Slot, delta: int): Slot { s.(live := s.live + delta) }

  function SetBucket(s: Slot, b: nat, n: nat): Slot
    requires b < |s.buckets|
  {
    s.(buckets := s.buckets[b := n])
  }

  /** One atomic step of some thread. */
  function Next(c: Census, step: Step): Census
    requires Enabled(c, step)
  {
    match step
    case BeginFromBytes(id, bytes) =>
      Census(AddLive(c.slot, 1), c.tokens[id := Counted(Constructing, BucketOf(bytes), bytes)])
    case BeginClone(original, id) =>
      if c.tokens[original].Uncounted? then c.(tokens := c.tokens[id := Uncounted])
      else Census(AddLive(c.slot, 1), c.tokens[id := c.tokens[original].(phase := Constructing)])
    case FinishConstruction(id) =>
      var b := c.tokens[id].bucket;
      Census(SetBucket(c.slot, b, Add32(c.slot.buckets[b])), c.tokens[id := c.tokens[id].(phase := Alive)])
    case BeginDrop(id) =>
      Census(AddLive(c.slot, -1), c.tokens[id := c.tokens[id].(phase := Dropping)])
    case FinishDrop(id) =>
      var b := c.tokens[id].bucket;
      Census(SetBucket(c.slot, b, Sub32(c.slot.buckets[b])), c.tokens - {id})
    case MakeUncounted(id) => c.(tokens := c.tokens[id := Uncounted])
    case DropUncounted(id) => c.(tokens := c.tokens - {id})
  }

  // ---------------------------------------------------------------- the invariant

  /** Tokens whose bucket update has landed and whose removal has not. */
  predicate InBucket(token: Token, b: nat) {
    token.Counted? && token.bucket == b && !token.phase.Constructing?
  }

  predicate IsLive(token: Token) {
    token.Counted? && !token.phase.Dropping?
  }

  function Holding(c: Census, b: nat): set<nat> {
    set id | id in c.tokens && InBucket(c.tokens[id], b)
  }

  function Living(c: Census): set<nat> {
    set id | id in c.tokens && IsLive(c.tokens[id])
  }

  ghost predicate CountersTrue(c: Census) {
    && Shaped(c)
    && |c.tokens| < U32_LIMIT
    && (forall id :: id in c.tokens && c.tokens[id].Counted? ==> c.tokens[id].bucket == BucketOf(c.tokens[id].bytes))
    && c.slot.live == |Living(c)|
    && (forall b :: 0 <= b < BUCKET_COUNT ==> c.slot.buckets[b] == |Holding(c, b)|)
  }

  lemma {:induction false} StartIsTrue()
    ensures CountersTrue(START)
  {
    assert Living(START) == {};
    forall b | 0 <= b < BUCKET_COUNT ensures Holding(START, b) == {} {}
  }

  /** What replacing one token does to the tokens counted by a bucket. */
  lemma {:induction false} HoldingMoves(c: Census, c': Census, id: nat, b: nat)
    requires forall x :: x != id ==> (x in c.tokens <==> x in c'.tokens) && (x in c.tokens ==> c.tokens[x] == c'.tokens[x])
    ensures Holding(c', b) - {id} == Holding(c, b) - {id}
    ensures |Holding(c', b)| + (if id in Holding(c, b) then 1 else 0)
         == |Holding(c, b)| + (if id in Holding(c', b) then 1 else 0)
    ensures |Living(c')| + (if id in Living(c) then 1 else 0) == |Living(c)| + (if id in Living(c') then 1 else 0)
  {
    OneOut(Holding(c, b), Holding(c', b), id);
    assert Living(c') - {id} == Living(c) - {id};
    OneOut(Living(c), Living(c'), id);
  }

  lemma {:induction false} OneOut(a: set<nat>, b: set<nat>, x: nat)
    requires forall y :: y != x ==> (y in a <==> y in b)
    ensures a - {x} == b - {x}
    ensures |b| + (if x in a then 1 else 0) == |a| + (if x in b then 1 else 0)
  {
    assert a - {x} == b - {x};
    assert |a - {x}| == |a| - if x in a then 1 else 0;
    assert |b - {x}| == |b| - if x in b then 1 else 0;
  }

  lemma {:induction false} HoldingIsBounded(c: Census, b: nat)
    ensures |Holding(c, b)| <= |c.tokens|
  {
    SubsetIsSmaller(Holding(c, b), c.tokens.Keys);
  }

  /** A counter within its width neither wraps up nor, unless it is zero, down. */
  lemma {:induction false} NoWrap(n: nat)
    ensures n + 1 < U32_LIMIT ==> Add32(n) == n + 1
    ensures 0 < n < U32_LIMIT ==> Sub32(n) == n - 1
  {
    if 0 < n < U32_LIMIT { assert n + U32_LIMIT - 1 == U32_LIMIT + (n - 1); }
  }

  lemma {:induction false} OthersStand(c: Census, step: Step)
    requires Enabled(c, step)
    ensures forall x :: x != step.id ==>
              (x in c.tokens <==> x in Next(c, step).tokens) && (x in c.tokens ==> c.tokens[x] == Next(c, step).tokens[x])
  {
  }

  lemma {:induction false} NextKeepsTokens(c: Census, step: Step)
    requires CountersTrue(c) && Enabled(c, step)
    ensures var c' := Next(c, step);
            && Shaped(c') && |c'.tokens| < U32_LIMIT
            && forall id :: id in c'.tokens && c'.tokens[id].Counted? ==> c'.tokens[id].bucket == BucketOf(c'.tokens[id].bytes)
  {
    OthersStand(c, step);
    TokensBounded(c, Next(c, step), step.id);
  }

  lemma {:induction false} NextKeepsLive(c: Census, step: Step)
    requires CountersTrue(c) && Enabled(c, step)
    ensures Next(c, step).slot.live == |Living(Next(c, step))|
  {
    OthersStand(c, step);
    HoldingMoves(c, Next(c, step), step.id, 0);
  }

  /** How a step moves bucket `b`: up as a construction ends, down as a drop ends. */
  function Moves(c: Census, step: Step, b: nat): int
    requires Enabled(c, step)
  {
    if step.FinishConstruction? && c.tokens[step.id].bucket == b then 1
    else if step.FinishDrop? && c.tokens[step.id].bucket == b then -1
    else 0
  }

  lemma {:induction false} HoldingStep(c: Census, step: Step, b: nat)
    requires Enabled(c, step)
    ensures |Holding(Next(c, step), b)| == |Holding(c, b)| + Moves(c, step, b)
    ensures Moves(c, step, b) == -1 ==> |Holding(c, b)| > 0
  {
    OthersStand(c, step);
    HoldingMoves(c, Next(c, step), step.id, b);
    if Moves(c, step, b) == -1 { assert step.id in Holding(c, b); }
  }

  lemma {:induction false} CounterStep(c: Census, step: Step, b: nat)
    requires Enabled(c, step) && b < BUCKET_COUNT
    requires Moves(c, step, b) == 1 ==> c.slot.buckets[b] + 1 < U32_LIMIT
    requires Moves(c, step, b) == -1 ==> 0 < c.slot.buckets[b] < U32_LIMIT
    ensures |Next(c, step).slot.buckets| == BUCKET_COUNT
    ensures Next(c, step).slot.buckets[b] == c.slot.buckets[b] + Moves(c, step, b)
  {
    NoWrap(c.slot.buckets[b]);
  }

  lemma {:induction false} NextKeepsBucket(c: Census, step: Step, b: nat)
    requires CountersTrue(c) && Enabled(c, step) && b < BUCKET_COUNT
    ensures |Next(c, step).slot.buckets| == BUCKET_COUNT && Next(c, step).slot.buckets[b] == |Holding(Next(c, step), b)|
    ensures step.FinishDrop? && c.tokens[step.id].bucket == b ==> c.slot.buckets[b] > 0
  {
    HoldingStep(c, step, b);
    HoldingIsBounded(c, b);
    HoldingIsBounded(Next(c, step), b);
    NextKeepsTokens(c, step);
    CounterStep(c, step, b);
  }

  /**
    After every atomic step each bucket's counter is the number of instances
    between their bucket add and their bucket subtract, so no counter ever wraps
    below zero, and the live count is the number between its add and its
    subtract.
   */
  lemma {:induction false} NextKeepsCounters(c: Census, step: Step)
    requires CountersTrue(c) && Enabled(c, step)
    ensures CountersTrue(Next(c, step))
    ensures step.FinishDrop? ==> c.slot.buckets[c.tokens[step.id].bucket] > 0
  {
    NextKeepsTokens(c, step);
    NextKeepsLive(c, step);
    forall b | 0 <= b < BUCKET_COUNT
      ensures Next(c, step).slot.buckets[b] == |Holding(Next(c, step), b)|
    {
      NextKeepsBucket(c, step, b);
    }
    if step.FinishDrop? { NextKeepsBucket(c, step, c.tokens[step.id].bucket); }
  }

  lemma {:induction false} TokensBounded(c: Census, c': Census, id: nat)
    requires forall x :: x != id ==> (x in c.tokens <==> x in c'.tokens)
    requires |c.tokens| < U32_LIMIT && (id !in c.tokens ==> |c.tokens| + 1 < U32_LIMIT)
    ensures |c'.tokens| < U32_LIMIT
  {
    OneOut(c.tokens.Keys, c'.tokens.Keys, id);
  }

  /** Any sequence of steps; one that is not possible when its turn comes does nothing. */
  function Play(steps: seq<Step>): Census {
    if steps == [] then START
    else
      var c := Play(steps[..|steps| - 1]);
      if Enabled(c, steps[|steps| - 1]) then Next(c, steps[|steps| - 1]) else c
  }

  lemma {:induction false} RunKeepsCounters(steps: seq<Step>)
    ensures CountersTrue(Play(steps))
  {
    if steps == [] {
      StartIsTrue();
    } else {
      RunKeepsCounters(steps[..|steps| - 1]);
      var c := Play(steps[..|steps| - 1]);
      if Enabled(c, steps[|steps| - 1]) { NextKeepsCounters(c, steps[|steps| - 1]); }
    }
  }

  // ---------------------------------------------------------------- at rest

  /** No thread is between its two updates. */
  predicate Quiescent(c: Census) {
    forall id :: id in c.tokens && c.tokens[id].Counted? ==> c.tokens[id].phase.Alive?
  }

  function BucketSum(buckets: seq<nat>, weight: nat -> nat): nat {
    if buckets == [] then 0
    else BucketSum(buckets[..|buckets| - 1], weight) + weight(|buckets| - 1) * buckets[|buckets| - 1]
  }

  /** Sparse, sorted, and non-empty buckets only. */
  function Sparse(buckets: seq<nat>): seq<Bin>
    requires |buckets| <= BUCKET_COUNT
  {
    if buckets == [] then []
    else
      var last := |buckets| - 1;
      Sparse(buckets[..last]) + if buckets[last] == 0 then [] else [Bin(last, buckets[last])]
  }

  /** The wire shape carries every weighted total the counters do, in order and within range. */
  lemma {:induction false} SparseCarriesAll(buckets: seq<nat>, weight: nat -> nat)
    requires |buckets| <= BUCKET_COUNT
    ensures Weigh(Sparse(buckets), weight) == BucketSum(buckets, weight)
  {
    if buckets != [] {
      var last := |buckets| - 1;
      SparseCarriesAll(buckets[..last], weight);
      if buckets[last] != 0 {
        assert Sparse(buckets)[..|Sparse(buckets)| - 1] == Sparse(buckets[..last]);
      } else {
        assert Sparse(buckets) == Sparse(buckets[..last]);
      }
    }
  }

  lemma {:induction false} SparseShape(buckets: seq<nat>)
    requires |buckets| <= BUCKET_COUNT
    ensures StrictlySorted(Sparse(buckets)) && WithinRange(Sparse(buckets))
    ensures forall k :: 0 <= k < |Sparse(buckets)| ==> Sparse(buckets)[k].index < |buckets| && Sparse(buckets)[k].count > 0
  {
    if buckets != [] { SparseShape(buckets[..|buckets| - 1]); }
  }

  function InThe(ids: set<nat>, bucketOf: nat -> nat, b: nat): set<nat> {
    set id | id in ids && bucketOf(id) == b
  }

  /** How many ids fall in each of the first `n` buckets. */
  function Tallies(ids: set<nat>, bucketOf: nat -> nat, n: nat): seq<nat> {
    seq(n, (b: nat) => |InThe(ids, bucketOf, b)|)
  }

  lemma {:induction false} TalliesOfNothing(bucketOf: nat -> nat, n: nat, weight: nat -> nat)
    ensures BucketSum(Tallies({}, bucketOf, n), weight) == 0
  {
    if n != 0 {
      TalliesOfNothing(bucketOf, n - 1, weight);
      var t := Tallies({}, bucketOf, n);
      assert t[..n - 1] == Tallies({}, bucketOf, n - 1);
      assert InThe({}, bucketOf, n - 1) == {};
    }
  }

  lemma {:induction false} OneMoreTally(ids: set<nat>, id: nat, bucketOf: nat -> nat, n: nat, weight: nat -> nat)
    requires id !in ids
    ensures BucketSum(Tallies(ids + {id}, bucketOf, n), weight)
         == BucketSum(Tallies(ids, bucketOf, n), weight) + if bucketOf(id) < n then weight(bucketOf(id)) else 0
  {
    if n != 0 {
      var b := n - 1;
      OneMoreTally(ids, id, bucketOf, b, weight);
      TalliesFront(ids + {id}, bucketOf, b);
      TalliesFront(ids, bucketOf, b);
      OneMoreIn(ids, id, bucketOf, b);
      if bucketOf(id) == b { Distribute(weight(b), |InThe(ids, bucketOf, b)|, 1); }
    }
  }

  lemma {:induction false} TalliesFront(ids: set<nat>, bucketOf: nat -> nat, b: nat)
    ensures Tallies(ids, bucketOf, b + 1)[..b] == Tallies(ids, bucketOf, b)
    ensures Tallies(ids, bucketOf, b + 1)[b] == |InThe(ids, bucketOf, b)|
  {
  }

  lemma {:induction false} OneMoreIn(ids: set<nat>, id: nat, bucketOf: nat -> nat, b: nat)
    requires id !in ids
    ensures |InThe(ids + {id}, bucketOf, b)| == |InThe(ids, bucketOf, b)| + if bucketOf(id) == b then 1 else 0
  {
    var before, after := InThe(ids, bucketOf, b), InThe(ids + {id}, bucketOf, b);
    if bucketOf(id) == b { assert after == before + {id}; } else { assert after == before; }
  }

  function Through(weight: nat -> nat, bucketOf: nat -> nat): nat -> nat {
    (id: nat) => weight(bucketOf(id))
  }

  function One(b: nat): nat { 1 }

  /** Summing bucket by bucket is summing instance by instance. */
  lemma {:induction false} BucketByBucket(ids: set<nat>, bucketOf: nat -> nat, n: nat, weight: nat -> nat)
    requires forall id :: id in ids ==> bucketOf(id) < n
    ensures BucketSum(Tallies(ids, bucketOf, n), weight) == SumOver(ids, Through(weight, bucketOf))
  {
    if ids == {} {
      TalliesOfNothing(bucketOf, n, weight);
    } else {
      var id :| id in ids;
      var rest := ids - {id};
      assert rest + {id} == ids;
      BucketByBucket(rest, bucketOf, n, weight);
      OneMoreTally(rest, id, bucketOf, n, weight);
      SumPick(ids, id, Through(weight, bucketOf));
    }
  }

  /** Live counted tokens, and what each one weighed when it was made. */
  function Instances(c: Census): set<nat> {
    set id | id in c.tokens && c.tokens[id].Counted?
  }

  function BytesOf(c: Census): nat -> nat {
    (id: nat) => if id in c.tokens && c.tokens[id].Counted? then c.tokens[id].bytes else 0
  }

  function BucketIn(c: Census): nat -> nat {
    (id: nat) => if id in c.tokens && c.tokens[id].Counted? then c.tokens[id].bucket else 0
  }

  lemma {:induction false} SumOfOnes(ids: set<nat>, f: nat -> nat)
    requires forall id :: id in ids ==> f(id) == 1
    ensures SumOver(ids, f) == |ids|
  {
    if ids != {} {
      var id :| id in ids;
      SumPick(ids, id, f);
      SumOfOnes(ids - {id}, f);
    }
  }

  lemma {:induction false} BucketsAreTallies(c: Census)
    requires CountersTrue(c) && Quiescent(c)
    ensures c.slot.buckets == Tallies(Instances(c), BucketIn(c), BUCKET_COUNT)
    ensures Living(c) == Instances(c)
  {
    forall b | 0 <= b < BUCKET_COUNT
      ensures Holding(c, b) == InThe(Instances(c), BucketIn(c), b)
    {
    }
  }

  lemma {:induction false} TokenNearBytes(c: Census, id: nat)
    requires CountersTrue(c) && id in Instances(c)
    ensures 32 * AbsDiff(Through(MidpointOf, BucketIn(c))(id), BytesOf(c)(id)) <= BytesOf(c)(id)
  {
    MidpointError(c.tokens[id].bytes);
  }

  /** Figures each within 1/32 of another sum to totals that are. */
  lemma {:induction false} SumsStayNear(ids: set<nat>, f: nat -> nat, g: nat -> nat)
    requires forall id :: id in ids ==> 32 * AbsDiff(f(id), g(id)) <= g(id)
    ensures 32 * AbsDiff(SumOver(ids, f), SumOver(ids, g)) <= SumOver(ids, g)
  {
    if ids != {} {
      var id :| id in ids;
      SumsStayNear(ids - {id}, f, g);
      SumPick(ids, id, f);
      SumPick(ids, id, g);
      NearAdds(SumOver(ids - {id}, f), SumOver(ids - {id}, g), f(id), g(id));
    }
  }

  /** Bytes as the midpoints of the buckets have them, against bytes as they were measured. */
  lemma {:induction false} MidpointsNearBytes(c: Census)
    requires CountersTrue(c)
    ensures 32 * AbsDiff(SumOver(Instances(c), Through(MidpointOf, BucketIn(c))), SumOver(Instances(c), BytesOf(c)))
            <= SumOver(Instances(c), BytesOf(c))
  {
    forall id | id in Instances(c)
      ensures 32 * AbsDiff(Through(MidpointOf, BucketIn(c))(id), BytesOf(c)(id)) <= BytesOf(c)(id)
    {
      TokenNearBytes(c, id);
    }
    SumsStayNear(Instances(c), Through(MidpointOf, BucketIn(c)), BytesOf(c));
  }

  lemma {:induction false} NearAdds(a: nat, b: nat, c: nat, d: nat)
    requires 32 * AbsDiff(a, b) <= b && 32 * AbsDiff(c, d) <= d
    ensures 32 * AbsDiff(c + a, d + b) <= d + b
  {
  }

  /** What the counters say of the tokens there are, and how near the footprint read off them comes. */
  ghost predicate CountsInstances(slot: Slot, tokens: map<nat, Token>) {
    var c := Census(slot, tokens);
    && |slot.buckets| == BUCKET_COUNT
    && slot.live == |Instances(c)| == BucketSum(slot.buckets, One)
    && (forall b :: 0 <= b < BUCKET_COUNT ==>
          slot.buckets[b] == |set id | id in Instances(c) && BucketOf(tokens[id].bytes) == b|)
    && WithinRange(Sparse(slot.buckets))
    && 32 * AbsDiff(BytesFromBuckets(Sparse(slot.buckets)), SumOver(Instances(c), BytesOf(c))) <= SumOver(Instances(c), BytesOf(c))
  }

  lemma {:induction false} RestingCounters(c: Census)
    requires CountersTrue(c) && Quiescent(c)
    ensures CountsInstances(c.slot, c.tokens)
  {
    assert c == Census(c.slot, c.tokens);
    BucketsAreTallies(c);
    BucketByBucket(Instances(c), BucketIn(c), BUCKET_COUNT, One);
    SumOfOnes(Instances(c), Through(One, BucketIn(c)));
    BucketByBucket(Instances(c), BucketIn(c), BUCKET_COUNT, MidpointOf);
    MidpointsNearBytes(c);
    BucketsHoldTheirOwn(c);
    SparseShape(c.slot.buckets);
    SparseCarriesAll(c.slot.buckets, MidpointOf);
  }

  /**
    At rest. In any run of interleaved constructions, clones and drops, whenever
    no thread is between its two updates the live count is the number of counted
    tokens and the sum of the buckets, each bucket holds exactly the instances
    whose construction, or whose original's, measured into it, and the footprint
    read off the buckets is within 1/32 of what was measured.
   */
  lemma {:induction false} CountersAtRest(steps: seq<Step>)
    ensures Quiescent(Play(steps)) ==> CountsInstances(Play(steps).slot, Play(steps).tokens)
  {
    RunKeepsCounters(steps);
    if Quiescent(Play(steps)) { RestingCounters(Play(steps)); }
  }

  lemma {:induction false} BucketsHoldTheirOwn(c: Census)
    requires CountersTrue(c) && Quiescent(c)
    ensures forall b :: 0 <= b < BUCKET_COUNT ==>
      c.slot.buckets[b] == |set id | id in Instances(c) && BucketOf(c.tokens[id].bytes) == b|
  {
    forall b | 0 <= b < BUCKET_COUNT
      ensures c.slot.buckets[b] == |set id | id in Instances(c) && BucketOf(c.tokens[id].bytes) == b|
    {
      assert Holding(c, b) == set id | id in Instances(c) && BucketOf(c.tokens[id].bytes) == b;
    }
  }

  // ---------------------------------------------------------------- whole operations

  /** A construction from its first update to its last, with nothing between. */
  ghost predicate CanMake(c: Census, id: nat) {
    CountersTrue(c) && Quiescent(c) && id !in c.tokens && |c.tokens| + 1 < U32_LIMIT
  }

  function Constructed(c: Census, id: nat, bytes: u64): Census
    requires CanMake(c, id)
  {
    Next(Next(c, BeginFromBytes(id, bytes)), FinishConstruction(id))
  }

  function Cloned(c: Census, original: nat, id: nat): Census
    requires CanMake(c, id) && original in c.tokens
  {
    var begun := Next(c, BeginClone(original, id));
    if c.tokens[original].Uncounted? then begun else Next(begun, FinishConstruction(id))
  }

  function Dropped(c: Census, id: nat): Census
    requires CountersTrue(c) && Quiescent(c) && id in c.tokens
  {
    if c.tokens[id].Uncounted? then Next(c, DropUncounted(id)) else Next(Next(c, BeginDrop(id)), FinishDrop(id))
  }

  lemma {:induction false} ConstructedRests(c: Census, id: nat, bytes: u64)
    requires CanMake(c, id)
    ensures CountersTrue(Constructed(c, id, bytes)) && Quiescent(Constructed(c, id, bytes))
    ensures Constructed(c, id, bytes).tokens == c.tokens[id := Counted(Alive, BucketOf(bytes), bytes)]
  {
    NextKeepsCounters(c, BeginFromBytes(id, bytes));
    NextKeepsCounters(Next(c, BeginFromBytes(id, bytes)), FinishConstruction(id));
  }

  lemma {:induction false} ClonedRests(c: Census, original: nat, id: nat)
    requires CanMake(c, id) && original in c.tokens
    ensures CountersTrue(Cloned(c, original, id)) && Quiescent(Cloned(c, original, id))
    ensures Cloned(c, original, id).tokens == c.tokens[id := c.tokens[original]]
  {
    NextKeepsCounters(c, BeginClone(original, id));
    if c.tokens[original].Counted? { NextKeepsCounters(Next(c, BeginClone(original, id)), FinishConstruction(id)); }
  }

  lemma {:induction false} DroppedRests(c: Census, id: nat)
    requires CountersTrue(c) && Quiescent(c) && id in c.tokens
    ensures CountersTrue(Dropped(c, id)) && Quiescent(Dropped(c, id))
    ensures Dropped(c, id).tokens == c.tokens - {id}
  {
    if c.tokens[id].Uncounted? {
      NextKeepsCounters(c, DropUncounted(id));
    } else {
      NextKeepsCounters(c, BeginDrop(id));
      NextKeepsCounters(Next(c, BeginDrop(id)), FinishDrop(id));
    }
  }

  /** Counters at rest are decided by the tokens there are. */
  lemma {:induction false} RestIsDecided(a: Census, b: Census)
    requires CountersTrue(a) && Quiescent(a) && CountersTrue(b) && Quiescent(b) && a.tokens == b.tokens
    ensures a == b
  {
    assert Living(a) == Living(b);
    forall k | 0 <= k < BUCKET_COUNT
      ensures a.slot.buckets[k] == b.slot.buckets[k]
    {
      assert Holding(a, k) == Holding(b, k);
    }
    assert a.slot.buckets == b.slot.buckets;
  }

  /** Dropping undoes constructing, and undoes cloning. */
  lemma {:induction false} DropUndoes(c: Census, id: nat, bytes: u64, original: nat)
    requires CanMake(c, id)
    ensures CountersTrue(Constructed(c, id, bytes)) && Quiescent(Constructed(c, id, bytes)) && id in Constructed(c, id, bytes).tokens
    ensures Dropped(Constructed(c, id, bytes), id) == c
    ensures original in c.tokens ==>
              && CountersTrue(Cloned(c, original, id)) && Quiescent(Cloned(c, original, id)) && id in Cloned(c, original, id).tokens
              && Dropped(Cloned(c, original, id), id) == c
  {
    ConstructedRests(c, id, bytes);
    DroppedRests(Constructed(c, id, bytes), id);
    assert c.tokens[id := Counted(Alive, BucketOf(bytes), bytes)] - {id} == c.tokens;
    RestIsDecided(Dropped(Constructed(c, id, bytes), id), c);
    if original in c.tokens {
      ClonedRests(c, original, id);
      DroppedRests(Cloned(c, original, id), id);
      assert c.tokens[id := c.tokens[original]] - {id} == c.tokens;
      RestIsDecided(Dropped(Cloned(c, original, id), id), c);
    }
  }

  // ---------------------------------------------------------------- the slot in place

  class TypeSlot {
    var live: int
    const buckets: array<nat>
    ghost var tokens: map<nat, Token>

    /** The counters, and the tokens they are there to count. */
    ghost function State(): Census
      reads this, buckets
    {
      Census(Slot(live, buckets[..]), tokens)
    }

    /** Every counter is the number of tokens it counts, and no update is half done. */
    ghost predicate Valid()
      reads this, buckets
    {
      buckets.Length == BUCKET_COUNT && CountersTrue(State()) && Quiescent(State())
    }

    constructor ()
      ensures Valid() && State() == START && fresh(buckets)
    {
      live := 0;
      buckets := new nat[BUCKET_COUNT](_ => 0);
      tokens := map[];
      new;
      assert buckets[..] == START.slot.buckets;
      StartIsTrue();
    }

    /** Counts one live instance, `id`. */
    method FromBytes(ghost id: nat, bytes: u64) returns (token: Token)
      requires Valid() && id !in tokens && |tokens| + 1 < U32_LIMIT
      modifies this, buckets
      ensures Valid() && State() == Constructed(old(State()), id, bytes) && CountsInstances(State().slot, tokens)
      ensures tokens == old(tokens)[id := token] && token == Counted(Alive, BucketOf(bytes), bytes)
    {
      ghost var was := State();
      ConstructedRests(was, id, bytes);
      var bucket := BucketOf(bytes);
      live := live + 1;
      buckets[bucket] := Add32(buckets[bucket]);
      token := Counted(Alive, bucket, bytes);
      tokens := tokens[id := token];
      assert State() == Constructed(was, id, bytes);
      RestingCounters(State());
    }

    /** A clone is another live instance, `id`, of the same size. */
    method Clone(ghost original: nat, ghost id: nat, token: Token) returns (copy: Token)
      requires Valid() && original in tokens && tokens[original] == token && id !in tokens && |tokens| + 1 < U32_LIMIT
      modifies this, buckets
      ensures Valid() && State() == Cloned(old(State()), original, id) && CountsInstances(State().slot, tokens)
      ensures tokens == old(tokens)[id := copy] && copy == token
    {
      ghost var was := State();
      ClonedRests(was, original, id);
      copy := token;
      if token.Counted? {
        live := live + 1;
        buckets[token.bucket] := Add32(buckets[token.bucket]);
      }
      tokens := tokens[id := copy];
      assert State() == Cloned(was, original, id);
      RestingCounters(State());
    }

    /** The instance is gone, and its token with it. */
    method Drop(ghost id: nat, token: Token)
      requires Valid() && id in tokens && tokens[id] == token
      modifies this, buckets
      ensures Valid() && State() == Dropped(old(State()), id) && CountsInstances(State().slot, tokens)
      ensures tokens == old(tokens) - {id}
    {
      ghost var was := State();
      DroppedRests(was, id);
      if token.Counted? {
        live := live - 1;
        buckets[token.bucket] := Sub32(buckets[token.bucket]);
      }
      tokens := tokens - {id};
      assert State() == Dropped(was, id);
      RestingCounters(State());
    }

    /** Sparse, sorted, and non-empty buckets only. */
    method SizeBuckets() returns (sizes: seq<Bin>)
      requires Valid()
      ensures sizes == Sparse(buckets[..])
    {
      sizes := [];
      for k := 0 to buckets.Length
        invariant sizes == Sparse(buckets[..k])
      {
        assert buckets[..k + 1][..k] == buckets[..k];
        if buckets[k] != 0 {
          sizes := sizes + [Bin(k, buckets[k])];
        }
      }
      assert buckets[..buckets.Length] == buckets[..];
    }
  }
}
