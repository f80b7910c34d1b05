/** What closing calls charge to each context is what the accumulators hold there, drained or not. */
module ChargeLedger {
  import opened Sums
  import opened Calls
  import opened ProbeRuns

  /** The two figures a context is given. */
  datatype Figure = Nanos | Counts

  function Of(stat: StackStat, figure: Figure): nat {
    match figure
    case Nanos => stat.selfNs
    case Counts => stat.count
  }

  function Part(charge: Charge, figure: Figure): nat {
    match figure
    case Nanos => charge.selfNs
    case Counts => if charge.counts then 1 else 0
  }

  /** What a history of closed calls charges to one context. */
  function Charged(charges: seq<Charge>, path: nat, figure: Figure): nat {
    if charges == [] then 0
    else
      var last := charges[|charges| - 1];
      Charged(charges[..|charges| - 1], path, figure) + if last.path == path then Part(last, figure) else 0
  }

  lemma {:induction false} ChargedConcat(a: seq<Charge>, b: seq<Charge>, path: nat, figure: Figure)
    ensures Charged(a + b, path, figure) == Charged(a, path, figure) + Charged(b, path, figure)
  {
    if b == [] {
      assert a + b == a;
    } else {
      assert (a + b)[..|a + b| - 1] == a + b[..|b| - 1];
      ChargedConcat(a, b[..|b| - 1], path, figure);
    }
  }

  ghost function LaneHolds(path: nat, figure: Figure): Lane -> nat {
    (lane: Lane) => Of(StackAt(lane.thread.accum.stacks, path), figure)
  }

  ghost function LaneCharged(path: nat, figure: Figure): Lane -> nat {
    (lane: Lane) => Charged(lane.charges, path, figure)
  }

  /** What drains have collected for a context, and what still waits for one. */
  ghost function Held(sys: System, path: nat, figure: Figure): nat {
    Of(StackAt(sys.taken.stacks, path), figure) + MapSum(sys.lanes, LaneHolds(path, figure))
  }

  /** What all threads' closed calls charged to it. */
  ghost function AllCharged(sys: System, path: nat, figure: Figure): nat {
    MapSum(sys.lanes, LaneCharged(path, figure))
  }

  /** Storing one lane changes both totals by what that lane changes. */
  lemma {:induction false} LaneStored(sys: System, tid: nat, lane: Lane, f: Lane -> nat)
    requires f(NEW_LANE) == 0
    ensures MapSum(sys.lanes[tid := lane], f) + f(LaneOf(sys, tid)) == MapSum(sys.lanes, f) + f(lane)
  {
    MapSumStore(sys.lanes, tid, lane, f);
    if tid in sys.lanes { assert WeightAt(sys.lanes, f)(tid) == f(sys.lanes[tid]); }
  }

  lemma {:induction false} LeavingCharges(lane: Lane, now: nat, path: nat, figure: Figure)
    ensures LaneHolds(path, figure)(Left(lane, now)) + LaneCharged(path, figure)(lane)
         == LaneHolds(path, figure)(lane) + LaneCharged(path, figure)(Left(lane, now))
  {
    if lane.thread.stack != [] {
      assert Left(lane, now).charges[..|lane.charges|] == lane.charges;
    }
  }

  lemma {:induction false} DrainingMoves(mine: Accum, theirs: Accum, path: nat, figure: Figure)
    ensures Of(StackAt(AbsorbAccum(mine, theirs).stacks, path), figure)
         == Of(StackAt(mine.stacks, path), figure) + Of(StackAt(theirs.stacks, path), figure)
    ensures Of(StackAt(NOTHING.stacks, path), figure) == 0
  {
  }

  lemma {:induction false} StepKeepsLedger(sys: System, step: Step, cap: nat, path: nat, figure: Figure)
    ensures var sys' := Next(sys, step, cap);
            Held(sys', path, figure) + AllCharged(sys, path, figure) == Held(sys, path, figure) + AllCharged(sys', path, figure)
  {
    var lane, lane' := LaneOf(sys, step.tid), LaneOf(Next(sys, step, cap), step.tid);
    LaneStored(sys, step.tid, lane', LaneHolds(path, figure));
    LaneStored(sys, step.tid, lane', LaneCharged(path, figure));
    match step
    case Enter(tid, func, now) =>
      assert lane'.thread.accum == lane.thread.accum && lane'.charges == lane.charges;
    case Leave(tid, now) => LeavingCharges(lane, now, path, figure);
    case Drain(tid) => DrainingMoves(sys.taken, lane.thread.accum, path, figure);
  }

  /**
    The ledger. After any run, for every context, key zero included, the self
    time and the calls that closing calls charged there on all threads are what
    the threads' accumulators and the drains so far hold there.
   */
  lemma {:induction false} ChargesAreTheLedger(steps: seq<Step>, cap: nat, path: nat, figure: Figure)
    ensures Held(Play(START, steps, cap), path, figure) == AllCharged(Play(START, steps, cap), path, figure)
  {
    if steps != [] {
      var front := steps[..|steps| - 1];
      ChargesAreTheLedger(front, cap, path, figure);
      StepKeepsLedger(Play(START, front, cap), steps[|steps| - 1], cap, path, figure);
    }
  }
}
