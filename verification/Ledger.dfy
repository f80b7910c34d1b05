/**
  The log of everything a process's stream was believed about: the simple form
  every total, window and pushed update is measured against.
 */
module Ledger {
  import opened Basics
  import opened Words
  import opened Distribution
  import opened PathRegistry

  /** A type's live-instance reading. Every field is absolute. */
  datatype Reading = Reading(live: nat, bytes: nat, sizes: seq<Bin>, at: nat)

  /** An event that named only known ids, resolved against what was known then. */
  datatype Accepted =
    | CallsAccepted(func: nat, count: nat, ns: nat, buckets: seq<Bin>)
    | StackAccepted(path: nat, node: PathNode, caller: Option<nat>, count: nat, selfNs: nat)
    | CensusAccepted(ty: nat, reading: Reading)

  datatype Entry = Entry(t: nat, what: Accepted)

  /** A quantity the daemon keeps by accumulation. */
  datatype Query =
    | CallsOf(func: nat)
    | NsOf(func: nat)
    | EdgeOf(from: nat, to: nat)
    | PathCalls(path: nat)
    | PathSelf(path: nat)
    | FuncSelf(func: nat)

  /** All time, or one window of a given resolution. */
  datatype Span = Always | Slot(resolution: nat, index: nat)

  predicate Covers(span: Span, t: nat) {
    match span
    case Always => true
    case Slot(resolution, index) => resolution > 0 && t / resolution == index
  }

  /** Whether an accepted event has a share in the quantity, however small. */
  predicate Concerns(q: Query, a: Accepted) {
    match q
    case CallsOf(func) => a.CallsAccepted? && a.func == func
    case NsOf(func) => a.CallsAccepted? && a.func == func
    case EdgeOf(from, to) => a.StackAccepted? && a.caller == Some(from) && a.node.func == to
    case PathCalls(path) => a.StackAccepted? && a.path == path
    case PathSelf(path) => a.StackAccepted? && a.path == path
    case FuncSelf(func) => a.StackAccepted? && a.node.func == func
  }

  function Share(q: Query, a: Accepted): nat {
    if !Concerns(q, a) then 0
    else
      match q
      case CallsOf(_) => a.count
      case NsOf(_) => a.ns
      case EdgeOf(_, _) => a.count
      case PathCalls(_) => a.count
      case PathSelf(_) => a.selfNs
      case FuncSelf(_) => a.selfNs
  }

  /** The exact total of a quantity over a span. */
  function Exact(log: seq<Entry>, q: Query, span: Span): nat {
    if log == [] then 0
    else
      var e := log[|log| - 1];
      Exact(log[..|log| - 1], q, span) + if Covers(span, e.t) then Share(q, e.what) else 0
  }

  function Touched(log: seq<Entry>, q: Query, span: Span): bool {
    exists k :: 0 <= k < |log| && Covers(span, log[k].t) && Concerns(q, log[k].what)
  }

  /** The reading a span settles on: a newer one replaces, an older one does not undo. */
  function Latest(log: seq<Entry>, ty: nat, span: Span): Option<Reading> {
    if log == [] then None
    else
      var e := log[|log| - 1];
      var held := Latest(log[..|log| - 1], ty, span);
      if Covers(span, e.t) && e.what.CensusAccepted? && e.what.ty == ty then Newer(held, e.what.reading) else held
  }

  function Newer(held: Option<Reading>, reading: Reading): Option<Reading> {
    if held.Some? && held.value.at > reading.at then held else Some(reading)
  }

  function Stamp(accepted: seq<Accepted>, t: nat): seq<Entry> {
    seq(|accepted|, k requires 0 <= k < |accepted| => Entry(t, accepted[k]))
  }

  // ---------------------------------------------------------------- one more entry

  lemma {:induction false} ExactPush(log: seq<Entry>, e: Entry, q: Query, span: Span)
    ensures Exact(log + [e], q, span) == Exact(log, q, span) + if Covers(span, e.t) then Share(q, e.what) else 0
    ensures Touched(log + [e], q, span) <==> Touched(log, q, span) || (Covers(span, e.t) && Concerns(q, e.what))
  {
    assert (log + [e])[..|log|] == log;
    assert (log + [e])[|log|] == e;
    if Touched(log, q, span) {
      var k :| 0 <= k < |log| && Covers(span, log[k].t) && Concerns(q, log[k].what);
      assert (log + [e])[k] == log[k];
    }
  }

  lemma {:induction false} LatestPush(log: seq<Entry>, e: Entry, ty: nat, span: Span)
    ensures Latest(log + [e], ty, span)
         == if Covers(span, e.t) && e.what.CensusAccepted? && e.what.ty == ty
            then Newer(Latest(log, ty, span), e.what.reading) else Latest(log, ty, span)
  {
    assert (log + [e])[..|log|] == log;
  }

  lemma {:induction false} StampPush(accepted: seq<Accepted>, t: nat)
    requires accepted != []
    ensures Stamp(accepted, t) == Stamp(accepted[..|accepted| - 1], t) + [Entry(t, accepted[|accepted| - 1])]
  {
  }

  lemma {:induction false} ExactConcat(log: seq<Entry>, more: seq<Entry>, q: Query, span: Span)
    ensures Exact(log + more, q, span) == Exact(log, q, span) + Exact(more, q, span)
    ensures Touched(log + more, q, span) <==> Touched(log, q, span) || Touched(more, q, span)
  {
    if more == [] {
      assert log + more == log;
    } else {
      var front, e := more[..|more| - 1], more[|more| - 1];
      assert log + more == (log + front) + [e] && more == front + [e];
      ExactConcat(log, front, q, span);
      ExactPush(log + front, e, q, span);
      ExactPush(front, e, q, span);
    }
  }

  lemma {:induction false} LatestConcat(log: seq<Entry>, more: seq<Entry>, ty: nat, span: Span)
    ensures Latest(log + more, ty, span)
         == if Latest(more, ty, span).None? then Latest(log, ty, span)
            else Newer(Latest(log, ty, span), Latest(more, ty, span).value)
  {
    if more == [] {
      assert log + more == log;
    } else {
      var front, e := more[..|more| - 1], more[|more| - 1];
      assert log + more == (log + front) + [e] && more == front + [e];
      LatestConcat(log, front, ty, span);
      LatestPush(log + front, e, ty, span);
      LatestPush(front, e, ty, span);
    }
  }

  /** Entries outside a span do not show in it. */
  lemma {:induction false} ExactOutside(log: seq<Entry>, more: seq<Entry>, q: Query, span: Span)
    requires forall k :: 0 <= k < |more| ==> !Covers(span, more[k].t)
    ensures Exact(log + more, q, span) == Exact(log, q, span)
    ensures Touched(log + more, q, span) <==> Touched(log, q, span)
  {
    if more == [] {
      assert log + more == log;
    } else {
      var front, e := more[..|more| - 1], more[|more| - 1];
      assert log + more == (log + front) + [e];
      ExactOutside(log, front, q, span);
      ExactPush(log + front, e, q, span);
    }
  }

  lemma {:induction false} LatestOutside(log: seq<Entry>, more: seq<Entry>, ty: nat, span: Span)
    requires forall k :: 0 <= k < |more| ==> !Covers(span, more[k].t)
    ensures Latest(log + more, ty, span) == Latest(log, ty, span)
  {
    if more == [] {
      assert log + more == log;
    } else {
      var front, e := more[..|more| - 1], more[|more| - 1];
      assert log + more == (log + front) + [e];
      LatestOutside(log, front, ty, span);
      LatestPush(log + front, e, ty, span);
    }
  }

  /** A span no entry falls in holds nothing. */
  lemma {:induction false} EmptySpan(log: seq<Entry>, q: Query, ty: nat, span: Span)
    requires forall k :: 0 <= k < |log| ==> !Covers(span, log[k].t)
    ensures Exact(log, q, span) == 0 && !Touched(log, q, span) && Latest(log, ty, span) == None
  {
    ExactOutside([], log, q, span);
    LatestOutside([], log, ty, span);
    assert [] + log == log;
  }

  /** A quantity nothing in a span concerns is zero there. */
  lemma {:induction false} UntouchedIsZero(log: seq<Entry>, q: Query, span: Span)
    requires !Touched(log, q, span)
    ensures Exact(log, q, span) == 0
  {
    if log != [] {
      var front := log[..|log| - 1];
      assert log == front + [log[|log| - 1]];
      ExactPush(front, log[|log| - 1], q, span);
      UntouchedIsZero(front, q, span);
    }
  }

  // ---------------------------------------------------------------- what `Latest` picks

  /** Entry `k` reports `ty` in the span, no entry there is newer, and none after it as new. */
  ghost predicate IsLatestAt(log: seq<Entry>, ty: nat, span: Span, k: nat) {
    && k < |log| && Reports(log[k], ty, span)
    && forall j :: 0 <= j < |log| && Reports(log[j], ty, span) ==>
         log[j].what.reading.at < log[k].what.reading.at
         || (log[j].what.reading.at == log[k].what.reading.at && j <= k)
  }

  predicate Reports(e: Entry, ty: nat, span: Span) {
    Covers(span, e.t) && e.what.CensusAccepted? && e.what.ty == ty
  }

  /** The reading settled on is the one of greatest time, the last arrival on ties; none if none came. */
  lemma {:induction false} LatestIsGreatest(log: seq<Entry>, ty: nat, span: Span) returns (k: nat)
    ensures Latest(log, ty, span).None? <==> forall j :: 0 <= j < |log| ==> !Reports(log[j], ty, span)
    ensures Latest(log, ty, span).Some? ==>
              IsLatestAt(log, ty, span, k) && Latest(log, ty, span).value == log[k].what.reading
  {
    k := 0;
    if log != [] {
      var n := |log| - 1;
      var front := log[..n];
      k := LatestIsGreatest(front, ty, span);
      assert forall j :: 0 <= j < n ==> front[j] == log[j];
      var held := Latest(front, ty, span);
      if Reports(log[n], ty, span) && !(held.Some? && held.value.at > log[n].what.reading.at) {
        k := n;
      }
    }
  }
}
