/** One running program, seen through however many emitters are pointed at it. */
module Sessions {
  import opened Basics

  const SAME_RUN_TOLERANCE_MS: nat := 10_000

  datatype Feed = Cpu | Memory

  datatype Member = Member(id: nat, feed: Feed, started: nat, connected: bool)

  datatype Target = Target(app: string, pid: nat)

  datatype Session = Session(
    id: string, target: Target, cpu: Option<Member>, memory: Option<Member>, superseded: seq<Member>)

  // ---------------------------------------------------------------- runs

  predicate ByStart(ms: seq<Member>) {
    forall i, j :: 0 <= i < j < |ms| ==> ms[i].started <= ms[j].started
  }

  /** Only what the library sort promises is visible to its caller. */
  method SortByStart(ms: seq<Member>) returns (sorted: seq<Member>)
    ensures ByStart(sorted)
    ensures multiset(sorted) == multiset(ms)
  {
    sorted := [];
    for k := 0 to |ms|
      invariant ByStart(sorted)
      invariant multiset(sorted) == multiset(ms[..k])
    {
      sorted := InsertByStart(sorted, ms[k]);
      assert ms[..k + 1] == ms[..k] + [ms[k]];
    }
    assert ms[..|ms|] == ms;
  }

  method InsertByStart(ms: seq<Member>, m: Member) returns (sorted: seq<Member>)
    requires ByStart(ms)
    ensures ByStart(sorted)
    ensures multiset(sorted) == multiset(ms) + multiset{m}
  {
    var at := |ms|;
    while at > 0 && ms[at - 1].started > m.started
      invariant 0 <= at <= |ms|
      invariant forall j :: at <= j < |ms| ==> ms[j].started > m.started
    {
      at := at - 1;
    }
    InsertedInOrder(ms, at, m);
    InsertedSame(ms, at, m);
    sorted := ms[..at] + [m] + ms[at..];
  }

  lemma {:induction false} InsertedInOrder(ms: seq<Member>, at: nat, m: Member)
    requires ByStart(ms) && at <= |ms|
    requires at > 0 ==> ms[at - 1].started <= m.started
    requires forall j :: at <= j < |ms| ==> ms[j].started > m.started
    ensures ByStart(ms[..at] + [m] + ms[at..])
  {
    var all := ms[..at] + [m] + ms[at..];
    forall k | 0 <= k < |all|
      ensures all[k] == if k < at then ms[k] else if k == at then m else ms[k - 1]
    {
    }
    forall k | 0 <= k < at
      ensures ms[k].started <= m.started
    {
      assert ms[k].started <= ms[at - 1].started;
    }
  }

  function Flatten(runs: seq<seq<Member>>): seq<Member> {
    if runs == [] then [] else Flatten(runs[..|runs| - 1]) + runs[|runs| - 1]
  }

  /** Inside a run starts ascend by hops within the tolerance. */
  predicate OneRun(run: seq<Member>) {
    run != [] && forall i :: 0 <= i < |run| - 1 ==> Hop(run, i)
  }

  predicate Hop(run: seq<Member>, i: nat)
    requires i + 1 < |run|
  {
    run[i].started <= run[i + 1].started <= run[i].started + SAME_RUN_TOLERANCE_MS
  }

  /** The first start of a run is past the tolerance from the last start of the run before. */
  predicate Apart(runs: seq<seq<Member>>) {
    && (forall x :: 0 <= x < |runs| ==> OneRun(runs[x]))
    && forall x :: 0 <= x < |runs| - 1 ==> Gap(runs, x)
  }

  predicate Gap(runs: seq<seq<Member>>, x: nat)
    requires x + 1 < |runs|
  {
    && runs[x] != [] && runs[x + 1] != []
    && runs[x][|runs[x]| - 1].started + SAME_RUN_TOLERANCE_MS < runs[x + 1][0].started
  }

  /** Splits one target's entries into runs: a greedy sweep over start times. */
  method Runs(members: seq<Member>) returns (runs: seq<seq<Member>>)
    ensures Apart(runs)
    ensures multiset(Flatten(runs)) == multiset(members)
  {
    var sorted := SortByStart(members);
    runs := [];
    for k := 0 to |sorted|
      invariant Apart(runs) && Flatten(runs) == sorted[..k]
      invariant if k == 0 then runs == [] else EndsWith(runs, sorted[k - 1])
    {
      var m := sorted[k];
      assert sorted[..k + 1] == sorted[..k] + [m];
      if runs != [] && m.started - runs[|runs| - 1][|runs[|runs| - 1]| - 1].started <= SAME_RUN_TOLERANCE_MS {
        Extended(runs, m);
        runs := runs[|runs| - 1 := runs[|runs| - 1] + [m]];
      } else {
        Started(runs, m);
        runs := runs + [[m]];
      }
    }
    assert sorted[..|sorted|] == sorted;
  }

  predicate EndsWith(runs: seq<seq<Member>>, m: Member) {
    runs != [] && runs[|runs| - 1] != [] && runs[|runs| - 1][|runs[|runs| - 1]| - 1] == m
  }

  lemma {:induction false} Extended(runs: seq<seq<Member>>, m: Member)
    requires Apart(runs) && runs != []
    requires var last := runs[|runs| - 1];
             last != [] && last[|last| - 1].started <= m.started <= last[|last| - 1].started + SAME_RUN_TOLERANCE_MS
    ensures var runs' := runs[|runs| - 1 := runs[|runs| - 1] + [m]];
            Apart(runs') && EndsWith(runs', m) && Flatten(runs') == Flatten(runs) + [m]
  {
    var n := |runs| - 1;
    var runs' := runs[n := runs[n] + [m]];
    assert OneRun(runs[n]);
    forall i | 0 <= i < |runs'[n]| - 1
      ensures Hop(runs'[n], i)
    {
      if i < |runs[n]| - 1 { assert Hop(runs[n], i); }
    }
    assert OneRun(runs'[n]);
    assert runs'[..n] == runs[..n];
    forall x | 0 <= x < n
      ensures Gap(runs', x)
    {
      assert Gap(runs, x);
    }
  }

  lemma {:induction false} Started(runs: seq<seq<Member>>, m: Member)
    requires Apart(runs)
    requires runs == [] || var last := runs[|runs| - 1]; last != [] && last[|last| - 1].started + SAME_RUN_TOLERANCE_MS < m.started
    ensures Apart(runs + [[m]]) && EndsWith(runs + [[m]], m) && Flatten(runs + [[m]]) == Flatten(runs) + [m]
  {
    var runs' := runs + [[m]];
    assert runs'[..|runs|] == runs;
    forall x | 0 <= x < |runs'| - 1
      ensures Gap(runs', x)
    {
      if x < |runs| - 1 { assert Gap(runs, x); }
    }
  }

  /** Starts within the tolerance of one another, whichever came first. */
  predicate Near(a: Member, b: Member) {
    a.started <= b.started + SAME_RUN_TOLERANCE_MS && b.started <= a.started + SAME_RUN_TOLERANCE_MS
  }

  /** A chain of entries from `a` to `b`, each hop within the tolerance. */
  predicate IsChain(runs: seq<seq<Member>>, chain: seq<Member>, a: Member, b: Member) {
    && chain != [] && chain[0] == a && chain[|chain| - 1] == b
    && (forall k :: 0 <= k < |chain| ==> Among(runs, chain[k]))
    && (forall k :: 0 <= k < |chain| - 1 ==> Near(chain[k], chain[k + 1]))
  }

  predicate Among(runs: seq<seq<Member>>, m: Member) {
    exists x :: 0 <= x < |runs| && m in runs[x]
  }

  lemma {:induction false} RunAscends(run: seq<Member>, i: nat, j: nat)
    requires OneRun(run) && i <= j < |run|
    ensures run[i].started <= run[j].started
    decreases j
  {
    if i < j {
      RunAscends(run, i, j - 1);
      assert Hop(run, j - 1);
    }
  }

  /** Any start of an earlier run is past the tolerance from any start of a later one. */
  lemma {:induction false} RunsAreFar(runs: seq<seq<Member>>, x: nat, y: nat, a: Member, b: Member)
    requires Apart(runs) && x < y < |runs| && a in runs[x] && b in runs[y]
    ensures a.started + SAME_RUN_TOLERANCE_MS < b.started
    decreases y
  {
    var i :| 0 <= i < |runs[x]| && runs[x][i] == a;
    var j :| 0 <= j < |runs[y]| && runs[y][j] == b;
    assert OneRun(runs[x]) && OneRun(runs[y]) && OneRun(runs[y - 1]) && Gap(runs, y - 1);
    RunAscends(runs[x], i, |runs[x]| - 1);
    RunAscends(runs[y], 0, j);
    if x < y - 1 {
      RunsAreFar(runs, x, y - 1, a, runs[y - 1][|runs[y - 1]| - 1]);
    }
  }

  lemma {:induction false} ChainStaysInRun(runs: seq<seq<Member>>, chain: seq<Member>, a: Member, b: Member, x: nat)
    requires Apart(runs) && x < |runs| && a in runs[x] && IsChain(runs, chain, a, b)
    ensures b in runs[x]
    decreases |chain|
  {
    if |chain| > 1 {
      var c := chain[1];
      assert Among(runs, c) && Near(a, c);
      var y :| 0 <= y < |runs| && c in runs[y];
      if x < y { RunsAreFar(runs, x, y, a, c); }
      if y < x { RunsAreFar(runs, y, x, c, a); }
      var rest := chain[1..];
      assert forall k :: 0 <= k < |rest| ==> rest[k] == chain[k + 1];
      ChainStaysInRun(runs, rest, c, b, x);
    }
  }

  function Position(i: nat, j: nat, k: nat): int {
    if i <= j then i + k else i - k
  }

  function Distance(i: nat, j: nat): nat {
    if i <= j then j - i else i - j
  }

  /** The entries of a run from one position to another, either way. */
  function Stretch(run: seq<Member>, i: nat, j: nat): (chain: seq<Member>)
    requires i < |run| && j < |run|
    ensures |chain| == Distance(i, j) + 1
    ensures forall k :: 0 <= k < |chain| ==> 0 <= Position(i, j, k) < |run| && chain[k] == run[Position(i, j, k)]
  {
    seq(Distance(i, j) + 1, k requires 0 <= k <= Distance(i, j) => run[Position(i, j, k)])
  }

  lemma {:induction false} StretchHops(run: seq<Member>, i: nat, j: nat, k: nat)
    requires OneRun(run) && i < |run| && j < |run| && k + 1 < |Stretch(run, i, j)|
    ensures Near(Stretch(run, i, j)[k], Stretch(run, i, j)[k + 1])
  {
    HopIsNear(run, if i <= j then i + k else i - k - 1);
  }

  lemma {:induction false} SliceIsChain(runs: seq<seq<Member>>, x: nat, i: nat, j: nat)
    requires Apart(runs) && x < |runs| && i < |runs[x]| && j < |runs[x]|
    ensures IsChain(runs, Stretch(runs[x], i, j), runs[x][i], runs[x][j])
  {
    var run := runs[x];
    var chain := Stretch(run, i, j);
    assert OneRun(run);
    forall k | 0 <= k < |chain| - 1
      ensures Near(chain[k], chain[k + 1])
    {
      StretchHops(run, i, j, k);
    }
    forall k | 0 <= k < |chain|
      ensures Among(runs, chain[k])
    {
      assert chain[k] in runs[x];
    }
  }

  lemma {:induction false} HopIsNear(run: seq<Member>, k: nat)
    requires OneRun(run) && k + 1 < |run|
    ensures Near(run[k], run[k + 1]) && Near(run[k + 1], run[k])
  {
    assert Hop(run, k);
  }

  /**
    Two entries of one target land in the same run exactly when a chain of
    entries links them, no hop of it longer than the tolerance.
   */
  lemma {:induction false} SameRunIffLinked(runs: seq<seq<Member>>, a: Member, b: Member)
    requires Apart(runs) && Among(runs, a) && Among(runs, b)
    ensures (exists x :: 0 <= x < |runs| && a in runs[x] && b in runs[x])
       <==> (exists chain :: IsChain(runs, chain, a, b))
  {
    if x :| 0 <= x < |runs| && a in runs[x] && b in runs[x] {
      var i :| 0 <= i < |runs[x]| && runs[x][i] == a;
      var j :| 0 <= j < |runs[x]| && runs[x][j] == b;
      SliceIsChain(runs, x, i, j);
    }
    if chain :| IsChain(runs, chain, a, b) {
      var x :| 0 <= x < |runs| && a in runs[x];
      ChainStaysInRun(runs, chain, a, b, x);
    }
  }

  // ---------------------------------------------------------------- what a session is called

  predicate Safe(c: char) {
    '0' <= c <= '9' || 'a' <= c <= 'z' || 'A' <= c <= 'Z' || c == '-' || c == '_'
  }

  function Sanitised(app: string): string {
    if app == [] then []
    else Sanitised(app[..|app| - 1]) + [if Safe(app[|app| - 1]) then app[|app| - 1] else '_']
  }

  function Digit(d: nat): char
    requires d < 10
  {
    ('0' as int + d) as char
  }

  function Decimal(n: nat): string {
    (if n < 10 then [] else Decimal(n / 10)) + [Digit(n % 10)]
  }

  function SessionId(target: Target, anchor: nat): string {
    Sanitised(target.app) + "-" + Decimal(target.pid) + "-" + Decimal(anchor)
  }

  /** The earliest start in a run. */
  function AnchorOf(run: seq<Member>): nat {
    if run == [] then 0
    else if |run| == 1 then run[0].started
    else
      var rest := AnchorOf(run[..|run| - 1]);
      if run[|run| - 1].started < rest then run[|run| - 1].started else rest
  }

  lemma {:induction false} AnchorIsEarliest(run: seq<Member>)
    ensures forall m :: m in run ==> AnchorOf(run) <= m.started
    ensures run != [] ==> exists m :: m in run && m.started == AnchorOf(run)
  {
    if run != [] {
      var front, last := run[..|run| - 1], run[|run| - 1];
      AnchorIsEarliest(front);
      assert run == front + [last];
      assert last in run;
      if front != [] {
        var m :| m in front && m.started == AnchorOf(front);
        assert m in run;
      }
    }
  }

  predicate AllSafe(text: string) {
    forall k :: 0 <= k < |text| ==> Safe(text[k])
  }

  /** A name keeps every safe character and its length; the rest become underscores. */
  lemma {:induction false} SanitisedIsSafe(app: string)
    ensures AllSafe(Sanitised(app)) && |Sanitised(app)| == |app|
    ensures forall k :: 0 <= k < |app| ==> Sanitised(app)[k] == if Safe(app[k]) then app[k] else '_'
  {
    if app != [] { SanitisedIsSafe(app[..|app| - 1]); }
  }

  lemma {:induction false} DecimalIsDigits(n: nat)
    ensures Decimal(n) != [] && forall k :: 0 <= k < |Decimal(n)| ==> '0' <= Decimal(n)[k] <= '9'
  {
    if n >= 10 { DecimalIsDigits(n / 10); }
  }

  /** An id is safe in a path segment whatever the target called itself. */
  lemma {:induction false} SessionIdIsSafe(target: Target, anchor: nat)
    ensures AllSafe(SessionId(target, anchor))
  {
    SanitisedIsSafe(target.app);
    DecimalIsDigits(target.pid);
    DecimalIsDigits(anchor);
  }

  function NumberIn(text: string): int {
    if text == [] then 0
    else NumberIn(text[..|text| - 1]) * 10 + (text[|text| - 1] as int - '0' as int)
  }

  lemma {:induction false} DecimalReadsBack(n: nat)
    ensures NumberIn(Decimal(n)) == n
  {
    var front := if n < 10 then [] else Decimal(n / 10);
    assert Decimal(n)[..|Decimal(n)| - 1] == front;
    if n >= 10 { DecimalReadsBack(n / 10); }
  }

  lemma {:induction false} NoDashAfter(a: string, x: string, k: nat)
    requires '-' !in x && k < |a + "-" + x| && (a + "-" + x)[k] == '-'
    ensures k <= |a|
  {
    var text := a + "-" + x;
    assert forall j :: |a| < j < |text| ==> text[j] in x;
  }

  /** What follows the last dash, and what precedes it, are decided by the text. */
  lemma {:induction false} LastDash(a: string, x: string, b: string, y: string)
    requires a + "-" + x == b + "-" + y && '-' !in x && '-' !in y
    ensures a == b && x == y
  {
    var text := a + "-" + x;
    assert text[|a|] == '-' && text[|b|] == (b + "-" + y)[|b|] == '-';
    NoDashAfter(a, x, |b|);
    NoDashAfter(b, y, |a|);
    assert a == text[..|a|] && b == text[..|a|] && x == text[|a| + 1..] && y == text[|a| + 1..];
  }

  /**
    Two sessions go by one id exactly when their targets' names are alike once
    made safe and their pids and earliest starts agree.
   */
  lemma {:induction false} SessionIdsTellApart(t: Target, a: nat, u: Target, b: nat)
    ensures SessionId(t, a) == SessionId(u, b) <==> Sanitised(t.app) == Sanitised(u.app) && t.pid == u.pid && a == b
  {
    DecimalIsDigits(t.pid);
    DecimalIsDigits(u.pid);
    DecimalIsDigits(a);
    DecimalIsDigits(b);
    if SessionId(t, a) == SessionId(u, b) {
      LastDash(Sanitised(t.app) + "-" + Decimal(t.pid), Decimal(a), Sanitised(u.app) + "-" + Decimal(u.pid), Decimal(b));
      LastDash(Sanitised(t.app), Decimal(t.pid), Sanitised(u.app), Decimal(u.pid));
      DecimalReadsBack(a);
      DecimalReadsBack(b);
      DecimalReadsBack(t.pid);
      DecimalReadsBack(u.pid);
    }
  }

  // ---------------------------------------------------------------- who speaks for a session

  /** A live emitter beats a dead one; between two alike the one started later. */
  predicate Outranks(held: Member, candidate: Member) {
    if held.connected == candidate.connected then held.started >= candidate.started else held.connected
  }

  function SlotBag(slot: Option<Member>): multiset<Member> {
    if slot.Some? then multiset{slot.value} else multiset{}
  }

  /**
    The slot holds an entry of its feed, or nothing if the feed has none: a
    connected one if any is, and of those as connected as it a latest started.
   */
  predicate Wins(slot: Option<Member>, feed: Feed, ms: seq<Member>) {
    match slot
    case None => forall m :: m in ms ==> m.feed != feed
    case Some(w) =>
      && w in ms && w.feed == feed
      && (forall m :: m in ms && m.feed == feed && m.connected ==> w.connected)
      && (forall m :: m in ms && m.feed == feed && m.connected == w.connected ==> m.started <= w.started)
  }

  lemma {:induction false} OutranksIsTotal(a: Member, b: Member, c: Member)
    ensures Outranks(a, b) || Outranks(b, a)
    ensures Outranks(a, b) && Outranks(b, c) ==> Outranks(a, c)
    ensures Outranks(a, b) && Outranks(b, a) ==> a.connected == b.connected && a.started == b.started
  {
  }

  /** Whoever wins a slot, in whatever order the entries come, is of the same rank. */
  lemma {:induction false} WinnerIsDecided(x: Option<Member>, y: Option<Member>, feed: Feed, ms: seq<Member>, ns: seq<Member>)
    requires Wins(x, feed, ms) && Wins(y, feed, ns) && multiset(ms) == multiset(ns)
    ensures x.Some? <==> y.Some?
    ensures x.Some? ==> x.value.connected == y.value.connected && x.value.started == y.value.started
  {
    assert forall m :: m in ms <==> m in multiset(ms);
    assert forall m :: m in ns <==> m in multiset(ns);
    if x.Some? && y.Some? { OutranksIsTotal(x.value, y.value, x.value); }
  }

  lemma {:induction false} WinsOneMore(slot: Option<Member>, feed: Feed, ms: seq<Member>, m: Member)
    requires Wins(slot, feed, ms)
    ensures m.feed != feed ==> Wins(slot, feed, ms + [m])
    ensures m.feed == feed && slot.Some? && Outranks(slot.value, m) ==> Wins(slot, feed, ms + [m])
    ensures m.feed == feed && (slot.None? || !Outranks(slot.value, m)) ==> Wins(Some(m), feed, ms + [m])
  {
  }

  /** No entry before the `i`th is of its feed and rank. */
  predicate NoneAsGoodBefore(ms: seq<Member>, i: nat)
    requires i < |ms|
  {
    forall j :: 0 <= j < i && ms[j].feed == ms[i].feed ==> ms[j].connected != ms[i].connected || ms[j].started != ms[i].started
  }

  /** Between entries alike in rank, the slot holds the one that came first. */
  ghost predicate FirstOfItsRank(slot: Option<Member>, ms: seq<Member>) {
    slot.Some? ==> exists i :: 0 <= i < |ms| && ms[i] == slot.value && NoneAsGoodBefore(ms, i)
  }

  lemma {:induction false} FirstStays(slot: Option<Member>, ms: seq<Member>, m: Member)
    requires FirstOfItsRank(slot, ms)
    ensures FirstOfItsRank(slot, ms + [m])
  {
    if slot.Some? {
      var i :| 0 <= i < |ms| && ms[i] == slot.value && NoneAsGoodBefore(ms, i);
      assert (ms + [m])[i] == slot.value && NoneAsGoodBefore(ms + [m], i);
    }
  }

  lemma {:induction false} FirstReplaced(slot: Option<Member>, ms: seq<Member>, m: Member)
    requires Wins(slot, m.feed, ms) && (slot.None? || !Outranks(slot.value, m))
    ensures FirstOfItsRank(Some(m), ms + [m])
  {
    assert NoneAsGoodBefore(ms + [m], |ms|);
  }

  predicate ByStartDescending(ms: seq<Member>) {
    forall i, j :: 0 <= i < j < |ms| ==> ms[i].started >= ms[j].started
  }

  method SortNewestFirst(ms: seq<Member>) returns (sorted: seq<Member>)
    ensures ByStartDescending(sorted)
    ensures multiset(sorted) == multiset(ms)
  {
    var ascending := SortByStart(ms);
    sorted := [];
    for k := 0 to |ascending|
      invariant |sorted| == k
      invariant forall i :: 0 <= i < k ==> sorted[i] == ascending[k - 1 - i]
      invariant multiset(sorted) == multiset(ascending[..k])
    {
      assert ascending[..k + 1] == ascending[..k] + [ascending[k]];
      sorted := [ascending[k]] + sorted;
    }
    assert ascending[..|ascending|] == ascending;
  }

  /** Offers a slot to an entry: the one that loses, if any, is superseded. */
  function Seat(slot: Option<Member>, m: Member): (Option<Member>, seq<Member>) {
    if slot.None? then (Some(m), [])
    else if Outranks(slot.value, m) then (slot, [m])
    else (Some(m), [slot.value])
  }

  lemma {:induction false} SeatKeeps(slot: Option<Member>, m: Member, ms: seq<Member>)
    requires Wins(slot, m.feed, ms) && FirstOfItsRank(slot, ms)
    ensures SlotBag(Seat(slot, m).0) + multiset(Seat(slot, m).1) == SlotBag(slot) + multiset{m}
    ensures Wins(Seat(slot, m).0, m.feed, ms + [m]) && FirstOfItsRank(Seat(slot, m).0, ms + [m])
  {
    WinsOneMore(slot, m.feed, ms, m);
    if slot.Some? && Outranks(slot.value, m) { FirstStays(slot, ms, m); } else { FirstReplaced(slot, ms, m); }
  }

  /** Both slots and the superseded, over the entries seen so far. */
  ghost predicate Seated(cpu: Option<Member>, memory: Option<Member>, superseded: seq<Member>, ms: seq<Member>) {
    && SlotBag(cpu) + SlotBag(memory) + multiset(superseded) == multiset(ms)
    && Wins(cpu, Cpu, ms) && Wins(memory, Memory, ms)
    && FirstOfItsRank(cpu, ms) && FirstOfItsRank(memory, ms)
  }

  lemma {:induction false} SeatCpu(cpu: Option<Member>, memory: Option<Member>, superseded: seq<Member>, ms: seq<Member>, m: Member)
    requires Seated(cpu, memory, superseded, ms) && m.feed == Cpu
    ensures Seated(Seat(cpu, m).0, memory, superseded + Seat(cpu, m).1, ms + [m])
  {
    SeatKeeps(cpu, m, ms);
    WinsOneMore(memory, Memory, ms, m);
    FirstStays(memory, ms, m);
  }

  lemma {:induction false} SeatMemory(cpu: Option<Member>, memory: Option<Member>, superseded: seq<Member>, ms: seq<Member>, m: Member)
    requires Seated(cpu, memory, superseded, ms) && m.feed == Memory
    ensures Seated(cpu, Seat(memory, m).0, superseded + Seat(memory, m).1, ms + [m])
  {
    SeatKeeps(memory, m, ms);
    WinsOneMore(cpu, Cpu, ms, m);
    FirstStays(cpu, ms, m);
  }

  /** A session made of a run: all of it, in its slots and below, and the slots to the right entries. */
  ghost predicate Seats(s: Session, run: seq<Member>) {
    && SlotBag(s.cpu) + SlotBag(s.memory) + multiset(s.superseded) == multiset(run)
    && Wins(s.cpu, Cpu, run) && Wins(s.memory, Memory, run)
    && FirstOfItsRank(s.cpu, run) && FirstOfItsRank(s.memory, run)
    && ByStartDescending(s.superseded)
    && s.id == SessionId(s.target, AnchorOf(run))
  }

  /**
    One run as a session. Every entry is in exactly one place, and each feed's
    slot goes to the entry greatest by connection first and start second, the
    earliest of the run on ties.
   */
  method MakeSession(target: Target, run: seq<Member>) returns (s: Session)
    ensures s.target == target && Seats(s, run)
  {
    var superseded: seq<Member> := [];
    var cpu, memory := None, None;
    for k := 0 to |run|
      invariant Seated(cpu, memory, superseded, run[..k])
    {
      var m := run[k];
      assert run[..k + 1] == run[..k] + [m];
      if m.feed == Cpu {
        SeatCpu(cpu, memory, superseded, run[..k], m);
        superseded := superseded + Seat(cpu, m).1;
        cpu := Seat(cpu, m).0;
      } else {
        SeatMemory(cpu, memory, superseded, run[..k], m);
        superseded := superseded + Seat(memory, m).1;
        memory := Seat(memory, m).0;
      }
    }
    assert run[..|run|] == run;
    var sorted := SortNewestFirst(superseded);
    s := Session(SessionId(target, AnchorOf(run)), target, cpu, memory, sorted);
  }

  // ---------------------------------------------------------------- every process is somewhere, once

  datatype Process = Process(target: Target, member: Member)

  /** Everything a list of sessions accounts for. */
  function Accounted(sessions: seq<Session>): multiset<Process> {
    if sessions == [] then multiset{}
    else Accounted(sessions[..|sessions| - 1]) + SessionBag(sessions[|sessions| - 1])
  }

  function SessionBag(s: Session): multiset<Process> {
    Placed(s.target, if s.cpu.Some? then [s.cpu.value] else [])
    + Placed(s.target, if s.memory.Some? then [s.memory.value] else [])
    + Placed(s.target, s.superseded)
  }

  function Placed(target: Target, ms: seq<Member>): multiset<Process> {
    if ms == [] then multiset{} else Placed(target, ms[..|ms| - 1]) + multiset{Process(target, ms[|ms| - 1])}
  }

  lemma {:induction false} PlacedConcat(target: Target, a: seq<Member>, b: seq<Member>)
    ensures Placed(target, a + b) == Placed(target, a) + Placed(target, b)
  {
    if b == [] {
      assert a + b == a;
    } else {
      assert (a + b)[..|a + b| - 1] == a + b[..|b| - 1];
      PlacedConcat(target, a, b[..|b| - 1]);
    }
  }

  lemma {:induction false} PlacedWithout(target: Target, ms: seq<Member>, k: nat)
    requires k < |ms|
    ensures Placed(target, ms) == Placed(target, ms[..k] + ms[k + 1..]) + multiset{Process(target, ms[k])}
    ensures multiset(ms) == multiset(ms[..k] + ms[k + 1..]) + multiset{ms[k]}
  {
    assert ms == ms[..k] + ([ms[k]] + ms[k + 1..]);
    PlacedConcat(target, ms[..k], [ms[k]] + ms[k + 1..]);
    PlacedConcat(target, [ms[k]], ms[k + 1..]);
    PlacedConcat(target, ms[..k], ms[k + 1..]);
    assert [ms[k]][..0] == [];
  }

  lemma {:induction false} SameLess(all: multiset<Member>, a: multiset<Member>, b: multiset<Member>, one: multiset<Member>)
    requires all == a + one == b + one
    ensures a == b
  {
    assert a == (a + one) - one && b == (b + one) - one;
  }

  lemma {:induction false} PlacedPermute(target: Target, a: seq<Member>, b: seq<Member>)
    requires multiset(a) == multiset(b)
    ensures Placed(target, a) == Placed(target, b)
    decreases |a|
  {
    assert |a| == |multiset(a)| == |multiset(b)| == |b|;
    if a != [] {
      var n := |a| - 1;
      assert a[n] in multiset(b);
      var k :| 0 <= k < |b| && b[k] == a[n];
      assert a[..n] + a[n + 1..] == a[..n];
      PlacedWithout(target, a, n);
      PlacedWithout(target, b, k);
      SameLess(multiset(a), multiset(a[..n]), multiset(b[..k] + b[k + 1..]), multiset{a[n]});
      PlacedPermute(target, a[..n], b[..k] + b[k + 1..]);
    }
  }

  lemma {:induction false} SessionBagIsRun(s: Session, run: seq<Member>)
    requires SlotBag(s.cpu) + SlotBag(s.memory) + multiset(s.superseded) == multiset(run)
    ensures SessionBag(s) == Placed(s.target, run)
  {
    var a := if s.cpu.Some? then [s.cpu.value] else [];
    var b := if s.memory.Some? then [s.memory.value] else [];
    PlacedConcat(s.target, a, b);
    PlacedConcat(s.target, a + b, s.superseded);
    assert multiset(a) == SlotBag(s.cpu) && multiset(b) == SlotBag(s.memory);
    PlacedPermute(s.target, a + b + s.superseded, run);
  }

  /** The first `k` runs are sessions, in order, and account for their entries. */
  ghost predicate RunsDone(sessions: seq<Session>, target: Target, runs: seq<seq<Member>>, k: nat) {
    k <= |runs| && AllSeated(sessions, target, runs, k) && Accounted(sessions) == Placed(target, Flatten(runs[..k]))
  }

  ghost predicate SeatsFor(s: Session, target: Target, run: seq<Member>) {
    s.target == target && Seats(s, run)
  }

  ghost predicate AllSeated(sessions: seq<Session>, target: Target, runs: seq<seq<Member>>, k: nat)
    requires k <= |runs|
  {
    |sessions| == k && forall j {:trigger SeatsFor(sessions[j], target, runs[j])} :: 0 <= j < k ==>
      SeatsFor(sessions[j], target, runs[j])
  }

  lemma {:induction false} OneMoreRun(sessions: seq<Session>, s: Session, target: Target, runs: seq<seq<Member>>, k: nat)
    requires k < |runs| && RunsDone(sessions, target, runs, k) && s.target == target && Seats(s, runs[k])
    ensures RunsDone(sessions + [s], target, runs, k + 1)
  {
    AccountsOneMore(sessions, s, target, runs, k);
    SeatedOneMore(sessions, s, target, runs, k);
  }

  lemma {:induction false} SeatedOneMore(sessions: seq<Session>, s: Session, target: Target, runs: seq<seq<Member>>, k: nat)
    requires k < |runs| && AllSeated(sessions, target, runs, k) && s.target == target && Seats(s, runs[k])
    ensures AllSeated(sessions + [s], target, runs, k + 1)
  {
    forall j | 0 <= j < k + 1
      ensures SeatsFor((sessions + [s])[j], target, runs[j])
    {
      if j < k { assert SeatsFor(sessions[j], target, runs[j]); }
    }
  }

  lemma {:induction false} AccountsOneMore(sessions: seq<Session>, s: Session, target: Target, runs: seq<seq<Member>>, k: nat)
    requires k < |runs| && Accounted(sessions) == Placed(target, Flatten(runs[..k])) && s.target == target
    requires SlotBag(s.cpu) + SlotBag(s.memory) + multiset(s.superseded) == multiset(runs[k])
    ensures Accounted(sessions + [s]) == Placed(target, Flatten(runs[..k + 1]))
  {
    SessionBagIsRun(s, runs[k]);
    FlattenPush(runs, k);
    PlacedConcat(target, Flatten(runs[..k]), runs[k]);
    AccountedPush(sessions, s);
  }

  lemma {:induction false} FlattenPush(runs: seq<seq<Member>>, k: nat)
    requires k < |runs|
    ensures Flatten(runs[..k + 1]) == Flatten(runs[..k]) + runs[k]
  {
    assert runs[..k + 1][..k] == runs[..k];
  }

  lemma {:induction false} AccountedPush(sessions: seq<Session>, s: Session)
    ensures Accounted(sessions + [s]) == Accounted(sessions) + SessionBag(s)
  {
    assert (sessions + [s])[..|sessions|] == sessions;
  }

  /** Members split into their runs. */
  ghost predicate Splits(runs: seq<seq<Member>>, members: seq<Member>) {
    Apart(runs) && multiset(Flatten(runs)) == multiset(members)
  }

  /** The session is one of the runs its target's entries split into. */
  ghost predicate IsOneRunOf(s: Session, members: seq<Member>) {
    exists runs, x :: Splits(runs, members) && 0 <= x < |runs| && Seats(s, runs[x])
  }

  /** The sessions of one target account for exactly its entries, run by run. */
  method SessionsOf(target: Target, members: seq<Member>) returns (sessions: seq<Session>)
    ensures Accounted(sessions) == Placed(target, members)
    ensures forall k :: 0 <= k < |sessions| ==> sessions[k].target == target && IsOneRunOf(sessions[k], members)
  {
    var runs := Runs(members);
    sessions := [];
    for k := 0 to |runs|
      invariant RunsDone(sessions, target, runs, k)
    {
      var s := MakeSession(target, runs[k]);
      OneMoreRun(sessions, s, target, runs, k);
      sessions := sessions + [s];
    }
    RunByRun(sessions, target, runs, members);
  }

  lemma {:induction false} RunByRun(sessions: seq<Session>, target: Target, runs: seq<seq<Member>>, members: seq<Member>)
    requires Splits(runs, members) && RunsDone(sessions, target, runs, |runs|)
    ensures Accounted(sessions) == Placed(target, members)
    ensures forall k :: 0 <= k < |sessions| ==> sessions[k].target == target && IsOneRunOf(sessions[k], members)
  {
    assert runs[..|runs|] == runs;
    PlacedPermute(target, Flatten(runs), members);
    forall k | 0 <= k < |sessions|
      ensures sessions[k].target == target && IsOneRunOf(sessions[k], members)
    {
      assert SeatsFor(sessions[k], target, runs[k]);
    }
  }

  /** Entries grouped by target account for the same processes. */
  ghost function GroupBag(groups: map<Target, seq<Member>>, keys: set<Target>): multiset<Process>
    requires keys <= groups.Keys
  {
    if keys == {} then multiset{}
    else var t :| t in keys; Placed(t, groups[t]) + GroupBag(groups, keys - {t})
  }

  lemma {:induction false} GroupPick(groups: map<Target, seq<Member>>, keys: set<Target>, t: Target)
    requires keys <= groups.Keys && t in keys
    ensures GroupBag(groups, keys) == Placed(t, groups[t]) + GroupBag(groups, keys - {t})
  {
    var u :| u in keys && GroupBag(groups, keys) == Placed(u, groups[u]) + GroupBag(groups, keys - {u});
    if u != t {
      GroupPick(groups, keys - {u}, t);
      GroupPick(groups, keys - {t}, u);
      assert keys - {u} - {t} == keys - {t} - {u};
    }
  }

  lemma {:induction false} GroupSame(a: map<Target, seq<Member>>, b: map<Target, seq<Member>>, keys: set<Target>)
    requires keys <= a.Keys && keys <= b.Keys && forall t :: t in keys ==> a[t] == b[t]
    ensures GroupBag(a, keys) == GroupBag(b, keys)
  {
    if keys != {} {
      var t :| t in keys;
      GroupPick(a, keys, t);
      GroupPick(b, keys, t);
      GroupSame(a, b, keys - {t});
    }
  }

  /** `entry((app, pid)).or_default().push(member)`. */
  function Grouped(groups: map<Target, seq<Member>>, p: Process): map<Target, seq<Member>> {
    groups[p.target := Held(groups, p.target) + [p.member]]
  }

  /** Adding one entry to its target's group adds that process. */
  lemma {:induction false} GroupAdd(groups: map<Target, seq<Member>>, p: Process)
    ensures GroupBag(Grouped(groups, p), Grouped(groups, p).Keys) == GroupBag(groups, groups.Keys) + multiset{p}
  {
    var t, groups' := p.target, Grouped(groups, p);
    var others := groups.Keys - {t};
    var held := Held(groups, t);
    assert groups'.Keys == others + {t} && groups'.Keys - {t} == others;
    GroupPick(groups', groups'.Keys, t);
    GroupSame(groups, groups', others);
    PlacedPush(t, held, p.member);
    GroupHeld(groups, t);
  }

  /** A group taken out of the rest; one not there yet is empty. */
  lemma {:induction false} GroupHeld(groups: map<Target, seq<Member>>, t: Target)
    ensures GroupBag(groups, groups.Keys)
         == Placed(t, Held(groups, t)) + GroupBag(groups, groups.Keys - {t})
  {
    if t in groups { GroupPick(groups, groups.Keys, t); } else { assert groups.Keys - {t} == groups.Keys; }
  }

  lemma {:induction false} PlacedPush(target: Target, ms: seq<Member>, m: Member)
    ensures Placed(target, ms + [m]) == Placed(target, ms) + multiset{Process(target, m)}
  {
    assert (ms + [m])[..|ms|] == ms;
  }

  /** One target's entries, as they were registered. */
  function EntriesOf(registered: seq<Process>, t: Target): seq<Member> {
    if registered == [] then []
    else
      var last := registered[|registered| - 1];
      EntriesOf(registered[..|registered| - 1], t) + if last.target == t then [last.member] else []
  }

  function Held(groups: map<Target, seq<Member>>, t: Target): seq<Member> {
    if t in groups then groups[t] else []
  }

  ghost predicate GroupsOf(groups: map<Target, seq<Member>>, registered: seq<Process>) {
    && GroupBag(groups, groups.Keys) == multiset(registered)
    && forall t :: Held(groups, t) == EntriesOf(registered, t)
  }

  lemma {:induction false} EntriesPush(registered: seq<Process>, p: Process, t: Target)
    ensures EntriesOf(registered + [p], t) == EntriesOf(registered, t) + if p.target == t then [p.member] else []
  {
    assert (registered + [p])[..|registered|] == registered;
  }

  lemma {:induction false} BagOneMore(groups: map<Target, seq<Member>>, registered: seq<Process>, p: Process)
    requires GroupBag(groups, groups.Keys) == multiset(registered)
    ensures GroupBag(Grouped(groups, p), Grouped(groups, p).Keys) == multiset(registered + [p])
  {
    GroupAdd(groups, p);
  }

  lemma {:induction false} GroupsOneMore(groups: map<Target, seq<Member>>, registered: seq<Process>, p: Process)
    requires GroupsOf(groups, registered)
    ensures GroupsOf(Grouped(groups, p), registered + [p])
  {
    BagOneMore(groups, registered, p);
    forall t
      ensures Held(Grouped(groups, p), t) == EntriesOf(registered + [p], t)
    {
      assert Held(groups, t) == EntriesOf(registered, t);
      EntriesPush(registered, p, t);
    }
  }

  /** Every session is one run of its target's entries. */
  ghost predicate AllRuns(sessions: seq<Session>, registered: seq<Process>) {
    forall s :: s in sessions ==> RunOfTarget(s, registered)
  }

  ghost predicate RunOfTarget(s: Session, registered: seq<Process>) {
    IsOneRunOf(s, EntriesOf(registered, s.target))
  }

  lemma {:induction false} MoreRuns(
    sessions: seq<Session>, more: seq<Session>, registered: seq<Process>, t: Target, members: seq<Member>)
    requires AllRuns(sessions, registered) && members == EntriesOf(registered, t)
    requires forall k :: 0 <= k < |more| ==> more[k].target == t && IsOneRunOf(more[k], members)
    ensures AllRuns(sessions + more, registered)
  {
    forall s | s in more
      ensures RunOfTarget(s, registered)
    {
      var k :| 0 <= k < |more| && more[k] == s;
    }
  }

  lemma {:induction false} NoGroups()
    ensures GroupsOf(map[], [])
  {
    var none: map<Target, seq<Member>> := map[];
    assert none.Keys == {};
  }

  method Group(registered: seq<Process>) returns (byTarget: map<Target, seq<Member>>)
    ensures GroupsOf(byTarget, registered)
  {
    byTarget := map[];
    NoGroups();
    for k := 0 to |registered|
      invariant GroupsOf(byTarget, registered[..k])
    {
      GroupsOneMore(byTarget, registered[..k], registered[k]);
      assert registered[..k + 1] == registered[..k] + [registered[k]];
      byTarget := Grouped(byTarget, registered[k]);
    }
    assert registered[..|registered|] == registered;
  }

  // ---------------------------------------------------------------- the list, newest run first

  function Slots(s: Session): seq<Member> {
    (if s.cpu.Some? then [s.cpu.value] else []) + (if s.memory.Some? then [s.memory.value] else [])
  }

  /** The earlier start of the two slots. */
  function StartOf(s: Session): nat {
    match (s.cpu, s.memory)
    case (Some(c), Some(m)) => if m.started < c.started then m.started else c.started
    case (Some(c), None) => c.started
    case (None, Some(m)) => m.started
    case (None, None) => 0
  }

  /** The order of text, character by character. */
  predicate AtMost(a: string, b: string) {
    a == [] || (b != [] && (a[0] < b[0] || (a[0] == b[0] && AtMost(a[1..], b[1..]))))
  }

  lemma {:induction false} StartIsEarliest(s: Session)
    ensures forall m :: m in Slots(s) ==> StartOf(s) <= m.started
    ensures Slots(s) != [] ==> exists m :: m in Slots(s) && m.started == StartOf(s)
  {
    if s.cpu.Some? { assert s.cpu.value in Slots(s); }
    if s.memory.Some? { assert s.memory.value in Slots(s); }
  }

  /** Texts part at one place: the first differs there by a smaller character, or ends. */
  predicate PartsBelow(a: string, b: string, k: nat) {
    k <= |a| && k <= |b| && a[..k] == b[..k] && if k < |a| && k < |b| then a[k] < b[k] else k == |a|
  }

  lemma {:induction false} AtMostIsTextOrder(a: string, b: string)
    ensures AtMost(a, b) <==> exists k: nat :: PartsBelow(a, b, k)
  {
    if a == [] {
      assert PartsBelow(a, b, 0);
    } else if b != [] && a[0] == b[0] {
      AtMostIsTextOrder(a[1..], b[1..]);
      if k: nat :| PartsBelow(a[1..], b[1..], k) {
        assert a[..k + 1] == [a[0]] + a[1..][..k] && b[..k + 1] == [b[0]] + b[1..][..k];
        assert PartsBelow(a, b, k + 1);
      }
      if k: nat :| PartsBelow(a, b, k) {
        assert k > 0 && a[1..][..k - 1] == a[..k][1..] && b[1..][..k - 1] == b[..k][1..];
        assert PartsBelow(a[1..], b[1..], k - 1);
      }
    } else if b != [] && a[0] < b[0] {
      assert PartsBelow(a, b, 0);
    }
  }

  lemma {:induction false} AtMostIsTotal(a: string, b: string)
    ensures AtMost(a, b) || AtMost(b, a)
  {
    if a != [] && b != [] && a[0] == b[0] { AtMostIsTotal(a[1..], b[1..]); }
  }

  lemma {:induction false} AtMostChains(a: string, b: string, c: string)
    requires AtMost(a, b) && AtMost(b, c)
    ensures AtMost(a, c)
  {
    if a != [] && a[0] == b[0] == c[0] { AtMostChains(a[1..], b[1..], c[1..]); }
  }

  /** Newer runs first, and by id among those that started together. */
  predicate Precedes(a: Session, b: Session) {
    StartOf(a) > StartOf(b) || (StartOf(a) == StartOf(b) && AtMost(a.id, b.id))
  }

  predicate NewestFirst(sessions: seq<Session>) {
    forall i, j :: 0 <= i < j < |sessions| ==> Precedes(sessions[i], sessions[j])
  }

  lemma {:induction false} NewestComeFirst(sessions: seq<Session>)
    requires NewestFirst(sessions)
    ensures forall i, j :: 0 <= i < j < |sessions| ==> StartOf(sessions[i]) >= StartOf(sessions[j])
    ensures forall i, j :: 0 <= i < j < |sessions| && StartOf(sessions[i]) == StartOf(sessions[j]) ==>
              AtMost(sessions[i].id, sessions[j].id)
  {
    assert forall i, j :: 0 <= i < j < |sessions| ==> Precedes(sessions[i], sessions[j]);
  }

  lemma {:induction false} PrecedesIsTotal(a: Session, b: Session)
    ensures Precedes(a, b) || Precedes(b, a)
  {
    AtMostIsTotal(a.id, b.id);
  }

  lemma {:induction false} PrecedesChains(a: Session, b: Session, c: Session)
    requires Precedes(a, b) && Precedes(b, c)
    ensures Precedes(a, c)
  {
    if StartOf(a) == StartOf(b) == StartOf(c) { AtMostChains(a.id, b.id, c.id); }
  }

  lemma {:induction false} InsertedKeepsOrder(sessions: seq<Session>, at: nat, s: Session)
    requires NewestFirst(sessions) && at <= |sessions|
    requires at > 0 ==> Precedes(sessions[at - 1], s)
    requires forall j :: at <= j < |sessions| ==> !Precedes(sessions[j], s)
    ensures NewestFirst(sessions[..at] + [s] + sessions[at..])
  {
    var all := sessions[..at] + [s] + sessions[at..];
    forall k | 0 <= k < |all|
      ensures all[k] == if k < at then sessions[k] else if k == at then s else sessions[k - 1]
    {
    }
    forall k | 0 <= k < |sessions|
      ensures if k < at then Precedes(sessions[k], s) else Precedes(s, sessions[k])
    {
      if k < at - 1 { PrecedesChains(sessions[k], sessions[at - 1], s); }
      PrecedesIsTotal(s, sessions[k]);
    }
  }

  /** Puts one session where it belongs. */
  method InsertSession(sessions: seq<Session>, s: Session) returns (sorted: seq<Session>)
    requires NewestFirst(sessions)
    ensures NewestFirst(sorted) && forall x :: x in sorted ==> x in sessions || x == s
    ensures Accounted(sorted) == Accounted(sessions) + SessionBag(s)
  {
    var at := |sessions|;
    while at > 0 && !Precedes(sessions[at - 1], s)
      invariant 0 <= at <= |sessions|
      invariant forall j :: at <= j < |sessions| ==> !Precedes(sessions[j], s)
    {
      at := at - 1;
    }
    InsertedKeepsOrder(sessions, at, s);
    InsertedAccounts(sessions, at, s);
    sorted := sessions[..at] + [s] + sessions[at..];
  }

  lemma {:induction false} InsertedAccounts(sessions: seq<Session>, at: nat, s: Session)
    requires at <= |sessions|
    ensures Accounted(sessions[..at] + [s] + sessions[at..]) == Accounted(sessions) + SessionBag(s)
  {
    assert sessions[..at] + sessions[at..] == sessions;
    AccountedConcat(sessions[..at] + [s], sessions[at..]);
    AccountedPush(sessions[..at], s);
    AccountedConcat(sessions[..at], sessions[at..]);
    BagsCommute(Accounted(sessions[..at]), SessionBag(s), Accounted(sessions[at..]));
  }

  lemma {:induction false} BagsCommute(a: multiset<Process>, b: multiset<Process>, c: multiset<Process>)
    ensures a + b + c == a + c + b
  {
  }

  lemma {:induction false} SortedRuns(sessions: seq<Session>, sorted: seq<Session>, registered: seq<Process>)
    requires AllRuns(sessions, registered) && forall x :: x in sorted ==> x in sessions
    ensures AllRuns(sorted, registered)
  {
  }

  lemma {:induction false} NextAccounts(sessions: seq<Session>, k: nat)
    requires k < |sessions|
    ensures Accounted(sessions[..k + 1]) == Accounted(sessions[..k]) + SessionBag(sessions[k])
  {
    assert sessions[..k + 1] == sessions[..k] + [sessions[k]];
    AccountedPush(sessions[..k], sessions[k]);
  }

  method SortSessions(sessions: seq<Session>) returns (sorted: seq<Session>)
    ensures NewestFirst(sorted) && forall x :: x in sorted ==> x in sessions
    ensures Accounted(sorted) == Accounted(sessions)
  {
    sorted := [];
    for k := 0 to |sessions|
      invariant NewestFirst(sorted) && forall x :: x in sorted ==> x in sessions
      invariant Accounted(sorted) == Accounted(sessions[..k])
    {
      NextAccounts(sessions, k);
      sorted := InsertSession(sorted, sessions[k]);
    }
    assert sessions[..|sessions|] == sessions;
  }

  /**
    Every registered process, grouped by target and split into runs, appears in
    exactly one session, in one slot or among its superseded entries; every
    session is one run of its target's entries; and the newest run comes first.
   */
  method PairSessions(registered: seq<Process>) returns (sessions: seq<Session>)
    ensures Accounted(sessions) == multiset(registered)
    ensures AllRuns(sessions, registered)
    ensures forall i, j :: 0 <= i < j < |sessions| ==> StartOf(sessions[i]) >= StartOf(sessions[j])
    ensures forall i, j :: 0 <= i < j < |sessions| && StartOf(sessions[i]) == StartOf(sessions[j]) ==>
              AtMost(sessions[i].id, sessions[j].id)
  {
    var byTarget := Group(registered);
    sessions := [];
    var pending := byTarget.Keys;
    while pending != {}
      invariant pending <= byTarget.Keys && Paired(sessions, byTarget, pending, registered)
      decreases |pending|
    {
      var t :| t in pending;
      var more := SessionsOf(t, byTarget[t]);
      PairedOneMore(sessions, more, byTarget, pending, registered, t);
      sessions := sessions + more;
      pending := pending - {t};
    }
    var sorted := SortSessions(sessions);
    SortedRuns(sessions, sorted, registered);
    NewestComeFirst(sorted);
    sessions := sorted;
  }

  /** The sessions so far and the groups still pending account for every process. */
  ghost predicate Paired(sessions: seq<Session>, groups: map<Target, seq<Member>>, pending: set<Target>, registered: seq<Process>)
    requires pending <= groups.Keys
  {
    && GroupsOf(groups, registered) && AllRuns(sessions, registered)
    && Accounted(sessions) + GroupBag(groups, pending) == multiset(registered)
  }

  lemma {:induction false} PairedOneMore(
    sessions: seq<Session>, more: seq<Session>, groups: map<Target, seq<Member>>, pending: set<Target>,
    registered: seq<Process>, t: Target)
    requires pending <= groups.Keys && t in pending && Paired(sessions, groups, pending, registered)
    requires Accounted(more) == Placed(t, groups[t])
    requires forall k :: 0 <= k < |more| ==> more[k].target == t && IsOneRunOf(more[k], groups[t])
    ensures Paired(sessions + more, groups, pending - {t}, registered)
  {
    assert Held(groups, t) == EntriesOf(registered, t);
    MoreRuns(sessions, more, registered, t, groups[t]);
    AccountedConcat(sessions, more);
    GroupPick(groups, pending, t);
  }

  lemma {:induction false} AccountedConcat(a: seq<Session>, b: seq<Session>)
    ensures Accounted(a + b) == Accounted(a) + Accounted(b)
  {
    if b == [] {
      assert a + b == a;
    } else {
      assert (a + b)[..|a + b| - 1] == a + b[..|b| - 1];
      AccountedConcat(a, b[..|b| - 1]);
    }
  }

  // ---------------------------------------------------------------- who shares a session

  /** Everyone in a session, wherever they sit. */
  function MembersOf(s: Session): seq<Member> {
    Slots(s) + s.superseded
  }

  /** A chain of entries of one target from `a` to `b`, each hop within the tolerance. */
  predicate IsLink(entries: seq<Member>, chain: seq<Member>, a: Member, b: Member) {
    && chain != [] && chain[0] == a && chain[|chain| - 1] == b
    && (forall k :: 0 <= k < |chain| ==> chain[k] in entries)
    && (forall k :: 0 <= k < |chain| - 1 ==> Near(chain[k], chain[k + 1]))
  }

  ghost predicate Linked(entries: seq<Member>, a: Member, b: Member) {
    exists chain :: IsLink(entries, chain, a, b)
  }

  ghost predicate ShareSession(sessions: seq<Session>, t: Target, a: Member, b: Member) {
    exists k :: 0 <= k < |sessions| && sessions[k].target == t && a in MembersOf(sessions[k]) && b in MembersOf(sessions[k])
  }

  lemma {:induction false} PlacedHolds(target: Target, ms: seq<Member>, p: Process)
    ensures p in Placed(target, ms) <==> p.target == target && p.member in ms
  {
    if ms != [] {
      PlacedHolds(target, ms[..|ms| - 1], p);
      assert ms == ms[..|ms| - 1] + [ms[|ms| - 1]];
    }
  }

  lemma {:induction false} BagHolds(s: Session, p: Process)
    ensures p in SessionBag(s) <==> p.target == s.target && p.member in MembersOf(s)
  {
    PlacedHolds(s.target, if s.cpu.Some? then [s.cpu.value] else [], p);
    PlacedHolds(s.target, if s.memory.Some? then [s.memory.value] else [], p);
    PlacedHolds(s.target, s.superseded, p);
  }

  lemma {:induction false} AccountedHolds(sessions: seq<Session>, p: Process) returns (k: nat)
    requires p in Accounted(sessions)
    ensures k < |sessions| && p in SessionBag(sessions[k])
  {
    k := |sessions| - 1;
    if p !in SessionBag(sessions[k]) { k := AccountedHolds(sessions[..k], p); }
  }

  lemma {:induction false} AmongSplit(runs: seq<seq<Member>>, m: Member)
    requires runs != []
    ensures Among(runs, m) <==> Among(runs[..|runs| - 1], m) || m in runs[|runs| - 1]
  {
    var front := runs[..|runs| - 1];
    assert forall x :: 0 <= x < |front| ==> front[x] == runs[x];
    if Among(front, m) {
      var x :| 0 <= x < |front| && m in front[x];
      assert m in runs[x];
    }
  }

  lemma {:induction false} FlattenHolds(runs: seq<seq<Member>>, m: Member)
    ensures m in Flatten(runs) <==> Among(runs, m)
  {
    if runs != [] {
      FlattenHolds(runs[..|runs| - 1], m);
      AmongSplit(runs, m);
    }
  }

  lemma {:induction false} SplitHolds(runs: seq<seq<Member>>, entries: seq<Member>, m: Member)
    requires Splits(runs, entries)
    ensures m in entries <==> Among(runs, m)
  {
    FlattenHolds(runs, m);
    assert m in multiset(Flatten(runs)) <==> m in multiset(entries);
  }

  lemma {:induction false} LinkIsChain(runs: seq<seq<Member>>, entries: seq<Member>, chain: seq<Member>, a: Member, b: Member)
    requires Splits(runs, entries)
    ensures IsLink(entries, chain, a, b) <==> IsChain(runs, chain, a, b)
  {
    forall m
      ensures m in entries <==> Among(runs, m)
    {
      SplitHolds(runs, entries, m);
    }
  }

  /** A session made of a run holds exactly that run. */
  lemma {:induction false} SeatsHold(s: Session, run: seq<Member>, m: Member)
    requires Seats(s, run)
    ensures m in MembersOf(s) <==> m in run
  {
    assert m in multiset(run) <==> m in SlotBag(s.cpu) + SlotBag(s.memory) + multiset(s.superseded);
  }

  lemma {:induction false} SessionLinks(s: Session, registered: seq<Process>, a: Member, b: Member)
    requires RunOfTarget(s, registered) && a in MembersOf(s)
    ensures b in MembersOf(s) <==> Linked(EntriesOf(registered, s.target), a, b)
  {
    var entries := EntriesOf(registered, s.target);
    var runs, x :| Splits(runs, entries) && 0 <= x < |runs| && Seats(s, runs[x]);
    SeatsHold(s, runs[x], a);
    SeatsHold(s, runs[x], b);
    if b in runs[x] {
      var i :| 0 <= i < |runs[x]| && runs[x][i] == a;
      var j :| 0 <= j < |runs[x]| && runs[x][j] == b;
      SliceIsChain(runs, x, i, j);
      LinkIsChain(runs, entries, Stretch(runs[x], i, j), a, b);
    }
    if chain :| IsLink(entries, chain, a, b) {
      LinkIsChain(runs, entries, chain, a, b);
      ChainStaysInRun(runs, chain, a, b, x);
    }
  }

  /**
    Two registered entries of one target share a session exactly when a chain of
    registered entries of that target links them, no hop of it longer than the
    tolerance: of any list that accounts for what was registered, run by run, as
    pairing's does.
   */
  lemma {:induction false} ShareSessionIffLinked(
    registered: seq<Process>, sessions: seq<Session>, t: Target, a: Member, b: Member)
    requires Accounted(sessions) == multiset(registered) && AllRuns(sessions, registered)
    requires Process(t, a) in registered
    ensures ShareSession(sessions, t, a, b) <==> Linked(EntriesOf(registered, t), a, b)
  {
    assert Process(t, a) in multiset(registered);
    var k := AccountedHolds(sessions, Process(t, a));
    BagHolds(sessions[k], Process(t, a));
    assert RunOfTarget(sessions[k], registered);
    SessionLinks(sessions[k], registered, a, b);
    if ShareSession(sessions, t, a, b) {
      var j :| 0 <= j < |sessions| && sessions[j].target == t && a in MembersOf(sessions[j]) && b in MembersOf(sessions[j]);
      SessionLinks(sessions[j], registered, a, b);
    }
  }
}
