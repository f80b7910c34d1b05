# lightwatch, modelled and proved

lightwatch watches a running program. A probe linked into the program keeps, per
thread, a stack of measured calls; it names each calling context in one shared
table and charges every context its self time. Once a window an emitter drains
what the threads recorded and sends it, with the names a listener has not seen,
over a socket. A daemon believes only events whose ids it knows, and keeps
lifetime totals, a call tree, a graph derived from it, two rings of windows and a
stream of closed windows. A page folds windows into buckets and draws one bucket
as a flame graph.

This project models those parts in Dafny and proves what they are for.

- **The probe.** The context tree is finite however deep a program recurses, with
  the table full or not. No nanosecond of self time is lost or counted twice, and
  every context holds exactly what closing calls charged to it. The self time
  recorded while a call is open sums exactly to its elapsed time, and it lands in
  the call's own subtree if and only if nothing inside re-enters a function whose
  next context, known as the call opens, is elsewhere. A function reports one call
  per outermost entry, and its recursion context one per second-level entry; the
  durations it records are the times from entry to exit of its outermost calls.
- **The protocol.** Under any interleaving of interning, calls on any threads,
  drains, failed and half-failed sends, reconnections, dropped connections and
  daemon restarts, the daemon's names are a prefix of the probe's, no registration
  is refused, and the events of a frame that was not cut short name only what their
  own connection was told. Once nothing new is interned, a bounded number of frames
  tells the daemon everything. Every finished call is accounted for, from the thread
  that made it to the daemon that shows it or the frame it was lost with.
- **The store.** Every total, edge, ring window and pushed window is the fold of
  one simple log: the events the daemon believed. What the daemon stores with
  saturation at every step is the exact sum, over the frames it was sent, clipped
  once. A ring forgets a window only when the newest is a full ring ahead of it.
- **Histograms.** The log-linear buckets tile all of `u64`; merging per-thread
  samples in any grouping gives the buckets of the raw list; midpoint totals are
  within 1/32.
- **Around them.** Live-object counters under interleaved atomic steps, session
  pairing, a connection from its bytes to the process it feeds, the bucket fold and
  the flame graph with its layout.

Code that updates state step by step is a class or a method with a loop, proved
equal to a specification function of its old state; the theorems are about those
functions, over every input, run or reachable state. `Words.dfy` writes out the
word widths. Ghost logs and counters stand beside the state they account for.
Every lemma turns Dafny's automatic induction off, so the proof is the one
written.

## Where the documentation says more than the code does

- `crates/lightwatch-probe/src/lib.rs:109-112` has a subtree's self time sum to its
  inclusive time. `SubtreeTime.SubtreeSumsToElapsed` gives the exact condition, and
  `RecursionRecords.MutualRecursionLeavesTheSubtree` a run in which it fails.
- `crates/lightwatch-probe/src/calls.rs:120-124` and `lib.rs:118-121` say a recursive
  function counts once per outermost entry. Its calls do, but its shared recursion
  context counts every second-level entry. `RecursionCounts.OutermostEntryReports`
  says, for each outermost entry, how often: once exactly if the second level was
  entered once. `RecursionRecords.BranchingRecursionReportsTwice` is a run with two.
- `crates/lightwatch-probe/src/registry.rs:23-27` caps the registers of a frame. The
  code applies the cap to contexts only; `Emitters.FrameCeiling` says when it holds.
- `crates/lightwatch-daemon/src/store.rs:124` calls a pushed window one that can no
  longer change. `StreamLimits.PushedStaysRight` says exactly which later events
  change one, over any run of frames, and two runs there show it happening.

## Model

| member | source | states |
|---|---|---|
| `LogLinear.BucketOf` | crates/lightwatch-proto/src/dist.rs:25-33 | every `u64` gets a bucket index within the table |
| `LogLinear.BucketPartition` | crates/lightwatch-proto/src/dist.rs:25-46 | a value is in bucket `i` exactly when it lies in `i`'s range, for every `u64` and every index |
| `LogLinear.BucketsAreContiguous` | crates/lightwatch-proto/src/dist.rs:35-46 | the ranges tile 0 to the largest `u64` in order, without gap or overlap |
| `LogLinear.BucketOfIsMonotoneAndOnto` | crates/lightwatch-proto/src/dist.rs:25-46 | bucketing keeps order, and both ends of every range fall in their own bucket, so every index is used |
| `LogLinear.RangeFits` | crates/lightwatch-proto/src/dist.rs:35-46 | no shift or add computing a range passes the top of a `u64` |
| `LogLinear.RelativeWidth` | crates/lightwatch-proto/src/dist.rs:13-14 | above the linear part a bucket is at most a sixteenth as wide as its least value |
| `LogLinear.MidpointError` | crates/lightwatch-proto/src/dist.rs:35-46 | a bucket's midpoint is within 1/32 of any value in it, and exact below 32 |
| `Distribution.ToBuckets` | crates/lightwatch-proto/src/dist.rs:83-103 | sorting and merging gives the histogram: each named index once, ascending, with its exact count |
| `Distribution.FoldSorted` | crates/lightwatch-proto/src/dist.rs:83-103 | merging neighbours with a running last entry sorts strictly and changes no count |
| `Distribution.ToBucketsIsIdempotent` | crates/lightwatch-proto/src/dist.rs:83-103 | the result is strictly sorted, and folding it again changes nothing |
| `Distribution.ToBucketsKeepsCount` | crates/lightwatch-proto/src/dist.rs:73-103 | folding to buckets neither loses nor invents a sample |
| `Distribution.HistogramKeepsWeight` | crates/lightwatch-proto/src/dist.rs:83-103 | any total weighted by index survives the fold |
| `Distribution.SaturatingSumIsClip` | crates/lightwatch-daemon/src/store.rs:413-422 | summing raw durations with saturation at each step is clipping the exact sum once |
| `Distribution.SaturatingMidpointsIsClip` | crates/lightwatch-daemon/src/store.rs:413-422 | so is summing midpoints times counts with saturating products and sums |
| `Distribution.MidpointBound` | crates/lightwatch-daemon/src/store.rs:413-422 | the bucketed total is within 1/32 of the true sum and exact below 32, for durations up to the clip and for live bytes |
| `SampleStore.Samples.Add` | crates/lightwatch-probe/src/calls.rs:317-330 | one more sample, converting to buckets past the raw cap, is the specified new form |
| `SampleStore.Samples.Absorb` | crates/lightwatch-probe/src/calls.rs:345-357 | merging another accumulator is the specified new form |
| `SampleStore.HistogramHomomorphism` | crates/lightwatch-probe/src/calls.rs:316-369 | however samples were added and merged, folding the wire form equals folding the raw list, with the same count; up to 1024 samples it is that list itself, and past that buckets in index order |
| `SampleStore.GroupingAndOrderDoNotShow` | crates/lightwatch-probe/src/calls.rs:316-384 | two histories of the same samples give the same buckets |
| `PathRegistry.PathTable.InternPath` | crates/lightwatch-probe/src/registry.rs:98-113 | one lock region finds, refuses at the ceiling, or appends a context |
| `PathRegistry.InternWellFormed` | crates/lightwatch-probe/src/registry.rs:98-113 | ids already given never change meaning, a returned id names what was asked, and zero comes only from a full table |
| `PathRegistry.InternDecides` | crates/lightwatch-probe/src/registry.rs:98-113 | a listed context gives its id and changes nothing, a new one is listed last while there is room, and otherwise it is refused and only counted |
| `PathRegistry.NamesAgree` | crates/lightwatch-probe/src/registry.rs:98-113 | one `(parent, func)` has one id, whoever interned it |
| `PathRegistry.ChainsAreDistinct` | crates/lightwatch-probe/src/registry.rs:33-40 | distinct contexts stand for distinct chains of functions |
| `ThreadBookkeeping.ThreadState.FindContext` | crates/lightwatch-probe/src/calls.rs:154-164 | the cached lookup, and the parent's context when the table is full |
| `ThreadBookkeeping.ThreadState.EnterCall` | crates/lightwatch-probe/src/calls.rs:166-209 | entering a call leaves stack, depths, cache and table as specified |
| `ThreadBookkeeping.ThreadState.LeaveCall` | crates/lightwatch-probe/src/calls.rs:211-249 | leaving a call charges the caller, shrinks the depth and records self time, count and duration; what that makes of a run is `Durations.DurationsAreRecorded` and `ChargeLedger.ChargesAreTheLedger` |
| `ThreadBookkeeping.DrainAll` | crates/lightwatch-probe/src/calls.rs:388-398 | draining returns everything the threads had recorded, leaves them empty, and keeps the slots of threads that still hold theirs |
| `ThreadBookkeeping.EndedThreadsLoseNothing` | crates/lightwatch-probe/src/calls.rs:386-398 | a later drain over the kept slots collects the same as one over all, if what was dropped had nothing left |
| `ContextBound.OpenKeepsTidy` | crates/lightwatch-probe/src/calls.rs:154-197 | entering keeps every chain free of a function repeated other than twice in a row, whatever the stack and however full the table |
| `ContextBound.OpenKeepsStructured` | crates/lightwatch-probe/src/calls.rs:166-209 | entering keeps cache, depths and stack consistent with the table |
| `ContextBound.CloseKeepsStructured` | crates/lightwatch-probe/src/calls.rs:211-249 | so does leaving |
| `ChainCount.TidyChainIsShort` | crates/lightwatch-probe/src/calls.rs:154-197 | such a chain over `n` functions has length at most `2n` |
| `ChainCount.ChainsAreFew` | crates/lightwatch-probe/src/calls.rs:154-197 | there are at most one plus the sum over `k` of `n!/(n-k)! * 2^k` such chains |
| `ChainCount.ChoicesTimesFactorial` | crates/lightwatch-probe/src/calls.rs:154-197 | the counting function used there is the quotient of factorials it is named for |
| `ProbeRuns.TreeIsFinite` | crates/lightwatch-probe/src/calls.rs:154-197 | in any run of any threads at any ceiling, chains are short and the table holds no more contexts than there are chains, nor than the ceiling |
| `ProbeRuns.ThreadsAgreeOnIds` | crates/lightwatch-probe/src/calls.rs:137-164 | threads that raced to intern a call cached the same id, and it names that call |
| `SelfTime.CloseBalances` | crates/lightwatch-probe/src/calls.rs:211-249 | closing clips nothing, and self time recorded is what open activations' charges do not cover |
| `SelfTime.AbsorbTotal` | crates/lightwatch-probe/src/calls.rs:371-384 | absorbing an accumulator moves its self time and changes none |
| `ProbeRuns.SelfTimeIsConserved` | crates/lightwatch-probe/src/calls.rs:211-249 | after any run, recorded self time, key zero included, is the elapsed time of closed outermost calls plus what open calls have been charged |
| `ChargeLedger.ChargesAreTheLedger` | crates/lightwatch-probe/src/calls.rs:211-249 | after any run, for each context, what all threads' closed calls charged there is what the accumulators and the drains so far hold there, in self time and in calls |
| `Durations.DurationsAreRecorded` | crates/lightwatch-probe/src/calls.rs:211-249 | after any run, what the drains and each thread hold of a function is as many calls as it has finished outermost calls there, and as samples their times from entry to exit, or their histogram; each finished call, found and timed from entries and exits alone, is in one place once |
| `SubtreeTime.SubtreeSumsToElapsed` | crates/lightwatch-probe/src/calls.rs:166-249 | self time recorded from a call's open to its close sums exactly to its elapsed time, and all of it lies in the call's subtree exactly when nothing inside re-enters a function that strays: one beneath whose next context, read from its depth and the table at the open, is outside |
| `SubtreeTime.BeneathOwnersAllStray` | crates/lightwatch-probe/src/calls.rs:166-209 | for an outermost call with a context of its own, every function beneath strays |
| `CallCounts.ReportsAreEntries` | crates/lightwatch-probe/src/calls.rs:166-249 | a run's reported calls of a function are its outermost entries, and what it reports under contexts its entries at the first two levels, short of those still open |
| `RecursionCounts.OutermostEntryReports` | crates/lightwatch-probe/src/calls.rs:166-249 | over one outermost call the function reports once for itself and once per entry of its second level, each beneath the call's context or, the table full, at it; with room the recursion context reports exactly that many, so once if and only if there was one |
| `RecursionCounts.RoomMeansOwned` | crates/lightwatch-probe/src/calls.rs:154-209 | while the table has room, every call of any run is charged to a context of its own function |
| `RecursionRecords.BranchingRecursionReportsTwice` | crates/lightwatch-probe/src/calls.rs:120-124 | a legal outermost call with two second-level entries, whose recursion context reports two calls and its function one |
| `RecursionRecords.MutualRecursionLeavesTheSubtree` | crates/lightwatch-probe/src/lib.rs:109-128 | a legal call of `g`, called by `f` and calling `f` back, that is not confined: three of its five nanoseconds are outside its subtree |
| `RecordedNames.RecordedIsNamed` | crates/lightwatch-probe/src/calls.rs:166-249 | after any run everything recorded, drained or not, is of a function that could be entered and a context the table holds |
| `Emitters.CollectRegisters` | crates/lightwatch-probe/src/registry.rs:136-182 | the loop builds exactly the new functions, types and contexts, contexts up to the per-frame cap, with the marks to carry on from |
| `Emitters.FrameCeiling` | crates/lightwatch-probe/src/registry.rs:23-27 | a frame is within the cap exactly when its new functions and types are by themselves |
| `Emitters.MarksProgress` | crates/lightwatch-probe/src/registry.rs:136-182 | with the other tables sent, a frame reaches the end of the contexts or takes a full cap of them |
| `Emitters.BuildEvents` | crates/lightwatch-probe/src/emit.rs:114-137 | a tick's events give each drained function and each drained context once, with the drained figures, and after them the censuses as read |
| `Emitters.Emitter.Tick` | crates/lightwatch-probe/src/emit.rs:90-162 | one window: no connection leaves the marks alone, a new one restarts them, a sent frame advances them and a failed one drops the connection |
| `Protocol.PathsLearned` | crates/lightwatch-daemon/src/store.rs:242-263 | registering the next stretch of contexts extends the daemon's prefix and refuses none |
| `ProtocolSafety.StepKeepsTrue` | crates/lightwatch-probe/src/emit.rs:90-162 | every step of the probe's threads, the emitter, the network and the daemon keeps the joint invariant |
| `ProtocolSafety.DaemonKnowsAPrefix` | crates/lightwatch-daemon/src/store.rs:224-264 | after any steps the daemon's functions, types and contexts are the first of the probe's tables, by the probe's names and nodes |
| `ProtocolSafety.NothingNamedIsRefused` | crates/lightwatch-probe/src/registry.rs:128-182 | no frame read has a registration refused; its call events are all believed, their functions named in it or earlier on its connection; a context event is believed exactly when its id is among those known, and unless the cap cut the frame short every context but the root was named in it or earlier on its connection |
| `ProtocolProgress.DaemonCatchesUp` | crates/lightwatch-probe/src/emit.rs:90-162 | once nothing new is interned and the socket takes every frame, one frame and one more per 2048 contexts bring the marks to the ends of the tables, and a reader that has read them on a live connection knows everything |
| `ProtocolProgress.FramesAreNumbered` | crates/lightwatch-probe/src/emit.rs:150-160 | frames are numbered by how many the socket has taken, over all connections |
| `Delivery.DaemonHoldsWhatWasDrained` | crates/lightwatch-probe/src/emit.rs:90-162 | after any steps the daemon's lifetime total of a function's calls or time is what was drained for the frames it has read since it started, clipped once, and its histogram of the function that of those drains; of a context it is what was drained from the frame on that brought its name, and all of it if no frame read was cut short |
| `Delivery.EveryCallIsAccounted` | crates/lightwatch-probe/src/emit.rs:90-162 | the finished outermost calls of a function are those waiting in threads, those drained and not yet offered, those in flight, those the daemon has read and those lost with a tick, a frame, a connection or an earlier daemon; the daemon shows the part it has read |
| `Delivery.EveryDurationIsAccounted` | crates/lightwatch-probe/src/calls.rs:211-249 | bucket by bucket, the same of the calls that took so long from entry to exit, and the daemon's histogram of the function is exactly the part it has read |
| `Delivery.EveryChargeIsAccounted` | crates/lightwatch-probe/src/emit.rs:90-162 | the same of the self time and the calls charged to a context |
| `Ledger.LatestIsGreatest` | crates/lightwatch-daemon/src/store.rs:342-359 | the reading settled on is the one of greatest time, the last arrival on ties, and none exactly if none came |
| `RingModel.Ring.WindowFor` | crates/lightwatch-daemon/src/ring.rs:186-213 | the ring slides to the time's window, or refuses a time older than its oldest; what sliding keeps is `RingModel.SlidKeepsHistory` |
| `RingModel.Ring.FoldAt` | crates/lightwatch-daemon/src/store.rs:398-408 | items are folded into one window and no other changes |
| `RingModel.Ring.Receive` | crates/lightwatch-daemon/src/store.rs:365-375 | a frame's survivors land in the window of their time, or are late |
| `RingModel.SlidShape` | crates/lightwatch-daemon/src/ring.rs:186-213 | sliding keeps the ring contiguous, within capacity and moving forward, and every window is an old one or blank |
| `RingModel.SlidKeepsHistory` | crates/lightwatch-daemon/src/ring.rs:186-213 | a window less than a capacity behind the newest is kept as it was, however long the silence before |
| `RingModel.RingRefinesLog` | crates/lightwatch-daemon/src/ring.rs:186-213 | for any order of frame times every held window equals the fold of all survivors in its span, and the oldest index never goes back |
| `RingHistory.RingsRemember` | crates/lightwatch-daemon/src/ring.rs:186-213 | after any frames, a frame believed in time lies in a held window, fine or coarse, exactly as long as the newest is less than a capacity ahead, and nothing believed is newer than the newest |
| `RingHistory.LateFramesCounted` | crates/lightwatch-daemon/src/store.rs:365-375 | the late counter is the number of frames believed whose fine window was no longer held |
| `Processes.ProcessState.RegisterOne` | crates/lightwatch-daemon/src/store.rs:224-264 | one registration is taken or refused as specified, refusals counted |
| `Processes.ProcessState.CloseOpenWindowBefore` | crates/lightwatch-daemon/src/store.rs:276-289 | the open window moves forward and the one left behind is handed over if held |
| `Processes.ProcessState.AccumulateTotals` | crates/lightwatch-daemon/src/store.rs:293-363 | events of a frame are counted, resolved and added to the totals, and the survivors returned; what they add up to is `FrameTotals.LifetimeFromFrames` |
| `Processes.ProcessState.FoldIntoRings` | crates/lightwatch-daemon/src/store.rs:365-375 | survivors reach both rings, and a fine ring past them counts one late frame |
| `Processes.ProcessState.Apply` | crates/lightwatch-daemon/src/store.rs:199-222 | a whole frame in place is the specified frame step |
| `Processes.ProcessState.FlushOpenWindow` | crates/lightwatch-daemon/src/store.rs:379-388 | the open window is sealed and sent unless it holds nothing |
| `Processes.Registry.Connect` | crates/lightwatch-daemon/src/store.rs:437-455 | a known process resumes its history, an unknown one starts afresh, and the connection is counted |
| `Processes.Registry.Disconnect` | crates/lightwatch-daemon/src/store.rs:457-467 | the last connection's end flushes and ends the process, an earlier one's does not, an unknown id is ignored |
| `StoreInvariant.AdmitKeepsTrue` | crates/lightwatch-daemon/src/store.rs:224-264 | a registration, taken or refused, keeps tree, totals and log in agreement, and changes no known node |
| `StoreInvariant.FrameKeepsTrue` | crates/lightwatch-daemon/src/store.rs:199-375 | a frame keeps every total, reading, histogram and ring window the fold of the log, which grows by exactly the events believed |
| `StoreInvariant.RunKeepsTrue` | crates/lightwatch-daemon/src/store.rs:199-375 | so does any run of frames, and names only grow |
| `RegisterHistory.NamesFromFrames` | crates/lightwatch-daemon/src/store.rs:224-264 | after any frames, a function or type is known exactly if registered, by its last name, and a context exactly if registered once in order, after its function and its caller, as it first was |
| `RegisterHistory.UnknownFromFrames` | crates/lightwatch-daemon/src/store.rs:224-264 | the counter of unknown ids is the number of contexts registered out of order or at odds with an earlier registration, and of events naming nothing known |
| `FrameTotals.LifetimeFromFrames` | crates/lightwatch-daemon/src/store.rs:293-341 | after any frames, a context's calls and self time are the sums of `count` and `self_ns` over the stack events naming it in frames by which it was registered, and a function's calls and time those of its call events, each clipped once |
| `FrameTotals.WindowFromFrames` | crates/lightwatch-daemon/src/store.rs:365-375 | a held window of either ring shows the same sums over the frames whose time lies in it |
| `FrameTotals.HistogramFromFrames` | crates/lightwatch-daemon/src/store.rs:293-311 | a function's histogram has, at each index, the samples its call events carry there |
| `FrameTotals.ReadingFromFrames` | crates/lightwatch-daemon/src/store.rs:342-363 | a type's reading, for life and in every held window, is one census event's own live count, bytes and histogram: one of a greatest time, the last on ties; and there is none exactly if none came |
| `FrameTotals.CountsFromFrames` | crates/lightwatch-daemon/src/store.rs:199-222 | frames, events and refusals are counted exactly |
| `StoreLaws.GraphReadsTheTree` | crates/lightwatch-daemon/src/store.rs:312-341 | an edge is the saturating sum of its contexts' calls, a function's self time that of its contexts, and the edge law holds in every ring window |
| `StoreLaws.NodesNeverChange` | crates/lightwatch-daemon/src/store.rs:242-263 | a registered context keeps its node through any further frames |
| `StoreLaws.CoarseRollsUpFine` | crates/lightwatch-daemon/src/store.rs:365-375 | a held coarse window shows the saturating sum of the ten fine windows inside it while the fine ring holds them |
| `StoreLaws.LatestReadingIsInItsWindows` | crates/lightwatch-daemon/src/ring.rs:99-107 | a type's latest reading is exactly what every held window covering its time shows, and no later window shows one |
| `UpdateStream.StreamPartition` | crates/lightwatch-daemon/src/store.rs:276-289 | pushed windows ascend and are nonempty in any order of times; when times do not go back none is late, every believed event is in one, and their saturating sum is the lifetime total |
| `UpdateStream.FlushPushes` | crates/lightwatch-daemon/src/store.rs:379-388 | a flush sends the open window exactly if the ring holds it, shows exactly what was believed in its time, and never meets an empty one |
| `StreamLimits.PushedIsRight` | crates/lightwatch-daemon/src/store.rs:276-289 | a window shows exactly what was believed in its time at the moment a frame pushes it |
| `StreamLimits.PushedStaysRight` | crates/lightwatch-daemon/src/store.rs:123-126 | it stays so through any run of frames exactly when each event believed in its time names only what it holds and moves no counter, and no type settles on a newer reading |
| `StreamLimits.PushedSurvivesFrame` | crates/lightwatch-daemon/src/store.rs:123-126 | the same of one frame: it falls elsewhere, or its surviving events do so |
| `StreamLimits.APushedWindowCanChange` | crates/lightwatch-daemon/src/store.rs:123-126 | three frames, the last going back in time, after which a pushed window shows one call and the ring two |
| `StreamLimits.ASecondConnectionRepeatsAWindow` | crates/lightwatch-daemon/src/store.rs:379-388 | two connections within one window have it pushed twice |
| `LiveCounters.TypeSlot.FromBytes` | crates/lightwatch-probe/src/census.rs:142-157 | a construction is its two atomic steps in a row, after which live, buckets and bytes again count exactly the tokens there are, this one among them |
| `LiveCounters.TypeSlot.Clone` | crates/lightwatch-probe/src/census.rs:179-190 | so is a clone, its token a second one with its original's bucket; cloning an uncounted token counts nothing |
| `LiveCounters.TypeSlot.Drop` | crates/lightwatch-probe/src/census.rs:167-176 | so is a drop, its token gone |
| `LiveCounters.DropUndoes` | crates/lightwatch-probe/src/census.rs:142-190 | dropping what was just constructed or cloned leaves counters and tokens as they were |
| `LiveCounters.RestIsDecided` | crates/lightwatch-probe/src/census.rs:142-190 | at rest the counters are decided by the tokens there are, however they came to be |
| `LiveCounters.TypeSlot.SizeBuckets` | crates/lightwatch-probe/src/census.rs:100-113 | the nonempty buckets in order |
| `LiveCounters.SparseCarriesAll` | crates/lightwatch-probe/src/census.rs:100-125 | every weighted total of the counters survives the sparse shape |
| `LiveCounters.NextKeepsCounters` | crates/lightwatch-probe/src/census.rs:142-189 | after every atomic step each bucket counts the instances between their add and subtract, so none wraps below zero |
| `LiveCounters.CountersAtRest` | crates/lightwatch-probe/src/census.rs:95-189 | whenever no thread is between its updates, live is the number of counted tokens and the sum of the buckets, each token in the bucket of its construction, and the bytes read off are within 1/32 |
| `Sessions.Runs` | crates/lightwatch-daemon/src/session.rs:143-158 | the sweep splits entries into ascending runs with a gap over the tolerance between them, losing none |
| `Sessions.SameRunIffLinked` | crates/lightwatch-daemon/src/session.rs:143-158 | two entries share a run exactly when a chain of entries with hops within the tolerance links them |
| `Sessions.MakeSession` | crates/lightwatch-daemon/src/session.rs:160-188 | every entry of a run is in a slot or superseded; each feed's slot goes to a connected entry if there is one, then to the latest started, then to the first of the run |
| `Sessions.WinnerIsDecided` | crates/lightwatch-daemon/src/session.rs:186-192 | who wins a slot is of one rank, in whatever order the entries come |
| `Sessions.SessionIdIsSafe` | crates/lightwatch-daemon/src/session.rs:194-202 | an id has only letters, digits, dashes and underscores, whatever the target is called |
| `Sessions.SessionIdsTellApart` | crates/lightwatch-daemon/src/session.rs:194-202 | two sessions go by one id exactly when their targets' names agree once made safe and their pids and earliest starts agree |
| `Sessions.PairSessions` | crates/lightwatch-daemon/src/session.rs:107-122 | every registered process is accounted for exactly once, every session is one run of its target's entries, and the list runs from the newest start, by id among equals |
| `Sessions.ShareSessionIffLinked` | crates/lightwatch-daemon/src/session.rs:107-122 | two registered entries of one target share a session exactly when a chain of its registered entries with hops within the tolerance links them |
| `Ingest.ReadLine` | crates/lightwatch-daemon/src/ingest.rs:171-204 | however the stream is cut into pieces, one read gives what the bytes say: a line, the end, too long or broken |
| `Ingest.SplitRoundTrips` | crates/lightwatch-daemon/src/ingest.rs:171-204 | the newline split loses nothing, and no line holds a newline |
| `Ingest.ReadsAreTheSplit` | crates/lightwatch-daemon/src/ingest.rs:171-204 | repeated reads are the split of the bytes, up to the first line over the limit, which reads as too long |
| `Connections.ServeLines` | crates/lightwatch-daemon/src/ingest.rs:122-154 | the line loop leaves the process as the stream's bytes have it: its frames applied and its unusable lines counted, in order |
| `Connections.StreamIsTheReads` | crates/lightwatch-daemon/src/ingest.rs:122-154 | those lines are what repeated reads yield, and the loop ends with what they end with |
| `Connections.EveryLineIsCounted` | crates/lightwatch-daemon/src/ingest.rs:122-154 | frames applied plus lines skipped are the non-blank lines |
| `Connections.UnusableLinesCostNothing` | crates/lightwatch-daemon/src/ingest.rs:5-8 | after any stream the process is as its frames alone would leave it, but for the count of unusable lines |
| `Connections.Handshake` | crates/lightwatch-daemon/src/ingest.rs:92-120 | the first line decides, by itself, whether a process is joined, and a refusal changes nothing |
| `Connections.HandleConnection` | crates/lightwatch-daemon/src/ingest.rs:82-159 | a frame, an unreadable line, the end, a line too long and a failed read each refuse in their own way, and a hello of any schema but this one as a mismatch, all leaving the registry and every process alone; a hello of this schema enters its process, which ends as its history and this stream have it, flushed if no connection is left |
| `BucketFold.Fold` | crates/lightwatch-daemon/web/buckets.js:22-84 | one bucket per whole number of windows nearest the size asked for, and never none; bucket by bucket in order, what a bucket shows of any quantity is the sum over exactly the windows whose index lies in its range |
| `BucketFold.FoldKeepsTotals` | crates/lightwatch-daemon/web/buckets.js:22-84 | sums over all buckets equal sums over the windows, whatever the bucket size |
| `BucketFold.LastNamingIsLast` | crates/lightwatch-daemon/web/buckets.js:61-82 | the last window naming a type by a bucket's end is what it is called |
| `BucketFold.FoldCarriesCensus` | crates/lightwatch-daemon/web/buckets.js:61-82 | a bucket's reading is that window's, absent exactly if there is none, carried exactly if it lies in an earlier bucket |
| `BucketFold.TotalSelfNs` | crates/lightwatch-daemon/web/buckets.js:86-95 | the total is the bucket's self time over all its contexts |
| `FlameTree.TreeBuilder.Ensure` | crates/lightwatch-daemon/web/flame.js:25-44 | a context and its known callers are in the tree, each child listed once under its parent, nothing else added or changed |
| `FlameTree.TreeBuilder.AddRows` | crates/lightwatch-daemon/web/flame.js:46-51 | the tree holds exactly the known contexts of the rows and their callers, with the rows' figures |
| `FlameTree.TreeBuilder.Measure` | crates/lightwatch-daemon/web/flame.js:55-60 | everything under a node gets the self time under it and its children longest first, and nothing else changes |
| `FlameTree.TreeBuilder.BuildTree` | crates/lightwatch-daemon/web/flame.js:22-66 | the whole tree is measured, its roots are listed once each and in order, and the total is the self time of the rows with known contexts |
| `FlameTree.EachUnderOneRoot` | crates/lightwatch-daemon/web/flame.js:53-53 | every node hangs under exactly one root |
| `FlameTree.TimeDivides` | crates/lightwatch-daemon/web/flame.js:55-60 | a node's inclusive time is its own self time and its children's inclusive times |
| `FlameLayout.Layout.Place` | crates/lightwatch-daemon/web/flame.js:75-84 | a node's boxes are appended, itself first and its children side by side from its left edge |
| `FlameLayout.LayOut` | crates/lightwatch-daemon/web/flame.js:70-92 | the boxes of the roots side by side, scaled to the width; none for an empty tree |
| `FlameLayout.BoxesAreTheTree` | crates/lightwatch-daemon/web/flame.js:70-92 | boxes are as wide as their nodes' share of the time, lie inside the picture and their parents', each where its elder siblings' time ends, never overlap in a row, and draw once each exactly the nodes wide enough to see |

## Left out

- Sockets, HTTP, websockets, tokio, lock objects and broadcast lag: a lock region is
  one atomic step, the update channel is the list of windows sent, and whether a
  connection or a send succeeds is a parameter.
- JSON, serde and UTF-8: frames and hellos are datatypes, and how a line parses is a
  parameter of the line loop.
- Clocks: times are inputs, nondecreasing for a probe run that ends before 2^64
  nanoseconds. Start times, hostnames and wall-clock stamps of a process are not
  modelled.
- Modules and source locations in registers, and how functions and types are interned
  beyond being appended once.
- `crates/lightwatch-probe-macros`: generated guards are taken to be well nested.
- `crates/lightwatch-hotpath`, `api.rs`, `server.rs` and the page's other scripts:
  polling, copying fields, floating-point rates, drawing and a force layout.
- `seq` and `missed_frames`, `last_t_ns` and the other display-only fields of a
  process; ending a process is a flag, not a message on its update stream.
- Truncation of ids to `u32` and the environment's ceiling: ids are natural numbers
  and the ceiling is any number.
- Distribution.ToBuckets: takes a distribution whose samples at one index fit a `u32`,
  because the source adds those counts unchecked.
- StoreInvariant.FrameKeepsTrue: takes frames whose bucket indices are at most
  `MAX_BUCKET` and whose counts per index fit a `u32`; past them the source's arithmetic
  means nothing.
- Samples, counts and self time inside one accumulator are unbounded, where the source
  has `u32` counts and `u64` sums that a run of 2^64 nanoseconds cannot overflow.
- ProtocolSafety.NothingNamedIsRefused: says nothing of census events, whose type may be
  interned after a frame's registers are built.
- LiveCounters.NextKeepsCounters: fewer than 2^32 tokens exist at once.
- LiveCounters.TypeSlot.SizeBuckets: reads the counters at one moment, where the source
  loads them one by one; the constructor's default size is a parameter.
- BucketFold.Fold: says nothing of a bucket's start and end times, which are its key and
  the next one times the bucket's length.
- Delivery.EveryDurationIsAccounted: is about histograms; what a function's duration total
  adds up is in `Delivery.DaemonHoldsWhatWasDrained`, and how far midpoints may move it in
  `Distribution.MidpointBound`.
- Hash maps are mathematical maps, so no order of iteration is claimed; a drawn node's
  siblings of equal time keep the order they were added in.
- Cumulative counters inside maps are values, not objects updated in place.
- Finding one session by its id.
- Connections.ServeLines: takes a parser whose frames have bucket indices and counts the
  store can fold, as `StoreInvariant.FrameKeepsTrue` does.
- Numbers in the page's scripts are exact, where JavaScript has doubles.
- Labels, colours and hit testing of flame boxes.
