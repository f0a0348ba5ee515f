# Verification model of the SPSC handoff primitives

The repository is a set of fixed-size, single-producer single-consumer handoff primitives: an
overwrite ring with a seqlock read (`SeqRing`), a backpressured queue (`EventBuf`), a newest-value
channel (`LatestBuf`), a saturating counter (`CountedSignal`), a block assembler (`BlockBuilder`),
a single-owner ring (`RingBuf`) and a loop that moves items between ends (`forward`). This project
models their algorithms and proves the guarantees their documentation states, or finds exactly
where a guarantee stops.

The primitives are hard in three places, and the project is organised by them.

**Step-level concurrency.** Four state machines, in which each atomic access, and each access to
shared memory that is not atomic, is one step; theorems hold in every run.

- `SeqRingCore`, `SeqRingPoll`, `SeqRingRuns`: producer and consumer of a `SeqRing` with the
  payload copied word by word, in any order of words, under interleaving semantics. `SeqRingCore`
  has the producer and the copy of one read, `SeqRingPoll` whole `poll_up_to` calls with their
  invariant, `SeqRingRuns` the theorems, `SeqRingWrapRuns` those about the sequence wrap.
- `EventBufViews`, `EventBufLimits`: `EventBuf` on a release/acquire view machine. `head` and
  `tail` are append-only histories of messages that carry views, each thread has a view, and a
  Relaxed or Acquire load may read any message its view does not forbid. Any number of threads may call `len` or compete
  for the roles. The orderings are those of C11, sections 5.1.2.4, 7.17.3 and 7.17.4 of ISO/IEC
  9899:2011.
- `LatestBufSteps`: `LatestBuf` with every access to the exchange word, the role flags, the payload
  slots and the role-state cells, and vector clocks deciding what happens before what.
- `CountedSignal`: a modification-order history in which the first, Relaxed load of `increment`
  may return any coherent old value while every read-modify-write reads the newest.

**Modular counters.** `SeqArith` has the words: sequences that skip 0 (period 2^32 - 1) and
positions that do not (period 2^32), each refined to an unbounded ordinal, and one lemma,
`SlotCollision`, on when two ordinals share a slot. `SeqRingWrap` uses it for how much a `SeqRing`
loses at a wrap, `EventBuf` for when the queue is a queue at all.

**Objects updated in place.** `SeqRing`, `EventBuf`, `LatestBuf`, `CountedSignal`, `Block` and
`Ring` each have a class with the source's fields and arrays, every method proved against an
abstract value; `Forward` has the two loops. `SeqRing.Ring` is tied to the step machine: its
abstract state is the machine's, and `PushInner` has exactly the effect of an uninterrupted run of
the machine's steps; `SeqRingSolo` shows the same of a poll, `SoloCalls` of the other objects.

History that exists for the proofs (push ordinals, slot owners, outcome logs, access numbers) is
ghost state in the classes. In the machines it is ordinary state that no step's guard or program
variable depends on; `SeqRingTraces`, `EventBufTraces`, `LatestBufTraces` and `CountedSignal` tie it
to the steps taken, so that their theorems speak of what was called and returned, and show that no
call can be blocked. `StaleLoads` and `EventBufLimits` have runs in which loads really are stale.

## Where the code and its documentation differ

The model follows the code.

- `src/seq_ring.rs:106-112` tabulates the entries lost once per wrap. Let r = (2^32 - 1) mod N. Over
  each wrap exactly r entries lose their slot while still among the newest N
  (`SeqRingWrap.EarlyLossPerWrap`); a consumer misses at most those, in any run
  (`SeqRingWrapRuns.EarlyMissesBounded`), and one call that starts exactly N behind can miss all of
  them (`SeqRingWrapRuns.EarlyMissesAttained`). So "exactly 1" for a power of two (line 110) and "one
  lost entry per `2^32` pushes" (lines 124-125) hold only for N = 2: it is up to N - 1
  (`SeqRingWrap.PowerOfTwoLoss`).
  What never exceeds min(r, N - r), which is 1 for a power of two, is how many are missing from the
  newest N at any one time (`SeqRingWrap.WrapLossBound`). Of the examples on line 112, 15 for N = 48
  and 58 for N = 121 are right in both senses; 33 for N = 96 holds at one time, over a wrap it is 63
  (`SeqRingWrap.DocumentedRows`). The general "up to N - 1" is right over a wrap, even counting what
  jumps pass over (`SeqRingWrapRuns.EarlyLossesBounded`).
- `src/seq_ring.rs:121-122` says what the lag-recovery jump passes over is bounded by that table. It
  is not: the jump passes over an entry of the newest N that still owns its slot exactly when the
  newest sequence is below N - r (`SeqRingWrap.JumpPassesLiveIff`), so also for the divisors of
  2^32 - 1 listed as losing nothing. A drain after a jump misses up to min(r + 1, N - r) of the newest
  N (`SeqRingWrap.DrainLossBounded`), and does so on a real ring (`SeqRing.WorstDrain`).
- `src/seq_ring.rs:127-128` says `EventBuf` has no wrap boundary of this kind. It addresses slots by
  the wrapped `u32` position, so it is a FIFO queue for all call sequences if and only if N divides
  2^32 and is below it (`EventBuf.FifoIff`); otherwise it is one for the first 2^32 accepted pushes
  (`EventBuf.FifoWhileFits`), and a capacity that does not divide 2^32 returns a wrong item on a
  concrete call sequence (`EventBuf.WrapBreaksFifo`).
- `src/event_buf.rs:23-25` says the two sides never touch the same slot, so that slots are free of
  data races. For 0 < N < 2^32 that holds in all runs if and only if N divides 2^32
  (`EventBufLimits.SlotsNeverRaceIff`), otherwise until positions wrap
  (`EventBufViews.AccessesAreOrdered`): then a reachable state has the producer about to write the
  slot the consumer is about to read (`EventBufLimits.SlotsRace`).
- `src/event_buf.rs:163-165` says `len` never spuriously exceeds the capacity. That holds when
  fewer than 2^32 pops fall between its two tail samples (`EventBufViews.LenNeverExceedsCapacity`).
  With 2^32 pops in between the samples agree again, and for every N below 2^32 - 1 some run then
  makes `len` return 2^32 - 1 (`EventBufLimits.LenCanExceedCapacity`).
- The whole-span limits `src/seq_ring.rs:132-155` describes are confirmed: a whole-span gap reports
  nothing (`SeqRingRuns.NothingNewIff`), and a whole-span stall inside a copy accepts a mixed value
  (`SeqRingRuns.WholeSpanStallTears`).

## Model

| member | source | states |
|---|---|---|
| SeqArith.NextAfterIsSuccessor | src/seq_ring.rs:396-405 | Advancing the cursor word advances the ordinal by one, also from the two different words, 0 and 2^32-1, that both mean "next is 1" |
| SeqArith.SameSequence | src/seq_ring.rs:369-379 | Two ordinals carry the same sequence if and only if they are whole spans apart |
| SeqArith.DistanceOfOrdinals | src/seq_ring.rs:407-417 | For every pair of ordinals, what the distance of their words is, including the cursor word 0 |
| SeqArith.DistanceExactIff | src/seq_ring.rs:407-417 | `seq_distance` is the ordinal difference if and only if that is below one span (or exactly one from the word 0) |
| SeqArith.SlotCollision | src/seq_ring.rs:321-323 | For any modulus and window, two ordinals less than N apart share a slot if and only if a counter wrap lies between them and they are (modulus mod N) apart |
| SeqArith.SlotReuse | src/seq_ring.rs:321-323 | A later push to the same slot is at least N later, or exactly (2^32-1) mod N later across a wrap |
| SeqArith.JumpWords | src/seq_ring.rs:612-621 | The lag-recovery jump is additive: skipped plus remaining is the lag; it leaves a distance of N, or N-1 exactly when the newest sequence is below N |
| SeqArith.JumpOrdinal | src/seq_ring.rs:612-621 | The word the jump leaves, 0 included, stands for the ordinal that far behind the goal |
| SeqRingCore.PushStepKeepsInv | src/seq_ring.rs:369-394 | Every single step of `push_inner`, including each payload word, keeps the relation between counters, slot stamps, slot owners and pushed values, and no counter moves back |
| SeqRingCore.AcceptedCopyIsTheValue | src/seq_ring.rs:420-457 | Both checks passed: the copy is the whole value pushed under that ordinal, or the push one span later has already stamped its slot |
| SeqRingCore.MissIsAnOverwrite | src/seq_ring.rs:420-457 | A failed check on a published ordinal names a begun push that took its slot, at least N later or (2^32-1) mod N later across a wrap |
| SeqRingCore.AnyInterleavingReadsTheValue | src/seq_ring.rs:369-457 | Both of these after any interleaving of producer steps with a word-by-word copy, from any state the producer can reach |
| SeqRingCore.SoloPushSteps | src/seq_ring.rs:369-394 | A push run without interruption reaches the closed form used for the object |
| SeqRingCore.SoloPushKeepsInv | src/seq_ring.rs:369-394 | That closed form keeps the invariant and stamps the next ordinal's sequence |
| SeqRingPoll.EntryShape | src/seq_ring.rs:597-621 | On entry a poll passes only whole spans unseen, jumps to N or N-1 behind the goal it froze when the lag exceeds N, and counts exactly what it jumped |
| SeqRingPoll.StepKeepsInv | src/seq_ring.rs:354-697 | Every producer or consumer step, including consumer hand-over, counter reset and skip, keeps the invariant of log, cursor, counts and call in progress |
| SeqRingPoll.RunKeepsInv | src/seq_ring.rs:354-697 | That invariant in every reachable state |
| SeqRingRuns.Accounting | src/seq_ring.rs:587-656 | With no assumption on timing: cursor advance = read + dropped + silent ordinals, the silent ones a multiple of 2^32-1, and the drop counter is min(total since reset, `usize::MAX`) |
| SeqRingRuns.DeliveredOrDropped | src/seq_ring.rs:571-656 | From any point a history begins (start, new handle or skip, whatever came before), while the consumer stays within a span: every ordinal passed is delivered with its pushed value or counted dropped, exactly once; deliveries strictly increase; read + dropped equals the advance; each dropped ordinal was jumped over, at least N (N-1 if the goal's sequence is below N) behind the goal, or lost its slot to a named later push |
| SeqRingRuns.CadenceSuffices | src/seq_ring.rs:157-169 | The documented cadence suffices: if fewer than 2^32-1-(N-1) pushes begin between one nonzero poll's sample and the next (2^32-2 after a skip), the consumer stays within a span in every state, strictly within between calls |
| SeqRingRuns.CallCountsDoNotSaturate | src/seq_ring.rs:612-649 | No call's own counts saturate, even with a 32-bit `usize` |
| SeqRingRuns.LoopMeasure | src/seq_ring.rs:623-642 | The word distance to the frozen goal is the ordinal distance, positive in the loop, and with the rounds done never more than N: it ends the loop within N rounds |
| SeqRingRuns.CallEndsNear | src/seq_ring.rs:597-656 | A poll that found news ends exactly when it has reached its entry sample or delivered its budget, whatever it jumped over or missed; that is at most N-1 behind the sample, and its stats add up to its advance |
| SeqRingRuns.CallHooks | src/seq_ring.rs:587-656 | A call makes as many hook calls as its returned stats count as read |
| SeqRingRuns.QuietCallDropsNothing | src/seq_ring.rs:628-642 | With an entry lag of at most N, and no begun push on the slot of an ordinal the call passed, its returned stats have zero drops and read everything it passed, down to its goal or budget |
| SeqRingRuns.QuietSoFar | src/seq_ring.rs:628-642 | The same in the middle of a call |
| SeqRingRuns.NothingNewIff | src/seq_ring.rs:597-605 | A nonzero poll takes the nothing-new return if and only if the cursor is whole spans (possibly none) behind and not the fresh word 0 |
| SeqRingRuns.PushReturns | src/seq_ring.rs:369-394 | The k-th push returns the k-th sequence, never 0, and publishes it |
| SeqRingTraces.PollsAddUp | src/seq_ring.rs:587-656 | From the steps of any run alone: the ordinals are the pushes begun, in order; every poll since the history began has returned exactly once or is in progress; returned reads and drops sum to the advance less whole spans, reads to the hook calls; the drop counter is the drops returned since it was cleared, saturated |
| SeqRingTraces.HistoryGrows | src/seq_ring.rs:587-697 | Only a new handle or a skip starts a new history; no other step forgets, moves the cursor back or retracts a hook call |
| SeqRingTraces.HandleIsFresh | src/seq_ring.rs:350-361 | A new handle has cursor word 0 and drop counter 0 whatever the last one had, at the start of the newest entry's cycle |
| SeqRingTraces.SkipLeavesOne | src/seq_ring.rs:692-697 | A skip leaves the cursor exactly one behind the newest entry, and changes nothing if there is none |
| SeqRingTraces.ResetClearsCount | src/seq_ring.rs:541-543 | A reset clears the drop counter and nothing else |
| SeqRingTraces.PollIsWaitFree | src/seq_ring.rs:623-656 | After its entry a poll takes at most N * (words + 2) steps of its own, each bringing its end nearer, and the producer never moves it |
| SeqRingTraces.PollCanGoOn | src/seq_ring.rs:420-457 | It always has a step to take |
| SeqRingTraces.PushIsWaitFree | src/seq_ring.rs:369-394 | A push takes at most words + 5 steps, whatever the consumer does |
| SeqRingTraces.PushCanGoOn | src/seq_ring.rs:369-394 | It always has a step to take |
| SeqRingSolo.PollIsCall | src/seq_ring.rs:587-656 | With no push in between, the step machine's poll makes the hook calls and returns the stats of the object's, from any state |
| SeqRingRuns.WholeSpanStallTears | src/seq_ring.rs:145-151 | For every capacity, a run in which a consumer stalled inside a copy for one span delivers a value never pushed |
| SeqRingWrap.OwnsIff | src/seq_ring.rs:369-394 | With no push in flight, a slot still belongs to an ordinal if and only if no later push went there |
| SeqRingWrap.LostInterval | src/seq_ring.rs:100-104 | The ordinals among the newest N that have lost their slot are exactly one interval next to the wrap |
| SeqRingWrap.WrapLossBound | src/seq_ring.rs:100-104 | At any one time at most min(r, N-r) of the newest N have lost their slot, r = (2^32-1) mod N, so at most half of N |
| SeqRingWrap.WrapLossAttained | src/seq_ring.rs:100-104 | That many are missing at one time after every full cycle |
| SeqRingWrap.LosesEarlyIff | src/seq_ring.rs:100-108 | An ordinal loses its slot while still among the newest N if and only if it is one of the last r of its cycle |
| SeqRingWrap.EarlyLossPerWrap | src/seq_ring.rs:106-112 | So exactly r entries per wrap do |
| SeqRingWrapRuns.EarlyMissesBounded | src/seq_ring.rs:106-119 | In every run, the entries of a cycle a consumer missed because a push less than N later took the slot are among those, so at most r per wrap |
| SeqRingWrapRuns.EarlyLossesBounded | src/seq_ring.rs:106-122 | In every run, with those a jump passed over although the goal was less than N ahead, at most N-1 per wrap |
| SeqRingWrapRuns.EarlyMissesAttained | src/seq_ring.rs:106-119 | For every N below 2^32-1 with r > 0, a run in which one call that began exactly N behind misses all r, each while still among the newest N |
| SeqRingWrap.SeamlessIff | src/seq_ring.rs:111 | None of the newest N ever loses its slot if and only if N divides 2^32-1 |
| SeqRingWrap.PowerOfTwoLoss | src/seq_ring.rs:110 | For a power of two above 1: over each wrap N-1 entries lose their slot early, though never more than one is missing at a time, and one is |
| SeqRingWrap.DocumentedRows | src/seq_ring.rs:111-112 | For 48, 96, 121 and the documented divisors: the early losses of each wrap (15, 63, 58, 0), the most missing at one time (15, 33, 58, 0), the most a drain that jumps misses (16, 33, 59, 1) |
| SeqRingWrap.JumpPassesLiveIff | src/seq_ring.rs:121-122 | The jump passes over one of the newest N that still owns its slot if and only if the newest sequence is below N - r |
| SeqRingWrap.DrainLossBounded | src/seq_ring.rs:121-122 | A poll that jumps and drains to its goal misses at most min(r+1, N-r) of the newest N, none for N = 1; more than the slots lose exactly when 1 < N and r < N - r |
| SeqRingWrap.DrainLossAttained | src/seq_ring.rs:121-122 | That bound is reached after every full cycle by a consumer N+1 behind, for every N above 1 that leaves room for one (N below 2^32-2) |
| SeqRingWrap.JumpSeamlessIff | src/seq_ring.rs:111-122 | Every poll that jumps can deliver all of the newest N if and only if N is 1 or at least 2^32-2: dividing 2^32-1 is not enough |
| SeqRing.FullDrainLoss | src/seq_ring.rs:597-642 | What a poll that drains to its goal delivers, for every lag: up to N, all but the lost slots; beyond, exactly `DrainLoss` fewer than N, so at least N - min(r+1, N-r) |
| SeqRing.KeptCount | src/seq_ring.rs:628-642 | Entries kept and entries lost in a drained range add up to it |
| SeqRing.NewestIsKept | src/seq_ring.rs:663-674 | The newest entry is never lost |
| SeqRing.EntryJump | src/seq_ring.rs:597-621 | The entry arithmetic of the object's poll, from words to ordinals |
| SeqRing.Ring.constructor | src/seq_ring.rs:283-293 | A new ring is valid and empty |
| SeqRing.Ring.TryProducer | src/seq_ring.rs:332-342 | Succeeds if and only if the role is free; the ring is untouched |
| SeqRing.Ring.DropProducer | src/seq_ring.rs:503-507 | Frees the role and nothing else |
| SeqRing.Ring.TryConsumer | src/seq_ring.rs:350-361 | Gives a handle if and only if the role is free, and the handle is fresh |
| SeqRing.Ring.DropConsumer | src/seq_ring.rs:700-704 | Frees the role and nothing else |
| SeqRing.Ring.PushInner | src/seq_ring.rs:369-394 | The in-place push has exactly the effect of the machine's uninterrupted steps and returns the ordinal's sequence |
| SeqRing.Ring.ReadSeqInner | src/seq_ring.rs:420-457 | Between pushes a read of any ordinal within a span succeeds if and only if no later push took its slot, and returns its value |
| SeqRing.Ring.Latest | src/seq_ring.rs:663-674 | Returns the last pushed value with its sequence, nothing if none |
| SeqRing.Consumer.constructor | src/seq_ring.rs:350-361 | A new handle starts at cursor 0 |
| SeqRing.Consumer.PollUpTo | src/seq_ring.rs:587-656 | Without news nothing changes; with news it delivers exactly the kept entries after the jump, in order, stopping at max or at the goal; drops are the rest of the lag passed; cursor word and drop counter are exact |
| SeqRing.WorstDrain | src/seq_ring.rs:121-122 | On the object, for every N from 2 to 2^32-3: pushes, a skip and one poll that jumps, with nobody pushing meanwhile, deliver min(r+1, N-r) fewer than N |
| SeqRing.DrainsOne | src/seq_ring.rs:628-642 | With a budget of one a drain delivers exactly one entry, the first kept one |
| SeqRing.Consumer.DrainLoop | src/seq_ring.rs:623-642 | The loop alone: kept entries of the ordinals passed, drop count for the others |
| SeqRing.Consumer.PollOneValue | src/seq_ring.rs:565-569 | Between pushes it delivers if and only if there is news, the first kept entry after the jump, and counts every other ordinal passed as dropped |
| SeqRing.Consumer.SkipToLatest | src/seq_ring.rs:692-697 | Leaves the cursor exactly one behind the newest and the drop counter alone |
| SeqRing.Consumer.ResetDropped | src/seq_ring.rs:541-543 | The drop counter becomes 0 |
| SeqArith.WordsOfPositions | src/event_buf.rs:284-289 | Wrapped cursor words of positions less than 2^32 apart give back their difference and are equal only if the positions are |
| SeqArith.LiveCollision | src/event_buf.rs:151-153 | Two live positions share a slot if and only if they straddle the 2^32 wrap and are (2^32 mod N) apart |
| SeqArith.ApartSlots | src/event_buf.rs:151-153 | So never if N divides 2^32, or before any position has wrapped |
| EventBuf.CallKeepsCursors | src/event_buf.rs:284-356 | Every call keeps the cursor words equal to the queue's positions; accept and reject, empty and not, are always right, whatever N divides |
| EventBuf.CallKeepsContents | src/event_buf.rs:284-356 | While the positions fit, every call also keeps the slots equal to the queue and gives the queue's reply |
| EventBuf.FifoWhileFits | src/event_buf.rs:284-356 | Every reply of every call sequence is a bounded FIFO queue's, if N divides 2^32 or at most 2^32 pushes are accepted |
| EventBuf.WrapBreaksFifo | src/event_buf.rs:284-296 | For every N below 2^32 that does not divide it, a call sequence whose next `pop` returns a wrong item |
| EventBuf.FifoIff | src/event_buf.rs:151-356 | All call sequences behave as the queue if and only if N is below 2^32 and divides it |
| EventBuf.EventBuffer.constructor | src/event_buf.rs:121-132 | A new buffer is the empty queue |
| EventBuf.EventBuffer.TryProducer | src/event_buf.rs:225-234 | Succeeds if and only if the role is free; the queue is untouched |
| EventBuf.EventBuffer.DropProducer | src/event_buf.rs:299-303 | Frees the role and nothing else |
| EventBuf.EventBuffer.TryConsumer | src/event_buf.rs:243-252 | Succeeds if and only if the role is free; the queue is untouched |
| EventBuf.EventBuffer.DropConsumer | src/event_buf.rs:377-381 | Frees the role and nothing else |
| EventBuf.EventBuffer.Push | src/event_buf.rs:284-296 | Rejects if and only if N items wait, handing the value back and changing nothing; otherwise appends; on the words exactly what the queue model computes |
| EventBuf.EventBuffer.Pop | src/event_buf.rs:326-338 | Removes and returns the oldest item; nothing if and only if the queue is empty; past the wrap, exactly what the words hold |
| EventBuf.EventBuffer.Peek | src/event_buf.rs:345-356 | Returns the oldest item without removing it |
| EventBuf.EventBuffer.Drain | src/event_buf.rs:362-374 | Hands over the oldest min(max, length) items in order and keeps the rest |
| EventBufViews.FullTest | src/event_buf.rs:284-289 | With a tail that may be old, the wrapped full test is right about it, so it never admits a push into a full buffer |
| EventBufViews.EmptyTest | src/event_buf.rs:326-331 | With a head that may be old, the empty test is right about it, so it never reads ahead of a write |
| EventBufViews.StepKeepsCursorInv | src/event_buf.rs:170-378 | Every step of producer, consumer, `len` and role hand-over keeps the view invariant |
| EventBufViews.RunKeepsCursorInv | src/event_buf.rs:170-378 | That invariant in every reachable state, for any number of threads |
| EventBufViews.BracketIsReal | src/event_buf.rs:187-196 | A successful bracket with fewer than 2^32 pops inside returns H - t for real positions, within 0..N: the upper bound through the fence, the lower by the Acquire tail load |
| EventBufViews.ClampIsReal | src/event_buf.rs:199-204 | The fallback reads a head not before its tail and returns their difference clamped to N |
| EventBufViews.LenNeverExceedsCapacity | src/event_buf.rs:159-204 | In every run `len` returns 0..N, given fewer than 2^32 pops between the two tail samples |
| EventBufLimits.LenCanExceedCapacity | src/event_buf.rs:187-196 | For every N below 2^32-1, a run whose bracket succeeds and returns 2^32-1 |
| EventBufLimits.LenWithinCapacityIff | src/event_buf.rs:159-204 | Without counting pops, `len` stays within N in every run if and only if N is 2^32-1 (N below 2^32) |
| EventBufLimits.FenceIsNeeded | src/event_buf.rs:171-190 | For every N below 2^32-1, a run in which, between the head load and the fence, the thread may still read the tail it started from although the head is more than N beyond; the fence rules that out |
| EventBufLimits.StaleTailRejects | src/event_buf.rs:284-291 | For every N, a run in which a push is rejected by a tail it last saw although an item has been popped since, and accepted if it loads the newer one |
| EventBufViews.WriteHappensAfter | src/event_buf.rs:284-296 | A slot write happens after every read and write the slot has seen, while positions fit |
| EventBufViews.ReadHappensAfter | src/event_buf.rs:326-338 | A slot read happens after the write of the position it reads, and finds that position's value |
| EventBufViews.AccessesAreOrdered | src/event_buf.rs:284-338 | Both, in every run whose positions fit: no two conflicting slot accesses are concurrent; the exact capacities are `SlotsNeverRaceIff` |
| EventBufLimits.SlotsRace | src/event_buf.rs:23-25 | For every N below 2^32 that does not divide it, a reachable state with head at 2^32 in which one thread's next step writes the slot the other's next step reads |
| EventBufLimits.SlotsNeverRaceIff | src/event_buf.rs:23-25 | All slot accesses of all runs are ordered if and only if N divides 2^32 |
| EventBufViews.RunKeepsSlots | src/event_buf.rs:284-338 | The slot invariant behind it in every such run |
| EventBufViews.PoppedIsAPrefix | src/event_buf.rs:284-338 | In every such run the popped values are a prefix of the accepted pushes, at most N behind |
| EventBufTraces.PopsFollowPushes | src/event_buf.rs:284-338 | The same from the steps alone: what was popped are the first of the values the pushes wrote, one for each pop that stored its tail |
| EventBufTraces.ProducerGranted | src/event_buf.rs:225-234 | The role is granted exactly if free, to the thread that asked, with all the last holder knew; nothing else changes |
| EventBufTraces.ConsumerGranted | src/event_buf.rs:243-252 | The same for the consumer |
| EventBufTraces.RolesFreed | src/event_buf.rs:299-381 | Dropping a handle frees the role and leaves what its holder knew |
| EventBufTraces.PushIsWaitFree | src/event_buf.rs:284-296 | A push always has a next step, ends within four, and nobody else moves it |
| EventBufTraces.PopIsWaitFree | src/event_buf.rs:326-356 | So does a pop or peek |
| EventBufTraces.LenEndsIff | src/event_buf.rs:186-204 | A call of `len` ends exactly at a recheck with equal samples or at the fallback; a failed recheck goes on to the next attempt |
| EventBufTraces.LenIsWaitFree | src/event_buf.rs:167-204 | `len` never blocks: two brackets, then the fallback, at most ten steps whatever the others do, and always a next one |
| EventBufTraces.RoundsNeverPass | src/event_buf.rs:186-196 | In no run does a call make more than two attempts |
| EventBufTraces.RelaxedLoadsLearnLittle | src/event_buf.rs:14-25 | A Relaxed load teaches a thread only how new the message was |
| EventBufTraces.AcquireLoadsLearn | src/event_buf.rs:14-25 | An Acquire load teaches it all the message carries |
| LatestBufSteps.StepKeepsInv | src/latest_buf.rs:237-505 | Every step of `publish`, `take_latest` and role hand-over keeps slot ownership, message, count and result invariants |
| LatestBufSteps.RunKeepsInv | src/latest_buf.rs:237-505 | That invariant in every reachable state |
| LatestBufSteps.SlotsAlwaysPermuted | src/latest_buf.rs:357-505 | After every step the producer's, exchange's and consumer's slots are {0, 1, 2}, and each side writes or reads only its own |
| LatestBufSteps.AccessesAreOrdered | src/latest_buf.rs:357-505 | By vector clocks, every slot or state-cell access happens after all conflicting ones, across role hand-over too |
| LatestBufSteps.EmptyPollChangesNothing | src/latest_buf.rs:456-458 | A false ready load changes nothing but the thread's view, and a publication it missed stays pending, whole |
| LatestBufSteps.SwapFindsReady | src/latest_buf.rs:460-482 | After a true load, however old, the swap finds the ready bit and claims the newest publication |
| LatestBufSteps.NoEmptySwap | src/latest_buf.rs:480-482 | So the second `None` branch is never taken in any run |
| LatestBufSteps.TakenIsPublished | src/latest_buf.rs:484-504 | Every taken value is the one published under its generation, claims strictly increase, `skipped` is the modular count since the previous take |
| LatestBufSteps.ReportsCountTheLost | src/latest_buf.rs:357-393 | True `replaced_unread` reports = published - taken - (1 if one is pending), and each returned report carries its own generation |
| LatestBufSteps.SkippedEqualsReported | src/latest_buf.rs:492-498 | Within a span, a take's `skipped` is the number of true reports among the publications since the previous take |
| LatestBufSteps.SkippedIs | src/latest_buf.rs:304-316 | The code's generation distance gives the stated modular formula, with and without a previous take |
| LatestBufSteps.SkippedExactIff | src/latest_buf.rs:492-498 | `skipped` is the true number if and only if the gap is below one span (or one span from the start); it is 0 at whole spans |
| LatestBufTraces.IsAtomicCell | src/latest_buf.rs:357-505 | In every run the channel is an atomic newest-value cell, put at the publisher's swap and claimed at the taker's, both read off the steps alone: every report and every taken item is the cell's |
| LatestBufTraces.ProducerGranted | src/latest_buf.rs:237-246 | The role is granted exactly if free, to the thread that asked, with all the last holder knew; nothing else changes |
| LatestBufTraces.ConsumerGranted | src/latest_buf.rs:257-266 | The same for the consumer |
| LatestBufTraces.RolesFreed | src/latest_buf.rs:395-511 | Dropping a handle frees the role and leaves what its holder knew |
| LatestBufTraces.PublishIsWaitFree | src/latest_buf.rs:357-393 | A publish is four steps, each enabled after the one before, and nobody else moves it |
| LatestBufTraces.TakeIsWaitFree | src/latest_buf.rs:450-505 | A take is one step if its load finds nothing ready and six if it does, however old the load |
| StaleLoads.StalePollMisses | src/latest_buf.rs:450-458 | A run in which a finished publication may be missed by a poll whose load is stale, or found |
| LatestBuf.CodecsInvert | src/latest_buf.rs:269-301 | The exchange encoding gives back slot and ready bit; the XOR slot codecs are involutions |
| LatestBuf.ZeroIsInitial | src/latest_buf.rs:187-201 | An all-zero channel decodes to slots 0, 1, 2 and nothing ready |
| LatestBuf.Channel.constructor | src/latest_buf.rs:187-201 | A new channel is valid with nothing published or taken |
| LatestBuf.Channel.TryProducer | src/latest_buf.rs:237-246 | Succeeds if and only if the role is free; the channel is untouched |
| LatestBuf.Channel.DropProducer | src/latest_buf.rs:395-399 | Frees the role and nothing else |
| LatestBuf.Channel.TryConsumer | src/latest_buf.rs:257-266 | Succeeds if and only if the role is free; the channel is untouched |
| LatestBuf.Channel.DropConsumer | src/latest_buf.rs:508-512 | Frees the role and nothing else |
| LatestBuf.Channel.Publish | src/latest_buf.rs:357-393 | Always succeeds, with the next generation, and reports whether an unread publication was displaced |
| LatestBuf.Channel.TakeLatest | src/latest_buf.rs:450-505 | Returns the newest unread publication with generation and skip count, or nothing, changing nothing, if none is unread |
| CountedSignal.StepKeepsInv | src/counted_signal.rs:102-240 | Every atomic step keeps count, history and thread views consistent |
| CountedSignal.RunKeepsInv | src/counted_signal.rs:102-240 | That invariant in every reachable state |
| CountedSignal.AddNeverWraps | src/counted_signal.rs:180-195 | `fetch_add` is never applied at `u32::MAX`, though the guarding load may be old |
| CountedSignal.StaleLoadIsSafe | src/counted_signal.rs:180-195 | The reason: a load below the maximum is either the newest value or one a take has since cleared to 0 |
| CountedSignal.TakesAreExact | src/counted_signal.rs:180-235 | In every run every take returns min(increments settled among the steps since the previous take, `u32::MAX`) and clears the counter, which always shows those since the last one |
| CountedSignal.IncrementsAddUp | src/counted_signal.rs:180-235 | The increments begun among the steps are those in the windows of the takes, those since the last, and the one in progress: none is lost or counted twice |
| CountedSignal.IncrementIsShort | src/counted_signal.rs:180-195 | An increment is an add after a load below the maximum; after the maximum a `fetch_or`, and an add only if that no longer found it |
| StaleLoads.StaleMaximumCounts | src/counted_signal.rs:180-235 | A run in which a take clears a full counter, the next increment's load still returns the maximum, and the take after that returns 1 |
| CountedSignal.RolesGranted | src/counted_signal.rs:102-126 | A role is granted exactly if free, to the thread that asked, who sees no less than the last holder; nothing else changes |
| CountedSignal.RolesFreed | src/counted_signal.rs:198-242 | Dropping a handle frees the role and leaves what its holder saw |
| CountedSignal.UnsaturatedTakesLoseNothing | src/counted_signal.rs:259-275 | Takes none of which is saturated add up to the exact number of increments |
| CountedSignal.Signal.constructor | src/counted_signal.rs:51-57 | A new signal has count 0 and free roles |
| CountedSignal.Signal.TryProducer | src/counted_signal.rs:102-111 | Succeeds if and only if the role is free |
| CountedSignal.Signal.DropProducer | src/counted_signal.rs:198-202 | Frees the role and nothing else |
| CountedSignal.Signal.TryConsumer | src/counted_signal.rs:117-126 | Succeeds if and only if the role is free |
| CountedSignal.Signal.DropConsumer | src/counted_signal.rs:238-242 | Frees the role and nothing else |
| CountedSignal.Signal.Increment | src/counted_signal.rs:180-195 | Adds one to the increments counted, saturating the word |
| CountedSignal.Signal.TakeCount | src/counted_signal.rs:233-235 | Returns the saturated number of increments since the last take and starts over |
| Block.NextSequenceIsNextAfter | src/block.rs:293-299 | The block's successor is `SeqRing`'s, for every word |
| Block.NothingIsLost | src/block.rs:200-244 | For every trace: accepted samples are the yielded blocks, cleared partials and current partial in order; every block has N samples with consecutive sequences that skip 0 |
| Block.RejectionChangesNothing | src/block.rs:201-214 | After any trace a rejected push changes nothing; sequence 0 is reported as reserved with its sample, any other with what was expected |
| Block.SuccessorIffWholeSpans | src/block.rs:293-299 | A later sequence passes as the successor if and only if whole spans were missed |
| Block.BlockBuilder.constructor | src/block.rs:185-193 | A new builder is empty |
| Block.BlockBuilder.Push | src/block.rs:200-237 | Sequence 0 is rejected as reserved, a non-successor as discontinuous with what was expected, both changing no field; otherwise the sample is added, and the N-th yields a block of exactly those samples |
| Block.BlockBuilder.Clear | src/block.rs:240-244 | Whatever the partial block was, the builder is empty after |
| Block.BlockBuilder.ExpectedSequence | src/block.rs:267-273 | Names the only sequence the next push accepts; none when any nonzero one would do |
| Ring.IndexIsModular | src/ring.rs:148-155 | The index formed without exceeding N is (head + N - len + i) mod N |
| Ring.IndexAfterPush | src/ring.rs:97-103 | A push puts the new entry last, shifts the others by the one evicted, and overwrites none that stay |
| Ring.LastAppend | src/ring.rs:97-103 | Appending to the last N appends, or evicts the oldest and appends |
| Ring.RingBuf.constructor | src/ring.rs:82-91 | A new ring is empty |
| Ring.RingBuf.Push | src/ring.rs:97-103 | The value is appended to what was pushed since the clear |
| Ring.RingBuf.Clear | src/ring.rs:131-134 | Nothing is left |
| Ring.RingBuf.Get | src/ring.rs:158-166 | The i-th of the last N pushed since the clear, oldest first; nothing beyond |
| Ring.RingBuf.Latest | src/ring.rs:169-182 | The last value pushed since the clear |
| Ring.RingBuf.Collect | src/ring.rs:185-218 | Iteration yields exactly the last N in order |
| Forward.Between | src/traits.rs:109-126 | Between two buffers: old source = moved ++ item handed back in the error ++ what remains; it stops early only on an empty source or a full sink |
| Forward.Around | src/traits.rs:109-126 | From a buffer into itself: rejects nothing and rotates the queue once per item moved |
| Forward.RotatedAt | src/traits.rs:109-126 | Where each item is after k such moves: at its index minus k, modulo the length |
| SoloCalls.PushIsCall | src/event_buf.rs:284-296 | An uninterrupted push of the view machine has the effect and the reply of the object's |
| SoloCalls.PopIsCall | src/event_buf.rs:326-338 | So has a pop |
| SoloCalls.PeekIsCall | src/event_buf.rs:345-356 | So has a peek, which changes nothing |
| SoloCalls.LenIsCount | src/event_buf.rs:170-196 | An uninterrupted `len` by any thread returns, at its first bracket, the number of items pushed and not popped |
| SoloCalls.ValueArrives | src/event_buf.rs:225-338 | From a new buffer two threads can take the roles, and what one pushes the other pops |
| SoloCalls.PublishIsCall | src/latest_buf.rs:357-393 | The four steps of an uninterrupted publish have the effect and the report of the object's |
| SoloCalls.TakeIsCall | src/latest_buf.rs:450-505 | So have those of a take, with or without something ready |
| SoloCalls.LatestArrives | src/latest_buf.rs:237-505 | From a new channel two threads can take the roles, and what one publishes the other takes |
| SoloCalls.IncrementIsCall | src/counted_signal.rs:180-195 | So have those of an increment, at the maximum or below |
| SoloCalls.TakeCountIsCall | src/counted_signal.rs:233-235 | A take is one operation, which returns the count and clears it |

## Left out

- `EventFlags` (`src/event_flags.rs`): one `fetch_or` and one `swap(0)`; its property follows at once from their atomicity.
- Weak-memory claims about `SeqRing` payload bytes: `src/seq_ring.rs:63-70` says the formal claim does not hold; payload theorems are under interleaving semantics.
- Wall-clock and instruction-count claims: loops and steps are bounded, times are not modelled.
- `src/sync.rs`, `build.rs`, `static_spsc!`, `Debug`, const construction, memory layout, `Send`/`Sync` and portable atomics: platform, type-system and linker matters.
- Forged or duplicated handles: one producer and one consumer at a time, as the role flags enforce.
- The concurrent behaviour of the classes: they are the sequential objects; interleavings and weak memory belong to the machines.
- `SeqRing` roles in the machine: its flags are modelled on the object only. A producer hand-over carries no state; a consumer hand-over is one step that restarts the cursor and the history of polls.
- Conservation across `skip_to_latest`: it can move the cursor back by one and redeliver, so counts restart there.
- Hooks: the calls to a hook are modelled as the sequence of its arguments; what a hook does is not.
- The payload of `SeqRing` is a sequence of words; of the other machines one value.
- `is_empty`, `is_full`, `capacity`, `poll_one`, `dropped`, `size_hint`, `ExactSizeIterator` and other one-line wrappers.
- `Sink` and `Source` impls of `SeqRing` and `RingBuf`, and `forward` over them: `Forward` covers `EventBuf` ends only.
- EventBuf.EventBuffer.constructor: requires a capacity below 2^32, which every 32-bit target has; `EventBuf.FifoIff` covers larger ones.
- SeqRingWrapRuns.EarlyMissesBounded: capacities up to 2^32-1, like `SeqRingWrap`; a larger ring has slots no sequence ever uses.
- EventBufViews.RunKeepsCursorInv: capacities below 2^32 only, as for the object.
- SeqRing.Ring.constructor: takes `N > 0` as a precondition, like the other constructors; the source asserts it.
- SeqRing.Consumer.PollUpTo: no producer step falls inside this call; `SeqRingRuns` has the concurrent statement.
- LatestBufSteps.SlotsAlwaysPermuted: the machine's states hold decoded slot numbers; `LatestBuf.CodecsInvert` connects them to the words.
- EventBufViews.LenNeverExceedsCapacity: requires fewer than 2^32 pops inside a bracket; `EventBufLimits.LenWithinCapacityIff` shows when that can be dropped.
