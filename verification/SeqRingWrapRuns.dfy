/** What a wrap of the sequence counter costs a `SeqRing` consumer in a concurrent run. */
module SeqRingWrapRuns {
  import opened Common
  import opened SeqArith
  import opened SeqRingCore
  import opened SeqRingPoll
  import opened SeqRingRuns
  import opened SeqRingWrap

  // ---------------------------------------------------------------- at most r per wrap

  /** The consumer missed ordinal `j` although the push that took its slot was less than n later:
      it lost the entry before it had lagged by n. */
  predicate MissedEarly(k: Handle, j: int, n: nat) {
    k.base < j <= k.base + |k.log| && k.log[j - k.base - 1].Missed? && k.log[j - k.base - 1].taker < j + n
  }

  /** Those of the q-th cycle. */
  function EarlyMisses(k: Handle, q: nat, n: nat): set<int>
    requires 0 < q
  {
    set j: int | (q - 1) * SPAN < j <= q * SPAN && MissedEarly(k, j, n)
  }

  /** In every run: all of them are among the last r = SPAN % n of their cycle, so one wrap costs
      at most r entries. */
  lemma EarlyMissesBounded(run: seq<Sys>, steps: seq<Step>, q: nat)
    requires Run(run, steps) && 0 < q && 0 < |run[|steps|].core.slotSeq| <= SPAN
    ensures var k, n := run[|steps|].cons, |run[|steps|].core.slotSeq|;
            && EarlyMisses(k, q, n) <= Interval(q * SPAN - SPAN % n, q * SPAN)
            && |EarlyMisses(k, q, n)| <= SPAN % n
  {
    RunKeepsInv(run, steps);
    var s := run[|steps|];
    var n := |s.core.slotSeq|;
    var all, some := Interval(q * SPAN - SPAN % n, q * SPAN), EarlyMisses(s.cons, q, n);
    EarlyLossPerWrap(q, n);
    forall j: int | j in some ensures j in all { EarlyMissIsEarly(s, q, j); }
    assert all == some + (all - some) && some * (all - some) == {};
  }

  lemma EarlyMissIsEarly(s: Sys, q: nat, j: int)
    requires Inv(s) && 0 < q && 0 < |s.core.slotSeq| <= SPAN && j in EarlyMisses(s.cons, q, |s.core.slotSeq|)
    ensures j in EarlySet(q, |s.core.slotSeq|)
  {
    hide OwnersInv, SlotsInv, CountersInv, CallInv, CountsInv, DrainInv, SlotOf, Retires;
    var t := j - s.cons.base - 1;
    assert OutcomeHolds(s.core, s.cons.base + t + 1, s.cons.log[t]);
    assert Overwritten(j, s.cons.log[t].taker, |s.core.slotSeq|);
  }

  /** The consumer did not get ordinal `j` although, when it was given up, fewer than n later
      ones were its rivals: missed early, or jumped over with the goal less than n ahead. */
  predicate LostEarly(k: Handle, j: int, n: nat) {
    || MissedEarly(k, j, n)
    || (k.base < j <= k.base + |k.log| && k.log[j - k.base - 1].Jumped? && k.log[j - k.base - 1].goal < j + n)
  }

  function EarlyLosses(k: Handle, q: nat, n: nat): set<int>
    requires 0 < q
  {
    set j: int | (q - 1) * SPAN < j <= q * SPAN && LostEarly(k, j, n)
  }

  /** In every run: misses and jumps together, one wrap never costs more than n - 1 of the
      entries a consumer should still have had, however often it polls around it. */
  lemma EarlyLossesBounded(run: seq<Sys>, steps: seq<Step>, q: nat)
    requires Run(run, steps) && 0 < q && 0 < |run[|steps|].core.slotSeq| <= SPAN
    ensures var k, n := run[|steps|].cons, |run[|steps|].core.slotSeq|;
            && EarlyLosses(k, q, n) <= Interval(q * SPAN - (n - 1), q * SPAN)
            && |EarlyLosses(k, q, n)| <= n - 1
  {
    RunKeepsInv(run, steps);
    var s := run[|steps|];
    var n := |s.core.slotSeq|;
    var all, some := Interval(q * SPAN - (n - 1), q * SPAN), EarlyLosses(s.cons, q, n);
    EarlyLossPerWrap(q, n);
    forall j: int | j in some ensures j in all {
      if MissedEarly(s.cons, j, n) { EarlyMissIsEarly(s, q, j); } else { EarlyJumpIsNear(s, q, j); }
    }
    assert all == some + (all - some) && some * (all - some) == {};
  }

  lemma EarlyJumpIsNear(s: Sys, q: nat, j: int)
    requires Inv(s) && 0 < q && 0 < |s.core.slotSeq| <= SPAN && (q - 1) * SPAN < j <= q * SPAN
    requires LostEarly(s.cons, j, |s.core.slotSeq|) && !MissedEarly(s.cons, j, |s.core.slotSeq|)
    ensures q * SPAN - (|s.core.slotSeq| - 1) < j
  {
    hide OwnersInv, SlotsInv, CountersInv, CallInv, CountsInv, DrainInv, SlotOf, Retires;
    var t := j - s.cons.base - 1;
    var goal := s.cons.log[t].goal;
    assert OutcomeHolds(s.core, s.cons.base + t + 1, s.cons.log[t]);
    InCycle(j, q);
  }

  // ---------------------------------------------------------------- and r are reached

  /** At every slot check of the run, the entry looked for is among the newest n. */
  predicate ChecksNewest(run: seq<Sys>, steps: seq<Step>, n: nat)
    requires |run| == |steps| + 1
  {
    forall t | 0 <= t < |steps| && (steps[t].FirstCheck? || steps[t].SecondCheck?) ::
      |run[t].core.pushed| < run[t].cons.cursor + 1 + n
  }

  lemma PushesKeepChecks(run: seq<Sys>, steps: seq<Step>, run': seq<Sys>, steps': seq<Step>, n: nat)
    requires |run| == |steps| + 1 && |run'| == |steps'| + 1 && OnlyPushes(run, steps, run', steps')
    requires ChecksNewest(run, steps, n)
    ensures ChecksNewest(run', steps', n)
  {
    forall t | 0 <= t < |steps'| && (steps'[t].FirstCheck? || steps'[t].SecondCheck?)
      ensures |run'[t].core.pushed| < run'[t].cons.cursor + 1 + n
    {
      assert t < |steps| && run'[t] == run[t] && steps'[t] == steps[t];
    }
  }

  /** Inside one call that began exactly n behind, with i of the last r ordinals of the first
      cycle missed, each to the push r later, and none delivered. */
  predicate Missing(s: Sys, n: nat, r: nat, i: nat) {
    var k := s.cons;
    && s.core.phase.Idle? && |s.core.slotSeq| == n && 0 < r < n < SPAN && r == SPAN % n && i <= r
    && k.call.Polling? && !k.call.copying && k.call.max == n
    && k.call.start == k.base == SPAN - r && k.call.goal == SPAN - r + n
    && k.call.read == 0 && k.call.dropped == i && k.cursor == SPAN - r + i
    && |k.log| == i && (forall t | 0 <= t < i :: k.log[t] == Missed(SPAN + t + 1))
  }

  /** The last check of the slot of ordinal `j` before it would be overtaken finds the push r later. */
  lemma TakerIs(c: Core, j: nat, r: nat)
    requires CoreInv(c) && c.phase.Idle? && 0 < |c.slotSeq| < SPAN && r == SPAN % |c.slotSeq| && 0 < r
    requires SPAN - r < j <= SPAN && j + r <= |c.pushed| < j + |c.slotSeq|
    ensures var i := IdxFor(SeqOf(j), |c.slotSeq|); c.owner[i] == j + r && c.slotSeq[i] != SeqOf(j)
  {
    var n := |c.slotSeq|;
    SeqOfSlot(j, n);
    InCycle(j, 1);
    InCycle(j + r, 2);
    SlotCollision(j - 1, j + r - 1, SPAN, n);
    var o := c.owner[SlotOf(j, n)];
    assert SlotOf(j + r, n) == SlotOf(j, n);
    assert j + r <= o <= |c.pushed| && SlotOf(o, n) == SlotOf(j, n);
    SlotReuse(j, o, n);
    SameSequence(j, o);
    DivUnique(o - j, SPAN, 0, o - j);
  }

  /** The producer goes on to the push that takes the slot of the next ordinal, if it has not yet. */
  lemma PushNext(run: seq<Sys>, steps: seq<Step>, v: Payload, n: nat, r: nat, i: nat)
    returns (run': seq<Sys>, steps': seq<Step>)
    requires Run(run, steps) && Missing(run[|steps|], n, r, i) && i < r && run[|steps|].core.width == |v|
    requires |run[|steps|].core.pushed| == Max(SPAN - r + n, SPAN + i) && ChecksNewest(run, steps, n)
    ensures Run(run', steps') && Missing(run'[|steps'|], n, r, i) && run'[|steps'|].core.width == |v|
    ensures |run'[|steps'|].core.pushed| == Max(SPAN - r + n, SPAN + i + 1) && ChecksNewest(run', steps', n)
  {
    run', steps' := run, steps;
    if |run[|steps|].core.pushed| < SPAN + i + 1 {
      run', steps' := PushOnce(run, steps, v);
      PushesKeepChecks(run, steps, run', steps', n);
    }
  }

  lemma MissOne(run: seq<Sys>, steps: seq<Step>, v: Payload, n: nat, r: nat, i: nat)
    returns (run': seq<Sys>, steps': seq<Step>)
    requires Run(run, steps) && Missing(run[|steps|], n, r, i) && i < r && run[|steps|].core.width == |v|
    requires |run[|steps|].core.pushed| == Max(SPAN - r + n, SPAN + i) && ChecksNewest(run, steps, n)
    ensures Run(run', steps') && Missing(run'[|steps'|], n, r, i + 1) && run'[|steps'|].core.width == |v|
    ensures |run'[|steps'|].core.pushed| == Max(SPAN - r + n, SPAN + i + 1)
    ensures ChecksNewest(run', steps', n)
  {
    var run1, steps1 := PushNext(run, steps, v, n, r, i);
    RunKeepsInv(run1, steps1);
    CheckMisses(run1[|steps1|], n, r, i);
    hide Missing, Inv, Stepped, Init;
    run', steps' := Extend(run1, steps1, FirstCheck);
  }

  lemma CheckMisses(s: Sys, n: nat, r: nat, i: nat)
    requires Inv(s) && i < r && Missing(s, n, r, i)
    requires |s.core.pushed| == Max(SPAN - r + n, SPAN + i + 1)
    ensures Enabled(s, FirstCheck) && Missing(Stepped(s, FirstCheck), n, r, i + 1)
    ensures |s.core.pushed| < s.cons.cursor + 1 + n && Stepped(s, FirstCheck).core == s.core
  {
    hide OwnersInv, SlotsInv, LogInv, CountsInv, DrainInv;
    var k, j := s.cons, s.cons.cursor + 1;
    NextAfterIsSuccessor(k.lastSeq, k.cursor);
    TakerIs(s.core, j, r);
    SameSequence(j, k.call.goal);
    DivUnique(k.call.goal - j, SPAN, 0, k.call.goal - j);
  }

  lemma {:induction false} MissAll(run: seq<Sys>, steps: seq<Step>, v: Payload, n: nat, r: nat, i: nat)
    returns (run': seq<Sys>, steps': seq<Step>)
    requires Run(run, steps) && Missing(run[|steps|], n, r, i) && run[|steps|].core.width == |v|
    requires |run[|steps|].core.pushed| == Max(SPAN - r + n, SPAN + i) && ChecksNewest(run, steps, n)
    ensures Run(run', steps') && Missing(run'[|steps'|], n, r, r) && ChecksNewest(run', steps', n)
    decreases r - i
  {
    if i == r {
      run', steps' := run, steps;
    } else {
      run', steps' := MissOne(run, steps, v, n, r, i);
      run', steps' := MissAll(run', steps', v, n, r, i + 1);
    }
  }

  /** Between calls, with a new history before the last r ordinals of the first cycle. */
  predicate Waiting(s: Sys, n: nat, r: nat) {
    && s.core.phase.Idle? && |s.core.slotSeq| == n && 0 < r < n < SPAN && r == SPAN % n
    && s.cons.call.NoCall? && s.cons.cursor == s.cons.base == SPAN - r == s.cons.lastSeq as int && s.cons.log == []
  }

  lemma SkipWaits(s: Sys, n: nat, r: nat)
    requires Inv(s) && s.cons.call.NoCall? && s.core.phase.Idle? && |s.core.slotSeq| == n
    requires 0 < r < n < SPAN && r == SPAN % n && |s.core.pushed| == SPAN - r + 1
    ensures Waiting(Stepped(s, SkipToLatest), n, r) && Stepped(s, SkipToLatest).core == s.core
  {
    DivUnique(SPAN - r, SPAN, 0, SPAN - r);
    assert s.core.publishedSeq as int == SPAN - r + 1;
    hide SeqOf, OwnersInv, SlotsInv, CursorInv, LogInv, CountsInv, CallInv, DrainInv;
  }

  lemma EntryMisses(s: Sys, n: nat, r: nat)
    requires Inv(s) && Waiting(s, n, r) && |s.core.pushed| == SPAN - r + n
    ensures Missing(Stepped(s, PollUpTo(n)), n, r, 0) && Stepped(s, PollUpTo(n)).core == s.core
  {
    var c := SPAN - r;
    DistanceExactIff(s.cons.lastSeq, c, c + n);
    SameSequence(c, c + n);
    DivUnique(n, SPAN, 0, n);
    SeqZeroIff(c + n);
    EntryShape(s, n);
  }

  /** A run that has just begun a call exactly n behind, before the last r ordinals of the first
      cycle. */
  lemma BegunBeforeWrap(s0: Sys, v: Payload, n: nat, r: nat) returns (run: seq<Sys>, steps: seq<Step>)
    requires Init(s0) && |s0.core.slotSeq| == n && 0 < r < n < SPAN && r == SPAN % n && s0.core.width == |v|
    ensures Run(run, steps) && Missing(run[|steps|], n, r, 0) && run[|steps|].core.width == |v|
    ensures |run[|steps|].core.pushed| == SPAN - r + n && ChecksNewest(run, steps, n)
  {
    var run1, steps1 := PushMany([s0], [], v, SPAN - r + 1);
    PushesKeepChecks([s0], [], run1, steps1, n);
    RunKeepsInv(run1, steps1);
    SkipWaits(run1[|steps1|], n, r);
    var run2, steps2 := Extend(run1, steps1, SkipToLatest);
    hide Stepped, Inv, Missing, Init;
    run, steps := PushMany(run2, steps2, v, n - 1);
    PushesKeepChecks(run2, steps2, run, steps, n);
    RunKeepsInv(run, steps);
    EntryMisses(run[|steps|], n, r);
    run, steps := Extend(run, steps, PollUpTo(n));
  }

  /** For every capacity below the span: a run in which one call that began exactly n behind
      misses all r = SPAN % n of them, each while still among the newest n. */
  lemma EarlyMissesAttained(s0: Sys) returns (run: seq<Sys>, steps: seq<Step>)
    requires Init(s0) && |s0.core.slotSeq| < SPAN && 0 < SPAN % |s0.core.slotSeq|
    ensures Run(run, steps)
    ensures var s, n := run[|steps|], |s0.core.slotSeq|;
            && |s.core.slotSeq| == n && ChecksNewest(run, steps, n)
            && s.cons.call.Polling? && s.cons.call.goal == s.cons.call.start + n
            && s.cons.call.read == 0 && s.cons.call.dropped == SPAN % n == |EarlyMisses(s.cons, 1, n)|
  {
    var n, v := |s0.core.slotSeq|, seq(s0.core.width, _ => 0);
    var r := SPAN % n;
    run, steps := BegunBeforeWrap(s0, v, n, r);
    run, steps := MissAll(run, steps, v, n, r, 0);
    var k := run[|steps|].cons;
    forall j: int ensures j in EarlyMisses(k, 1, n) <==> j in Interval(SPAN - r, SPAN) {
      if SPAN - r < j <= SPAN { assert k.log[j - k.base - 1] == Missed(j + r); }
    }
    assert EarlyMisses(k, 1, n) == Interval(SPAN - r, SPAN);
  }
}
