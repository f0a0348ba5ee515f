/** What every run of the concurrent `SeqRing` promises, and the one way it can go wrong. */
module SeqRingRuns {
  import opened SeqArith
  import opened SeqRingCore
  import opened SeqRingPoll

  // ---------------------------------------------------------------- accounting

  /** In every run, with no assumption on timing: the ordinals the cursor has passed are the
      items returned as read, the items counted as dropped, and whole spans no `u32` can see,
      each ordinal in exactly one class, and `OutcomeHolds` of every one. */
  lemma Accounting(run: seq<Sys>, steps: seq<Step>)
    requires Run(run, steps)
    ensures var s := run[|steps|];
            && Inv(s)
            && s.cons.cursor - s.cons.base == |s.cons.log|
            && |s.cons.log| == (s.cons.totalRead + PendingRead(s.cons))
                             + (s.cons.totalDropped + PendingDropped(s.cons)) + Silences(s.cons.log)
            && Silences(s.cons.log) % SPAN == 0
            && s.cons.droppedAccum == (if s.cons.dropsSinceReset <= s.usizeMax then s.cons.dropsSinceReset else s.usizeMax)
  {
    RunKeepsInv(run, steps);
    LogAddsUp(run[|steps|].cons.log);
  }

  /** No per-call drop count saturates, even when `usize` has only 32 bits. */
  lemma CallCountsDoNotSaturate(s: Sys)
    requires Inv(s) && s.cons.call.Polling?
    ensures s.cons.call.read + s.cons.call.dropped < SPAN <= s.usizeMax
  {
    var k := s.cons;
    assert k.call.goal <= k.call.start + SPAN && k.cursor < k.call.goal;
  }

  /** The cursor is at most one span behind every stamped push. */
  predicate WithinSpan(s: Sys) {
    Stored(s.core) <= s.cons.cursor + SPAN
  }

  predicate Exact(s: Sys) {
    forall t | 0 <= t < |s.cons.log| ::
      && !s.cons.log[t].Silent?
      && (s.cons.log[t].Read? ==> s.cons.log[t].stored < s.cons.base + t + 1 + SPAN)
  }

  lemma EntryKeepsExact(s: Sys, max: nat)
    requires EntersLoop(s, max) && Shaped(s.core) && Exact(s) && WithinSpan(s)
    ensures Exact(Stepped(s, PollUpTo(max)))
  {
    hide SeqOf, CursorAt, SeqDistance, ResumeAfter;
    EntryShape(s, max);
    var lag := SeqDistance(s.cons.lastSeq, s.core.publishedSeq) as int;
    var silent := Published(s.core) - lag - s.cons.cursor;
    DivUnique(silent, SPAN, 0, silent);
    assert Repeat(Silent(s.cons.cursor, Published(s.core)), 0) == [];
  }

  lemma StepKeepsExact(s: Sys, a: Step)
    requires Shaped(s.core) && CursorInv(s) && CountersInv(s.core) && SPAN <= s.usizeMax
    requires Enabled(s, a) && Exact(s) && WithinSpan(s)
    ensures Exact(Stepped(s, a))
  {
    hide SeqOf, CursorAt, SeqDistance, ResumeAfter, NextAfter, IdxFor;
    match a {
      case PollUpTo(max) => if EntersLoop(s, max) { EntryKeepsExact(s, max); }
      case _ =>
    }
  }

  lemma InvKeepsExact(s: Sys, a: Step)
    requires Inv(s) && Enabled(s, a) && Exact(s) && WithinSpan(s)
    ensures Exact(Stepped(s, a))
  {
    hide LogInv, CallInv, CountsInv, DrainInv, OwnersInv, SlotsInv, Exact, WithinSpan;
    StepKeepsExact(s, a);
  }

  /** The ordinals delivered, in the order the hook saw them. */
  function ReadOrdinals(log: seq<Outcome>, base: nat): seq<nat> {
    if log == [] then []
    else ReadOrdinals(log[..|log| - 1], base) + if log[|log| - 1].Read? then [base + |log|] else []
  }

  lemma {:induction false} DeliveriesInOrder(log: seq<Outcome>, base: nat)
    ensures var ords := ReadOrdinals(log, base);
            && |ords| == |Deliveries(log, base)| == Reads(log)
            && (forall i | 0 <= i < |ords| ::
                  && base < ords[i] <= base + |log| && log[ords[i] - base - 1].Read?
                  && Deliveries(log, base)[i] == (SeqOf(ords[i]), log[ords[i] - base - 1].value))
            && (forall i, j | 0 <= i < j < |ords| :: ords[i] < ords[j])
  {
    if log != [] { DeliveriesInOrder(log[..|log| - 1], base); }
  }

  /** The history begins empty at `t0`: at the start, at a handle's making or after
      `skip_to_latest`.  From there on the cursor stays within a span. */
  predicate WithinSpanSince(run: seq<Sys>, t0: nat) {
    && t0 < |run| && run[t0].cons.log == []
    && (forall t | t0 <= t < |run| :: WithinSpan(run[t]))
  }

  lemma {:induction false} WithinSpanIsExact(run: seq<Sys>, steps: seq<Step>, t0: nat, t: nat)
    requires Run(run, steps) && WithinSpanSince(run, t0) && t0 <= t < |run|
    ensures Inv(run[t]) && Exact(run[t])
    decreases t
  {
    hide Inv, Exact, Stepped, Enabled, Shaped, Init, WithinSpan;
    InvAt(run, steps, t);
    if t0 < t {
      WithinSpanIsExact(run, steps, t0, t - 1);
      InvKeepsExact(run[t - 1], steps[t - 1]);
    } else {
      EmptyIsExact(run[t]);
    }
  }

  lemma EmptyIsExact(s: Sys)
    requires s.cons.log == []
    ensures Exact(s)
  {
  }

  lemma InvAt(run: seq<Sys>, steps: seq<Step>, t: nat)
    requires Run(run, steps) && t < |run|
    ensures Inv(run[t])
  {
    hide Inv, Stepped, Enabled, Shaped, Init;
    RunKeepsInv(run[..t + 1], steps[..t]);
  }

  lemma StepAt(run: seq<Sys>, steps: seq<Step>, t: nat)
    requires Run(run, steps) && 0 < t < |run|
    ensures |run| == |steps| + 1 && Inv(run[t - 1]) && Shaped(run[t - 1].core)
    ensures Enabled(run[t - 1], steps[t - 1]) && run[t] == Stepped(run[t - 1], steps[t - 1])
  {
    hide Inv, Stepped, Enabled, Init;
    InvAt(run, steps, t - 1);
  }

  /** What became of ordinal `j`: delivered with its value; skipped by a jump, being at least N
      behind the goal, or N - 1 if the goal's sequence is below N (see `JumpPassesLiveIff`); or
      missed, a later push having taken its slot. */
  predicate Accounted(c: Core, j: nat, o: Outcome)
    requires Shaped(c) && 0 < j <= |c.pushed|
  {
    var n := |c.slotSeq|;
    match o
    case Read(v, _) => v == c.pushed[j - 1]
    case Jumped(goal) => goal <= Published(c) && j <= goal - if SeqOf(goal) as int < n then n - 1 else n
    case Missed(taker) => j < taker <= Begun(c) && SlotOf(taker, n) == SlotOf(j, n) && Retires(j, taker, n)
    case Silent(_, _) => false
  }

  /** The promise of the module: since any point `t0` where a history begins, with whatever
      happened before it, if the cursor stays within one span then everything it passed was read
      or counted as dropped; what the hook saw is a strictly increasing sequence of ordinals,
      each under its own sequence number and with exactly the value pushed as that ordinal; and
      every ordinal not delivered was jumped over or overwritten. */
  lemma DeliveredOrDropped(run: seq<Sys>, steps: seq<Step>, t0: nat)
    requires Run(run, steps) && WithinSpanSince(run, t0)
    ensures var k, c := run[|steps|].cons, run[|steps|].core;
            var ords := ReadOrdinals(k.log, k.base);
            && k.cursor - k.base == |k.log| == (k.totalRead + PendingRead(k)) + (k.totalDropped + PendingDropped(k))
            && |k.hooked| == |ords| == k.totalRead + PendingRead(k)
            && (forall i, j | 0 <= i < j < |ords| :: ords[i] < ords[j])
            && (forall i | 0 <= i < |ords| :: k.base < ords[i] <= k.cursor && k.cursor <= |c.pushed|
                  && k.hooked[i] == (SeqOf(ords[i]), c.pushed[ords[i] - 1]))
            && Shaped(c) && k.base + |k.log| <= |c.pushed|
            && (forall t | 0 <= t < |k.log| :: Accounted(c, k.base + t + 1, k.log[t]))
  {
    hide SeqOf, SlotOf, OwnersInv, SlotsInv, CountersInv, CallInv, Accounted, Retires;
    Accounting(run, steps);
    WithinSpanIsExact(run, steps, t0, |steps|);
    var s := run[|steps|];
    ExactOutcomes(s);
    NoSilence(s.cons.log);
    DeliveriesInOrder(s.cons.log, s.cons.base);
    ReadsAccounted(s);
  }

  /** In an exact state every outcome is a read of the right value, a jump or an overwrite. */
  lemma ExactOutcomes(s: Sys)
    requires Shaped(s.core) && LogInv(s) && Exact(s)
    ensures forall t | 0 <= t < |s.cons.log| :: Accounted(s.core, s.cons.base + t + 1, s.cons.log[t])
  {
    forall t | 0 <= t < |s.cons.log|
      ensures Accounted(s.core, s.cons.base + t + 1, s.cons.log[t])
    {
      assert OutcomeHolds(s.core, s.cons.base + t + 1, s.cons.log[t]);
    }
  }

  lemma ReadsAccounted(s: Sys)
    requires Shaped(s.core) && s.cons.base + |s.cons.log| <= |s.core.pushed|
    requires forall t | 0 <= t < |s.cons.log| :: Accounted(s.core, s.cons.base + t + 1, s.cons.log[t])
    ensures forall t | 0 <= t < |s.cons.log| ::
              && !s.cons.log[t].Silent?
              && (s.cons.log[t].Read? ==> s.cons.log[t].value == s.core.pushed[s.cons.base + t])
  {
    hide SeqOf, SlotOf, Retires;
  }

  // ---------------------------------------------------------------- a cadence that keeps the promise

  /** What the consumer's calls since `t0` say about its cursor without looking at it: a nonzero
      poll that found anything published leaves it at most N - 1 behind that sample,
      `skip_to_latest` 1 behind, a new handle at the start of its cycle. */
  function Floor(run: seq<Sys>, steps: seq<Step>, t0: nat, t: nat): int
    requires t0 <= t < |run| == |steps| + 1
    decreases t
  {
    if t == t0 then run[t0].cons.cursor
    else
      var before, c := Floor(run, steps, t0, t - 1), run[t - 1].core;
      match steps[t - 1]
      case PollUpTo(max) => if max == 0 || Published(c) == 0 then before else Published(c) - (|c.slotSeq| - 1)
      case SkipToLatest => if Published(c) == 0 then before else Published(c) - 1
      case Reacquire => FreshCursor(Published(c))
      case _ => before
  }

  /** The cadence a caller can check: fewer than a span minus N - 1 pushes begin between one
      nonzero poll's sample and the next, and fewer than a span minus 1 after a skip. */
  predicate Cadence(run: seq<Sys>, steps: seq<Step>, t0: nat) {
    && t0 < |run| == |steps| + 1
    && (forall t | t0 <= t < |run| :: Begun(run[t].core) < Floor(run, steps, t0, t) + SPAN)
  }

  /** Between calls the floor is below the cursor; in a call it may be one above, until the
      call has moved. */
  predicate FloorHolds(s: Sys, floor: int) {
    floor <= s.cons.cursor || (s.cons.call.Polling? && floor <= s.cons.call.goal - (|s.core.slotSeq| - 1))
  }

  lemma StepKeepsFloor(s: Sys, a: Step, floor: int, floor': int)
    requires Inv(s) && Enabled(s, a) && FloorHolds(s, floor) && Begun(s.core) < floor + SPAN
    requires var p := Published(s.core);
             floor' == match a
                       case PollUpTo(max) => if max == 0 || p == 0 then floor else p - (|s.core.slotSeq| - 1)
                       case SkipToLatest => if p == 0 then floor else p - 1
                       case Reacquire => FreshCursor(p)
                       case _ => floor
    ensures FloorHolds(Stepped(s, a), floor')
  {
    SeqZeroIff(Published(s.core));
    hide SeqOf, CursorAt, SeqDistance, ResumeAfter, NextAfter, OwnersInv, SlotsInv;
    match a {
      case PollUpTo(max) => if 0 < max && 0 < Published(s.core) { PollKeepsFloor(s, max, floor); }
      case FirstCheck => if Stepped(s, a).cons.call.NoCall? { CallEndsNear(s, a); }
      case SecondCheck => if Stepped(s, a).cons.call.NoCall? { CallEndsNear(s, a); }
      case _ =>
    }
  }

  lemma PollKeepsFloor(s: Sys, max: nat, floor: int)
    requires Inv(s) && Enabled(s, PollUpTo(max)) && FloorHolds(s, floor) && Begun(s.core) < floor + SPAN
    requires 0 < max && 0 < Published(s.core)
    ensures FloorHolds(Stepped(s, PollUpTo(max)), Published(s.core) - (|s.core.slotSeq| - 1))
  {
    SeqZeroIff(Published(s.core));
    hide SeqOf, CursorAt, SeqDistance, ResumeAfter, OwnersInv, SlotsInv, LogInv, CountsInv;
    if EntersLoop(s, max) {
      EntryShape(s, max);
    } else {
      NothingNewIff(s, max);
      var gap := Published(s.core) - s.cons.cursor;
      DivUnique(gap, SPAN, 0, gap);
    }
  }

  lemma {:induction false} CadenceKeepsFloor(run: seq<Sys>, steps: seq<Step>, t0: nat, t: nat)
    requires Run(run, steps) && Cadence(run, steps, t0) && t0 <= t < |run|
    ensures Inv(run[t]) && FloorHolds(run[t], Floor(run, steps, t0, t))
    decreases t
  {
    hide Inv, Stepped, Enabled, Shaped, Init, Begun, FloorHolds;
    InvAt(run, steps, t);
    if t0 < t {
      CadenceKeepsFloor(run, steps, t0, t - 1);
      StepKeepsFloor(run[t - 1], steps[t - 1], Floor(run, steps, t0, t - 1), Floor(run, steps, t0, t));
    } else {
      CursorIsFloor(run[t]);
    }
  }

  lemma CursorIsFloor(s: Sys)
    ensures FloorHolds(s, s.cons.cursor)
  {
  }

  /** The cadence suffices, from any point a history begins: the cursor stays within a span, so
      every ordinal is delivered or counted, and between calls strictly within one, so a poll
      reports nothing new only if there is nothing new. */
  lemma CadenceSuffices(run: seq<Sys>, steps: seq<Step>, t0: nat)
    requires Run(run, steps) && Cadence(run, steps, t0) && run[t0].cons.log == []
    ensures WithinSpanSince(run, t0)
    ensures forall t | t0 <= t < |run| && run[t].cons.call.NoCall? :: Stored(run[t].core) < run[t].cons.cursor + SPAN
  {
    forall t | t0 <= t < |run|
      ensures WithinSpan(run[t])
      ensures run[t].cons.call.NoCall? ==> Stored(run[t].core) < run[t].cons.cursor + SPAN
    {
      CadenceKeepsFloor(run, steps, t0, t);
    }
  }

  lemma {:induction false} NoSilence(log: seq<Outcome>)
    requires forall t | 0 <= t < |log| :: !log[t].Silent?
    ensures Silences(log) == 0
  {
    if log != [] { NoSilence(log[..|log| - 1]); }
  }

  // ---------------------------------------------------------------- boundedness

  /** Inside the loop the word distance to the frozen goal is the ordinal distance, and together
      with the rounds already run it never exceeds N: so a call runs at most N rounds. */
  lemma LoopMeasure(s: Sys)
    requires Inv(s) && s.cons.call.Polling?
    ensures var k := s.cons;
            && SeqDistance(k.lastSeq, k.call.newest) as int == k.call.goal - k.cursor
            && 0 < SeqDistance(k.lastSeq, k.call.newest) as int
            && SeqDistance(k.lastSeq, k.call.newest) as int + k.call.rounds <= |s.core.slotSeq|
  {
    var k := s.cons;
    DistanceExactIff(k.lastSeq, k.cursor, k.call.goal);
  }

  /** A call that drained anything ends exactly when it has reached its entry sample or delivered
      its budget, whatever it jumped over or missed; that is at most N - 1 behind the sample, and
      its returned counts are exactly the ordinals it advanced over. */
  lemma CallEndsNear(s: Sys, a: Step)
    requires Inv(s) && Enabled(s, a) && s.cons.call.Polling? && Stepped(s, a).cons.call.NoCall?
    ensures var k, k' := s.cons, Stepped(s, a).cons;
            && |k'.returned| == |k.returned| + 1
            && var st := k'.returned[|k.returned|];
            && st.newest == SeqOf(k.call.goal) && st.read <= k.call.max
            && (k'.cursor == k.call.goal || st.read == k.call.max)
            && st.read + st.dropped == k'.cursor - k.call.start
            && k'.cursor <= k.call.goal < k'.cursor + |s.core.slotSeq|
            && SeqDistance(k'.lastSeq, st.newest) as int == k.call.goal - k'.cursor
            && k.call.rounds + 1 <= |s.core.slotSeq|
  {
    var k := s.cons;
    NextAfterIsSuccessor(k.lastSeq, k.cursor);
    SeqZeroIff(k.cursor + 1);
    DistanceExactIff(SeqOf(k.cursor + 1), k.cursor + 1, k.call.goal);
  }

  /** The hook calls of a call are as many as its stats say were read: those that came before
      are the ones earlier calls returned as read. */
  lemma CallHooks(s: Sys, a: Step)
    requires Inv(s) && Enabled(s, a) && s.cons.call.Polling? && Stepped(s, a).cons.call.NoCall?
    ensures var k, k' := s.cons, Stepped(s, a).cons;
            && |k'.returned| == |k.returned| + 1 && k.hooked <= k'.hooked
            && |k.hooked| == k.totalRead + k.call.read
            && |k'.hooked| == k'.totalRead == k.totalRead + k'.returned[|k.returned|].read
  {
    StepKeepsInv(s, a);
    HookCount(s);
    HookCount(Stepped(s, a));
    hide Stepped, Inv, Enabled;
    ReturnAdds(s, a);
  }

  lemma ReturnAdds(s: Sys, a: Step)
    requires Shaped(s.core) && Enabled(s, a) && s.cons.call.Polling? && Stepped(s, a).cons.call.NoCall?
    ensures var k, k' := s.cons, Stepped(s, a).cons;
            && |k'.returned| == |k.returned| + 1 && k.hooked <= k'.hooked
            && k'.totalRead == k.totalRead + k'.returned[|k.returned|].read
  {
    hide SeqOf, NextAfter, IdxFor, Published, Entered;
  }

  lemma HookCount(s: Sys)
    requires Inv(s)
    ensures |s.cons.hooked| == s.cons.totalRead + PendingRead(s.cons)
  {
    DeliveriesInOrder(s.cons.log, s.cons.base);
  }

  /** No push begun so far landed on the slot of an ordinal in (a, b] after it. */
  predicate SlotsUntaken(c: Core, a: nat, b: nat)
    requires 0 < |c.slotSeq|
  {
    forall j: nat, o: nat {:trigger SlotOf(j, |c.slotSeq|), SlotOf(o, |c.slotSeq|)} |
      a < j <= b && j < o <= Begun(c) :: SlotOf(o, |c.slotSeq|) != SlotOf(j, |c.slotSeq|)
  }

  /** A call that began at most N behind has dropped nothing while no push took the slot of an
      ordinal it advanced over: all of them were delivered. */
  lemma QuietSoFar(s: Sys)
    requires Inv(s) && s.cons.call.Polling? && s.cons.call.goal <= s.cons.call.start + |s.core.slotSeq|
    requires SlotsUntaken(s.core, s.cons.call.start, s.cons.cursor)
    ensures s.cons.call.dropped == 0 && s.cons.call.read == s.cons.cursor - s.cons.call.start
  {
    hide OwnersInv, SlotsInv, CountersInv, SeqOf, Retires, Drops;
    var k := s.cons;
    forall t | k.call.start - k.base <= t < |k.log| ensures k.log[t].Read? {
      assert OutcomeHolds(s.core, k.base + t + 1, k.log[t]);
    }
    OnlyReadsAfter(k.log, k.call.start - k.base);
  }

  /** So the stats such a call returns have no drops: it delivered everything it advanced over,
      down to its goal or its budget. */
  lemma QuietCallDropsNothing(s: Sys, a: Step)
    requires Inv(s) && Enabled(s, a) && s.cons.call.Polling? && Stepped(s, a).cons.call.NoCall?
    requires s.cons.call.goal <= s.cons.call.start + |s.core.slotSeq|
    requires SlotsUntaken(s.core, s.cons.call.start, s.cons.cursor + 1)
    ensures var k, k' := s.cons, Stepped(s, a).cons;
            && |k'.returned| == |k.returned| + 1
            && var st := k'.returned[|k.returned|];
            && st.dropped == 0 && st.read == k'.cursor - k.call.start
            && (k'.cursor == k.call.goal || st.read == k.call.max)
  {
    var k, j := s.cons, s.cons.cursor + 1;
    NextAfterIsSuccessor(k.lastSeq, k.cursor);
    SeqOfSlot(j, |s.core.slotSeq|);
    QuietSoFar(s);
    CallEndsNear(s, a);
    if s.core.slotSeq[SlotOf(j, |s.core.slotSeq|)] != SeqOf(j) { MissIsAnOverwrite(s.core, j); }
  }

  lemma {:induction false} OnlyReadsAfter(log: seq<Outcome>, m: nat)
    requires m <= |log| && (forall t | m <= t < |log| :: log[t].Read?)
    ensures Drops(log) == Drops(log[..m])
  {
    if m == |log| {
      assert log[..m] == log;
    } else {
      var front := log[..|log| - 1];
      OnlyReadsAfter(front, m);
      assert front[..m] == log[..m];
    }
  }

  /** Whole-span silence, exactly: with something published, a nonzero poll sees nothing new
      if and only if the cursor word is not the fresh 0 and whole spans separate it from the newest. */
  lemma NothingNewIff(s: Sys, max: nat)
    requires Inv(s) && s.cons.call.NoCall? && 0 < max && 0 < Published(s.core)
    ensures Stepped(s, PollUpTo(max)).cons.call.NoCall?
       <==> s.cons.lastSeq != 0 && (Published(s.core) - s.cons.cursor) % SPAN == 0
  {
    SeqZeroIff(Published(s.core));
    DistanceOfOrdinals(s.cons.lastSeq, s.cons.cursor, Published(s.core));
  }

  /** `push` returns the sequence of its ordinal, never 0. */
  lemma PushReturns(s: Sys)
    requires Inv(s) && Enabled(s, Push(Publish))
    ensures s.core.local == SeqOf(|s.core.pushed|) != 0
    ensures Published(Stepped(s, Push(Publish)).core) == |s.core.pushed|
  {
    SeqZeroIff(|s.core.pushed|);
  }

  // ---------------------------------------------------------------- the span bound is real

  /** A new ring of any capacity and payload width, with a new handle. */
  function NewRing(n: nat, width: nat, usizeMax: nat): (s: Sys)
    requires 0 < n && SPAN <= usizeMax
    ensures Init(s) && |s.core.slotSeq| == n && s.core.width == width
  {
    var core := Core(0, 0, seq(n, _ => 0), seq(n, _ => seq(width, _ => 0)), width, Idle, 0, [], seq(n, _ => 0));
    Sys(core, Handle(0, 0, NoCall, 0, 0, [], [], 0, 0, 0, []), usizeMax)
  }

  predicate Ends(run: seq<Sys>, steps: seq<Step>, s: Sys) {
    Run(run, steps) && run[|steps|] == s
  }

  lemma Extend(run: seq<Sys>, steps: seq<Step>, a: Step) returns (run': seq<Sys>, steps': seq<Step>)
    requires Run(run, steps) && Shaped(run[|steps|].core) && Enabled(run[|steps|], a)
    ensures Ends(run', steps', Stepped(run[|steps|], a))
    ensures run' == run + [Stepped(run[|steps|], a)] && steps' == steps + [a]
  {
    run', steps' := run + [Stepped(run[|steps|], a)], steps + [a];
  }

  /** The run goes on with producer steps only. */
  predicate OnlyPushes(run: seq<Sys>, steps: seq<Step>, run': seq<Sys>, steps': seq<Step>) {
    run <= run' && steps <= steps' && (forall t | |steps| <= t < |steps'| :: steps'[t].Push?)
  }

  lemma {:induction false} ExtendByPath(run: seq<Sys>, steps: seq<Step>, cs: seq<Core>, ps: seq<PushStep>)
    returns (run': seq<Sys>, steps': seq<Step>)
    requires Run(run, steps) && Path(cs, ps) && cs[0] == run[|steps|].core
    ensures Ends(run', steps', run[|steps|].(core := cs[|ps|])) && OnlyPushes(run, steps, run', steps')
  {
    if ps == [] {
      run', steps' := run, steps;
    } else {
      var t := |ps| - 1;
      run', steps' := ExtendByPath(run, steps, cs[..t + 1], ps[..t]);
      run', steps' := Extend(run', steps', Push(ps[t]));
    }
  }

  /** One uninterrupted push, whatever the consumer is doing. */
  lemma PushOnce(run: seq<Sys>, steps: seq<Step>, v: Payload) returns (run': seq<Sys>, steps': seq<Step>)
    requires Run(run, steps) && run[|steps|].core.phase.Idle? && run[|steps|].core.width == |v|
    ensures Run(run', steps') && OnlyPushes(run, steps, run', steps') && Shaped(run[|steps|].core)
    ensures run'[|steps'|] == run[|steps|].(core := SoloPushed(run[|steps|].core, v))
  {
    RunKeepsInv(run, steps);
    var cs, ps := SoloPushSteps(run[|steps|].core, v);
    run', steps' := ExtendByPath(run, steps, cs, ps);
  }

  lemma {:induction false} PushMany(run: seq<Sys>, steps: seq<Step>, v: Payload, m: nat)
    returns (run': seq<Sys>, steps': seq<Step>)
    requires Run(run, steps) && run[|steps|].core.phase.Idle? && run[|steps|].core.width == |v|
    ensures Run(run', steps') && OnlyPushes(run, steps, run', steps')
    ensures var s, s' := run[|steps|], run'[|steps'|];
            && s'.cons == s.cons && s'.usizeMax == s.usizeMax && s'.core.phase.Idle? && s'.core.width == |v|
            && s'.core.pushed == s.core.pushed + seq(m, _ => v) && |s'.core.slotSeq| == |s.core.slotSeq|
    decreases m
  {
    if m == 0 {
      run', steps' := run, steps;
      assert run[|steps|].core.pushed + seq(0, _ => v) == run[|steps|].core.pushed;
    } else {
      var r1, s1 := PushMany(run, steps, v, m - 1);
      run', steps' := PushOnce(r1, s1, v);
      assert run[|steps|].core.pushed + seq(m - 1, _ => v) + [v] == run[|steps|].core.pushed + seq(m, _ => v);
    }
  }

  /** A run that has taken one push of [0, 0] and stopped after copying the first word of it. */
  lemma StoppedInACopy(s0: Sys) returns (run: seq<Sys>, steps: seq<Step>)
    requires Init(s0) && s0.core.width == 2
    ensures Run(run, steps)
    ensures var s := run[|steps|];
            && s.core.phase.Idle? && s.core.width == 2 && s.core.pushed == [[0, 0]]
            && |s.core.slotSeq| == |s0.core.slotSeq| && s.cons.hooked == []
            && s.cons.lastSeq == 0 && s.cons.call.Polling? && s.cons.call.copying && s.cons.call.got == {0}
            && |s.cons.call.buf| == 2 && s.cons.call.buf[0] == 0
  {
    run, steps := PushOnce([s0], [], [0, 0]);
    run, steps := Extend(run, steps, PollUpTo(1));
    run, steps := Extend(run, steps, FirstCheck);
    run, steps := Extend(run, steps, CopyWord(0));
  }

  /** Counter-width ABA, for every capacity: a consumer stopped inside one copy for exactly one
      span of pushes accepts a mixture of two values, a value nobody ever pushed. */
  lemma WholeSpanStallTears(s0: Sys) returns (run: seq<Sys>, steps: seq<Step>)
    requires Init(s0) && s0.core.width == 2
    ensures Run(run, steps)
    ensures var s := run[|steps|];
            && s.cons.hooked == [(1, [0, 1])] && [0, 1] !in s.core.pushed
            && Stored(s.core) == 1 + SPAN
  {
    run, steps := StoppedInACopy(s0);
    run, steps := PushMany(run, steps, [1, 1], SPAN);
    RunKeepsInv(run, steps);
    var s2 := run[|steps|];
    assert s2.core.pushed[SPAN] == [1, 1];
    assert SlotOf(1 + SPAN, |s0.core.slotSeq|) == 0;
    assert s2.core.owner[0] == 1 + SPAN;
    run, steps := Extend(run, steps, CopyWord(1));
    var s3 := run[|steps|];
    assert s3.cons.call.buf == [0, 1];
    run, steps := Extend(run, steps, SecondCheck);
  }
}
