/** A concurrent `SeqRing` judged by the steps taken alone: what the calls of its handles do to
    them, that no call can be blocked, and what was pushed and counted. */
module SeqRingTraces {
  import opened SeqArith
  import opened SeqRingCore
  import opened SeqRingPoll
  import opened SeqRingRuns

  // ---------------------------------------------------------------- handles

  /** A new handle starts with cursor word 0 and nothing dropped, at the start of the cycle of the
      newest entry, and with a new history; the ring is as it was. */
  lemma HandleIsFresh(s: Sys)
    requires Inv(s) && Enabled(s, Reacquire)
    ensures var s' := Stepped(s, Reacquire);
            && s'.core == s.core && s'.cons.lastSeq == 0 && s'.cons.droppedAccum == 0 && s'.cons.call.NoCall?
            && s'.cons.log == [] && s'.cons.hooked == [] && s'.cons.returned == []
            && s'.cons.cursor == s'.cons.base && s'.cons.cursor % SPAN == 0
            && (0 < Published(s.core) ==> s'.cons.cursor < Published(s.core) <= s'.cons.cursor + SPAN)
  {
    FreshCursorBelow(Published(s.core));
    if 0 < Published(s.core) { assert Published(s.core) - 1 == FreshCursor(Published(s.core)) + (Published(s.core) - 1) % SPAN; }
  }

  /** `skip_to_latest` leaves the cursor one behind the newest entry, unless there is none, and
      the drop counter alone. */
  lemma SkipLeavesOne(s: Sys)
    requires Inv(s) && Enabled(s, SkipToLatest)
    ensures var k := Stepped(s, SkipToLatest).cons;
            && Stepped(s, SkipToLatest).core == s.core && k.droppedAccum == s.cons.droppedAccum && k.call.NoCall?
            && (Published(s.core) == 0 ==> k == s.cons)
            && (0 < Published(s.core) ==>
                  && k.cursor == k.base == Published(s.core) - 1 && k.log == [] && k.hooked == []
                  && k.lastSeq as int == SeqOf(Published(s.core)) as int - 1)
  {
    SeqZeroIff(Published(s.core));
  }

  lemma ResetClearsCount(s: Sys)
    requires Inv(s) && Enabled(s, ResetDropped)
    ensures Stepped(s, ResetDropped) == s.(cons := s.cons.(droppedAccum := 0, dropsSinceReset := 0))
  {
  }

  /** The only steps that start a new history. */
  predicate Restarts(s: Sys, a: Step) {
    a.Reacquire? || (a.SkipToLatest? && s.core.publishedSeq != 0)
  }

  /** Every other step only adds to it. */
  lemma HistoryGrows(s: Sys, a: Step)
    requires Inv(s) && Enabled(s, a) && !Restarts(s, a)
    ensures var k, k' := s.cons, Stepped(s, a).cons;
            && k'.base == k.base && k.log <= k'.log && k.hooked <= k'.hooked && k.returned <= k'.returned
            && k.cursor <= k'.cursor
    ensures s.core.pushed <= Stepped(s, a).core.pushed
  {
    hide SeqOf, CursorAt, SeqDistance, ResumeAfter, NextAfter, IdxFor, OwnersInv, SlotsInv, LogInv, CountsInv, DrainInv;
    if a.PollUpTo? && EntersLoop(s, a.max) { EntryShape(s, a.max); }
  }

  // ---------------------------------------------------------------- no call blocks

  /** Steps of its own a poll can still take, at most: two checks and the words of a copy for each
      ordinal up to its goal. */
  function PollLeft(s: Sys): int {
    var c := s.cons.call;
    if c.NoCall? then 0
    else (c.goal - s.cons.cursor) * (s.core.width + 2) - if c.copying then 1 + |c.got| else 0
  }

  lemma {:induction false} BelowSize(w: nat)
    ensures |Below(w)| == w
  {
    if 0 < w {
      BelowSize(w - 1);
      var before := Below(w - 1);
      assert Below(w) == before + {w - 1} && w - 1 !in before;
      hide Below;
    }
  }

  lemma CopiedWithin(got: set<nat>, w: nat)
    requires forall x | x in got :: x < w
    ensures |got| <= w
  {
    BelowSize(w);
    var all := Below(w);
    assert all == got + (all - got) && got * (all - got) == {};
  }

  /** Every word copied is one of the payload's, so a copy is at most `width` steps. */
  predicate CopyInv(s: Sys) {
    s.cons.call.Polling? ==> forall x | x in s.cons.call.got :: x < s.core.width
  }

  lemma Products(d: nat, n: nat, w: nat)
    requires 0 < d <= n
    ensures (d - 1) * w == d * w - w && w <= d * w <= n * w
  {
    assert n * w == d * w + (n - d) * w;
    assert d * w == (d - 1) * w + w;
  }

  /** A round that ends, with the call or without. */
  lemma AdvanceGetsNearer(s: Sys, k': Handle)
    requires Inv(s) && CopyInv(s) && s.cons.call.Polling?
    requires k'.call.Polling? ==>
               k'.cursor == s.cons.cursor + 1 && !k'.call.copying && k'.call.goal == s.cons.call.goal
    ensures 0 <= PollLeft(s.(cons := k')) < PollLeft(s)
  {
    var c := s.cons.call;
    Products(c.goal - s.cons.cursor, |s.core.slotSeq|, s.core.width + 2);
    CopiedWithin(c.got, s.core.width);
    if k'.call.Polling? { assert 0 <= (c.goal - s.cons.cursor - 1) * (s.core.width + 2); }
  }

  /** The slot check of the next ordinal would succeed. */
  predicate NextIsThere(s: Sys)
    requires 0 < |s.core.slotSeq|
  {
    s.core.slotSeq[IdxFor(NextAfter(s.cons.lastSeq), |s.core.slotSeq|)] == NextAfter(s.cons.lastSeq)
  }

  /** A call moves on by a word, into a copy, or to the next ordinal. */
  lemma RoundShape(s: Sys, a: Step)
    requires Inv(s) && Enabled(s, a) && s.cons.call.Polling? && (a.FirstCheck? || a.SecondCheck? || a.CopyWord?)
    ensures var c, k' := s.cons.call, Stepped(s, a).cons;
            if a.CopyWord? then
              && k' == s.cons.(call := k'.call) && k'.call.Polling? && k'.call == c.(got := c.got + {a.w}, buf := k'.call.buf)
            else if a.FirstCheck? && NextIsThere(s) then
              k' == s.cons.(call := c.(copying := true, got := {}))
            else
              && k'.cursor == s.cons.cursor + 1
              && (k'.call.Polling? ==> !k'.call.copying && k'.call.goal == c.goal && k'.call.got == c.got)
    ensures Stepped(s, a).core == s.core
  {
    hide SeqOf, CursorAt, OwnersInv, SlotsInv, LogInv, CountsInv, DrainInv;
  }

  lemma RoundGetsNearer(s: Sys, a: Step)
    requires Inv(s) && CopyInv(s) && Enabled(s, a) && s.cons.call.Polling?
    requires a.FirstCheck? || a.SecondCheck? || a.CopyWord?
    ensures CopyInv(Stepped(s, a)) && 0 <= PollLeft(Stepped(s, a)) < PollLeft(s)
  {
    RoundShape(s, a);
    PollBound(s);
    PollBound(Stepped(s, a)) by { StepKeepsInv(s, a); assert CopyInv(Stepped(s, a)); }
    hide Stepped, Inv;
    if s.cons.cursor < Stepped(s, a).cons.cursor {
      AdvanceGetsNearer(s, Stepped(s, a).cons);
      assert Stepped(s, a) == s.(cons := Stepped(s, a).cons);
    }
  }

  lemma PollBound(s: Sys)
    requires Inv(s) && CopyInv(s)
    ensures 0 <= PollLeft(s) <= |s.core.slotSeq| * (s.core.width + 2)
  {
    var c := s.cons.call;
    if c.Polling? {
      Products(c.goal - s.cons.cursor, |s.core.slotSeq|, s.core.width + 2);
      CopiedWithin(c.got, s.core.width);
    }
  }

  /** `poll_up_to` is wait-free: after its entry it returns within N rounds of at most width + 2
      steps of its own, each of which brings its end nearer; the producer never moves it. */
  lemma PollIsWaitFree(s: Sys, a: Step)
    requires Inv(s) && CopyInv(s) && Enabled(s, a)
    ensures CopyInv(Stepped(s, a)) && 0 <= PollLeft(s) <= |s.core.slotSeq| * (s.core.width + 2)
    ensures !a.Push? && s.cons.call.Polling? ==> 0 <= PollLeft(Stepped(s, a)) < PollLeft(s)
    ensures a.Push? ==> Stepped(s, a).cons == s.cons && PollLeft(Stepped(s, a)) == PollLeft(s)
  {
    PollBound(s);
    hide Inv, PollLeft;
    if a.Push? {
      PushLeavesPoll(s, a.p);
    } else if s.cons.call.Polling? {
      assert a.FirstCheck? || a.SecondCheck? || a.CopyWord?;
      RoundGetsNearer(s, a);
    } else {
      IdleKeepsCopies(s, a);
    }
  }

  lemma PushLeavesPoll(s: Sys, p: PushStep)
    requires Shaped(s.core) && CopyInv(s) && Enabled(s, Push(p))
    ensures Stepped(s, Push(p)).cons == s.cons && PollLeft(Stepped(s, Push(p))) == PollLeft(s) && CopyInv(Stepped(s, Push(p)))
  {
  }

  lemma IdleKeepsCopies(s: Sys, a: Step)
    requires Inv(s) && Enabled(s, a) && s.cons.call.NoCall?
    ensures CopyInv(Stepped(s, a)) && (a.Push? ==> Stepped(s, a).cons == s.cons)
  {
    hide SeqOf, CursorAt, SeqDistance, ResumeAfter, NextAfter, IdxFor, OwnersInv, SlotsInv, LogInv, CountsInv, DrainInv;
  }

  /** And it can always go on: there is a check to make or a word to copy, any one of those left. */
  lemma PollCanGoOn(s: Sys)
    requires Inv(s) && CopyInv(s) && s.cons.call.Polling?
    ensures Enabled(s, FirstCheck) || Enabled(s, SecondCheck)
         || exists w: nat :: w < s.core.width && w !in s.cons.call.got && Enabled(s, CopyWord(w))
    ensures forall w: nat | w < s.core.width && w !in s.cons.call.got && s.cons.call.copying :: Enabled(s, CopyWord(w))
  {
  }

  lemma {:induction false} RunKeepsCopies(run: seq<Sys>, steps: seq<Step>, t: nat)
    requires |run| == |steps| + 1 && Run(run, steps) && t < |run|
    ensures Inv(run[t]) && CopyInv(run[t])
    decreases t
  {
    hide Run, Inv, CopyInv, Stepped, Enabled;
    InvAt(run, steps, t);
    if 0 < t {
      RunKeepsCopies(run, steps, t - 1);
      StepAt(run, steps, t);
      PollIsWaitFree(run[t - 1], steps[t - 1]);
    } else {
      NoCopyYet(run[0]) by { FirstIsIdle(run, steps); }
    }
  }

  lemma FirstIsIdle(run: seq<Sys>, steps: seq<Step>)
    requires Run(run, steps)
    ensures run[0].cons.call.NoCall?
  {
  }

  lemma NoCopyYet(s: Sys)
    requires s.cons.call.NoCall?
    ensures CopyInv(s)
  {
  }

  /** Steps a push can still take: the reserved sequence, the invalidation, the words, the stamp,
      the publication. */
  function PushLeft(c: Core): int {
    match c.phase
    case Idle => 0
    case SkipZero => c.width + 4
    case Assigned => c.width + 3
    case Writing(written) => c.width - |written| + 2
    case Stamped => 1
  }

  predicate WritesInv(c: Core) {
    c.phase.Writing? ==> forall x | x in c.phase.written :: x < c.width
  }

  /** `push` is wait-free: at most width + 5 steps, whatever the consumer does. */
  lemma PushIsWaitFree(c: Core, a: PushStep)
    requires CoreInv(c) && WritesInv(c) && CanPush(c, a)
    ensures var c' := ProducerStep(c, a);
            WritesInv(c') && 0 <= PushLeft(c') < (if a.FetchAdd? then c.width + 5 else PushLeft(c))
  {
    if c.phase.Writing? { CopiedWithin(c.phase.written, c.width); }
    var c' := ProducerStep(c, a);
    if c'.phase.Writing? { CopiedWithin(c'.phase.written, c'.width); }
    hide OwnersInv, SlotsInv, CountersInv;
  }

  lemma PushCanGoOn(c: Core)
    requires CoreInv(c) && WritesInv(c)
    ensures !c.phase.Idle? ==>
              || CanPush(c, StoreOne) || CanPush(c, Invalidate) || CanPush(c, Stamp) || CanPush(c, Publish)
              || exists w: nat :: w < c.width && w !in c.phase.written && CanPush(c, WriteWord(w))
    ensures forall w: nat | c.phase.Writing? && w < c.width && w !in c.phase.written :: CanPush(c, WriteWord(w))
    ensures forall v: Payload | c.phase.Idle? && |v| == c.width :: CanPush(c, FetchAdd(v))
  {
    if c.phase.Writing? && !CanPush(c, Stamp) {
      var w: nat :| w < c.width && w !in c.phase.written;
      assert CanPush(c, WriteWord(w));
    }
  }

  // ---------------------------------------------------------------- what was pushed and counted

  /** The values of the pushes begun among the steps. */
  function PushedValues(steps: seq<Step>): seq<Payload> {
    if steps == [] then []
    else
      match steps[|steps| - 1]
      case Push(FetchAdd(v)) => PushedValues(steps[..|steps| - 1]) + [v]
      case _ => PushedValues(steps[..|steps| - 1])
  }

  /** Calls of `poll_up_to` since the history began, up to step `t`. */
  function Polls(run: seq<Sys>, steps: seq<Step>, t: nat): nat
    requires t < |run| == |steps| + 1
  {
    if t == 0 || Restarts(run[t - 1], steps[t - 1]) then 0
    else Polls(run, steps, t - 1) + if steps[t - 1].PollUpTo? then 1 else 0
  }

  function ReadSum(stats: seq<Stats>): nat {
    if stats == [] then 0 else ReadSum(stats[..|stats| - 1]) + stats[|stats| - 1].read
  }

  function DropSum(stats: seq<Stats>): nat {
    if stats == [] then 0 else DropSum(stats[..|stats| - 1]) + stats[|stats| - 1].dropped
  }

  /** Drops returned by polls since the counter was last cleared, by a reset or a new handle. */
  function DropsSince(run: seq<Sys>, steps: seq<Step>, t: nat): nat
    requires t < |run| == |steps| + 1
  {
    if t == 0 || steps[t - 1].ResetDropped? || steps[t - 1].Reacquire? then 0
    else
      var before, after := run[t - 1].cons.returned, run[t].cons.returned;
      DropsSince(run, steps, t - 1) + if |before| < |after| then after[|before|].dropped else 0
  }

  predicate CountsTrace(run: seq<Sys>, steps: seq<Step>, t: nat)
    requires t < |run| == |steps| + 1
  {
    var k := run[t].cons;
    && |k.returned| + (if k.call.Polling? then 1 else 0) == Polls(run, steps, t)
    && k.totalRead == ReadSum(k.returned) && k.totalDropped == DropSum(k.returned)
    && k.dropsSinceReset == DropsSince(run, steps, t)
  }

  lemma SumsSnoc(stats: seq<Stats>, st: Stats)
    ensures ReadSum(stats + [st]) == ReadSum(stats) + st.read && DropSum(stats + [st]) == DropSum(stats) + st.dropped
  {
    assert (stats + [st])[..|stats|] == stats;
  }

  /** What a step does to the returned stats and the sums kept of them. */
  predicate Grew(s: Sys, a: Step, k': Handle) {
    var k, n := s.cons, |s.cons.returned|;
    if Restarts(s, a) then
      && k'.returned == [] && k'.totalRead == k'.totalDropped == 0 && k'.call.NoCall?
      && k'.dropsSinceReset == (if a.Reacquire? then 0 else k.dropsSinceReset)
    else if n < |k'.returned| then
      && k'.returned == k.returned + [k'.returned[n]] && k'.call.NoCall? && (k.call.Polling? <==> !a.PollUpTo?)
      && k'.totalRead == k.totalRead + k'.returned[n].read && k'.totalDropped == k.totalDropped + k'.returned[n].dropped
      && k'.dropsSinceReset == k.dropsSinceReset + k'.returned[n].dropped && !a.ResetDropped?
    else
      && k'.returned == k.returned && k'.totalRead == k.totalRead && k'.totalDropped == k.totalDropped
      && (k'.call.Polling? <==> k.call.Polling? || a.PollUpTo?) && (a.PollUpTo? ==> k.call.NoCall?)
      && k'.dropsSinceReset == (if a.ResetDropped? then 0 else k.dropsSinceReset)
  }

  lemma ReturnsGrow(s: Sys, a: Step)
    requires Inv(s) && Enabled(s, a)
    ensures Grew(s, a, Stepped(s, a).cons)
    ensures Stepped(s, a).core.pushed
         == s.core.pushed + if a.Push? && a.p.FetchAdd? then [a.p.value] else []
  {
    hide SeqOf, CursorAt, SeqDistance, ResumeAfter, NextAfter, IdxFor, OwnersInv, SlotsInv, LogInv, CountsInv, DrainInv, CallInv;
  }

  lemma CountsNext(run: seq<Sys>, steps: seq<Step>, t: nat)
    requires 0 < t < |run| == |steps| + 1 && CountsTrace(run, steps, t - 1)
    requires Grew(run[t - 1], steps[t - 1], run[t].cons)
    ensures CountsTrace(run, steps, t)
  {
    hide ReadSum, DropSum;
    assert ReadSum([]) == 0 && DropSum([]) == 0 by { SumsOfNone(); }
    var before, after := run[t - 1].cons.returned, run[t].cons.returned;
    if !Restarts(run[t - 1], steps[t - 1]) && |before| < |after| { SumsSnoc(before, after[|before|]); }
  }

  lemma SumsOfNone()
    ensures ReadSum([]) == 0 && DropSum([]) == 0
  {
  }

  lemma {:induction false} PushedHolds(run: seq<Sys>, steps: seq<Step>, t: nat)
    requires Run(run, steps) && t < |run|
    ensures run[t].core.pushed == PushedValues(steps[..t])
    decreases t
  {
    if 0 < t {
      PushedHolds(run, steps, t - 1);
      StepAt(run, steps, t);
      hide Run, Inv, Stepped, Enabled, Grew;
      ReturnsGrow(run[t - 1], steps[t - 1]);
      assert steps[..t][..t - 1] == steps[..t - 1];
    }
  }

  lemma GrewAt(run: seq<Sys>, steps: seq<Step>, t: nat)
    requires Run(run, steps) && 0 < t < |run|
    ensures |run| == |steps| + 1 && Grew(run[t - 1], steps[t - 1], run[t].cons)
  {
    StepAt(run, steps, t);
    hide Run, Inv, Stepped, Enabled, Grew;
    ReturnsGrow(run[t - 1], steps[t - 1]);
  }

  lemma {:induction false} CountsHold(run: seq<Sys>, steps: seq<Step>, t: nat)
    requires |run| == |steps| + 1 && Run(run, steps) && t < |run|
    ensures CountsTrace(run, steps, t)
    decreases t
  {
    hide Run, CountsTrace, Grew;
    if 0 < t {
      CountsHold(run, steps, t - 1);
      GrewAt(run, steps, t);
      CountsNext(run, steps, t);
    } else {
      CountsStart(run, steps);
    }
  }

  lemma CountsStart(run: seq<Sys>, steps: seq<Step>)
    requires Run(run, steps)
    ensures CountsTrace(run, steps, 0)
  {
  }

  /** In every run, from the steps alone: the ring's ordinals are the pushes begun, in order; each
      poll since the history began has returned once or is the one in progress; what they
      returned as read and dropped is what the cursor passed, less whole spans; and the drop
      counter is what they returned as dropped since it was last cleared, saturated. */
  lemma PollsAddUp(run: seq<Sys>, steps: seq<Step>)
    requires Run(run, steps)
    ensures var s, k, t := run[|steps|], run[|steps|].cons, |steps|;
            && s.core.pushed == PushedValues(steps)
            && |k.returned| + (if k.call.Polling? then 1 else 0) == Polls(run, steps, t)
            && k.cursor - k.base == ReadSum(k.returned) + PendingRead(k) + DropSum(k.returned) + PendingDropped(k)
                                    + Silences(k.log)
            && Silences(k.log) % SPAN == 0 && |k.hooked| == ReadSum(k.returned) + PendingRead(k)
            && k.droppedAccum == if DropsSince(run, steps, t) <= s.usizeMax then DropsSince(run, steps, t) else s.usizeMax
  {
    Accounting(run, steps);
    PushedHolds(run, steps, |steps|);
    CountsHold(run, steps, |steps|);
    HookCount(run[|steps|]);
    assert steps[..|steps|] == steps;
  }
}
