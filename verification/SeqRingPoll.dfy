/** A `SeqRing` producer and consumer running concurrently: every atomic access of `push_inner`,
    `poll_up_to`, `read_seq_inner`, `skip_to_latest` and consumer hand-over is one step, and
    every payload word copied on either side is one step. */
module SeqRingPoll {
  import opened SeqArith
  import opened SeqRingCore

  /** What became of one ordinal the cursor passed.
      `Read`: delivered; `stored` is how many pushes had stamped their slot when it was accepted.
      `Jumped`: skipped by the lag-recovery jump of a call draining to `goal`, and counted.
      `Missed`: a check failed because push `taker` had taken the slot, and counted.
      `Silent`: whole spans the `u32` distance cannot see, passed by a call that began with the
      cursor at `from`; neither read nor counted. */
  datatype Outcome =
    | Read(value: Payload, stored: nat)
    | Jumped(goal: nat)
    | Missed(taker: nat)
    | Silent(from: nat, goal: nat)

  datatype Stats = Stats(read: nat, dropped: nat, newest: U32)

  /** The locals of a `poll_up_to` in its loop.  `buf` is None at the first check.  `goal`,
      `start` and `rounds` are history: the ordinal of `newest`, the cursor ordinal after the
      entry sample, and how many times the loop body has run. */
  datatype Call =
    | NoCall
    | Polling(max: nat, newest: U32, read: nat, dropped: nat, copying: bool, got: set<nat>, buf: Payload,
              goal: nat, start: nat, rounds: nat)

  /** The consumer handle (`lastSeq`, `droppedAccum`), the call in progress, and the history of
      this run of polls: it starts at cursor ordinal `base` when the handle is made or
      `skip_to_latest` is called, `log[t]` is the outcome of ordinal `base + t + 1`, `hooked`
      are the hook calls, `total*` sum the returned stats, `dropsSinceReset` what the drop
      counter is asked to count. */
  datatype Handle = Handle(
    lastSeq: U32, droppedAccum: nat, call: Call,
    cursor: nat, base: nat, log: seq<Outcome>, hooked: seq<(U32, Payload)>,
    totalRead: nat, totalDropped: nat, dropsSinceReset: nat, returned: seq<Stats>
  )

  /** `usizeMax` is the platform's `usize::MAX`, at least `u32::MAX`. */
  datatype Sys = Sys(core: Core, cons: Handle, usizeMax: nat)

  datatype Step =
    | Push(p: PushStep)
    | PollUpTo(max: nat)     // the entry load of published_seq and what follows it locally
    | FirstCheck             // slot_seq load before the copy
    | CopyWord(w: nat)
    | SecondCheck            // slot_seq load after the copy
    | ResetDropped
    | SkipToLatest
    | Reacquire              // the handle is dropped and made anew

  function SatAdd(a: nat, b: nat, limit: nat): nat {
    if a + b <= limit then a + b else limit
  }

  predicate Enabled(s: Sys, a: Step)
    requires Shaped(s.core)
  {
    match a
    case Push(p) => CanPush(s.core, p)
    case PollUpTo(_) => s.cons.call.NoCall?
    case FirstCheck => s.cons.call.Polling? && !s.cons.call.copying
    case CopyWord(w) => s.cons.call.Polling? && s.cons.call.copying && w < s.core.width && w !in s.cons.call.got
                        && |s.cons.call.buf| == s.core.width
    case SecondCheck => s.cons.call.Polling? && s.cons.call.copying && (forall w: nat | w < s.core.width :: w in s.cons.call.got)
    case _ => s.cons.call.NoCall?
  }

  function Returning(k: Handle, st: Stats, usizeMax: nat): Handle {
    k.(call := NoCall,
       droppedAccum := SatAdd(k.droppedAccum, st.dropped, usizeMax),
       totalRead := k.totalRead + st.read, totalDropped := k.totalDropped + st.dropped,
       dropsSinceReset := k.dropsSinceReset + st.dropped,
       returned := k.returned + [st])
  }

  function Repeat(o: Outcome, k: nat): (r: seq<Outcome>)
    ensures |r| == k && forall t | 0 <= t < k :: r[t] == o
  {
    seq(k, _ => o)
  }

  /** Entry of `poll_up_to` once `newest` is loaded.  The early returns, the lag and the jump
      are the code's; only the history fields mention ordinals. */
  function Entered(k: Handle, max: nat, newest: U32, goal: nat, n: nat, width: nat, usizeMax: nat): Handle
    requires 0 < n
  {
    if max == 0 then k.(returned := k.returned + [Stats(0, 0, newest)])
    else if newest == 0 || newest == k.lastSeq then k.(returned := k.returned + [Stats(0, 0, newest)])
    else
      var lag := SeqDistance(k.lastSeq, newest) as int;
      var seen := if lag <= goal && k.cursor <= goal - lag then goal - lag else k.cursor;
      var k1 := k.(cursor := seen, log := k.log + Repeat(Silent(k.cursor, goal), seen - k.cursor));
      var jump := n < lag;
      var resume := ResumeAfter(newest, n);
      var dropped := if jump then SatAdd(0, SeqDistance(k.lastSeq, resume) as int, usizeMax) else 0;
      var k2 := if jump then
                  k1.(lastSeq := resume, cursor := k1.cursor + dropped, log := k1.log + Repeat(Jumped(goal), dropped))
                else k1;
      k2.(call := Polling(max, newest, 0, dropped, false, {}, seq(width, _ => 0), goal, seen, 0))
  }

  /** End of one loop round: the cursor has advanced to `next`; test the loop condition. */
  function Advanced(k: Handle, next: U32, o: Outcome, usizeMax: nat): Handle
    requires k.call.Polling?
  {
    var read := k.call.read + if o.Read? then 1 else 0;
    var dropped := if o.Read? then k.call.dropped else SatAdd(k.call.dropped, 1, usizeMax);
    var k1 := k.(lastSeq := next, cursor := k.cursor + 1, log := k.log + [o],
                 hooked := if o.Read? then k.hooked + [(next, o.value)] else k.hooked);
    if read < k.call.max && next != k.call.newest then
      k1.(call := k.call.(read := read, dropped := dropped, copying := false, rounds := k.call.rounds + 1))
    else
      Returning(k1, Stats(read, dropped, k.call.newest), usizeMax)
  }

  function Stepped(s: Sys, a: Step): Sys
    requires Shaped(s.core) && Enabled(s, a)
  {
    var c, k, n := s.core, s.cons, |s.core.slotSeq|;
    var next := NextAfter(k.lastSeq);
    var idx := IdxFor(next, n);
    match a
    case Push(p) => s.(core := ProducerStep(c, p))
    case PollUpTo(max) =>
      s.(cons := Entered(k, max, c.publishedSeq, Published(c), n, c.width, s.usizeMax))
    case FirstCheck =>
      if c.slotSeq[idx] != next then s.(cons := Advanced(k, next, Missed(c.owner[idx]), s.usizeMax))
      else s.(cons := k.(call := k.call.(copying := true, got := {})))
    case CopyWord(w) =>
      s.(cons := k.(call := k.call.(got := k.call.got + {w}, buf := k.call.buf[w := c.slots[idx][w]])))
    case SecondCheck =>
      if c.slotSeq[idx] != next then s.(cons := Advanced(k, next, Missed(c.owner[idx]), s.usizeMax))
      else s.(cons := Advanced(k, next, Read(k.call.buf, Stored(c)), s.usizeMax))
    case ResetDropped => s.(cons := k.(droppedAccum := 0, dropsSinceReset := 0))
    case SkipToLatest =>
      if c.publishedSeq == 0 then s
      else s.(cons := Restarted(k.(lastSeq := WrapSub(c.publishedSeq, 1)),
                                if Published(c) == 0 then 0 else Published(c) - 1))
    case Reacquire =>
      s.(cons := Restarted(k.(lastSeq := 0, droppedAccum := 0, dropsSinceReset := 0), FreshCursor(Published(c))))
  }

  /** A new handle's cursor word 0 stands for the last whole span boundary before the newest. */
  function FreshCursor(published: nat): nat {
    if published == 0 then 0 else ((published - 1) / SPAN) * SPAN
  }

  function Restarted(k: Handle, base: nat): Handle {
    k.(cursor := base, base := base, log := [], hooked := [], totalRead := 0, totalDropped := 0, returned := [])
  }

  predicate Init(s: Sys) {
    && InitCore(s.core) && SPAN <= s.usizeMax
    && s.cons == Handle(0, 0, NoCall, 0, 0, [], [], 0, 0, 0, [])
  }

  /** A run of the system from a new ring, taken step by step. */
  predicate Run(run: seq<Sys>, steps: seq<Step>) {
    && |run| == |steps| + 1 && Init(run[0])
    && (forall t | 0 <= t < |steps| ::
          Shaped(run[t].core) && Enabled(run[t], steps[t]) && run[t + 1] == Stepped(run[t], steps[t]))
  }

  // ---------------------------------------------------------------- reading the log

  function Reads(log: seq<Outcome>): nat {
    if log == [] then 0 else Reads(log[..|log| - 1]) + if log[|log| - 1].Read? then 1 else 0
  }

  function Drops(log: seq<Outcome>): nat {
    if log == [] then 0
    else Drops(log[..|log| - 1]) + if log[|log| - 1].Jumped? || log[|log| - 1].Missed? then 1 else 0
  }

  function Silences(log: seq<Outcome>): nat {
    if log == [] then 0 else Silences(log[..|log| - 1]) + if log[|log| - 1].Silent? then 1 else 0
  }

  /** The hook calls the log stands for, in ordinal order. */
  function Deliveries(log: seq<Outcome>, base: nat): seq<(U32, Payload)> {
    if log == [] then []
    else
      var last := log[|log| - 1];
      Deliveries(log[..|log| - 1], base) + if last.Read? then [(SeqOf(base + |log|), last.value)] else []
  }

  lemma LogSnoc(log: seq<Outcome>, o: Outcome, base: nat)
    ensures Reads(log + [o]) == Reads(log) + if o.Read? then 1 else 0
    ensures Drops(log + [o]) == Drops(log) + if o.Jumped? || o.Missed? then 1 else 0
    ensures Silences(log + [o]) == Silences(log) + if o.Silent? then 1 else 0
    ensures Deliveries(log + [o], base)
         == Deliveries(log, base) + if o.Read? then [(SeqOf(base + |log| + 1), o.value)] else []
  {
    assert (log + [o])[..|log|] == log;
  }

  lemma {:induction false} LogRepeat(log: seq<Outcome>, o: Outcome, k: nat, base: nat)
    requires !o.Read?
    ensures Reads(log + Repeat(o, k)) == Reads(log)
    ensures Drops(log + Repeat(o, k)) == Drops(log) + if o.Silent? then 0 else k
    ensures Silences(log + Repeat(o, k)) == Silences(log) + if o.Silent? then k else 0
    ensures Deliveries(log + Repeat(o, k), base) == Deliveries(log, base)
  {
    if k == 0 {
      assert log + Repeat(o, 0) == log;
    } else {
      LogRepeat(log, o, k - 1, base);
      LogSnoc(log + Repeat(o, k - 1), o, base);
      assert log + Repeat(o, k) == log + Repeat(o, k - 1) + [o];
    }
  }

  lemma LogEntry(log: seq<Outcome>, a: Outcome, i: nat, b: Outcome, j: nat, base: nat)
    requires a.Silent? && b.Jumped?
    ensures Reads(log + Repeat(a, i) + Repeat(b, j)) == Reads(log)
    ensures Drops(log + Repeat(a, i) + Repeat(b, j)) == Drops(log) + j
    ensures Silences(log + Repeat(a, i) + Repeat(b, j)) == Silences(log) + i
    ensures Deliveries(log + Repeat(a, i) + Repeat(b, j), base) == Deliveries(log, base)
  {
    LogRepeat(log, a, i, base);
    LogRepeat(log + Repeat(a, i), b, j, base);
  }

  /** Every passed ordinal has exactly one outcome, so the three counts add up. */
  lemma {:induction false} LogAddsUp(log: seq<Outcome>)
    ensures Reads(log) + Drops(log) + Silences(log) == |log|
  {
    if log != [] { LogAddsUp(log[..|log| - 1]); }
  }

  // ---------------------------------------------------------------- what every step keeps

  function PendingRead(k: Handle): nat { if k.call.Polling? then k.call.read else 0 }
  function PendingDropped(k: Handle): nat { if k.call.Polling? then k.call.dropped else 0 }

  predicate CursorInv(s: Sys) {
    var k := s.cons;
    && CursorAt(k.lastSeq, k.cursor) && k.cursor <= Published(s.core)
    && (k.lastSeq == 0 && 0 < Published(s.core) ==> k.cursor < Published(s.core))
    && k.cursor == k.base + |k.log|
  }

  predicate CountsInv(s: Sys) {
    var k := s.cons;
    && k.totalRead + PendingRead(k) == Reads(k.log)
    && k.totalDropped + PendingDropped(k) == Drops(k.log)
    && Silences(k.log) % SPAN == 0
    && k.hooked == Deliveries(k.log, k.base)
    && k.droppedAccum == (if k.dropsSinceReset <= s.usizeMax then k.dropsSinceReset else s.usizeMax)
  }

  /** What each outcome says about the pushes, see `OutcomeHolds`. */
  predicate OutcomeHolds(c: Core, j: nat, o: Outcome)
    requires Shaped(c) && 0 < j <= |c.pushed|
  {
    match o
    case Read(v, stored) => v == c.pushed[j - 1] || (j + SPAN <= stored && stored <= Stored(c))
    case Jumped(goal) =>
      j + |c.slotSeq| <= goal + (if SeqOf(goal) as int < |c.slotSeq| then 1 else 0) && goal <= Published(c)
    case Missed(taker) =>
      j < taker <= Begun(c) && SlotOf(taker, |c.slotSeq|) == SlotOf(j, |c.slotSeq|) && Retires(j, taker, |c.slotSeq|)
    case Silent(from, goal) => from < j <= goal <= Published(c) && from + SPAN < goal
  }

  predicate LogInv(s: Sys)
    requires Shaped(s.core)
  {
    && s.cons.base + |s.cons.log| <= |s.core.pushed|
    && (forall t | 0 <= t < |s.cons.log| :: OutcomeHolds(s.core, s.cons.base + t + 1, s.cons.log[t]))
  }

  predicate CallInv(s: Sys)
    requires Shaped(s.core)
  {
    var k, c := s.cons, s.cons.call;
    c.Polling? ==>
      && c.goal <= Published(s.core) && 0 < c.goal && c.newest == SeqOf(c.goal)
      && c.start <= k.cursor < c.goal && c.goal <= c.start + SPAN
      && (k.lastSeq != 0 ==> c.goal < k.cursor + SPAN)
      && c.read < c.max
      && c.read + c.dropped == k.cursor - c.start
      && k.cursor + |s.core.slotSeq| >= c.goal + c.rounds
      && |c.buf| == s.core.width
      && (c.copying ==> ReadInv(s.core, k.cursor + 1, c.got, c.buf))
  }

  /** The call in progress dropped exactly the drops logged since its entry sample, and if it
      began at most N behind, each of those is a miss. */
  predicate DrainInv(s: Sys) {
    var k, c := s.cons, s.cons.call;
    c.Polling? ==>
      && k.base <= c.start <= k.base + |k.log|
      && k.totalDropped == Drops(k.log[..c.start - k.base])
      && (c.goal <= c.start + |s.core.slotSeq| ==>
            forall t | c.start - k.base <= t < |k.log| :: k.log[t].Read? || k.log[t].Missed?)
  }

  predicate Inv(s: Sys) {
    && CoreInv(s.core) && SPAN <= s.usizeMax
    && CursorInv(s) && CountsInv(s) && LogInv(s) && CallInv(s) && DrainInv(s)
  }

  lemma InitInv(s: Sys)
    requires Init(s)
    ensures Inv(s)
  {
    InitCoreInv(s.core);
  }

  lemma OutcomeStable(c: Core, p: PushStep, j: nat, o: Outcome)
    requires CoreInv(c) && CanPush(c, p) && 0 < j <= |c.pushed| && OutcomeHolds(c, j, o)
    ensures j <= |ProducerStep(c, p).pushed| && OutcomeHolds(ProducerStep(c, p), j, o)
  {
    PushStepKeepsInv(c, p);
  }

  lemma PushKeepsLog(s: Sys, p: PushStep)
    requires CoreInv(s.core) && LogInv(s) && CanPush(s.core, p)
    ensures LogInv(s.(core := ProducerStep(s.core, p)))
  {
    forall t | 0 <= t < |s.cons.log| ensures OutcomeHolds(ProducerStep(s.core, p), s.cons.base + t + 1, s.cons.log[t]) {
      OutcomeStable(s.core, p, s.cons.base + t + 1, s.cons.log[t]);
    }
  }

  lemma PushKeepsCall(s: Sys, p: PushStep)
    requires Inv(s) && Enabled(s, Push(p))
    ensures CallInv(Stepped(s, Push(p)))
  {
    assert Published(s.core) <= Published(ProducerStep(s.core, p)) by { PushStepKeepsInv(s.core, p); }
    if s.cons.call.Polling? && s.cons.call.copying {
      PushStepKeepsRead(s.core, p, s.cons.cursor + 1, s.cons.call.got, s.cons.call.buf);
    }
  }

  lemma PushKeepsInv(s: Sys, p: PushStep)
    requires Inv(s) && Enabled(s, Push(p))
    ensures Inv(Stepped(s, Push(p)))
  {
    PushKeepsLog(s, p);
    PushKeepsCall(s, p);
    PushStepKeepsInv(s.core, p);
  }

  /** The entry sample as ordinals: the distance the code computes is the true lag less whole
      spans, and the cursor word also stands for the ordinal that distance behind the goal. */
  lemma EntryLag(cursor: U32, c: nat, goal: nat)
    requires CursorAt(cursor, c) && c <= goal && 0 < goal && SeqOf(goal) != cursor
    requires cursor == 0 ==> c < goal
    ensures var lag := SeqDistance(cursor, SeqOf(goal)) as int;
            && 0 < lag <= SPAN && c + lag <= goal && (goal - lag - c) % SPAN == 0
            && (cursor != 0 ==> lag < SPAN)
            && CursorAt(cursor, goal - lag)
  {
    var lag := SeqDistance(cursor, SeqOf(goal)) as int;
    var g := if cursor != 0 then goal - c else goal - c - 1;
    assert lag == g % SPAN + (if cursor != 0 then 0 else 1) && (cursor != 0 ==> lag != 0) by {
      DistanceOfOrdinals(cursor, c, goal);
    }
    assert goal - lag - c == (g / SPAN) * SPAN;
    DivUnique(goal - lag - c, SPAN, g / SPAN, 0);
    if cursor != 0 {
      SameSequence(c, goal - lag);
    } else {
      DivUnique(goal - lag, SPAN, c / SPAN + g / SPAN, 0);
    }
  }

  /** A call is about to find something to drain.  The parts of `Inv` its entry needs. */
  predicate EntersLoop(s: Sys, max: nat) {
    && s.cons.call.NoCall? && 0 < max && SPAN <= s.usizeMax && 0 < |s.core.slotSeq|
    && CursorInv(s) && s.core.publishedSeq == SeqOf(Published(s.core))
    && s.core.publishedSeq != 0 && s.core.publishedSeq != s.cons.lastSeq
  }

  /** The entry of a call with something to drain, in ordinals: `silent` whole-span ordinals
      pass unseen, then the jump (if any) drops `jumped`, and the loop starts at `at`. */
  lemma EntryShape(s: Sys, max: nat)
    requires EntersLoop(s, max)
    ensures var k, n, goal := s.cons, |s.core.slotSeq|, Published(s.core);
            var lag := SeqDistance(k.lastSeq, s.core.publishedSeq) as int;
            var k' := Entered(k, max, s.core.publishedSeq, goal, n, s.core.width, s.usizeMax);
            var left := if lag <= n then lag else if s.core.publishedSeq as int < n then n - 1 else n;
            && 0 < lag <= SPAN && k.cursor + lag <= goal && (goal - lag - k.cursor) % SPAN == 0
            && 0 < left <= lag
            && k'.cursor == goal - left && k'.call.start == goal - lag && k'.call.dropped == lag - left
            && k'.log == k.log + Repeat(Silent(k.cursor, goal), goal - lag - k.cursor) + Repeat(Jumped(goal), lag - left)
            && CursorAt(k'.lastSeq, goal - left)
  {
    hide SeqOf, CursorAt, SeqDistance, ResumeAfter;
    var k, n, goal := s.cons, |s.core.slotSeq|, Published(s.core);
    SeqZeroIff(goal);
    EntryLag(k.lastSeq, k.cursor, goal);
    var lag := SeqDistance(k.lastSeq, s.core.publishedSeq) as int;
    if n < lag {
      JumpWords(k.lastSeq, s.core.publishedSeq, n);
      JumpOrdinal(s.core.publishedSeq, goal, n);
    } else {
      assert k.log + Repeat(Silent(k.cursor, goal), goal - lag - k.cursor)
          == k.log + Repeat(Silent(k.cursor, goal), goal - lag - k.cursor) + Repeat(Jumped(goal), 0);
    }
  }

  lemma CountsFollow(s: Sys, s': Sys, a: Outcome, i: nat, b: Outcome, j: nat)
    requires CountsInv(s) && s.cons.call.NoCall? && a.Silent? && b.Jumped? && i % SPAN == 0
    requires s'.usizeMax == s.usizeMax
    requires var k, k' := s.cons, s'.cons;
             && k'.log == k.log + Repeat(a, i) + Repeat(b, j) && k'.base == k.base && k'.hooked == k.hooked
             && k'.totalRead == k.totalRead && k'.totalDropped == k.totalDropped
             && k'.droppedAccum == k.droppedAccum && k'.dropsSinceReset == k.dropsSinceReset
             && k'.call.Polling? && k'.call.read == 0 && k'.call.dropped == j
    ensures CountsInv(s')
  {
    LogEntry(s.cons.log, a, i, b, j, s.cons.base);
    var m := Silences(s.cons.log);
    DivUnique(m + i, SPAN, m / SPAN + i / SPAN, 0);
  }

  lemma EntryKeepsCounts(s: Sys, max: nat)
    requires EntersLoop(s, max) && Shaped(s.core) && CountsInv(s)
    ensures CountsInv(Stepped(s, PollUpTo(max)))
  {
    var k, n, goal := s.cons, |s.core.slotSeq|, Published(s.core);
    var lag := SeqDistance(k.lastSeq, s.core.publishedSeq) as int;
    var left := if lag <= n then lag else if s.core.publishedSeq as int < n then n - 1 else n;
    EntryShape(s, max);
    CountsFollow(s, Stepped(s, PollUpTo(max)), Silent(k.cursor, goal), goal - lag - k.cursor, Jumped(goal), lag - left);
  }

  lemma EntryKeepsCall(s: Sys, max: nat)
    requires EntersLoop(s, max) && Shaped(s.core)
    ensures CallInv(Stepped(s, PollUpTo(max))) && CursorInv(Stepped(s, PollUpTo(max)))
  {
    EntryShape(s, max);
  }

  lemma LogFollows(s: Sys, s': Sys, lag: nat, left: nat)
    requires Shaped(s.core) && LogInv(s) && s'.core == s.core && s'.cons.base == s.cons.base
    requires s.cons.cursor == s.cons.base + |s.cons.log|
    requires var k, n, goal := s.cons, |s.core.slotSeq|, Published(s.core);
             && 0 < lag && k.cursor + lag <= goal && (goal - lag - k.cursor) % SPAN == 0
             && left <= lag && (left == lag || left == if SeqOf(goal) as int < n then n - 1 else n)
             && s'.cons.log == k.log + Repeat(Silent(k.cursor, goal), goal - lag - k.cursor)
                             + Repeat(Jumped(goal), lag - left)
    ensures LogInv(s')
  {
    var k, k', goal := s.cons, s'.cons, Published(s.core);
    forall t | 0 <= t < |k'.log| ensures OutcomeHolds(s.core, k'.base + t + 1, k'.log[t]) {
      if t < |k.log| {
        assert k'.log[t] == k.log[t];
      } else if t < |k.log| + (goal - lag - k.cursor) {
        assert k'.log[t] == Silent(k.cursor, goal);
      } else {
        assert k'.log[t] == Jumped(goal);
      }
    }
  }

  lemma EntryKeepsLog(s: Sys, max: nat)
    requires EntersLoop(s, max) && Shaped(s.core) && LogInv(s)
    ensures LogInv(Stepped(s, PollUpTo(max)))
  {
    var n := |s.core.slotSeq|;
    var lag := SeqDistance(s.cons.lastSeq, s.core.publishedSeq) as int;
    var left := if lag <= n then lag else if s.core.publishedSeq as int < n then n - 1 else n;
    EntryShape(s, max);
    LogFollows(s, Stepped(s, PollUpTo(max)), lag, left);
  }

  lemma EntryKeepsDrain(s: Sys, max: nat)
    requires EntersLoop(s, max) && Shaped(s.core) && CountsInv(s)
    ensures DrainInv(Stepped(s, PollUpTo(max)))
  {
    EntryShape(s, max);
    hide SeqOf, CursorAt, SeqDistance, ResumeAfter, Drops;
    var k, n, goal := s.cons, |s.core.slotSeq|, Published(s.core);
    var lag := SeqDistance(k.lastSeq, s.core.publishedSeq) as int;
    var silent := goal - lag - k.cursor;
    var k' := Stepped(s, PollUpTo(max)).cons;
    LogRepeat(k.log, Silent(k.cursor, goal), silent, k.base);
    assert k'.log[..|k.log| + silent] == k.log + Repeat(Silent(k.cursor, goal), silent);
  }

  lemma IdlePollKeepsInv(s: Sys, max: nat)
    requires Inv(s) && Enabled(s, PollUpTo(max)) && !EntersLoop(s, max)
    ensures Inv(Stepped(s, PollUpTo(max)))
  {
    assert Stepped(s, PollUpTo(max)) == s.(cons := s.cons.(returned := Stepped(s, PollUpTo(max)).cons.returned));
  }

  lemma PollKeepsInv(s: Sys, max: nat)
    requires Inv(s) && Enabled(s, PollUpTo(max))
    ensures Inv(Stepped(s, PollUpTo(max)))
  {
    if EntersLoop(s, max) {
      EntryKeepsCounts(s, max);
      EntryKeepsCall(s, max);
      EntryKeepsLog(s, max);
      EntryKeepsDrain(s, max);
    } else {
      IdlePollKeepsInv(s, max);
    }
  }

  lemma AdvanceKeepsCursor(s: Sys, o: Outcome)
    requires CursorInv(s) && Shaped(s.core) && CallInv(s) && s.cons.call.Polling? && SPAN <= s.usizeMax
    ensures var s' := s.(cons := Advanced(s.cons, NextAfter(s.cons.lastSeq), o, s.usizeMax));
            CursorInv(s') && CallInv(s')
    ensures NextAfter(s.cons.lastSeq) == SeqOf(s.cons.cursor + 1)
    ensures s.cons.call.dropped < SPAN
  {
    var k := s.cons;
    NextAfterIsSuccessor(k.lastSeq, k.cursor);
    SeqZeroIff(k.cursor + 1);
    SameSequence(k.cursor + 1, k.call.goal);
    var gap := k.call.goal - k.cursor - 1;
    DivUnique(gap, SPAN, 0, gap);
  }

  lemma AdvanceKeepsLog(s: Sys, o: Outcome)
    requires Shaped(s.core) && LogInv(s) && s.cons.call.Polling? && s.cons.cursor == s.cons.base + |s.cons.log|
    requires s.cons.cursor < |s.core.pushed| && OutcomeHolds(s.core, s.cons.cursor + 1, o)
    ensures LogInv(s.(cons := Advanced(s.cons, NextAfter(s.cons.lastSeq), o, s.usizeMax)))
  {
    hide OutcomeHolds, NextAfter;
    var k := s.cons;
    var k' := Advanced(k, NextAfter(k.lastSeq), o, s.usizeMax);
    assert k'.log == k.log + [o] && k'.base == k.base;
    forall t | 0 <= t < |k'.log| ensures OutcomeHolds(s.core, k'.base + t + 1, k'.log[t]) {
      if t < |k.log| { assert k'.log[t] == k.log[t]; }
    }
  }

  lemma AdvanceKeepsCounts(s: Sys, o: Outcome)
    requires CountsInv(s) && s.cons.call.Polling? && s.cons.call.dropped < s.usizeMax
    requires s.cons.cursor == s.cons.base + |s.cons.log| && !o.Jumped? && !o.Silent?
    ensures CountsInv(s.(cons := Advanced(s.cons, SeqOf(s.cons.cursor + 1), o, s.usizeMax)))
  {
    hide SeqOf, Reads, Drops, Silences, Deliveries;
    LogSnoc(s.cons.log, o, s.cons.base);
  }

  lemma AdvanceKeepsDrain(s: Sys, o: Outcome)
    requires DrainInv(s) && s.cons.call.Polling? && (o.Read? || o.Missed?)
    ensures DrainInv(s.(cons := Advanced(s.cons, NextAfter(s.cons.lastSeq), o, s.usizeMax)))
  {
    hide NextAfter, Drops;
    var m := s.cons.call.start - s.cons.base;
    assert (s.cons.log + [o])[..m] == s.cons.log[..m];
  }

  /** One loop round: `o` is the outcome of the next ordinal. */
  lemma AdvanceKeepsInv(s: Sys, o: Outcome)
    requires Inv(s) && s.cons.call.Polling? && !o.Jumped? && !o.Silent?
    requires OutcomeHolds(s.core, s.cons.cursor + 1, o)
    ensures Inv(s.(cons := Advanced(s.cons, NextAfter(s.cons.lastSeq), o, s.usizeMax)))
  {
    AdvanceKeepsCursor(s, o);
    AdvanceKeepsLog(s, o);
    AdvanceKeepsCounts(s, o);
    AdvanceKeepsDrain(s, o);
  }

  lemma CopyStartKeepsInv(s: Sys)
    requires Inv(s) && s.cons.call.Polling? && !s.cons.call.copying
    ensures Inv(s.(cons := s.cons.(call := s.cons.call.(copying := true, got := {}))))
  {
    hide OwnersInv, SlotsInv, CountersInv, CursorAt, OutcomeHolds, Drops, Reads, Silences, Deliveries;
  }

  lemma CheckKeepsInv(s: Sys, a: Step)
    requires Inv(s) && Enabled(s, a) && (a.FirstCheck? || a.SecondCheck?)
    ensures Inv(Stepped(s, a))
  {
    var c, k := s.core, s.cons;
    var j := k.cursor + 1;
    NextAfterIsSuccessor(k.lastSeq, k.cursor);
    SeqOfSlot(j, |c.slotSeq|);
    hide SeqOf, NextAfter, IdxFor, SlotOf, OwnersInv, SlotsInv, CountersInv, CursorInv, CountsInv, DrainInv, Advanced;
    if c.slotSeq[SlotOf(j, |c.slotSeq|)] != SeqOf(j) {
      MissIsAnOverwrite(c, j);
      AdvanceKeepsInv(s, Missed(c.owner[SlotOf(j, |c.slotSeq|)]));
    } else if a.SecondCheck? {
      AcceptedCopyIsTheValue(c, j, k.call.got, k.call.buf);
      AdvanceKeepsInv(s, Read(k.call.buf, Stored(c)));
    } else {
      CopyStartKeepsInv(s);
    }
  }

  lemma CopyKeepsInv(s: Sys, w: nat)
    requires Inv(s) && Enabled(s, CopyWord(w))
    ensures Inv(Stepped(s, CopyWord(w)))
  {
    NextAfterIsSuccessor(s.cons.lastSeq, s.cons.cursor);
    SeqOfSlot(s.cons.cursor + 1, |s.core.slotSeq|);
    hide SeqOf, CursorAt, NextAfter, IdxFor, SlotOf, OwnersInv, SlotsInv, CountersInv, OutcomeHolds, Drops, Reads, Silences, Deliveries;
    CopyKeepsRead(s.core, s.cons.cursor + 1, s.cons.call.got, s.cons.call.buf, w);
  }

  lemma SkippedCursor(p: nat)
    requires 0 < p
    ensures CursorAt(WrapSub(SeqOf(p), 1), p - 1)
  {
    var q, r := (p - 1) / SPAN, (p - 1) % SPAN;
    if 0 < r { DivUnique(p - 2, SPAN, q, r - 1); }
  }

  lemma FreshCursorBelow(p: nat)
    ensures CursorAt(0, FreshCursor(p)) && FreshCursor(p) <= p && (0 < p ==> FreshCursor(p) < p)
  {
    if 0 < p { DivUnique(FreshCursor(p), SPAN, (p - 1) / SPAN, 0); }
  }

  /** A history that starts over at a cursor the word stands for. */
  lemma RestartedInv(s: Sys, k: Handle, base: nat)
    requires CoreInv(s.core) && SPAN <= s.usizeMax && k.call.NoCall?
    requires CursorAt(k.lastSeq, base) && base <= Published(s.core)
    requires k.lastSeq == 0 && 0 < Published(s.core) ==> base < Published(s.core)
    requires k.droppedAccum == if k.dropsSinceReset <= s.usizeMax then k.dropsSinceReset else s.usizeMax
    ensures Inv(s.(cons := Restarted(k, base)))
  {
    hide CursorAt, OwnersInv, SlotsInv;
  }

  lemma RestartKeepsInv(s: Sys, a: Step)
    requires Inv(s) && Enabled(s, a) && (a.SkipToLatest? || a.Reacquire? || a.ResetDropped?)
    ensures Inv(Stepped(s, a))
  {
    var k, p := s.cons, Published(s.core);
    FreshCursorBelow(p);
    SeqZeroIff(p);
    hide SeqOf, CursorAt, FreshCursor, OwnersInv, SlotsInv, Restarted, OutcomeHolds, Drops, Reads, Silences, Deliveries;
    if a.SkipToLatest? && 0 < p {
      SkippedCursor(p);
      RestartedInv(s, k.(lastSeq := WrapSub(s.core.publishedSeq, 1)), p - 1);
    } else if a.Reacquire? {
      RestartedInv(s, k.(lastSeq := 0, droppedAccum := 0, dropsSinceReset := 0), FreshCursor(p));
    }
  }

  lemma StepKeepsInv(s: Sys, a: Step)
    requires Inv(s) && Enabled(s, a)
    ensures Inv(Stepped(s, a))
  {
    match a
    case Push(p) => PushKeepsInv(s, p);
    case PollUpTo(max) => PollKeepsInv(s, max);
    case CopyWord(w) => CopyKeepsInv(s, w);
    case FirstCheck => CheckKeepsInv(s, a);
    case SecondCheck => CheckKeepsInv(s, a);
    case _ => RestartKeepsInv(s, a);
  }

  lemma {:induction false} RunKeepsInv(run: seq<Sys>, steps: seq<Step>)
    requires Run(run, steps)
    ensures Inv(run[|steps|])
  {
    var t := |steps|;
    if t == 0 {
      InitInv(run[0]);
    } else {
      RunKeepsInv(run[..t], steps[..t - 1]);
      StepKeepsInv(run[t - 1], steps[t - 1]);
    }
  }
}
