/** A `poll_up_to` of the step machine with no push in between does exactly what the object's
    does: it `Drains`. */
module SeqRingSolo {
  import opened SeqArith
  import opened SeqRingCore
  import opened SeqRingPoll
  import opened SeqRingWrap
  import R = SeqRing

  predicate PollPath(run: seq<Sys>, steps: seq<Step>) {
    && |run| == |steps| + 1
    && (forall t | 0 <= t < |steps| ::
          Shaped(run[t].core) && Enabled(run[t], steps[t]) && run[t + 1] == Stepped(run[t], steps[t]))
  }

  predicate GoesOn(run: seq<Sys>, steps: seq<Step>, run': seq<Sys>, steps': seq<Step>) {
    PollPath(run, steps) && PollPath(run', steps') && run <= run' && steps <= steps'
  }

  lemma Go(run: seq<Sys>, steps: seq<Step>, a: Step) returns (run': seq<Sys>, steps': seq<Step>)
    requires PollPath(run, steps) && Shaped(run[|steps|].core) && Enabled(run[|steps|], a)
    ensures GoesOn(run, steps, run', steps') && run'[|steps'|] == Stepped(run[|steps|], a)
    ensures steps' == steps + [a]
  {
    run', steps' := run + [Stepped(run[|steps|], a)], steps + [a];
  }

  // ---------------------------------------------------------------- the copy

  /** The words below w are copied. */
  function PartCopied(s: Sys, w: nat): Sys
    requires Shaped(s.core) && s.cons.call.Polling? && w <= s.core.width == |s.cons.call.buf|
  {
    var slot := s.core.slots[IdxFor(NextAfter(s.cons.lastSeq), |s.core.slotSeq|)];
    s.(cons := s.cons.(call := s.cons.call.(got := Below(w), buf := slot[..w] + s.cons.call.buf[w..])))
  }

  lemma {:induction false} CopyUpTo(run: seq<Sys>, steps: seq<Step>, w: nat)
    returns (run': seq<Sys>, steps': seq<Step>)
    requires PollPath(run, steps) && Shaped(run[|steps|].core)
    requires var s := run[|steps|];
             s.cons.call.Polling? && s.cons.call.copying && s.cons.call.got == {} && w <= s.core.width == |s.cons.call.buf|
    ensures GoesOn(run, steps, run', steps') && run'[|steps'|] == PartCopied(run[|steps|], w)
  {
    var s := run[|steps|];
    if w == 0 {
      run', steps' := run, steps;
      var slot := s.core.slots[IdxFor(NextAfter(s.cons.lastSeq), |s.core.slotSeq|)];
      assert slot[..0] + s.cons.call.buf[0..] == s.cons.call.buf;
    } else {
      run', steps' := CopyUpTo(run, steps, w - 1);
      NextWord(s, w - 1);
      hide Stepped, Enabled, PartCopied, Shaped;
      run', steps' := Go(run', steps', CopyWord(w - 1));
    }
  }

  lemma NextWord(s: Sys, w: nat)
    requires Shaped(s.core) && s.cons.call.Polling? && s.cons.call.copying && w < s.core.width == |s.cons.call.buf|
    ensures Shaped(PartCopied(s, w).core) && Enabled(PartCopied(s, w), CopyWord(w))
    ensures Stepped(PartCopied(s, w), CopyWord(w)) == PartCopied(s, w + 1)
  {
    var slot := s.core.slots[IdxFor(NextAfter(s.cons.lastSeq), |s.core.slotSeq|)];
    var part := PartCopied(s, w);
    assert part.cons.call.buf[w := slot[w]] == slot[..w + 1] + s.cons.call.buf[w + 1..];
    assert Below(w) + {w} == Below(w + 1);
  }

  // ---------------------------------------------------------------- one round

  /** What a round of the loop does to the handle when the slot still holds its ordinal, and when
      it does not. */
  function Rounded(s: Sys): Handle
    requires Shaped(s.core) && s.cons.call.Polling?
  {
    var next := NextAfter(s.cons.lastSeq);
    var idx := IdxFor(next, |s.core.slotSeq|);
    if s.core.slotSeq[idx] != next then Advanced(s.cons, next, Missed(s.core.owner[idx]), s.usizeMax)
    else
      var filled := s.cons.(call := s.cons.call.(copying := true, got := Below(s.core.width), buf := s.core.slots[idx]));
      Advanced(filled, next, Read(s.core.slots[idx], Stored(s.core)), s.usizeMax)
  }

  lemma OneRound(run: seq<Sys>, steps: seq<Step>) returns (run': seq<Sys>, steps': seq<Step>)
    requires PollPath(run, steps) && Shaped(run[|steps|].core)
    requires var s := run[|steps|]; s.cons.call.Polling? && !s.cons.call.copying && |s.cons.call.buf| == s.core.width
    ensures GoesOn(run, steps, run', steps') && run'[|steps'|] == run[|steps|].(cons := Rounded(run[|steps|]))
  {
    var s := run[|steps|];
    var next := NextAfter(s.cons.lastSeq);
    var idx := IdxFor(next, |s.core.slotSeq|);
    run', steps' := Go(run, steps, FirstCheck);
    if s.core.slotSeq[idx] == next {
      run', steps' := CopyUpTo(run', steps', s.core.width);
      assert s.core.slots[idx][..s.core.width] + s.cons.call.buf[s.core.width..] == s.core.slots[idx];
      run', steps' := Go(run', steps', SecondCheck);
    }
  }

  // ---------------------------------------------------------------- the loop

  /** The loop of a call that entered it in `s0`, after some rounds. */
  predicate Draining(s0: Sys, s: Sys) {
    var k0, k := s0.cons, s.cons;
    && Shaped(s0.core) && s.core == s0.core && s.usizeMax == s0.usizeMax && s0.core.phase.Idle?
    && k0.call.Polling? && k.call.Polling? && k0.call.goal == |s0.core.pushed| && k0.call.read == 0
    && k.call == k0.call.(read := k.call.read, dropped := k.call.dropped, copying := false,
                          got := k.call.got, buf := k.call.buf, rounds := k.call.rounds)
    && k.returned == k0.returned && k.droppedAccum == k0.droppedAccum
    && k0.cursor <= k.cursor < |s0.core.pushed|
  }

  ghost predicate Delivered(s0: Sys, s: Sys, read: nat, dropped: nat)
    requires Shaped(s0.core) && s0.cons.call.Polling? && s0.cons.cursor <= s.cons.cursor <= |s0.core.pushed|
  {
    var out := R.Kept(s0.core, s0.cons.cursor, s.cons.cursor);
    s.cons.hooked == s0.cons.hooked + out && read == |out|
    && dropped == s0.cons.call.dropped + s.cons.cursor - s0.cons.cursor - |out|
  }

  /** The call has returned, at its goal or with its budget spent. */
  ghost predicate Drained(s0: Sys, s: Sys) {
    var k0, k, c := s0.cons, s.cons, s0.core;
    && Shaped(c) && s.core == c && k0.call.Polling? && k.call.NoCall?
    && k0.cursor < k.cursor <= |c.pushed| && k.lastSeq == SeqOf(k.cursor)
    && |k.returned| == |k0.returned| + 1 && k0.returned <= k.returned
    && var st := k.returned[|k0.returned|];
    && Delivered(s0, s, st.read, st.dropped) && st.newest == k0.call.newest
    && (k.cursor == |c.pushed| || st.read == k0.call.max)
    && |R.Kept(c, k0.cursor, k.cursor - 1)| < k0.call.max
    && k.droppedAccum == SatAdd(k0.droppedAccum, st.dropped, s0.usizeMax)
  }

  /** The check of the next ordinal on a ring at rest. */
  lemma NextOnQuiet(s: Sys)
    requires Inv(s) && s.core.phase.Idle? && s.cons.call.Polling? && s.cons.call.goal == |s.core.pushed|
    ensures var j := s.cons.cursor + 1;
            var next := NextAfter(s.cons.lastSeq);
            var idx := IdxFor(next, |s.core.slotSeq|);
            && next == SeqOf(j) && j <= |s.core.pushed|
            && (s.core.slotSeq[idx] == next <==> !Overwritten(j, |s.core.pushed|, |s.core.slotSeq|))
            && (s.core.slotSeq[idx] == next ==> s.core.slots[idx] == s.core.pushed[j - 1])
            && (next == s.cons.call.newest <==> j == |s.core.pushed|)
    ensures s.cons.call.read < s.cons.call.max && s.cons.call.dropped < SPAN <= s.usizeMax
  {
    var j := s.cons.cursor + 1;
    NextAfterIsSuccessor(s.cons.lastSeq, s.cons.cursor);
    R.WordOwnsIff(s.core, j);
    SameSequence(j, |s.core.pushed|);
    DivUnique(|s.core.pushed| - j, SPAN, 0, |s.core.pushed| - j);
  }

  /** The handle after a round on a ring at rest: the next ordinal is delivered or counted, and
      the call returns exactly at its goal or with its budget spent. */
  predicate RoundedTo(s: Sys, k': Handle)
    requires 0 < |s.core.slotSeq| && s.cons.call.Polling? && s.cons.cursor < |s.core.pushed|
  {
    var k, j := s.cons, s.cons.cursor + 1;
    var hit := !Overwritten(j, |s.core.pushed|, |s.core.slotSeq|);
    var read := k.call.read + if hit then 1 else 0;
    var dropped := k.call.dropped + if hit then 0 else 1;
    && k'.cursor == j && k'.lastSeq == SeqOf(j) && k.call.read < k.call.max
    && k'.hooked == k.hooked + (if hit then [(SeqOf(j), s.core.pushed[j - 1])] else [])
    && if read < k.call.max && j < |s.core.pushed| then
         && k'.call.Polling? && k'.returned == k.returned && k'.droppedAccum == k.droppedAccum
         && k'.call == k.call.(read := read, dropped := dropped, copying := false,
                               got := k'.call.got, buf := k'.call.buf, rounds := k'.call.rounds)
       else
         && k'.call.NoCall? && k'.returned == k.returned + [Stats(read, dropped, k.call.newest)]
         && k'.droppedAccum == SatAdd(k.droppedAccum, dropped, s.usizeMax)
  }

  lemma RoundIs(s: Sys)
    requires Inv(s) && s.core.phase.Idle? && s.cons.call.Polling? && s.cons.call.goal == |s.core.pushed|
    ensures s.cons.cursor < |s.core.pushed| && RoundedTo(s, Rounded(s))
  {
    NextOnQuiet(s);
    hide SeqOf, NextAfter, IdxFor, Inv, Overwritten;
  }

  lemma RoundGoesOn(s0: Sys, s: Sys, k': Handle)
    requires Draining(s0, s) && Delivered(s0, s, s.cons.call.read, s.cons.call.dropped)
    requires 0 < |s.core.slotSeq| && RoundedTo(s, k') && k'.call.Polling?
    ensures var s' := s.(cons := k');
            Draining(s0, s') && Delivered(s0, s', k'.call.read, k'.call.dropped)
  {
    R.KeptNext(s0.core, s0.cons.cursor, s.cons.cursor);
    hide SeqOf, R.Kept, Overwritten, SatAdd, Shaped;
  }

  lemma RoundReturns(s0: Sys, s: Sys, k': Handle)
    requires Draining(s0, s) && Delivered(s0, s, s.cons.call.read, s.cons.call.dropped)
    requires 0 < |s.core.slotSeq| && RoundedTo(s, k') && k'.call.NoCall?
    ensures Drained(s0, s.(cons := k'))
  {
    R.KeptNext(s0.core, s0.cons.cursor, s.cons.cursor);
    hide SeqOf, R.Kept, Overwritten, SatAdd, Shaped;
  }

  lemma RoundDelivers(s0: Sys, s: Sys)
    requires Inv(s) && Draining(s0, s) && Delivered(s0, s, s.cons.call.read, s.cons.call.dropped)
    ensures var s' := s.(cons := Rounded(s));
            if s'.cons.call.Polling? then
              && Draining(s0, s') && Delivered(s0, s', s'.cons.call.read, s'.cons.call.dropped)
              && s'.cons.cursor == s.cons.cursor + 1
            else
              Drained(s0, s')
  {
    RoundIs(s);
    hide Inv, Rounded, Delivered, Drained;
    if Rounded(s).call.Polling? { RoundGoesOn(s0, s, Rounded(s)); } else { RoundReturns(s0, s, Rounded(s)); }
  }

  lemma {:induction false} PathKeepsInv(run: seq<Sys>, steps: seq<Step>, t0: nat, t: nat)
    requires PollPath(run, steps) && t0 <= t < |run| && Inv(run[t0])
    ensures Inv(run[t])
    decreases t
  {
    hide Inv, Stepped, Enabled, Shaped;
    if t0 < t {
      PathKeepsInv(run, steps, t0, t - 1);
      StepKeepsInv(run[t - 1], steps[t - 1]);
    }
  }

  lemma {:induction false} DrainOn(run: seq<Sys>, steps: seq<Step>, s0: Sys)
    returns (run': seq<Sys>, steps': seq<Step>)
    requires PollPath(run, steps) && Inv(run[|steps|]) && Draining(s0, run[|steps|])
    requires Delivered(s0, run[|steps|], run[|steps|].cons.call.read, run[|steps|].cons.call.dropped)
    ensures GoesOn(run, steps, run', steps') && Drained(s0, run'[|steps'|])
    decreases |s0.core.pushed| - run[|steps|].cons.cursor
  {
    var s := run[|steps|];
    RoundDelivers(s0, s);
    run', steps' := OneRound(run, steps);
    if run'[|steps'|].cons.call.Polling? {
      assert run'[|steps|] == s;
      PathKeepsInv(run', steps', |steps|, |steps'|);
      hide Inv, Draining, Delivered, Drained, Stepped, Enabled;
      run', steps' := DrainOn(run', steps', s0);
    }
  }

  // ---------------------------------------------------------------- the call

  lemma EntryDrains(s: Sys, max: nat)
    requires Inv(s) && s.core.phase.Idle? && s.cons.call.NoCall? && EntersLoop(s, max)
    ensures var s0, n := Stepped(s, PollUpTo(max)), |s.core.slotSeq|;
            var lag := SeqDistance(s.cons.lastSeq, s.core.publishedSeq) as int;
            && Inv(s0) && Draining(s0, s0) && Delivered(s0, s0, 0, s0.cons.call.dropped)
            && s0.cons.hooked == s.cons.hooked && s0.cons.returned == s.cons.returned
            && s0.cons.droppedAccum == s.cons.droppedAccum && s0.cons.call.max == max && s0.core == s.core
            && s0.cons.call.newest == s.core.publishedSeq == SeqOf(|s.core.pushed|) && s0.usizeMax == s.usizeMax
            && 0 < Left(lag, s.core.publishedSeq, n) <= lag <= SPAN && s.cons.cursor + lag <= |s.core.pushed|
            && s0.cons.cursor == |s.core.pushed| - Left(lag, s.core.publishedSeq, n)
            && s0.cons.call.dropped == lag - Left(lag, s.core.publishedSeq, n)
  {
    EntryIs(s, max);
    StepKeepsInv(s, PollUpTo(max));
    NothingKept(s.core, Stepped(s, PollUpTo(max)).cons.cursor);
    hide SeqOf, SeqDistance, Inv, R.Kept, Stepped, EntersLoop;
  }

  lemma NothingKept(c: Core, a: nat)
    requires a <= |c.pushed| && 0 < |c.slotSeq|
    ensures R.Kept(c, a, a) == []
  {
  }

  lemma EntryIs(s: Sys, max: nat)
    requires Inv(s) && s.core.phase.Idle? && s.cons.call.NoCall? && EntersLoop(s, max)
    ensures var s0, n := Stepped(s, PollUpTo(max)), |s.core.slotSeq|;
            var lag := SeqDistance(s.cons.lastSeq, s.core.publishedSeq) as int;
            && Draining(s0, s0) && s0.cons.hooked == s.cons.hooked && s0.cons.returned == s.cons.returned
            && s0.cons.droppedAccum == s.cons.droppedAccum && s0.cons.call.max == max && s0.core == s.core
            && s0.cons.call.newest == s.core.publishedSeq == SeqOf(|s.core.pushed|) && s0.usizeMax == s.usizeMax
            && 0 < Left(lag, s.core.publishedSeq, n) <= lag <= SPAN && s.cons.cursor + lag <= |s.core.pushed|
            && s0.cons.cursor == |s.core.pushed| - Left(lag, s.core.publishedSeq, n)
            && s0.cons.call.dropped == lag - Left(lag, s.core.publishedSeq, n)
  {
    EntryShape(s, max);
    assert Shaped(s.core) && s.core.publishedSeq == SeqOf(|s.core.pushed|) && Published(s.core) == |s.core.pushed|;
    hide SeqOf, SeqDistance, ResumeAfter, CursorAt, Inv, Published, EntersLoop, Repeat;
  }

  /** A poll with no push in between returns the stats and makes the hook calls of the object's:
      none if there is no news, otherwise those of `Drains`. */
  lemma PollIsCall(s: Sys, max: nat) returns (run: seq<Sys>, steps: seq<Step>, out: seq<(U32, Payload)>, st: Stats)
    requires Inv(s) && s.core.phase.Idle? && s.cons.call.NoCall?
    ensures PollPath(run, steps) && run[0] == s && steps != [] && steps[0] == PollUpTo(max)
    ensures var s', k, k' := run[|steps|], s.cons, run[|steps|].cons;
            && s'.core == s.core && k'.call.NoCall? && k'.hooked == k.hooked + out && k'.returned == k.returned + [st]
            && st.newest == s.core.publishedSeq && st.read == |out|
            && if max == 0 || s.core.publishedSeq == 0 || s.core.publishedSeq == k.lastSeq then
                 out == [] && st.dropped == 0 && k' == k.(returned := k'.returned)
               else
                 var lag := SeqDistance(k.lastSeq, s.core.publishedSeq) as int;
                 && R.Drains(s.core, lag, max, k'.cursor, out, st.dropped)
                 && k'.lastSeq == SeqOf(k'.cursor) && k'.droppedAccum == SatAdd(k.droppedAccum, st.dropped, s.usizeMax)
  {
    run, steps := Go([s], [], PollUpTo(max));
    if max == 0 || s.core.publishedSeq == 0 || s.core.publishedSeq == s.cons.lastSeq {
      out, st := [], Stats(0, 0, s.core.publishedSeq);
    } else {
      var run0, steps0, s0 := run, steps, run[|steps|];
      EntryDrains(s, max);
      hide Inv, Draining, Delivered, Stepped, Enabled, EntersLoop, R.Kept, SeqDistance, SatAdd;
      run, steps := DrainOn(run0, steps0, s0);
      var s' := run[|steps|];
      out, st := R.Kept(s.core, s0.cons.cursor, s'.cons.cursor), s'.cons.returned[|s.cons.returned|];
      DrainedDrains(s0, s', SeqDistance(s.cons.lastSeq, s.core.publishedSeq) as int, max, out, st);
      DrainedGives(s0, s');
    }
  }

  lemma DrainedGives(s0: Sys, s': Sys)
    requires Drained(s0, s')
    ensures var k0, k := s0.cons, s'.cons;
            && k0.cursor <= k.cursor <= |s0.core.pushed| && |k.returned| == |k0.returned| + 1
            && var out, st := R.Kept(s0.core, k0.cursor, k.cursor), k.returned[|k0.returned|];
            && k.hooked == k0.hooked + out && st.read == |out| && k.returned == k0.returned + [st]
  {
    hide R.Kept;
  }

  lemma DrainedDrains(s0: Sys, s': Sys, lag: nat, max: nat, out: seq<(U32, Payload)>, st: Stats)
    requires Drained(s0, s') && s0.cons.call.max == max
    requires var p, n := |s0.core.pushed|, |s0.core.slotSeq|;
             var left := Left(lag, SeqOf(p), n);
             0 < left <= lag <= p && lag <= SPAN && s0.cons.cursor == p - left && s0.cons.call.dropped == lag - left
    requires out == R.Kept(s0.core, s0.cons.cursor, s'.cons.cursor) && st == s'.cons.returned[|s0.cons.returned|]
    ensures R.Drains(s0.core, lag, max, s'.cons.cursor, out, st.dropped)
  {
    var p, n := |s0.core.pushed|, |s0.core.slotSeq|;
    if s'.cons.cursor == p && n < lag { R.FullDrainLoss(s0.core, lag); }
    hide SeqOf, R.Kept, DrainLoss, DrainLossBound, SatAdd, Left;
  }
}
