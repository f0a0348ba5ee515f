/** `SeqRing` in its own imperative form, with no step of the other side in between.

    The fields are read as the idle `Core` of the step machine, so the ring keeps the machine's
    invariant and a whole `push_inner` is the machine's uninterrupted push. */
module SeqRing {
  import opened Common
  import opened SeqArith
  import opened SeqRingCore
  import opened SeqRingWrap
  import opened SeqRingPoll

  // ---------------------------------------------------------------- what a drain delivers

  /** The entries in (a, b] whose slots no later push took, oldest first. */
  ghost function Kept(c: Core, a: nat, b: nat): (r: seq<(U32, Payload)>)
    requires a <= b <= |c.pushed| && 0 < |c.slotSeq|
    ensures |r| <= b - a
    decreases b
  {
    if a == b then [] else
      var newest := if Overwritten(b, |c.pushed|, |c.slotSeq|) then [] else [(SeqOf(b), c.pushed[b - 1])];
      Kept(c, a, b - 1) + newest
  }

  lemma KeptNext(c: Core, a: nat, b: nat)
    requires a <= b < |c.pushed| && 0 < |c.slotSeq|
    ensures Kept(c, a, b + 1)
         == if Overwritten(b + 1, |c.pushed|, |c.slotSeq|) then Kept(c, a, b)
            else Kept(c, a, b) + [(SeqOf(b + 1), c.pushed[b])]
  {
  }

  ghost function LostIn(a: nat, b: nat, p: nat, n: nat): (s: set<int>)
    requires 0 < n
  {
    set j: int | a < j <= b && Overwritten(j, p, n)
  }

  lemma {:induction false} KeptCount(c: Core, a: nat, b: nat)
    requires a <= b <= |c.pushed| && 0 < |c.slotSeq|
    ensures |Kept(c, a, b)| == b - a - |LostIn(a, b, |c.pushed|, |c.slotSeq|)|
    decreases b
  {
    var p, n := |c.pushed|, |c.slotSeq|;
    if a == b {
      assert LostIn(a, b, p, n) == {};
    } else {
      KeptCount(c, a, b - 1);
      if Overwritten(b, p, n) {
        assert LostIn(a, b, p, n) == LostIn(a, b - 1, p, n) + {b as int};
      } else {
        assert LostIn(a, b, p, n) == LostIn(a, b - 1, p, n);
      }
    }
  }

  /** What a poll of a quiet ring delivers if it drains to its goal, by the lag its entry found.
      At most N behind, all but the ordinals whose slots the wrap cost; further behind, exactly
      `DrainLoss` fewer than N. */
  lemma FullDrainLoss(c: Core, lag: nat)
    requires 0 < |c.slotSeq| <= SPAN && 0 < lag <= |c.pushed|
    ensures var p, n := |c.pushed|, |c.slotSeq|;
            var delivered := |Kept(c, p - Left(lag, SeqOf(p), n), p)|;
            && (lag <= n ==> lag - Min(SPAN % n, n - SPAN % n) <= delivered == lag - |LostIn(p - lag, p, p, n)|)
            && (n < lag ==> n - DrainLossBound(n) <= delivered == n - DrainLoss(p, n))
  {
    var p, n := |c.pushed|, |c.slotSeq|;
    KeptCount(c, p - Left(lag, SeqOf(p), n), p);
    hide Kept, LostIn, LostSet, Overwritten, DrainLoss, DrainLossBound;
    if lag <= n {
      WrapLossBound(p, n);
      LostWithin(p - lag, p, n);
    } else {
      DrainLossBounded(p, n);
      LostAfterJump(p, n, lag);
    }
  }

  lemma LostWithin(from: nat, p: nat, n: nat)
    requires 0 < n && p - n <= from <= p
    ensures |LostIn(from, p, p, n)| <= |LostSet(p, n)|
  {
    var some, all := LostIn(from, p, p, n), LostSet(p, n);
    assert all == some + (all - some) && some * (all - some) == {};
  }

  lemma LostAfterJump(p: nat, n: nat, lag: nat)
    requires 0 < n < lag <= p && n <= SPAN
    ensures var left := Left(lag, SeqOf(p), n); |LostIn(p - left, p, p, n)| == left - n + DrainLoss(p, n)
  {
    var left := Left(lag, SeqOf(p), n);
    if left == n {
      assert LostIn(p - left, p, p, n) == LostSet(p, n);
    } else {
      PassedEntry(p, n);
      var oldest := p - n + 1;
      if Overwritten(oldest, p, n) {
        assert LostSet(p, n) == LostIn(p - left, p, p, n) + {oldest};
      } else {
        assert LostSet(p, n) == LostIn(p - left, p, p, n);
      }
    }
  }

  /** The newest entry is always kept: what `latest` and a poll after `skip_to_latest` rely on. */
  lemma NewestIsKept(c: Core)
    requires 0 < |c.pushed| && 0 < |c.slotSeq|
    ensures var p := |c.pushed|; Kept(c, p - 1, p) == [(SeqOf(p), c.pushed[p - 1])]
  {
    assert !Overwritten(|c.pushed|, |c.pushed|, |c.slotSeq|);
    assert Kept(c, |c.pushed| - 1, |c.pushed| - 1) == [];
  }

  lemma WordOwnsIff(c: Core, j: nat)
    requires CoreInv(c) && c.phase.Idle? && 0 < j <= |c.pushed| < j + SPAN
    ensures var i := IdxFor(SeqOf(j), |c.slotSeq|);
            && (c.slotSeq[i] == SeqOf(j) <==> !Overwritten(j, |c.pushed|, |c.slotSeq|))
            && (c.slotSeq[i] == SeqOf(j) ==> c.slots[i] == c.pushed[j - 1])
  {
    SeqOfSlot(j, |c.slotSeq|);
    OwnsIff(c, j);
    var o := c.owner[SlotOf(j, |c.slotSeq|)];
    SameSequence(j, o);
    DivUnique(o - j, SPAN, 0, o - j);
  }

  // ---------------------------------------------------------------- the ring

  class Ring {
    var nextSeq: U32
    var publishedSeq: U32
    const slotSeq: array<U32>
    const slots: array<Payload>
    const width: nat
    var producerTaken: bool
    var consumerTaken: bool
    ghost var pushed: seq<Payload>
    ghost var owner: seq<nat>

    ghost function Abs(): Core
      reads this, slotSeq, slots
    {
      Core(nextSeq, publishedSeq, slotSeq[..], slots[..], width, Idle, publishedSeq, pushed, owner)
    }

    ghost predicate Valid()
      reads this, slotSeq, slots
    {
      CoreInv(Abs())
    }

    constructor (n: nat, width: nat)
      requires 0 < n
      ensures Valid() && pushed == [] && slotSeq.Length == n && this.width == width
      ensures fresh(slotSeq) && fresh(slots) && !producerTaken && !consumerTaken
    {
      nextSeq, publishedSeq := 0, 0;
      producerTaken, consumerTaken := false, false;
      slotSeq := new U32[n](_ => 0);
      slots := new Payload[n](_ => seq(width, _ => 0));
      this.width := width;
      pushed, owner := [], seq(n, _ => 0);
      new;
      InitCoreInv(Abs());
    }

    /** One handle per role.  A new consumer handle starts afresh, whatever an earlier one had
        read; taking or dropping a handle leaves the ring alone. */
    method TryProducer() returns (ok: bool)
      requires Valid()
      modifies this`producerTaken
      ensures Valid() && ok == !old(producerTaken) && producerTaken
    {
      ok := !producerTaken;
      producerTaken := true;
    }

    method DropProducer()
      requires Valid() && producerTaken
      modifies this`producerTaken
      ensures Valid() && !producerTaken
    {
      producerTaken := false;
    }

    method TryConsumer(usizeMax: nat) returns (handle: Option<Consumer>)
      requires Valid() && SPAN <= usizeMax
      modifies this`consumerTaken
      ensures Valid() && handle.Some? == !old(consumerTaken) && consumerTaken
      ensures handle.Some? ==>
                var c := handle.value;
                fresh(c) && c.Valid() && c.ring == this && c.lastSeq == 0 && c.droppedAccum == 0 && c.cursor == FreshCursor(|pushed|)
    {
      if consumerTaken { return None; }
      consumerTaken := true;
      var c := new Consumer(this, usizeMax);
      handle := Some(c);
    }

    method DropConsumer()
      requires Valid() && consumerTaken
      modifies this`consumerTaken
      ensures Valid() && !consumerTaken
    {
      consumerTaken := false;
    }

    method PushInner(value: Payload) returns (seq_: U32)
      requires Valid() && |value| == width
      modifies this`nextSeq, this`publishedSeq, this`pushed, this`owner, slotSeq, slots
      ensures Valid() && old(Abs().phase.Idle? && Shaped(Abs()))
      ensures Abs() == SoloPushed(old(Abs()), value)
      ensures pushed == old(pushed) + [value] && seq_ == SeqOf(|pushed|)
    {
      ghost var before := Abs();
      SoloPushKeepsInv(before, value);
      seq_ := WrapAdd(nextSeq, 1);
      nextSeq := seq_;
      if seq_ == 0 {
        seq_ := 1;
        nextSeq := 1;
      }
      var idx := IdxFor(seq_, slotSeq.Length);
      slotSeq[idx] := 0;
      slots[idx] := value;
      slotSeq[idx] := seq_;
      publishedSeq := seq_;
      pushed := pushed + [value];
      owner := owner[idx := |pushed|];
      assert slotSeq[..] == before.slotSeq[idx := seq_];
      assert slots[..] == before.slots[idx := value];
    }

    /** With nobody pushing, a read succeeds exactly if the ordinal's slot was not retaken, and
        then returns the value pushed as that ordinal. */
    method ReadSeqInner(seq_: U32) returns (r: Option<Payload>)
      requires Valid()
      ensures r == if slotSeq[IdxFor(seq_, slotSeq.Length)] == seq_ then Some(slots[IdxFor(seq_, slotSeq.Length)]) else None
      ensures forall j: nat {:trigger SeqOf(j)} | 0 < j <= |pushed| < j + SPAN && seq_ == SeqOf(j) ::
                && (r.Some? <==> !Overwritten(j, |pushed|, slotSeq.Length))
                && (r.Some? ==> r.value == pushed[j - 1])
    {
      var idx := IdxFor(seq_, slotSeq.Length);
      forall j: nat | 0 < j <= |pushed| < j + SPAN && seq_ == SeqOf(j)
        ensures slotSeq[idx] == seq_ <==> !Overwritten(j, |pushed|, slotSeq.Length)
        ensures slotSeq[idx] == seq_ ==> slots[idx] == pushed[j - 1]
      {
        WordOwnsIff(Abs(), j);
      }
      var s1 := slotSeq[idx];
      if s1 != seq_ { return None; }
      var v := slots[idx];
      var s2 := slotSeq[idx];
      if s2 != seq_ { return None; }
      return Some(v);
    }

    /** `latest` on a quiet ring: the newest value, if anything was ever pushed. */
    method Latest() returns (r: Option<(U32, Payload)>)
      requires Valid()
      ensures r == if pushed == [] then None else Some((SeqOf(|pushed|), pushed[|pushed| - 1]))
    {
      var newest := publishedSeq;
      if newest == 0 {
        SeqZeroIff(|pushed|);
        return None;
      }
      assert !Overwritten(|pushed|, |pushed|, slotSeq.Length);
      var v := ReadSeqInner(newest);
      assert newest == SeqOf(|pushed|);
      return Some((newest, v.value));
    }
  }

  /** What the entry of a poll computes from its words, in ordinals. */
  lemma EntryJump(last: U32, c: nat, p: nat, n: nat)
    requires CursorAt(last, c) && c <= p && 0 < p && 0 < n && SeqOf(p) != last && (last == 0 ==> c < p)
    ensures var newest := SeqOf(p);
            var lag := SeqDistance(last, newest) as int;
            var left := Left(lag, newest, n);
            var start := if lag <= n then last else ResumeAfter(newest, n);
            && 0 < left <= lag <= p - c && lag <= SPAN && CursorAt(start, p - left)
            && LoopWord(start, p - left, p)
            && (n < lag ==> SeqDistance(last, start) as int == lag - left)
  {
    EntryLag(last, c, p);
    SeqZeroIff(p);
    if n < SeqDistance(last, SeqOf(p)) as int {
      JumpWords(last, SeqOf(p), n);
      JumpOrdinal(SeqOf(p), p, n);
    }
  }

  /** What a nonzero poll of a quiet ring does once it found news `lag` behind.  With `left` what
      the jump leaves of the lag, it delivers the kept entries after `p - left` until `max` are
      delivered or the frozen goal is reached, and counts as dropped everything else it advanced
      over; if it jumped and reached the goal, exactly `DrainLoss` of the newest N are missing. */
  ghost predicate Drains(c: Core, lag: int, max: nat, cursor: nat, out: seq<(U32, Payload)>, dropped: int) {
    var p, n := |c.pushed|, |c.slotSeq|;
    var left := Left(lag, SeqOf(p), n);
    && 0 < n && 0 < left <= lag <= p && p - left < cursor <= p
    && out == Kept(c, p - left, cursor)
    && |Kept(c, p - left, cursor - 1)| < max
    && (cursor == p || |out| == max)
    && dropped == lag - (p - cursor) - |out|
    && (cursor == p && n < lag ==> n - DrainLossBound(n) <= |out| == n - DrainLoss(p, n))
  }

  /** With a budget of one it delivers exactly one entry: the first kept one. */
  lemma DrainsOne(c: Core, lag: int, cursor: nat, out: seq<(U32, Payload)>, dropped: int)
    requires Drains(c, lag, 1, cursor, out, dropped)
    ensures var p := |c.pushed|;
            var left := Left(lag, SeqOf(p), |c.slotSeq|);
            && 0 < |c.slotSeq| && 0 < left <= lag <= p && p - left < cursor <= p && Kept(c, p - left, cursor - 1) == []
            && out == [(SeqOf(cursor), c.pushed[cursor - 1])] && dropped == lag - (p - cursor) - 1
  {
    var p := |c.pushed|;
    KeptNext(c, p - Left(lag, SeqOf(p), |c.slotSeq|), cursor - 1);
    if cursor == p { NewestIsKept(c); }
  }

  // ---------------------------------------------------------------- the consumer handle

  class Consumer {
    const ring: Ring
    const usizeMax: nat
    var lastSeq: U32
    var droppedAccum: nat
    /** The ordinal the cursor word stands for. */
    ghost var cursor: nat

    ghost predicate Valid()
      reads this, ring, ring.slotSeq, ring.slots
    {
      && ring.Valid() && SPAN <= usizeMax && droppedAccum <= usizeMax
      && CursorAt(lastSeq, cursor) && cursor <= |ring.pushed|
      && (lastSeq == 0 && 0 < |ring.pushed| ==> cursor < |ring.pushed|)
    }

    constructor (ring: Ring, usizeMax: nat)
      requires ring.Valid() && SPAN <= usizeMax
      ensures Valid() && this.ring == ring && lastSeq == 0 && droppedAccum == 0 && cursor == FreshCursor(|ring.pushed|)
    {
      this.ring, this.usizeMax := ring, usizeMax;
      lastSeq, droppedAccum := 0, 0;
      cursor := FreshCursor(|ring.pushed|);
      new;
      FreshCursorBelow(|ring.pushed|);
    }

    /** `poll_up_to` on a quiet ring, exactly: without news nothing changes, with news it
        `Drains`. */
    method PollUpTo(max: nat) returns (out: seq<(U32, Payload)>, st: Stats)
      requires Valid()
      modifies this
      ensures Valid() && st.newest == ring.publishedSeq && st.read == |out|
      ensures max == 0 || ring.pushed == [] || ring.publishedSeq == old(lastSeq) ==>
                out == [] && st.dropped == 0 && lastSeq == old(lastSeq) && cursor == old(cursor)
                && droppedAccum == old(droppedAccum)
      ensures max != 0 && ring.pushed != [] && ring.publishedSeq != old(lastSeq) ==>
                var lag := SeqDistance(old(lastSeq), ring.publishedSeq) as int;
                && Drains(ring.Abs(), lag, max, cursor, out, st.dropped)
                && old(cursor) + lag <= |ring.pushed| && lastSeq == SeqOf(cursor)
                && droppedAccum == SatAdd(old(droppedAccum), st.dropped, usizeMax)
    {
      hide SeqOf, CursorAt, ResumeAfter, SeqDistance, Kept, DrainLoss, DrainLossBound, OwnersInv, SlotsInv;
      out := [];
      if max == 0 {
        st := Stats(0, 0, ring.publishedSeq);
        return;
      }
      var newest := ring.publishedSeq;
      SeqZeroIff(|ring.pushed|);
      if newest == 0 || newest == lastSeq {
        st := Stats(0, 0, newest);
        return;
      }
      var dropped := 0;
      ghost var p := |ring.pushed|;
      EntryJump(lastSeq, cursor, p, ring.slotSeq.Length);
      var lag := SeqDistance(lastSeq, newest) as int;
      if ring.slotSeq.Length < lag {
        var resumeAfter := ResumeAfter(newest, ring.slotSeq.Length);
        dropped := SatAdd(dropped, SeqDistance(lastSeq, resumeAfter) as int, usizeMax);
        lastSeq := resumeAfter;
      }
      cursor := p - Left(lag, newest, ring.slotSeq.Length);
      ghost var c, first := ring.Abs(), cursor;
      out, dropped := DrainLoop(newest, max, dropped);
      assert ring.Abs() == c && out == Kept(c, first, cursor);
      if cursor == p && ring.slotSeq.Length < lag { FullDrainLoss(c, lag); }
      droppedAccum := SatAdd(droppedAccum, dropped, usizeMax);
      st := Stats(|out|, dropped, newest);
    }

    /** The loop of `poll_up_to`: walk from the cursor to the frozen goal, hit or miss. */
    method DrainLoop(newest: U32, max: nat, dropped0: nat) returns (out: seq<(U32, Payload)>, dropped: nat)
      requires ring.Valid() && 0 < max && newest == SeqOf(|ring.pushed|)
      requires LoopWord(lastSeq, cursor, |ring.pushed|) && cursor < |ring.pushed|
      requires dropped0 + |ring.pushed| - cursor <= usizeMax
      modifies this`lastSeq, this`cursor
      ensures LoopWord(lastSeq, cursor, |ring.pushed|) && old(cursor) < cursor && lastSeq == SeqOf(cursor)
      ensures out == Kept(ring.Abs(), old(cursor), cursor)
      ensures |Kept(ring.Abs(), old(cursor), cursor - 1)| < max
      ensures cursor == |ring.pushed| || |out| == max
      ensures dropped == dropped0 + cursor - old(cursor) - |out|
    {
      hide SeqOf, NextAfter, CursorAt, Overwritten, IdxFor, Kept;
      out, dropped := [], dropped0;
      var read := 0;
      ghost var c, p, first := ring.Abs(), |ring.pushed|, cursor;
      LoopGoal(lastSeq, cursor, p);
      while read < max && lastSeq != newest
        invariant LoopWord(lastSeq, cursor, p) && first <= cursor
        invariant cursor == p <==> lastSeq == newest
        invariant first < cursor ==> lastSeq == SeqOf(cursor)
        invariant first < cursor ==> |Kept(c, first, cursor - 1)| < max
        invariant out == Kept(c, first, cursor) && read == |out| <= max
        invariant dropped == dropped0 + cursor - first - read
        decreases p - cursor
      {
        var next := NextAfter(lastSeq);
        LoopStep(lastSeq, cursor, p);
        LoopGoal(next, cursor + 1, p);
        var r := ring.ReadSeqInner(next);
        assert r.Some? <==> !Overwritten(cursor + 1, p, |c.slotSeq|);
        assert r.Some? ==> r.value == c.pushed[cursor];
        KeptNext(c, first, cursor);
        match r {
          case Some(v) =>
            out := out + [(next, v)];
            lastSeq := next;
            read := read + 1;
          case None =>
            lastSeq := next;
            dropped := SatAdd(dropped, 1, usizeMax);
        }
        cursor := cursor + 1;
      }
    }

    /** On a quiet ring news always means a delivery: the newest entry is kept. */
    method PollOneValue() returns (r: Option<(U32, Payload)>)
      requires Valid()
      modifies this
      ensures Valid() && (r.Some? <==> ring.pushed != [] && ring.publishedSeq != old(lastSeq))
      ensures r.None? ==> lastSeq == old(lastSeq) && cursor == old(cursor) && droppedAccum == old(droppedAccum)
      ensures r.Some? ==>
                var lag := SeqDistance(old(lastSeq), ring.publishedSeq) as int;
                && Drains(ring.Abs(), lag, 1, cursor, [r.value], lag - (|ring.pushed| - cursor) - 1)
                && old(cursor) < cursor <= |ring.pushed| && lastSeq == SeqOf(cursor)
                && r.value == (SeqOf(cursor), ring.pushed[cursor - 1])
                && 1 <= lag - (|ring.pushed| - cursor)
                && droppedAccum == SatAdd(old(droppedAccum), lag - (|ring.pushed| - cursor) - 1, usizeMax)
    {
      hide Drains, Kept, Left, SeqOf, CursorAt, SeqDistance, SatAdd, CoreInv;
      ghost var lag := SeqDistance(lastSeq, ring.publishedSeq) as int;
      var out, st := PollUpTo(1);
      if ring.pushed != [] && ring.publishedSeq != old(lastSeq) { DrainsOne(ring.Abs(), lag, cursor, out, st.dropped); }
      if st.read == 0 { return None; }
      return Some(out[0]);
    }

    /** The next poll yields the newest item, see `NewestIsKept`. */
    method SkipToLatest()
      requires Valid()
      modifies this
      ensures Valid() && droppedAccum == old(droppedAccum)
      ensures ring.pushed == [] ==> lastSeq == old(lastSeq) && cursor == old(cursor)
      ensures ring.pushed != [] ==> cursor == |ring.pushed| - 1 && lastSeq as int == ring.publishedSeq as int - 1
    {
      var newest := ring.publishedSeq;
      SeqZeroIff(|ring.pushed|);
      if newest != 0 {
        lastSeq := WrapSub(newest, 1);
        cursor := |ring.pushed| - 1;
        SkippedCursor(|ring.pushed|);
      }
    }

    method ResetDropped()
      requires Valid()
      modifies this`droppedAccum
      ensures Valid() && droppedAccum == 0
    {
      droppedAccum := 0;
    }
  }

  lemma LoopEndsAtGoal(j: nat, p: nat)
    requires 0 < j <= p < j + SPAN
    ensures SeqOf(j) == SeqOf(p) <==> j == p
    ensures SeqOf(j) != 0
  {
    SameSequence(j, p);
    DivUnique(p - j, SPAN, 0, p - j);
  }

  /** The cursor word inside the loop: its equality with the goal's word is the ordinals'. */
  predicate LoopWord(last: U32, cursor: nat, p: nat) {
    && CursorAt(last, cursor) && cursor <= p
    && (if last == 0 then cursor < p && p <= cursor + SPAN else p < cursor + SPAN)
  }

  lemma LoopGoal(last: U32, cursor: nat, p: nat)
    requires LoopWord(last, cursor, p) && 0 < p
    ensures last == SeqOf(p) <==> cursor == p
  {
    if last != 0 { LoopEndsAtGoal(cursor, p); } else { SeqZeroIff(p); }
  }

  lemma LoopStep(last: U32, cursor: nat, p: nat)
    requires LoopWord(last, cursor, p) && cursor < p
    ensures LoopWord(NextAfter(last), cursor + 1, p) && NextAfter(last) == SeqOf(cursor + 1)
    ensures p < cursor + 1 + SPAN
  {
    NextAfterIsSuccessor(last, cursor);
    SeqZeroIff(cursor + 1);
  }

  // ---------------------------------------------------------------- the worst drain, on the object

  method PushTimes(ring: Ring, value: Payload, m: nat)
    requires ring.Valid() && |value| == ring.width
    modifies ring, ring.slotSeq, ring.slots
    ensures ring.Valid() && |ring.pushed| == old(|ring.pushed|) + m
  {
    for i := 0 to m
      invariant ring.Valid() && |ring.pushed| == old(|ring.pushed|) + i
    {
      var _ := ring.PushInner(value);
    }
  }

  lemma WorstDrainIs(c: Core, last: U32, cursor: nat, out: seq<(U32, Payload)>, dropped: int)
    requires var n := |c.slotSeq|; 1 < n < SPAN - 1 && |c.pushed| == SPAN + WorstOffset(n)
    requires CursorAt(last, |c.pushed| - |c.slotSeq| - 1)
    ensures var n, lag := |c.slotSeq|, SeqDistance(last, SeqOf(|c.pushed|)) as int;
            && lag == n + 1 && SeqOf(|c.pushed|) as int == WorstOffset(n) && SeqOf(|c.pushed|) != last
            && (Drains(c, lag, n, cursor, out, dropped) ==>
                  |out| == n - DrainLossBound(n) < n && dropped == 1 + DrainLossBound(n))
  {
    var n, p := |c.slotSeq|, |c.pushed|;
    DrainLossAttained(1, n);
    DivUnique(p - 1, SPAN, 1, WorstOffset(n) - 1);
    DistanceExactIff(last, p - n - 1, p);
  }

  /** For every capacity that leaves room for a jump: a consumer n + 1 behind just after the first
      wrap, with a budget of n and nobody pushing, gets `DrainLossBound` fewer than n. */
  method WorstDrain(n: nat, value: Payload) returns (out: seq<(U32, Payload)>, st: Stats)
    requires 1 < n < SPAN - 1
    ensures st.newest as int == WorstOffset(n) && st.read == |out| == n - DrainLossBound(n) < n
    ensures st.dropped == 1 + DrainLossBound(n)
  {
    hide SeqOf, CursorAt, SeqDistance, DrainLossBound, Drains, WorstOffset, OwnersInv, SlotsInv;
    var ring := new Ring(n, |value|);
    PushTimes(ring, value, SPAN + WorstOffset(n) - n);
    var consumer := new Consumer(ring, SPAN);
    consumer.SkipToLatest();
    PushTimes(ring, value, n);
    ghost var last := consumer.lastSeq;
    WorstDrainIs(ring.Abs(), last, 0, [], 0);
    out, st := consumer.PollUpTo(n);
    WorstDrainIs(ring.Abs(), last, consumer.cursor, out, st.dropped);
  }
}
