/** Where the guarantees of `EventBuf` end: runs of the view machine that break them, and the
    capacities for which no run does. */
module EventBufLimits {
  import opened SeqArith
  import opened EventBufViews

  // ---------------------------------------------------------------- the 2^32 bound of len is real

  const MAX_WORD: nat := TWO32 - 1

  predicate Ends(run: seq<Sys>, steps: seq<Step>, s: Sys) {
    Run(run, steps) && run[|steps|] == s
  }

  /** A new buffer of capacity n among three threads. */
  function NewBuffer(n: nat): (s: Sys)
    requires 0 < n < TWO32
    ensures Init(s) && |s.views| == 3 && |s.slots| == n
  {
    var v := View(0, 0, 0, 0);
    Sys([Msg(0, v)], [Msg(0, v)], seq(n, _ => Slot(0, 0, 0, 0)), [v, v, v], Flag(false, v), Flag(false, v),
        NoProducer, NoConsumer, [NoLen, NoLen, NoLen], 0, 0, [], [])
  }

  lemma Extend(run: seq<Sys>, steps: seq<Step>, a: Step) returns (run': seq<Sys>, steps': seq<Step>)
    requires Run(run, steps) && Shaped(run[|steps|]) && Enabled(run[|steps|], a)
    ensures Ends(run', steps', Stepped(run[|steps|], a))
  {
    run', steps' := run + [Stepped(run[|steps|], a)], steps + [a];
  }

  /** Between operations: thread 0 produces, thread 1 consumes, `h` items were pushed and `t`
      of them popped. */
  predicate Between(s: Sys, h: nat, t: nat) {
    && Shaped(s) && s.prod == ProdIdle(0) && s.cons == ConsIdle(1) && 2 < |s.views|
    && |s.head| == h + 1 && |s.tail| == t + 1
  }

  /** The bystander thread 2 and the capacity are as they were. */
  predicate Untouched(s: Sys, s': Sys) {
    && |s'.views| == |s.views| && |s'.slots| == |s.slots| && s'.lens == s.lens
    && 2 < |s.views| && s'.views[2] == s.views[2]
  }

  /** The loads of a push by thread 0 into a buffer with room, each reading the newest message,
      whatever the consumer is doing. */
  lemma SoloPushLoads(s: Sys, h: nat, t: nat) returns (s1: Sys, s2: Sys)
    requires CursorInv(s) && s.prod == ProdIdle(0) && 2 < |s.views|
    requires |s.head| == h + 1 && |s.tail| == t + 1 && h < t + |s.slots|
    ensures Enabled(s, PushLoadHead(0, h)) && s1 == Stepped(s, PushLoadHead(0, h))
    ensures Shaped(s1) && Enabled(s1, PushLoadTail(t)) && s2 == Stepped(s1, PushLoadTail(t))
    ensures CursorInv(s2) && s2.prod == ProdRoom(0, 0, h, t) && s2.cons == s.cons
    ensures s2.head == s.head && s2.tail == s.tail && Untouched(s, s2)
  {
    s1 := Stepped(s, PushLoadHead(0, h));
    PushLoadHeadKeepsInv(s, 0, h);
    FullTest(s1, t);
    s2 := Stepped(s1, PushLoadTail(t));
    PushLoadTailKeepsInv(s1, t);
    hide HeadInv, TailInv, LenInv, ConsInv, ProdInv, ViewsInv, WrapSub, WrapAdd, SlotIndex;
  }

  lemma SoloPushEnds(s2: Sys, h: nat, t: nat) returns (s3: Sys, s4: Sys)
    requires CursorInv(s2) && s2.prod == ProdRoom(0, 0, h, t) && s2.cons == ConsIdle(1)
    requires |s2.head| == h + 1 && |s2.tail| == t + 1 && 2 < |s2.views|
    ensures Enabled(s2, PushWrite) && s3 == Stepped(s2, PushWrite)
    ensures Shaped(s3) && Enabled(s3, PushStore) && s4 == Stepped(s3, PushStore)
    ensures CursorInv(s4) && Between(s4, h + 1, t) && Untouched(s2, s4)
  {
    s3 := Stepped(s2, PushWrite);
    PushWriteKeepsInv(s2);
    s4 := Stepped(s3, PushStore);
    PushStoreKeepsInv(s3);
    hide HeadInv, TailInv, LenInv, ConsInv, ProdInv, ViewsInv, WrapSub, WrapAdd, SlotIndex;
  }

  lemma SoloPopLoads(s: Sys, h: nat, t: nat) returns (s1: Sys, s2: Sys)
    requires CursorInv(s) && s.cons == ConsIdle(1)
    requires |s.head| == h + 1 && |s.tail| == t + 1 && t < h < t + TWO32 && 2 < |s.views|
    ensures Enabled(s, PopLoadTail(false, t)) && s1 == Stepped(s, PopLoadTail(false, t))
    ensures Shaped(s1) && Enabled(s1, PopLoadHead(h)) && s2 == Stepped(s1, PopLoadHead(h))
    ensures CursorInv(s2) && s2.prod == s.prod && s2.cons == ConsItem(1, false, t, h)
    ensures s2.head == s.head && s2.tail == s.tail && Untouched(s, s2) && s2.views[0] == s.views[0]
  {
    s1 := Stepped(s, PopLoadTail(false, t));
    PopLoadTailKeepsInv(s, false, t);
    EmptyTest(s1, h);
    s2 := Stepped(s1, PopLoadHead(h));
    PopLoadHeadKeepsInv(s1, h);
    hide HeadInv, TailInv, LenInv, ProdInv;
  }

  lemma SoloPopEnds(s2: Sys, h: nat, t: nat) returns (s3: Sys, s4: Sys)
    requires CursorInv(s2) && s2.prod == ProdIdle(0) && s2.cons == ConsItem(1, false, t, h)
    requires |s2.head| == h + 1 && |s2.tail| == t + 1 && 2 < |s2.views|
    ensures Enabled(s2, PopRead) && s3 == Stepped(s2, PopRead)
    ensures Shaped(s3) && Enabled(s3, PopStore) && s4 == Stepped(s3, PopStore)
    ensures CursorInv(s4) && Between(s4, h, t + 1) && Untouched(s2, s4) && s4.views[0] == s2.views[0]
  {
    s3 := Stepped(s2, PopRead);
    PopReadKeepsInv(s2);
    s4 := Stepped(s3, PopStore);
    PopStoreKeepsInv(s3);
    hide HeadInv, TailInv, LenInv, ConsInv, ProdInv, ViewsInv, WrapAdd, SlotIndex;
  }

  lemma PushOne(run: seq<Sys>, steps: seq<Step>, h: nat, t: nat) returns (run': seq<Sys>, steps': seq<Step>)
    requires Run(run, steps) && Between(run[|steps|], h, t) && h < t + |run[|steps|].slots|
    ensures Run(run', steps') && Between(run'[|steps'|], h + 1, t) && Untouched(run[|steps|], run'[|steps'|])
  {
    RunKeepsCursorInv(run, steps);
    var s1, s2 := SoloPushLoads(run[|steps|], h, t);
    var s3, s4 := SoloPushEnds(s2, h, t);
    hide Stepped, Enabled, Shaped, CursorInv;
    run', steps' := Extend(run, steps, PushLoadHead(0, h));
    run', steps' := Extend(run', steps', PushLoadTail(t));
    run', steps' := Extend(run', steps', PushWrite);
    run', steps' := Extend(run', steps', PushStore);
  }

  lemma {:induction false} PushMany(run: seq<Sys>, steps: seq<Step>, h: nat, t: nat, m: nat)
    returns (run': seq<Sys>, steps': seq<Step>)
    requires Run(run, steps) && Between(run[|steps|], h, t) && h + m <= t + |run[|steps|].slots|
    ensures Run(run', steps') && Between(run'[|steps'|], h + m, t) && Untouched(run[|steps|], run'[|steps'|])
    decreases m
  {
    if m == 0 {
      run', steps' := run, steps;
    } else {
      run', steps' := PushMany(run, steps, h, t, m - 1);
      run', steps' := PushOne(run', steps', h + m - 1, t);
    }
  }

  lemma PopOne(run: seq<Sys>, steps: seq<Step>, h: nat, t: nat) returns (run': seq<Sys>, steps': seq<Step>)
    requires Run(run, steps) && Between(run[|steps|], h, t) && t < h < t + TWO32
    ensures Run(run', steps') && Between(run'[|steps'|], h, t + 1) && Untouched(run[|steps|], run'[|steps'|])
    ensures run'[|steps'|].views[0] == run[|steps|].views[0]
  {
    RunKeepsCursorInv(run, steps);
    var s1, s2 := SoloPopLoads(run[|steps|], h, t);
    var s3, s4 := SoloPopEnds(s2, h, t);
    hide Stepped, Enabled, Shaped, CursorInv;
    run', steps' := Extend(run, steps, PopLoadTail(false, t));
    run', steps' := Extend(run', steps', PopLoadHead(h));
    run', steps' := Extend(run', steps', PopRead);
    run', steps' := Extend(run', steps', PopStore);
  }

  lemma {:induction false} PushAndPopMany(run: seq<Sys>, steps: seq<Step>, k: nat, m: nat)
    returns (run': seq<Sys>, steps': seq<Step>)
    requires Run(run, steps) && Between(run[|steps|], k, k)
    ensures Run(run', steps') && Between(run'[|steps'|], k + m, k + m) && Untouched(run[|steps|], run'[|steps'|])
    decreases m
  {
    if m == 0 {
      run', steps' := run, steps;
    } else {
      run', steps' := PushAndPopMany(run, steps, k, m - 1);
      run', steps' := PushOne(run', steps', k + m - 1, k + m - 1);
      run', steps' := PopOne(run', steps', k + m, k + m - 1);
    }
  }

  lemma RolesTaken(s0: Sys) returns (run: seq<Sys>, steps: seq<Step>)
    requires Init(s0) && 2 < |s0.views|
    ensures Run(run, steps) && Between(run[|steps|], 0, 0) && Untouched(s0, run[|steps|])
    ensures run[|steps|].tail == s0.tail
  {
    run, steps := Extend([s0], [], TryProducer(0));
    run, steps := Extend(run, steps, TryConsumer(1));
  }

  /** A run in which thread 2 has sampled tail 0 in `len` before anything happened. */
  lemma SampledEarly(s0: Sys) returns (run: seq<Sys>, steps: seq<Step>)
    requires Init(s0) && 2 < |s0.views|
    ensures Run(run, steps) && Between(run[|steps|], 0, 0)
    ensures run[|steps|].lens[2] == LenTail(0, 0) && |run[|steps|].slots| == |s0.slots|
  {
    run, steps := RolesTaken(s0);
    run, steps := Extend(run, steps, LenStart(2));
    run, steps := Extend(run, steps, LenLoadTail(2, 0));
  }

  lemma SampledHead(run: seq<Sys>, steps: seq<Step>, k: nat) returns (run': seq<Sys>, steps': seq<Step>)
    requires Run(run, steps) && Between(run[|steps|], k, k) && run[|steps|].lens[2] == LenTail(0, 0)
    ensures Run(run', steps') && Between(run'[|steps'|], k, k)
    ensures run'[|steps'|].lens[2] == LenFenced(0, 0, k) && |run'[|steps'|].slots| == |run[|steps|].slots|
  {
    RunKeepsCursorInv(run, steps);
    assert Sane(run[|steps|], run[|steps|].views[2]);
    hide CursorInv;
    run', steps' := Extend(run, steps, LenLoadHead(2, k));
    run', steps' := Extend(run', steps', LenFence(2));
  }

  /** For every capacity below 2^32 - 1: with 2^32 pops inside one bracket both samples carry the
      same word, and `len` returns 2^32 - 1, more than N. */
  lemma LenCanExceedCapacity(s0: Sys) returns (run: seq<Sys>, steps: seq<Step>, i: nat)
    requires Init(s0) && 2 < |s0.views| && |s0.slots| < MAX_WORD
    ensures Run(run, steps) && Shaped(run[|steps|]) && Enabled(run[|steps|], LenRecheck(2, i))
    ensures Returns(run[|steps|], LenRecheck(2, i)) && |run[|steps|].slots| == |s0.slots|
    ensures LenResult(run[|steps|], LenRecheck(2, i)) == MAX_WORD
  {
    run, steps := SampledEarly(s0);
    run, steps := PushAndPopMany(run, steps, 0, MAX_WORD);
    run, steps := SampledHead(run, steps, MAX_WORD);
    run, steps := PushAndPopMany(run, steps, MAX_WORD, 1);
    i := TWO32;
    RunKeepsCursorInv(run, steps);
    var s := run[|steps|];
    assert Sane(s, s.views[2]);
    assert s.tail[TWO32].value == 0 && s.tail[0].value == 0;
    WordsOfPositions(0, MAX_WORD, s.tail[0].value, s.head[MAX_WORD].value);
  }

  /** The fence is needed, at every capacity: after the head load of a bracket and before its
      fence, the thread might still read the tail it started from, although the head it read is
      more than N beyond; after the fence it can not. */
  lemma FenceIsNeeded(s0: Sys) returns (run: seq<Sys>, steps: seq<Step>)
    requires Init(s0) && 2 < |s0.views| && |s0.slots| < MAX_WORD
    ensures Run(run, steps) && Shaped(run[|steps|]) && |run[|steps|].slots| == |s0.slots|
    ensures var s := run[|steps|];
            && 2 < |s.lens| && s.lens[2].LenHead? && Readable(s.tail, s.lens[2].t1, s.views[2].t)
            && WrapSub(s.head[s.lens[2].h].value, s.tail[s.lens[2].t1].value) as int == |s.slots| + 1
            && Enabled(s, LenFence(2)) && !Readable(s.tail, s.lens[2].t1, Stepped(s, LenFence(2)).views[2].t)
  {
    var n := |s0.slots|;
    run, steps := SampledEarly(s0);
    RunKeepsCursorInv(run, steps);
    assert Sane(run[|steps|], run[|steps|].views[2]);
    assert run[|steps|].views[2].t == 0;
    run, steps := PushAndPopMany(run, steps, 0, n + 1);
    RunKeepsCursorInv(run, steps);
    assert Sane(run[|steps|], run[|steps|].views[2]);
    WordsOfPositions(0, n + 1, run[|steps|].tail[0].value, run[|steps|].head[n + 1].value);
    assert run[|steps|].views[2].t == 0;
    hide CursorInv;
    run, steps := Extend(run, steps, LenLoadHead(2, n + 1));
    RunKeepsCursorInv(run, steps);
    HeadCarriesTail(run[|steps|]);
  }

  lemma HeadCarriesTail(s: Sys)
    requires CursorInv(s) && 2 < |s.views| && s.lens[2].LenHead? && s.lens[2].h == |s.slots| + 1 && s.lens[2].t1 == 0
    ensures Enabled(s, LenFence(2)) && 0 < Stepped(s, LenFence(2)).views[2].t
  {
    assert LenInv(s, s.lens[2], s.views[2]);
  }

  /** Loads may be stale, at every capacity: a push can find the buffer full although an item
      has been popped since, if it has not yet seen the new tail. */
  lemma StaleTailRejects(s0: Sys) returns (run: seq<Sys>, steps: seq<Step>)
    requires Init(s0) && 2 < |s0.views|
    ensures Run(run, steps) && Shaped(run[|steps|]) && |run[|steps|].slots| == |s0.slots|
    ensures var s := run[|steps|];
            && s.prod.ProdHead? && Head(s) - Tail(s) < |s.slots|
            && Enabled(s, PushLoadTail(0)) && Stepped(s, PushLoadTail(0)).prod.ProdIdle?
            && Enabled(s, PushLoadTail(1)) && Stepped(s, PushLoadTail(1)).prod.ProdRoom?
  {
    var n := |s0.slots|;
    run, steps := RolesTaken(s0);
    run, steps := FilledUp(run, steps, n);
    run, steps := PopOne(run, steps, n, 0);
    RunKeepsCursorInv(run, steps);
    assert Sane(run[|steps|], run[|steps|].views[0]);
    run, steps := Extend(run, steps, PushLoadHead(0, n));
    RunKeepsCursorInv(run, steps);
    FullTest(run[|steps|], 0);
    FullTest(run[|steps|], 1);
  }

  lemma FilledUp(run: seq<Sys>, steps: seq<Step>, n: nat) returns (run': seq<Sys>, steps': seq<Step>)
    requires Run(run, steps) && Between(run[|steps|], 0, 0) && n == |run[|steps|].slots|
    ensures Run(run', steps') && Between(run'[|steps'|], n, 0) && Untouched(run[|steps|], run'[|steps'|])
    ensures run'[|steps'|].views[0].t == 0
  {
    run', steps' := PushMany(run, steps, 0, 0, n);
    RunKeepsCursorInv(run', steps');
    assert Sane(run'[|steps'|], run'[|steps'|].views[0]);
  }

  /** No call of `len`, in any run of a buffer of capacity n, returns more than n. */
  ghost predicate LenWithinCapacity(n: nat) {
    forall run: seq<Sys>, steps: seq<Step>, a: Step ::
      Run(run, steps) && Shaped(run[|steps|]) && |run[|steps|].slots| == n
      && Enabled(run[|steps|], a) && Returns(run[|steps|], a)
      ==> LenResult(run[|steps|], a) <= n
  }

  /** So the bound holds without counting pops exactly for the largest capacity a word can span. */
  lemma LenWithinCapacityIff(n: nat)
    requires 0 < n < TWO32
    ensures LenWithinCapacity(n) <==> n == MAX_WORD
  {
    if n != MAX_WORD {
      var run, steps, i := LenCanExceedCapacity(NewBuffer(n));
    }
  }

  // ---------------------------------------------------------------- the slots race after the wrap

  /** For every capacity that does not divide 2^32: a reachable state in which the producer's
      next step writes the very slot the consumer's next step reads. */
  lemma SlotsRace(s0: Sys) returns (run: seq<Sys>, steps: seq<Step>)
    requires Init(s0) && 2 < |s0.views| && TWO32 % |s0.slots| != 0
    ensures Run(run, steps) && Shaped(run[|steps|]) && |run[|steps|].slots| == |s0.slots|
    ensures var s := run[|steps|];
            && Enabled(s, PushWrite) && Enabled(s, PopRead) && s.prod.tid != s.cons.tid
            && SlotIndex(s.head[s.prod.head].value, |s.slots|) == SlotIndex(s.tail[s.cons.tail].value, |s.slots|)
            && Tail(s) == TWO32 - TWO32 % |s.slots| && Head(s) == TWO32
  {
    var n := |s0.slots|;
    var r := TWO32 % n;
    var t := TWO32 - r;
    run, steps := RolesTaken(s0);
    run, steps := PushAndPopMany(run, steps, 0, t);
    run, steps := PushMany(run, steps, t, t, r);
    RunKeepsCursorInv(run, steps);
    var s1, s2 := SoloPopLoads(run[|steps|], TWO32, t);
    var s3, s4 := SoloPushLoads(s2, TWO32, t);
    RaceSlots(s4, n, r);
    hide Stepped, Shaped, CursorInv, Enabled, SlotIndex;
    run, steps := Extend(run, steps, PopLoadTail(false, t));
    run, steps := Extend(run, steps, PopLoadHead(TWO32));
    run, steps := Extend(run, steps, PushLoadHead(0, TWO32));
    run, steps := Extend(run, steps, PushLoadTail(t));
  }

  lemma RaceSlots(s: Sys, n: nat, r: nat)
    requires CursorInv(s) && |s.slots| == n && 0 < r == TWO32 % n
    requires s.prod == ProdRoom(0, 0, TWO32, TWO32 - r) && s.cons == ConsItem(1, false, TWO32 - r, TWO32)
    requires |s.head| == TWO32 + 1 && |s.tail| == TWO32 - r + 1
    ensures Enabled(s, PushWrite) && Enabled(s, PopRead)
    ensures SlotIndex(s.head[TWO32].value, n) == SlotIndex(s.tail[TWO32 - r].value, n)
  {
    var h, t := s.head[TWO32].value, s.tail[TWO32 - r].value;
    assert h == 0 && t as int == (TWO32 - r) % TWO32;
    hide CursorInv;
    DivUnique(TWO32 - r, TWO32, 0, TWO32 - r);
    DivUnique(TWO32 - r, n, TWO32 / n, 0);
  }

  /** Every slot access of every run of a buffer of capacity n is ordered after those before it. */
  ghost predicate SlotsNeverRace(n: nat) {
    forall run: seq<Sys>, steps: seq<Step>, a: Step ::
      Run(run, steps) && Shaped(run[|steps|]) && |run[|steps|].slots| == n && Enabled(run[|steps|], a)
      ==> AccessOrdered(run[|steps|], a)
  }

  /** After the write that races, the read of that slot is not ordered after it. */
  lemma WriteUnseen(s: Sys)
    requires CursorInv(s) && Enabled(s, PushWrite) && Enabled(s, PopRead) && s.prod.tid != s.cons.tid
    requires SlotIndex(s.head[s.prod.head].value, |s.slots|) == SlotIndex(s.tail[s.cons.tail].value, |s.slots|)
    ensures var s' := Stepped(s, PushWrite);
            && Shaped(s') && |s'.slots| == |s.slots| && Enabled(s', PopRead) && !AccessOrdered(s', PopRead)
  {
    PushWriteKeepsInv(s);
    assert Sane(s, s.views[s.cons.tid]);
    hide HeadInv, TailInv, LenInv, ConsInv, ProdInv;
  }

  /** The slots are free of data races exactly if the capacity divides 2^32. */
  lemma SlotsNeverRaceIff(n: nat)
    requires 0 < n < TWO32
    ensures SlotsNeverRace(n) <==> TWO32 % n == 0
  {
    if TWO32 % n == 0 {
      forall run: seq<Sys>, steps: seq<Step>, a: Step |
        Run(run, steps) && Shaped(run[|steps|]) && |run[|steps|].slots| == n && Enabled(run[|steps|], a)
        ensures AccessOrdered(run[|steps|], a)
      {
        AccessesAreOrdered(run, steps, a);
      }
    } else {
      var run, steps := SlotsRace(NewBuffer(n));
      RunKeepsCursorInv(run, steps);
      WriteUnseen(run[|steps|]);
      hide Stepped, Shaped, Enabled, CursorInv, AccessOrdered;
      var run', steps' := Extend(run, steps, PushWrite);
      assert !AccessOrdered(run'[|steps'|], PopRead);
    }
  }
}
