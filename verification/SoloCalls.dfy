/** The objects and their step machines do the same: a call of a machine that no other thread
    interrupts, every load reading the newest message, has exactly the effect and the reply of the
    object's call. */
module SoloCalls {
  import opened Common
  import opened SeqArith
  import E = EventBuf
  import V = EventBufViews
  import L = LatestBuf
  import S = LatestBufSteps
  import C = CountedSignal

  // ---------------------------------------------------------------- EventBuf

  predicate EventPath(run: seq<V.Sys>, steps: seq<V.Step>) {
    && |run| == |steps| + 1
    && (forall t | 0 <= t < |steps| ::
          V.Shaped(run[t]) && V.Enabled(run[t], steps[t]) && run[t + 1] == V.Stepped(run[t], steps[t]))
  }

  lemma EventTwo(run: seq<V.Sys>, steps: seq<V.Step>, a: V.Step, b: V.Step, s1: V.Sys, s2: V.Sys)
    requires EventPath(run, steps) && V.Shaped(run[|steps|]) && V.Enabled(run[|steps|], a) && s1 == V.Stepped(run[|steps|], a)
    requires V.Shaped(s1) && V.Enabled(s1, b) && s2 == V.Stepped(s1, b)
    ensures EventPath(run + [s1, s2], steps + [a, b])
  {
    hide V.Shaped, V.Enabled, V.Stepped;
  }

  lemma EventStart(s: V.Sys)
    ensures EventPath([s], [])
  {
  }

  lemma EventOne(run: seq<V.Sys>, steps: seq<V.Step>, a: V.Step, s1: V.Sys)
    requires EventPath(run, steps) && V.Shaped(run[|steps|]) && V.Enabled(run[|steps|], a) && s1 == V.Stepped(run[|steps|], a)
    ensures EventPath(run + [s1], steps + [a])
  {
    hide V.Shaped, V.Enabled, V.Stepped;
  }

  /** The fields as the object has them. */
  function Fields(s: V.Sys): (b: E.Buf<V.Item>)
    requires V.Shaped(s)
    ensures |b.slots| == |s.slots|
  {
    E.Buf(s.head[|s.head| - 1].value, s.tail[|s.tail| - 1].value,
          seq(|s.slots|, i requires 0 <= i < |s.slots| => s.slots[i].value))
  }

  lemma PushLoads(s: V.Sys, val: V.Item) returns (s1: V.Sys, s2: V.Sys)
    requires V.CursorInv(s) && s.prod.ProdIdle?
    ensures var h, t := |s.head| - 1, |s.tail| - 1;
            && V.Enabled(s, V.PushLoadHead(val, h)) && s1 == V.Stepped(s, V.PushLoadHead(val, h))
            && V.Shaped(s1) && V.Enabled(s1, V.PushLoadTail(t)) && s2 == V.Stepped(s1, V.PushLoadTail(t))
            && s2.prod == if E.IsFull(Fields(s)) then s.prod else V.ProdRoom(s.prod.tid, val, h, t)
    ensures V.CursorInv(s2) && s2.cons == s.cons && s2.head == s.head && s2.tail == s.tail && s2.slots == s.slots
    ensures s2.written == s.written && s2.popped == s.popped
  {
    var h, t := |s.head| - 1, |s.tail| - 1;
    V.PushLoadHeadKeepsInv(s, val, h);
    s1 := V.Stepped(s, V.PushLoadHead(val, h));
    V.PushLoadTailKeepsInv(s1, t);
    s2 := V.Stepped(s1, V.PushLoadTail(t));
    hide V.HeadInv, V.TailInv, V.LenInv, V.ConsInv, V.ProdInv;
  }

  lemma PushEnds(s2: V.Sys) returns (s3: V.Sys, s4: V.Sys)
    requires V.CursorInv(s2) && s2.prod.ProdRoom? && s2.prod.head == |s2.head| - 1
    ensures V.Enabled(s2, V.PushWrite) && s3 == V.Stepped(s2, V.PushWrite)
    ensures V.Shaped(s3) && V.Enabled(s3, V.PushStore) && s4 == V.Stepped(s3, V.PushStore)
    ensures V.CursorInv(s4) && s4.prod == V.ProdIdle(s2.prod.tid) && s4.cons == s2.cons
    ensures var b := Fields(s2);
            Fields(s4) == b.(slots := b.slots[b.head as int % |b.slots| := s2.prod.val], head := WrapAdd(b.head, 1))
    ensures s4.written == s2.written + [s2.prod.val] && s4.popped == s2.popped
  {
    s3 := V.Stepped(s2, V.PushWrite);
    V.PushWriteKeepsInv(s2);
    s4 := V.Stepped(s3, V.PushStore);
    V.PushStoreKeepsInv(s3);
    hide V.HeadInv, V.TailInv, V.LenInv, V.ConsInv, V.ProdInv, V.ViewsInv, WrapAdd;
  }

  lemma PushIsCall(s: V.Sys, val: V.Item) returns (run: seq<V.Sys>, steps: seq<V.Step>)
    requires V.CursorInv(s) && s.prod.ProdIdle?
    ensures EventPath(run, steps) && run[0] == s && steps != [] && steps[0] == V.PushLoadHead(val, |s.head| - 1)
    ensures var s', called := run[|steps|], E.Called(Fields(s), E.Push(val));
            && V.CursorInv(s') && s'.prod == s.prod && s'.cons == s.cons && Fields(s') == called.0
            && s'.written == (if called.1.ok then s.written + [val] else s.written) && s'.popped == s.popped
  {
    var h, t := |s.head| - 1, |s.tail| - 1;
    var s1, s2 := PushLoads(s, val);
    EventTwo([s], [], V.PushLoadHead(val, h), V.PushLoadTail(t), s1, s2);
    assert Fields(s2) == Fields(s);
    hide EventPath, V.Stepped, V.Enabled, V.CursorInv, E.IsFull, WrapAdd;
    run, steps := [s] + [s1, s2], [] + [V.PushLoadHead(val, h), V.PushLoadTail(t)];
    if s2.prod.ProdRoom? {
      var s3, s4 := PushEnds(s2);
      EventTwo(run, steps, V.PushWrite, V.PushStore, s3, s4);
      run, steps := run + [s3, s4], steps + [V.PushWrite, V.PushStore];
    }
  }

  lemma PopLoads(s: V.Sys) returns (s1: V.Sys, s2: V.Sys)
    requires V.CursorInv(s) && s.cons.ConsIdle?
    ensures var h, t := |s.head| - 1, |s.tail| - 1;
            && V.Enabled(s, V.PopLoadTail(false, t)) && s1 == V.Stepped(s, V.PopLoadTail(false, t))
            && V.Shaped(s1) && V.Enabled(s1, V.PopLoadHead(h)) && s2 == V.Stepped(s1, V.PopLoadHead(h))
            && s2.cons == if Fields(s).tail == Fields(s).head then s.cons else V.ConsItem(s.cons.tid, false, t, h)
    ensures V.CursorInv(s2) && s2.prod == s.prod && s2.head == s.head && s2.tail == s.tail && s2.slots == s.slots
    ensures s2.written == s.written && s2.popped == s.popped
  {
    var h, t := |s.head| - 1, |s.tail| - 1;
    V.PopLoadTailKeepsInv(s, false, t);
    s1 := V.Stepped(s, V.PopLoadTail(false, t));
    V.PopLoadHeadKeepsInv(s1, h);
    s2 := V.Stepped(s1, V.PopLoadHead(h));
    hide V.HeadInv, V.TailInv, V.LenInv, V.ConsInv, V.ProdInv;
  }

  lemma PopEnds(s2: V.Sys) returns (s3: V.Sys, s4: V.Sys)
    requires V.CursorInv(s2) && s2.cons.ConsItem? && !s2.cons.peek && s2.cons.tail == |s2.tail| - 1
    ensures V.Enabled(s2, V.PopRead) && s3 == V.Stepped(s2, V.PopRead)
    ensures V.Shaped(s3) && V.Enabled(s3, V.PopStore) && s4 == V.Stepped(s3, V.PopStore)
    ensures V.CursorInv(s4) && s4.cons == V.ConsIdle(s2.cons.tid) && s4.prod == s2.prod
    ensures var b := Fields(s2);
            && Fields(s4) == b.(tail := WrapAdd(b.tail, 1))
            && s4.popped == s2.popped + [b.slots[b.tail as int % |b.slots|]] && s4.written == s2.written
  {
    s3 := V.Stepped(s2, V.PopRead);
    V.PopReadKeepsInv(s2);
    s4 := V.Stepped(s3, V.PopStore);
    V.PopStoreKeepsInv(s3);
    hide V.HeadInv, V.TailInv, V.LenInv, V.ConsInv, V.ProdInv, V.ViewsInv, WrapAdd;
  }

  lemma PopIsCall(s: V.Sys) returns (run: seq<V.Sys>, steps: seq<V.Step>)
    requires V.CursorInv(s) && s.cons.ConsIdle?
    ensures EventPath(run, steps) && run[0] == s && steps != [] && steps[0] == V.PopLoadTail(false, |s.tail| - 1)
    ensures var s', called := run[|steps|], E.Called(Fields(s), E.Pop);
            && V.CursorInv(s') && s'.prod == s.prod && s'.cons == s.cons && Fields(s') == called.0
            && s'.popped == (if called.1.item.Some? then s.popped + [called.1.item.value] else s.popped)
            && s'.written == s.written
  {
    var h, t := |s.head| - 1, |s.tail| - 1;
    var s1, s2 := PopLoads(s);
    EventTwo([s], [], V.PopLoadTail(false, t), V.PopLoadHead(h), s1, s2);
    assert Fields(s2) == Fields(s);
    hide EventPath, V.Stepped, V.Enabled, V.CursorInv, WrapAdd;
    run, steps := [s] + [s1, s2], [] + [V.PopLoadTail(false, t), V.PopLoadHead(h)];
    if s2.cons.ConsItem? {
      var s3, s4 := PopEnds(s2);
      EventTwo(run, steps, V.PopRead, V.PopStore, s3, s4);
      run, steps := run + [s3, s4], steps + [V.PopRead, V.PopStore];
    }
  }

  lemma PeekIsCall(s: V.Sys) returns (run: seq<V.Sys>, steps: seq<V.Step>)
    requires V.CursorInv(s) && s.cons.ConsIdle?
    ensures EventPath(run, steps) && run[0] == s && steps != [] && steps[0] == V.PopLoadTail(true, |s.tail| - 1)
    ensures var s', called := run[|steps|], E.Called(Fields(s), E.Peek);
            && V.CursorInv(s') && s'.prod == s.prod && s'.cons == s.cons && Fields(s') == called.0
            && s'.popped == s.popped && s'.written == s.written
            && (called.1.item.Some? <==> |steps| == 3) && (|steps| == 3 ==> steps[2] == V.PopRead)
            && (called.1.item.Some? ==> PeekedIn(run[2]) == called.1.item.value)
  {
    var h, t := |s.head| - 1, |s.tail| - 1;
    var s1, s2 := PeekLoads(s);
    EventTwo([s], [], V.PopLoadTail(true, t), V.PopLoadHead(h), s1, s2);
    assert Fields(s2) == Fields(s);
    assert 0 < |s.slots|;
    hide EventPath, Fields, V.Shaped, V.Stepped, V.Enabled, V.CursorInv, V.SlotIndex, PeekedIn, WrapAdd;
    run, steps := [s] + [s1, s2], [] + [V.PopLoadTail(true, t), V.PopLoadHead(h)];
    if s2.cons.ConsItem? {
      var s3 := PeekReads(s2);
      EventOne(run, steps, V.PopRead, s3);
      run, steps := run + [s3], steps + [V.PopRead];
    }
  }

  /** What the read step of a peek in state `s` copies out. */
  function PeekedIn(s: V.Sys): V.Item {
    if V.Shaped(s) && s.cons.ConsItem? then s.slots[V.SlotIndex(s.tail[s.cons.tail].value, |s.slots|)].value else 0
  }

  lemma PeekLoads(s: V.Sys) returns (s1: V.Sys, s2: V.Sys)
    requires V.CursorInv(s) && s.cons.ConsIdle?
    ensures var h, t := |s.head| - 1, |s.tail| - 1;
            && V.Enabled(s, V.PopLoadTail(true, t)) && s1 == V.Stepped(s, V.PopLoadTail(true, t))
            && V.Shaped(s1) && V.Enabled(s1, V.PopLoadHead(h)) && s2 == V.Stepped(s1, V.PopLoadHead(h))
            && s2.cons == if Fields(s).tail == Fields(s).head then s.cons else V.ConsItem(s.cons.tid, true, t, h)
    ensures V.CursorInv(s2) && s2.prod == s.prod && s2.head == s.head && s2.tail == s.tail && s2.slots == s.slots
    ensures s2.written == s.written && s2.popped == s.popped
  {
    var h, t := |s.head| - 1, |s.tail| - 1;
    V.PopLoadTailKeepsInv(s, true, t);
    s1 := V.Stepped(s, V.PopLoadTail(true, t));
    V.PopLoadHeadKeepsInv(s1, h);
    s2 := V.Stepped(s1, V.PopLoadHead(h));
    hide V.HeadInv, V.TailInv, V.LenInv, V.ConsInv, V.ProdInv;
  }

  lemma PeekReads(s2: V.Sys) returns (s3: V.Sys)
    requires V.CursorInv(s2) && s2.cons.ConsItem? && s2.cons.peek && s2.cons.tail == |s2.tail| - 1
    ensures V.Enabled(s2, V.PopRead) && s3 == V.Stepped(s2, V.PopRead)
    ensures V.CursorInv(s3) && s3.cons == V.ConsIdle(s2.cons.tid) && s3.prod == s2.prod
    ensures Fields(s3) == Fields(s2) && s3.popped == s2.popped && s3.written == s2.written
    ensures var b := Fields(s2); PeekedIn(s2) == b.slots[b.tail as int % |b.slots|]
  {
    s3 := V.Stepped(s2, V.PopRead);
    V.PopReadKeepsInv(s2);
    hide V.HeadInv, V.TailInv, V.LenInv, V.ConsInv, V.ProdInv, V.ViewsInv;
  }

  /** An uninterrupted `len`, by any thread: the first bracket succeeds and returns the number of
      items pushed and not popped. */
  lemma LenIsCount(s: V.Sys, tid: nat) returns (run: seq<V.Sys>, steps: seq<V.Step>)
    requires V.CursorInv(s) && tid < |s.views| && s.lens[tid].NoLen?
    ensures EventPath(run, steps) && run[0] == s && |steps| == 5 && steps[0] == V.LenStart(tid)
    ensures var before, a := run[4], steps[4];
            && V.Shaped(before) && V.Enabled(before, a) && a.LenRecheck? && V.Returns(before, a)
            && V.LenResult(before, a) == V.Head(s) - V.Tail(s) == WrapSub(Fields(s).head, Fields(s).tail) as int
    ensures run[5].lens == s.lens && run[5].head == s.head && run[5].tail == s.tail && run[5].slots == s.slots
  {
    var h, t := |s.head| - 1, |s.tail| - 1;
    hide EventPath, V.Stepped, V.Enabled, V.HeadInv, V.TailInv, V.ProdInv, V.ConsInv, V.LenInv, V.ViewsInv, WrapSub;
    var s1, s2 := LenSamples(s, tid);
    EventStart(s);
    EventTwo([s], [], V.LenStart(tid), V.LenLoadTail(tid, t), s1, s2);
    run, steps := [s] + [s1, s2], [] + [V.LenStart(tid), V.LenLoadTail(tid, t)];
    var s3, s4 := LenFences(s2, tid);
    EventTwo(run, steps, V.LenLoadHead(tid, h), V.LenFence(tid), s3, s4);
    run, steps := run + [s3, s4], steps + [V.LenLoadHead(tid, h), V.LenFence(tid)];
    var s5 := LenRechecks(s4, tid);
    EventOne(run, steps, V.LenRecheck(tid, t), s5);
    run, steps := run + [s5], steps + [V.LenRecheck(tid, t)];
    assert s5.lens == s.lens;
  }

  lemma LenSamples(s: V.Sys, tid: nat) returns (s1: V.Sys, s2: V.Sys)
    requires V.CursorInv(s) && tid < |s.views| && s.lens[tid].NoLen?
    ensures V.Enabled(s, V.LenStart(tid)) && s1 == V.Stepped(s, V.LenStart(tid))
    ensures var t := |s.tail| - 1;
            V.Shaped(s1) && V.Enabled(s1, V.LenLoadTail(tid, t)) && s2 == V.Stepped(s1, V.LenLoadTail(tid, t))
    ensures V.CursorInv(s2) && s2.head == s.head && s2.tail == s.tail && s2.slots == s.slots && |s2.views| == |s.views|
    ensures s2.lens == s.lens[tid := V.LenTail(0, |s.tail| - 1)]
  {
    assert V.Sane(s, s.views[tid]);
    s1 := V.Stepped(s, V.LenStart(tid));
    V.LenStartKeepsInv(s, tid);
    s2 := V.Stepped(s1, V.LenLoadTail(tid, |s.tail| - 1));
    V.LenTailKeepsInv(s1, tid, |s.tail| - 1);
    hide V.HeadInv, V.TailInv, V.LenInv, V.ConsInv, V.ProdInv;
  }

  lemma LenFences(s2: V.Sys, tid: nat) returns (s3: V.Sys, s4: V.Sys)
    requires V.CursorInv(s2) && tid < |s2.views| && s2.lens[tid] == V.LenTail(0, |s2.tail| - 1)
    ensures var h := |s2.head| - 1; V.Enabled(s2, V.LenLoadHead(tid, h)) && s3 == V.Stepped(s2, V.LenLoadHead(tid, h))
    ensures V.Shaped(s3) && V.Enabled(s3, V.LenFence(tid)) && s4 == V.Stepped(s3, V.LenFence(tid))
    ensures V.CursorInv(s4) && s4.head == s2.head && s4.tail == s2.tail && s4.slots == s2.slots && |s4.views| == |s2.views|
    ensures s4.lens == s2.lens[tid := V.LenFenced(0, |s2.tail| - 1, |s2.head| - 1)]
  {
    s3 := LenLoads(s2, tid);
    s4 := V.Stepped(s3, V.LenFence(tid));
    V.LenFenceKeepsInv(s3, tid);
    hide V.HeadInv, V.TailInv, V.LenInv, V.ConsInv, V.ProdInv, V.ViewsInv;
  }

  lemma LenLoads(s2: V.Sys, tid: nat) returns (s3: V.Sys)
    requires V.CursorInv(s2) && tid < |s2.views| && s2.lens[tid] == V.LenTail(0, |s2.tail| - 1)
    ensures var h := |s2.head| - 1; V.Enabled(s2, V.LenLoadHead(tid, h)) && s3 == V.Stepped(s2, V.LenLoadHead(tid, h))
    ensures V.CursorInv(s3) && s3.head == s2.head && s3.tail == s2.tail && s3.slots == s2.slots && |s3.views| == |s2.views|
    ensures |s3.lens| == |s2.lens| && s3.lens[tid].LenHead? && s3.lens == s2.lens[tid := s3.lens[tid]]
    ensures s3.lens[tid].round == 0 && s3.lens[tid].t1 == |s2.tail| - 1 && s3.lens[tid].h == |s2.head| - 1
  {
    assert V.Sane(s2, s2.views[tid]);
    s3 := V.Stepped(s2, V.LenLoadHead(tid, |s2.head| - 1));
    V.LenHeadKeepsInv(s2, tid, |s2.head| - 1);
    hide V.HeadInv, V.TailInv, V.LenInv, V.ConsInv, V.ProdInv;
  }

  lemma LenRechecks(s4: V.Sys, tid: nat) returns (s5: V.Sys)
    requires V.CursorInv(s4) && tid < |s4.views| && s4.lens[tid] == V.LenFenced(0, |s4.tail| - 1, |s4.head| - 1)
    ensures var a := V.LenRecheck(tid, |s4.tail| - 1);
            && V.Enabled(s4, a) && s5 == V.Stepped(s4, a) && V.Shaped(s5) && V.Returns(s4, a)
            && V.LenResult(s4, a) == V.Head(s4) - V.Tail(s4) == WrapSub(Fields(s4).head, Fields(s4).tail) as int
    ensures s5.head == s4.head && s5.tail == s4.tail && s5.slots == s4.slots && s5.lens == s4.lens[tid := V.NoLen]
  {
    var t := |s4.tail| - 1;
    RecheckIsEnabled(s4, tid, t);
    V.BracketIsReal(s4, tid, t);
    V.LenRecheckKeepsInv(s4, tid, t);
    s5 := V.Stepped(s4, V.LenRecheck(tid, t));
    RecheckEnds(s4, tid, t);
    assert V.LenResult(s4, V.LenRecheck(tid, t)) == WrapSub(Fields(s4).head, Fields(s4).tail) as int;
    hide V.Stepped, V.Enabled, V.HeadInv, V.TailInv, V.LenInv, V.ConsInv, V.ProdInv, V.ViewsInv, WrapSub;
  }

  lemma RecheckIsEnabled(s4: V.Sys, tid: nat, t: nat)
    requires V.CursorInv(s4) && tid < |s4.views| && s4.lens[tid].LenFenced? && t == |s4.tail| - 1
    ensures V.Enabled(s4, V.LenRecheck(tid, t))
  {
    assert V.Sane(s4, s4.views[tid]);
    hide V.HeadInv, V.TailInv, V.LenInv, V.ConsInv, V.ProdInv;
  }

  lemma RecheckEnds(s4: V.Sys, tid: nat, t: nat)
    requires V.Shaped(s4) && V.Enabled(s4, V.LenRecheck(tid, t)) && s4.lens[tid].t1 == t
    ensures var s5 := V.Stepped(s4, V.LenRecheck(tid, t));
            && V.Returns(s4, V.LenRecheck(tid, t))
            && s5.head == s4.head && s5.tail == s4.tail && s5.slots == s4.slots && s5.lens == s4.lens[tid := V.NoLen]
  {
  }

  // ---------------------------------------------------------------- LatestBuf

  predicate LatestPath(run: seq<S.Sys>, steps: seq<S.Step>) {
    && |run| == |steps| + 1
    && (forall t | 0 <= t < |steps| ::
          S.Shaped(run[t]) && S.Enabled(run[t], steps[t]) && run[t + 1] == S.Stepped(run[t], steps[t]))
  }

  lemma LatestTwo(run: seq<S.Sys>, steps: seq<S.Step>, a: S.Step, b: S.Step, s1: S.Sys, s2: S.Sys)
    requires LatestPath(run, steps) && S.Shaped(run[|steps|]) && S.Enabled(run[|steps|], a) && s1 == S.Stepped(run[|steps|], a)
    requires S.Shaped(s1) && S.Enabled(s1, b) && s2 == S.Stepped(s1, b)
    ensures LatestPath(run + [s1, s2], steps + [a, b])
  {
    hide S.Shaped, S.Enabled, S.Stepped;
  }

  function Words(s: S.Sys): (c: L.Chan<S.Item>)
    requires S.Shaped(s)
    ensures |c.slots| == 3 && c.slot < 3 && c.back < 3
  {
    L.Chan(S.Latest(s).slot, S.Latest(s).ready,
           seq(|s.slots|, i requires 0 <= i < |s.slots| => L.Entry(s.slots[i].gen, s.slots[i].value)),
           s.prodCell.back, s.prodCell.nextGen, s.consCell.front, s.consCell.lastGen)
  }

  lemma PublishWrites(s: S.Sys, val: S.Item) returns (s1: S.Sys, s2: S.Sys)
    requires S.Shaped(s) && s.prod.ProdIdle?
    ensures S.Enabled(s, S.PubBegin(val)) && s1 == S.Stepped(s, S.PubBegin(val))
    ensures S.Shaped(s1) && S.Enabled(s1, S.PubWrite) && s2 == S.Stepped(s1, S.PubWrite) && S.Shaped(s2)
    ensures var c, gen := Words(s), NextAfter(s.prodCell.nextGen);
            && s2.prod == S.Wrote(s.prod.tid, s.prodCell.back, gen) && s2.cons == s.cons && s2.returned == s.returned && s2.items == s.items
            && Words(s2) == c.(slots := c.slots[c.back := L.Entry(gen, val)], nextGeneration := gen)
  {
    hide NextAfter;
    s1 := S.Stepped(s, S.PubBegin(val));
    s2 := S.Stepped(s1, S.PubWrite);
  }

  lemma PublishSwaps(s2: S.Sys) returns (s3: S.Sys, s4: S.Sys)
    requires S.Shaped(s2) && s2.prod.Wrote? && s2.prod.back == s2.prodCell.back
    ensures S.Enabled(s2, S.PubSwap) && s3 == S.Stepped(s2, S.PubSwap)
    ensures S.Shaped(s3) && S.Enabled(s3, S.PubFinish) && s4 == S.Stepped(s3, S.PubFinish) && S.Shaped(s4)
    ensures var c := Words(s2);
            && s4.prod == S.ProdIdle(s2.prod.tid) && s4.cons == s2.cons && s4.items == s2.items
            && s4.returned == s2.returned + [S.Report(s2.prod.gen, c.ready)]
            && Words(s4) == c.(slot := c.back, ready := true, back := c.slot)
  {
    s3 := S.Stepped(s2, S.PubSwap);
    s4 := S.Stepped(s3, S.PubFinish);
  }

  lemma PublishIsCall(s: S.Sys, val: S.Item) returns (run: seq<S.Sys>, steps: seq<S.Step>)
    requires S.Shaped(s) && s.prod.ProdIdle?
    ensures LatestPath(run, steps) && run[0] == s && steps == [S.PubBegin(val), S.PubWrite, S.PubSwap, S.PubFinish]
    ensures var s', called := run[|steps|], L.Published(Words(s), val);
            && S.Shaped(s') && s'.prod == s.prod && s'.cons == s.cons && Words(s') == called.0
            && s'.returned == s.returned + [S.Report(called.1.generation, called.1.replacedUnread)] && s'.items == s.items
  {
    var s1, s2 := PublishWrites(s, val);
    var s3, s4 := PublishSwaps(s2);
    LatestTwo([s], [], S.PubBegin(val), S.PubWrite, s1, s2);
    hide LatestPath, S.Stepped, S.Enabled, S.Shaped;
    run, steps := [s] + [s1, s2], [] + [S.PubBegin(val), S.PubWrite];
    LatestTwo(run, steps, S.PubSwap, S.PubFinish, s3, s4);
    run, steps := run + [s3, s4], steps + [S.PubSwap, S.PubFinish];
  }

  lemma TakeLoads(s: S.Sys) returns (s1: S.Sys, s2: S.Sys)
    requires S.Inv(s) && s.cons.ConsIdle? && S.Latest(s).ready
    ensures var load := S.TakeLoad(|s.exchange| - 1); S.Enabled(s, load) && s1 == S.Stepped(s, load)
    ensures S.Shaped(s1) && S.Enabled(s1, S.TakeFront) && s2 == S.Stepped(s1, S.TakeFront) && S.Shaped(s2)
    ensures s2.cons == S.HasFront(s.cons.tid, s.consCell.front) && s2.prod == s.prod && s2.items == s.items && s2.returned == s.returned
    ensures Words(s2) == Words(s) && S.Latest(s2).ready && s2.consCell.front == s.consCell.front
  {
    s1 := S.Stepped(s, S.TakeLoad(|s.exchange| - 1));
    s2 := S.Stepped(s1, S.TakeFront);
  }

  lemma TakeSwaps(s2: S.Sys) returns (s3: S.Sys, s4: S.Sys)
    requires S.Shaped(s2) && s2.cons.HasFront? && s2.cons.front == s2.consCell.front && S.Latest(s2).ready
    ensures S.Enabled(s2, S.TakeSwap) && s3 == S.Stepped(s2, S.TakeSwap)
    ensures S.Shaped(s3) && S.Enabled(s3, S.TakeStore) && s4 == S.Stepped(s3, S.TakeStore) && S.Shaped(s4)
    ensures var c := Words(s2);
            && s4.cons == S.Claimed(s2.cons.tid, c.slot) && s4.prod == s2.prod && s4.items == s2.items && s4.returned == s2.returned
            && Words(s4) == c.(slot := c.front, ready := false, front := c.slot)
  {
    s3 := S.Stepped(s2, S.TakeSwap);
    s4 := S.Stepped(s3, S.TakeStore);
  }

  lemma TakeCopies(s4: S.Sys) returns (s5: S.Sys, s6: S.Sys)
    requires S.Shaped(s4) && s4.cons.Claimed?
    ensures S.Enabled(s4, S.TakeRead) && s5 == S.Stepped(s4, S.TakeRead)
    ensures S.Shaped(s5) && S.Enabled(s5, S.TakeFinish) && s6 == S.Stepped(s5, S.TakeFinish) && S.Shaped(s6)
    ensures var c := Words(s4);
            var entry := c.slots[s4.cons.slot];
            var distance := SeqDistance(c.lastGeneration, entry.generation) as int;
            && s6.cons == S.ConsIdle(s4.cons.tid) && s6.prod == s4.prod && s6.returned == s4.returned
            && s6.items == s4.items + [S.Taken(entry.value, entry.generation, if distance == 0 then 0 else distance - 1)]
            && Words(s6) == c.(lastGeneration := entry.generation)
  {
    hide SeqDistance;
    s5 := S.Stepped(s4, S.TakeRead);
    s6 := S.Stepped(s5, S.TakeFinish);
  }

  /** With nothing ready the call ends at its load. */
  lemma TakeFindsNothing(s: S.Sys) returns (s1: S.Sys)
    requires S.Inv(s) && s.cons.ConsIdle? && !S.Latest(s).ready
    ensures var load := S.TakeLoad(|s.exchange| - 1); S.Enabled(s, load) && s1 == S.Stepped(s, load)
    ensures S.Shaped(s1) && Words(s1) == Words(s) && s1.prod == s.prod && s1.cons == s.cons && s1.items == s.items && s1.returned == s.returned
  {
    s1 := S.Stepped(s, S.TakeLoad(|s.exchange| - 1));
  }

  /** The path goes on from where it was. */
  predicate Continues(run: seq<S.Sys>, steps: seq<S.Step>, run': seq<S.Sys>, steps': seq<S.Step>) {
    LatestPath(run, steps) && LatestPath(run', steps') && run <= run' && steps <= steps'
  }

  lemma TakeEnds(run: seq<S.Sys>, steps: seq<S.Step>) returns (run': seq<S.Sys>, steps': seq<S.Step>)
    requires LatestPath(run, steps) && S.Shaped(run[|steps|]) && run[|steps|].cons.Claimed?
    ensures Continues(run, steps, run', steps') && S.Shaped(run'[|steps'|])
    ensures var s4, s6, c := run[|steps|], run'[|steps'|], Words(run[|steps|]);
            var entry := c.slots[s4.cons.slot];
            var distance := SeqDistance(c.lastGeneration, entry.generation) as int;
            && s6.cons == S.ConsIdle(s4.cons.tid) && s6.prod == s4.prod && s6.returned == s4.returned
            && s6.items == s4.items + [S.Taken(entry.value, entry.generation, if distance == 0 then 0 else distance - 1)]
            && Words(s6) == c.(lastGeneration := entry.generation)
  {
    var s5, s6 := TakeCopies(run[|steps|]);
    LatestTwo(run, steps, S.TakeRead, S.TakeFinish, s5, s6);
    run', steps' := run + [s5, s6], steps + [S.TakeRead, S.TakeFinish];
  }

  lemma TakeGoesOn(run: seq<S.Sys>, steps: seq<S.Step>) returns (run': seq<S.Sys>, steps': seq<S.Step>)
    requires LatestPath(run, steps) && S.Shaped(run[|steps|]) && S.Latest(run[|steps|]).ready
    requires run[|steps|].cons.HasFront? && run[|steps|].cons.front == run[|steps|].consCell.front
    ensures Continues(run, steps, run', steps') && S.Shaped(run'[|steps'|])
    ensures var s2, s4, c := run[|steps|], run'[|steps'|], Words(run[|steps|]);
            && s4.cons == S.Claimed(s2.cons.tid, c.slot) && s4.prod == s2.prod && s4.items == s2.items && s4.returned == s2.returned
            && Words(s4) == c.(slot := c.front, ready := false, front := c.slot)
  {
    var s3, s4 := TakeSwaps(run[|steps|]);
    LatestTwo(run, steps, S.TakeSwap, S.TakeStore, s3, s4);
    run', steps' := run + [s3, s4], steps + [S.TakeSwap, S.TakeStore];
  }

  lemma TakeBegins(s: S.Sys) returns (run: seq<S.Sys>, steps: seq<S.Step>)
    requires S.Inv(s) && s.cons.ConsIdle? && S.Latest(s).ready
    ensures LatestPath(run, steps) && run[0] == s && steps != [] && steps[0] == S.TakeLoad(|s.exchange| - 1)
    ensures var s2 := run[|steps|];
            && S.Shaped(s2) && s2.cons == S.HasFront(s.cons.tid, s.consCell.front) && s2.prod == s.prod && s2.items == s.items && s2.returned == s.returned
            && Words(s2) == Words(s) && S.Latest(s2).ready && s2.consCell.front == s.consCell.front
  {
    var s1, s2 := TakeLoads(s);
    LatestTwo([s], [], S.TakeLoad(|s.exchange| - 1), S.TakeFront, s1, s2);
    run, steps := [s] + [s1, s2], [] + [S.TakeLoad(|s.exchange| - 1), S.TakeFront];
  }

  lemma TakeIsCall(s: S.Sys) returns (run: seq<S.Sys>, steps: seq<S.Step>)
    requires S.Inv(s) && s.cons.ConsIdle?
    ensures LatestPath(run, steps) && run[0] == s && steps != [] && steps[0] == S.TakeLoad(|s.exchange| - 1)
    ensures var s', called := run[|steps|], L.Taken(Words(s));
            && S.Shaped(s') && s'.prod == s.prod && s'.cons == s.cons && Words(s') == called.0 && s'.returned == s.returned
            && s'.items == if called.1.None? then s.items
                           else s.items + [S.Taken(called.1.value.value, called.1.value.generation, called.1.value.skipped)]
  {
    if S.Latest(s).ready {
      assert Words(s).ready;
      var run1, steps1 := TakeBegins(s);
      hide LatestPath, Words, S.Latest, S.Shaped, S.Inv, SeqDistance;
      var run2, steps2 := TakeGoesOn(run1, steps1);
      run, steps := TakeEnds(run2, steps2);
    } else {
      var s1 := TakeFindsNothing(s);
      run, steps := [s, s1], [S.TakeLoad(|s.exchange| - 1)];
    }
  }

  // ---------------------------------------------------------------- CountedSignal

  predicate SignalPath(run: seq<C.Sys>, steps: seq<C.Step>) {
    && |run| == |steps| + 1
    && (forall t | 0 <= t < |steps| ::
          C.Shaped(run[t]) && C.Enabled(run[t], steps[t]) && run[t + 1] == C.Stepped(run[t], steps[t]))
  }

  lemma IncrementIsCall(s: C.Sys) returns (run: seq<C.Sys>, steps: seq<C.Step>)
    requires C.Inv(s) && s.prod.Idle?
    ensures SignalPath(run, steps) && run[0] == s && steps != [] && steps[0] == C.IncLoad(|s.count| - 1)
    ensures var s' := run[|steps|];
            && C.Shaped(s') && s'.prod == s.prod && s'.cons == s.cons
            && C.Newest(s') == C.Incremented(C.Newest(s)) && s'.since == s.since + 1
  {
    var load := C.IncLoad(|s.count| - 1);
    var s1 := C.Stepped(s, load);
    var next := if C.Newest(s) == C.MAX then C.IncOr else C.IncAdd;
    run, steps := [s, s1, C.Stepped(s1, next)], [load, next];
  }

  /** A take is one operation: it returns the count and clears it. */
  lemma TakeCountIsCall(s: C.Sys)
    requires C.Inv(s) && s.cons.Ready?
    ensures C.Enabled(s, C.TakeCount)
    ensures var s' := C.Stepped(s, C.TakeCount);
            && C.Shaped(s') && s'.prod == s.prod && s'.cons == s.cons && C.Newest(s') == 0 && s'.since == 0
            && s'.takes == s.takes + [C.Take(C.Newest(s), s.since)] && C.Newest(s) == C.Saturated(s.since)
  {
  }

  // ---------------------------------------------------------------- the machines do get there

  lemma EventJoin(run: seq<V.Sys>, steps: seq<V.Step>, run': seq<V.Sys>, steps': seq<V.Step>)
    requires EventPath(run, steps) && EventPath(run', steps') && run'[0] == run[|steps|]
    ensures EventPath(run + run'[1..], steps + steps') && (run + run'[1..])[|steps + steps'|] == run'[|steps'|]
  {
    hide V.Shaped, V.Enabled, V.Stepped;
    var r, st := run + run'[1..], steps + steps';
    forall t | 0 <= t < |st|
      ensures V.Shaped(r[t]) && V.Enabled(r[t], st[t]) && r[t + 1] == V.Stepped(r[t], st[t])
    {
      if |steps| <= t { assert r[t] == run'[t - |steps|] && st[t] == steps'[t - |steps|]; }
    }
  }

  lemma LatestJoin(run: seq<S.Sys>, steps: seq<S.Step>, run': seq<S.Sys>, steps': seq<S.Step>)
    requires LatestPath(run, steps) && LatestPath(run', steps') && run'[0] == run[|steps|]
    ensures LatestPath(run + run'[1..], steps + steps') && (run + run'[1..])[|steps + steps'|] == run'[|steps'|]
  {
    hide S.Shaped, S.Enabled, S.Stepped;
    var r, st := run + run'[1..], steps + steps';
    forall t | 0 <= t < |st|
      ensures S.Shaped(r[t]) && S.Enabled(r[t], st[t]) && r[t + 1] == S.Stepped(r[t], st[t])
    {
      if |steps| <= t { assert r[t] == run'[t - |steps|] && st[t] == steps'[t - |steps|]; }
    }
  }

  lemma BufferRoles(s0: V.Sys) returns (run: seq<V.Sys>, steps: seq<V.Step>)
    requires V.Init(s0) && 2 <= |s0.views|
    ensures V.Run(run, steps) && EventPath(run, steps) && run[0] == s0
    ensures var s := run[|steps|];
            && s.prod == V.ProdIdle(0) && s.cons == V.ConsIdle(1) && s.written == s.popped == []
            && |s.head| == |s.tail| == 1 && 0 < |s.slots|
  {
    var s1 := V.Stepped(s0, V.TryProducer(0));
    var s2 := V.Stepped(s1, V.TryConsumer(1));
    run, steps := [s0, s1, s2], [V.TryProducer(0), V.TryConsumer(1)];
  }

  /** From a new buffer, two threads take the roles, one pushes a value and the other pops it. */
  lemma ValueArrives(s0: V.Sys, val: V.Item) returns (run: seq<V.Sys>, steps: seq<V.Step>)
    requires V.Init(s0) && 2 <= |s0.views|
    ensures V.Run(run, steps) && run[0] == s0 && run[|steps|].popped == [val]
  {
    run, steps := BufferRoles(s0);
    var s2 := run[|steps|];
    V.RunKeepsCursorInv(run, steps);
    NotFull(s2);
    var r1, t1 := PushIsCall(s2, val);
    hide V.CursorInv, V.Stepped, V.Enabled, V.Shaped, V.Init;
    EventJoin(run, steps, r1, t1);
    run, steps := run + r1[1..], steps + t1;
    var r2, t2 := PopIsCall(run[|steps|]);
    EventJoin(run, steps, r2, t2);
    run, steps := run + r2[1..], steps + t2;
  }

  lemma NotFull(s: V.Sys)
    requires V.CursorInv(s) && |s.head| == |s.tail| == 1
    ensures !E.IsFull(Fields(s)) && Fields(s).tail == Fields(s).head == 0
  {
  }

  lemma ChannelRoles(s0: S.Sys) returns (run: seq<S.Sys>, steps: seq<S.Step>)
    requires S.Init(s0) && 2 <= |s0.views|
    ensures S.Run(run, steps) && LatestPath(run, steps) && run[0] == s0
    ensures var s := run[|steps|];
            && S.Shaped(s) && s.prod == S.ProdIdle(0) && s.cons == S.ConsIdle(1) && s.items == [] && s.returned == []
            && s.prodCell.nextGen == s.consCell.lastGen == 0 && !Words(s).ready
  {
    var s1 := S.Stepped(s0, S.TryProducer(0));
    var s2 := S.Stepped(s1, S.TryConsumer(1));
    run, steps := [s0, s1, s2], [S.TryProducer(0), S.TryConsumer(1)];
  }

  /** From a new channel, two threads take the roles, one publishes and the other takes it. */
  lemma LatestArrives(s0: S.Sys, val: S.Item) returns (run: seq<S.Sys>, steps: seq<S.Step>)
    requires S.Init(s0) && 2 <= |s0.views|
    ensures S.Run(run, steps) && run[0] == s0 && run[|steps|].items == [S.Taken(val, 1, 0)] && run[|steps|].returned == [S.Report(1, false)]
  {
    run, steps := ChannelRoles(s0);
    var r1, t1 := PublishIsCall(run[|steps|], val);
    FirstTaken(Words(run[|steps|]), val);
    hide S.Stepped, S.Enabled, S.Init, Words, S.Shaped, L.Published, L.Taken;
    LatestJoin(run, steps, r1, t1);
    run, steps := run + r1[1..], steps + t1;
    S.RunKeepsInv(run, steps);
    var r2, t2 := TakeIsCall(run[|steps|]);
    LatestJoin(run, steps, r2, t2);
    run, steps := run + r2[1..], steps + t2;
  }

  lemma FirstTaken(c: L.Chan<S.Item>, val: S.Item)
    requires |c.slots| == 3 && c.back < 3 && c.slot < 3 && c.nextGeneration == c.lastGeneration == 0
    ensures L.Published(c, val).0.slot < |L.Published(c, val).0.slots|
    ensures L.Taken(L.Published(c, val).0).1 == Some(L.LatestItem(val, 1, 0))
    ensures !c.ready ==> L.Published(c, val).1 == L.PublishReport(1, false)
  {
  }
}
