/** `EventBuf` on the view machine, judged by the steps taken alone: who holds the roles, that no
    call can be blocked, when `len` ends, and what was written and popped. */
module EventBufTraces {
  import opened SeqArith
  import opened EventBufViews

  // ---------------------------------------------------------------- the roles

  /** A role is granted exactly if it is free, to the thread that asked, who then knows what the
      last holder knew; nothing else changes. */
  lemma ProducerGranted(s: Sys, tid: nat)
    requires CursorInv(s) && Enabled(s, TryProducer(tid))
    ensures var s', v := Stepped(s, TryProducer(tid)), Join(s.views[tid], s.prodFlag.view);
            && s'.prod == (if s.prod.NoProducer? then ProdIdle(tid) else s.prod)
            && s'.prodFlag == Flag(true, v)
            && s' == s.(prod := s'.prod, prodFlag := s'.prodFlag, views := s.views[tid := v])
            && Le(s.prodFlag.view, s'.views[tid])
    ensures Stepped(s, TryProducer(tid)).prod != s.prod <==> !s.prodFlag.taken
  {
  }

  lemma ConsumerGranted(s: Sys, tid: nat)
    requires CursorInv(s) && Enabled(s, TryConsumer(tid))
    ensures var s', v := Stepped(s, TryConsumer(tid)), Join(s.views[tid], s.consFlag.view);
            && s'.cons == (if s.cons.NoConsumer? then ConsIdle(tid) else s.cons)
            && s'.consFlag == Flag(true, v)
            && s' == s.(cons := s'.cons, consFlag := s'.consFlag, views := s.views[tid := v])
            && Le(s.consFlag.view, s'.views[tid])
    ensures Stepped(s, TryConsumer(tid)).cons != s.cons <==> !s.consFlag.taken
  {
  }

  /** Dropping a handle frees the role and leaves what its holder knew. */
  lemma RolesFreed(s: Sys)
    requires CursorInv(s)
    ensures Enabled(s, DropProducer) <==> s.prod.ProdIdle?
    ensures s.prod.ProdIdle? ==>
              Stepped(s, DropProducer) == s.(prod := NoProducer, prodFlag := Flag(false, s.views[s.prod.tid]))
    ensures Enabled(s, DropConsumer) <==> s.cons.ConsIdle?
    ensures s.cons.ConsIdle? ==>
              Stepped(s, DropConsumer) == s.(cons := NoConsumer, consFlag := Flag(false, s.views[s.cons.tid]))
  {
  }

  // ---------------------------------------------------------------- no call blocks

  function PushLeft(p: Prod): nat {
    match p
    case ProdHead(_, _, _) => 3
    case ProdRoom(_, _, _, _) => 2
    case ProdWrote(_, _) => 1
    case _ => 0
  }

  function PopLeft(c: Cons): nat {
    match c
    case ConsTail(_, _, _) => 3
    case ConsItem(_, _, _, _) => 2
    case ConsRead(_, _, _) => 1
    case _ => 0
  }

  /** `push` is wait-free: whatever the others do, it always has a next step of its own, each
      brings its end nearer, and nobody else moves it. */
  lemma PushIsWaitFree(s: Sys, a: Step, val: Item)
    requires CursorInv(s) && Enabled(s, a)
    ensures PushSteps(a) ==>
              PushLeft(Stepped(s, a).prod) < (if a.PushLoadHead? then 4 else PushLeft(s.prod)) && !Stepped(s, a).prod.NoProducer?
    ensures PushSteps(a) ==> Stepped(s, a).prod.tid == s.prod.tid
    ensures !PushSteps(a) && !RoleSteps(a) ==> Stepped(s, a).prod == s.prod
    ensures 0 < PushLeft(s.prod) ==>
              Enabled(s, PushWrite) || Enabled(s, PushStore) || Enabled(s, PushLoadTail(|s.tail| - 1))
    ensures s.prod.ProdIdle? ==> Enabled(s, PushLoadHead(val, |s.head| - 1))
  {
    hide HeadInv, TailInv, LenInv;
  }

  lemma PopIsWaitFree(s: Sys, a: Step, peek: bool)
    requires CursorInv(s) && Enabled(s, a)
    ensures PopSteps(a) ==>
              PopLeft(Stepped(s, a).cons) < (if a.PopLoadTail? then 4 else PopLeft(s.cons)) && !Stepped(s, a).cons.NoConsumer?
    ensures PopSteps(a) ==> Stepped(s, a).cons.tid == s.cons.tid
    ensures !PopSteps(a) && !RoleSteps(a) ==> Stepped(s, a).cons == s.cons
    ensures 0 < PopLeft(s.cons) ==>
              Enabled(s, PopRead) || Enabled(s, PopStore) || Enabled(s, PopLoadHead(|s.head| - 1))
    ensures s.cons.ConsIdle? ==> Enabled(s, PopLoadTail(peek, |s.tail| - 1))
  {
    hide HeadInv, TailInv, LenInv;
  }

  // ---------------------------------------------------------------- orderings

  /** The Relaxed loads, each side's of its own cursor and those of `len`, teach a thread nothing
      but how new the message was. */
  lemma RelaxedLoadsLearnLittle(s: Sys, a: Step, tid: nat)
    requires Shaped(s) && Enabled(s, a) && tid < |s.views|
    requires (a.PushLoadHead? && tid == s.prod.tid) || (a.PopLoadTail? && tid == s.cons.tid)
          || ((a.LenLoadHead? || a.LenRecheck? || a.LenClampHead?) && tid == a.tid)
    ensures var s', v := Stepped(s, a), s.views[tid];
            && s'.head == s.head && s'.tail == s.tail && |s'.views| == |s.views|
            && s'.views[tid].p == v.p && s'.views[tid].c == v.c
            && s'.views == s.views[tid := s'.views[tid]]
            && (if a.PushLoadHead? || a.LenLoadHead? || a.LenClampHead? then s'.views[tid].t == v.t else s'.views[tid].h == v.h)
  {
  }

  /** The Acquire loads, each side's of the other's cursor and `len`'s of the tail, teach it what
      the message carries. */
  lemma AcquireLoadsLearn(s: Sys, i: nat, tid: nat)
    requires Shaped(s) && tid < |s.views|
    ensures Enabled(s, PushLoadTail(i)) && tid == s.prod.tid ==>
              && i < |s.tail| && Le(s.tail[i].view, Stepped(s, PushLoadTail(i)).views[tid])
              && Le(s.views[tid], Stepped(s, PushLoadTail(i)).views[tid])
    ensures Enabled(s, PopLoadHead(i)) && tid == s.cons.tid ==>
              && i < |s.head| && Le(s.head[i].view, Stepped(s, PopLoadHead(i)).views[tid])
              && Le(s.views[tid], Stepped(s, PopLoadHead(i)).views[tid])
    ensures Enabled(s, LenLoadTail(tid, i)) ==>
              i < |s.tail| && Le(s.tail[i].view, Stepped(s, LenLoadTail(tid, i)).views[tid])
    ensures Enabled(s, LenClampTail(tid, i)) ==>
              i < |s.tail| && Le(s.tail[i].view, Stepped(s, LenClampTail(tid, i)).views[tid])
  {
  }

  // ---------------------------------------------------------------- len

  /** A call of `len` ends exactly at a recheck that found equal samples or at the head load of
      the fallback; a recheck that did not goes on to the next attempt. */
  lemma LenEndsIff(s: Sys, a: Step)
    requires Shaped(s) && Enabled(s, a) && LenSteps(a)
    ensures Stepped(s, a).lens[a.tid].NoLen? <==> Returns(s, a)
    ensures a.LenRecheck? && !Returns(s, a) ==> Stepped(s, a).lens[a.tid] == Bracket(s.lens[a.tid].round + 1)
    ensures a.LenStart? ==> Stepped(s, a).lens[a.tid] == Bracket(0)
    ensures Stepped(s, a).lens == s.lens[a.tid := Stepped(s, a).lens[a.tid]]
  {
  }

  /** Steps of its own a call of `len` can still take: two brackets of four, then two loads. */
  function LenLeft(l: Len): int {
    match l
    case NoLen => 0
    case Bracket(round) => 2 + 4 * (2 - round)
    case LenTail(round, _) => 1 + 4 * (2 - round)
    case LenHead(round, _, _, _) => 4 * (2 - round)
    case LenFenced(round, _, _) => 4 * (2 - round) - 1
    case LenClamp(_) => 1
  }

  /** Attempts never pass the limit of two. */
  predicate RoundsInv(s: Sys) {
    forall k | 0 <= k < |s.lens| ::
      && (s.lens[k].Bracket? ==> s.lens[k].round <= 2)
      && (s.lens[k].LenTail? || s.lens[k].LenHead? || s.lens[k].LenFenced? ==> s.lens[k].round < 2)
  }

  /** Every step of a call brings its end nearer, at most ten steps away. */
  lemma LenComesToAnEnd(s: Sys, a: Step)
    requires Shaped(s) && RoundsInv(s) && Enabled(s, a) && LenSteps(a)
    ensures var l, l' := s.lens[a.tid], Stepped(s, a).lens[a.tid];
            && 0 <= LenLeft(l') < (if a.LenStart? then 11 else LenLeft(l)) && LenLeft(l) <= 10
            && (l'.Bracket? ==> l'.round <= 2)
            && (l'.LenTail? || l'.LenHead? || l'.LenFenced? ==> l'.round < 2)
    ensures Stepped(s, a).lens == s.lens[a.tid := Stepped(s, a).lens[a.tid]]
  {
  }

  lemma OthersLeaveLens(s: Sys, a: Step)
    requires Shaped(s) && Enabled(s, a) && !LenSteps(a)
    ensures Stepped(s, a).lens == s.lens
  {
  }

  lemma LenCanGoOn(s: Sys, tid: nat)
    requires Shaped(s) && ViewsInv(s) && tid < |s.lens|
    ensures s.lens[tid].Bracket? ==>
              && (Enabled(s, LenLoadTail(tid, |s.tail| - 1)) <==> s.lens[tid].round < 2)
              && (Enabled(s, LenClampTail(tid, |s.tail| - 1)) <==> s.lens[tid].round >= 2)
    ensures 0 < LenLeft(s.lens[tid]) || !s.lens[tid].NoLen? ==>
              || Enabled(s, LenLoadTail(tid, |s.tail| - 1)) || Enabled(s, LenLoadHead(tid, |s.head| - 1))
              || Enabled(s, LenFence(tid)) || Enabled(s, LenRecheck(tid, |s.tail| - 1))
              || Enabled(s, LenClampTail(tid, |s.tail| - 1)) || Enabled(s, LenClampHead(tid, |s.head| - 1))
  {
    assert Sane(s, s.views[tid]);
  }

  /** `len` never blocks: whatever producer and consumer do, it has a next step, every step of
      its own is one of at most ten, and nobody else moves it.  It tries exactly two brackets
      before it falls back. */
  lemma LenIsWaitFree(s: Sys, a: Step, tid: nat)
    requires CursorInv(s) && RoundsInv(s) && Enabled(s, a) && tid < |s.lens|
    ensures RoundsInv(Stepped(s, a)) && |Stepped(s, a).lens| == |s.lens| && LenLeft(s.lens[tid]) <= 10
    ensures LenSteps(a) && a.tid == tid ==>
              0 <= LenLeft(Stepped(s, a).lens[tid]) < (if a.LenStart? then 11 else LenLeft(s.lens[tid]))
    ensures !(LenSteps(a) && a.tid == tid) ==> Stepped(s, a).lens[tid] == s.lens[tid]
    ensures s.lens[tid].Bracket? ==>
              && (Enabled(s, LenLoadTail(tid, |s.tail| - 1)) <==> s.lens[tid].round < 2)
              && (Enabled(s, LenClampTail(tid, |s.tail| - 1)) <==> s.lens[tid].round == 2)
    ensures !s.lens[tid].NoLen? ==>
              || Enabled(s, LenLoadTail(tid, |s.tail| - 1)) || Enabled(s, LenLoadHead(tid, |s.head| - 1))
              || Enabled(s, LenFence(tid)) || Enabled(s, LenRecheck(tid, |s.tail| - 1))
              || Enabled(s, LenClampTail(tid, |s.tail| - 1)) || Enabled(s, LenClampHead(tid, |s.head| - 1))
  {
    LenCanGoOn(s, tid);
    if LenSteps(a) { LenComesToAnEnd(s, a); } else { OthersLeaveLens(s, a); }
    hide Stepped, HeadInv, TailInv, LenInv, ViewsInv, ProdInv, ConsInv;
  }

  lemma {:induction false} RoundsNeverPass(run: seq<Sys>, steps: seq<Step>)
    requires Run(run, steps)
    ensures RoundsInv(run[|steps|])
  {
    var t := |steps|;
    if 0 < t {
      RoundsNeverPass(run[..t], steps[..t - 1]);
      RunKeepsCursorInv(run[..t], steps[..t - 1]);
      var s, a := run[t - 1], steps[t - 1];
      hide CursorInv, RoundsInv, Stepped, Enabled, Init;
      KeepsRounds(s, a);
    }
  }

  lemma KeepsRounds(s: Sys, a: Step)
    requires CursorInv(s) && RoundsInv(s) && Enabled(s, a)
    ensures RoundsInv(Stepped(s, a))
  {
    if s.lens == [] { assert Stepped(s, a).lens == []; } else { LenIsWaitFree(s, a, 0); }
  }

  // ---------------------------------------------------------------- what was written and popped

  /** The value of the latest call of `push` among the steps. */
  function PushedLast(steps: seq<Step>): Item {
    if steps == [] then 0
    else
      match steps[|steps| - 1]
      case PushLoadHead(val, _) => val
      case _ => PushedLast(steps[..|steps| - 1])
  }

  /** The values of the pushes that went on to write. */
  function Writes(steps: seq<Step>): seq<Item> {
    if steps == [] then []
    else if steps[|steps| - 1].PushWrite? then Writes(steps[..|steps| - 1]) + [PushedLast(steps[..|steps| - 1])]
    else Writes(steps[..|steps| - 1])
  }

  function Stores(steps: seq<Step>): nat {
    if steps == [] then 0 else Stores(steps[..|steps| - 1]) + if steps[|steps| - 1].PushStore? then 1 else 0
  }

  function Pops(steps: seq<Step>): nat {
    if steps == [] then 0 else Pops(steps[..|steps| - 1]) + if steps[|steps| - 1].PopStore? then 1 else 0
  }

  predicate TraceInv(s: Sys, steps: seq<Step>) {
    && s.written == Writes(steps) && Head(s) == Stores(steps) && Tail(s) == Pops(steps)
    && (s.prod.ProdHead? || s.prod.ProdRoom? ==> s.prod.val == PushedLast(steps))
  }

  lemma StepKeepsTrace(s: Sys, a: Step, steps: seq<Step>)
    requires CursorInv(s) && TraceInv(s, steps) && Enabled(s, a)
    ensures TraceInv(Stepped(s, a), steps + [a])
  {
    hide HeadInv, TailInv, LenInv, ViewsInv;
    assert (steps + [a])[..|steps|] == steps;
  }

  lemma {:induction false} RunKeepsTrace(run: seq<Sys>, steps: seq<Step>)
    requires Run(run, steps)
    ensures TraceInv(run[|steps|], steps)
  {
    var t := |steps|;
    if 0 < t {
      RunKeepsTrace(run[..t], steps[..t - 1]);
      RunKeepsCursorInv(run[..t], steps[..t - 1]);
      var s, a := run[t - 1], steps[t - 1];
      hide CursorInv, TraceInv, Stepped, Enabled, Init;
      StepKeepsTrace(s, a, steps[..t - 1]);
      assert steps == steps[..t - 1] + [a];
    }
  }

  /** FIFO, from the steps alone: after every run whose positions fit, the values popped so far
      are the first of those the pushes wrote, one for each `pop` that has stored its tail, and
      every slot write and cursor store of the run is accounted for. */
  lemma PopsFollowPushes(run: seq<Sys>, steps: seq<Step>)
    requires Run(run, steps) && Shaped(run[|steps|]) && Fits(run[|steps|])
    ensures var s := run[|steps|];
            && Pops(steps) <= Stores(steps) <= |Writes(steps)| <= Stores(steps) + 1
            && Stores(steps) <= Pops(steps) + |s.slots|
            && s.popped == Writes(steps)[..Pops(steps)]
            && Head(s) == Stores(steps) && Tail(s) == Pops(steps)
  {
    RunKeepsTrace(run, steps);
    RunKeepsCursorInv(run, steps);
    PoppedIsAPrefix(run, steps);
    hide HeadInv, TailInv, LenInv, ViewsInv;
  }
}
