/** `EventBuf` on a release/acquire view machine (ISO/IEC 9899:2011, 5.1.2.4, 7.17.3, 7.17.4).

    `head` and `tail` are append-only histories of messages; message i of a cursor is the store
    that made its position i.  Every thread has a view.  A load may return any message not older
    than the thread has seen; an Acquire load joins the message's view, a Relaxed load only when
    an Acquire fence follows; a Release store publishes the writer's view.  The role flags are
    accessed by AcqRel swaps and Release stores, so each acquisition reads the newest one.

    Any number of threads may try to take either role, hold both, and call `len`. */
module EventBufViews {
  import opened Common
  import opened SeqArith

  /** The payload; it is only moved. */
  type Item = int

  /** What happens before a thread's present: the newest `head` and `tail` messages it may not
      look behind, and how many producer slot writes and consumer slot reads it is ordered after. */
  datatype View = View(h: nat, t: nat, p: nat, c: nat)

  function Join(a: View, b: View): View {
    View(Max(a.h, b.h), Max(a.t, b.t), Max(a.p, b.p), Max(a.c, b.c))
  }

  predicate Le(a: View, b: View) {
    a.h <= b.h && a.t <= b.t && a.p <= b.p && a.c <= b.c
  }

  datatype Msg = Msg(value: U32, view: View)

  /** A slot, with the numbers of the last write and the last read made of it, and one more
      than the position that read was for. */
  datatype Slot = Slot(value: Item, writeNo: nat, readNo: nat, readPos: nat)

  datatype Flag = Flag(taken: bool, view: View)

  /** The producer inside `push`; `head` and `tail` are the message indices its loads returned. */
  datatype Prod =
    | NoProducer
    | ProdIdle(tid: nat)
    | ProdHead(tid: nat, val: Item, head: nat)
    | ProdRoom(tid: nat, val: Item, head: nat, tail: nat)
    | ProdWrote(tid: nat, head: nat)

  /** The consumer inside `pop` or `peek`. */
  datatype Cons =
    | NoConsumer
    | ConsIdle(tid: nat)
    | ConsTail(tid: nat, peek: bool, tail: nat)
    | ConsItem(tid: nat, peek: bool, tail: nat, head: nat)
    | ConsRead(tid: nat, tail: nat, val: Item)

  /** A thread inside `len`: `round` counts the bracketed attempts. */
  datatype Len =
    | NoLen
    | Bracket(round: nat)
    | LenTail(round: nat, t1: nat)
    | LenHead(round: nat, t1: nat, h: nat, pend: View)
    | LenFenced(round: nat, t1: nat, h: nat)
    | LenClamp(t: nat)

  /** `writeCount` and `readCount` count slot accesses; `written[q]` is the value written for position q;
      `popped` are the results of `pop`. */
  datatype Sys = Sys(
    head: seq<Msg>, tail: seq<Msg>, slots: seq<Slot>,
    views: seq<View>, prodFlag: Flag, consFlag: Flag,
    prod: Prod, cons: Cons, lens: seq<Len>,
    writeCount: nat, readCount: nat, written: seq<Item>, popped: seq<Item>
  )

  datatype Step =
    | TryProducer(tid: nat) | DropProducer | TryConsumer(tid: nat) | DropConsumer
    | PushLoadHead(val: Item, i: nat) | PushLoadTail(j: nat) | PushWrite | PushStore
    | PopLoadTail(peek: bool, i: nat) | PopLoadHead(j: nat) | PopRead | PopStore
    | LenStart(tid: nat) | LenLoadTail(tid: nat, i: nat) | LenLoadHead(tid: nat, j: nat) | LenFence(tid: nat)
    | LenRecheck(tid: nat, i: nat) | LenClampTail(tid: nat, i: nat) | LenClampHead(tid: nat, j: nat)

  const RETRY_LIMIT: nat := 2

  function SlotIndex(pos: U32, n: nat): (i: nat)
    requires 0 < n
    ensures i < n
  {
    pos as int % n
  }

  predicate Readable(history: seq<Msg>, i: nat, atLeast: nat) {
    atLeast <= i < |history|
  }

  /** Thread and message indices are in range. */
  predicate ProdShaped(s: Sys, p: Prod) {
    && (!p.NoProducer? ==> p.tid < |s.views|)
    && (p.ProdHead? || p.ProdRoom? || p.ProdWrote? ==> p.head < |s.head|)
    && (p.ProdRoom? ==> p.tail < |s.tail|)
  }

  predicate ConsShaped(s: Sys, c: Cons) {
    && (!c.NoConsumer? ==> c.tid < |s.views|)
    && (c.ConsTail? || c.ConsItem? || c.ConsRead? ==> c.tail < |s.tail|)
    && (c.ConsItem? ==> c.head < |s.head|)
  }

  predicate LenShaped(s: Sys, l: Len) {
    && (l.LenTail? || l.LenHead? || l.LenFenced? ==> l.t1 < |s.tail|)
    && (l.LenHead? || l.LenFenced? ==> l.h < |s.head|)
    && (l.LenClamp? ==> l.t < |s.tail|)
  }

  predicate Shaped(s: Sys) {
    && 0 < |s.slots| && 0 < |s.head| && 0 < |s.tail| && |s.lens| == |s.views|
    && ProdShaped(s, s.prod) && ConsShaped(s, s.cons)
    && (forall k | 0 <= k < |s.lens| :: LenShaped(s, s.lens[k]))
  }

  predicate Enabled(s: Sys, a: Step)
    requires Shaped(s)
  {
    match a
    case TryProducer(tid) => tid < |s.views|
    case TryConsumer(tid) => tid < |s.views|
    case DropProducer => s.prod.ProdIdle?
    case DropConsumer => s.cons.ConsIdle?
    case PushLoadHead(_, i) => s.prod.ProdIdle? && Readable(s.head, i, s.views[s.prod.tid].h)
    case PushLoadTail(j) => s.prod.ProdHead? && Readable(s.tail, j, s.views[s.prod.tid].t)
    case PushWrite => s.prod.ProdRoom?
    case PushStore => s.prod.ProdWrote?
    case PopLoadTail(_, i) => s.cons.ConsIdle? && Readable(s.tail, i, s.views[s.cons.tid].t)
    case PopLoadHead(j) => s.cons.ConsTail? && Readable(s.head, j, s.views[s.cons.tid].h)
    case PopRead => s.cons.ConsItem?
    case PopStore => s.cons.ConsRead?
    case LenStart(tid) => tid < |s.views| && s.lens[tid].NoLen?
    case LenLoadTail(tid, i) =>
      tid < |s.views| && s.lens[tid].Bracket? && s.lens[tid].round < RETRY_LIMIT && Readable(s.tail, i, s.views[tid].t)
    case LenLoadHead(tid, j) => tid < |s.views| && s.lens[tid].LenTail? && Readable(s.head, j, s.views[tid].h)
    case LenFence(tid) => tid < |s.views| && s.lens[tid].LenHead?
    case LenRecheck(tid, i) => tid < |s.views| && s.lens[tid].LenFenced? && Readable(s.tail, i, s.views[tid].t)
    case LenClampTail(tid, i) =>
      tid < |s.views| && s.lens[tid].Bracket? && s.lens[tid].round >= RETRY_LIMIT && Readable(s.tail, i, s.views[tid].t)
    case LenClampHead(tid, j) => tid < |s.views| && s.lens[tid].LenClamp? && Readable(s.head, j, s.views[tid].h)
  }

  /** An Acquire load returning message i. */
  function AcquireTail(s: Sys, tid: nat, i: nat): Sys
    requires tid < |s.views| && i < |s.tail|
  {
    s.(views := s.views[tid := Join(s.views[tid].(t := Max(s.views[tid].t, i)), s.tail[i].view)])
  }

  function AcquireHead(s: Sys, tid: nat, j: nat): Sys
    requires tid < |s.views| && j < |s.head|
  {
    s.(views := s.views[tid := Join(s.views[tid].(h := Max(s.views[tid].h, j)), s.head[j].view)])
  }

  /** A Relaxed load returning message i only moves the coherence bound. */
  function RelaxedTail(s: Sys, tid: nat, i: nat): Sys
    requires tid < |s.views|
  {
    s.(views := s.views[tid := s.views[tid].(t := Max(s.views[tid].t, i))])
  }

  function RelaxedHead(s: Sys, tid: nat, j: nat): Sys
    requires tid < |s.views|
  {
    s.(views := s.views[tid := s.views[tid].(h := Max(s.views[tid].h, j))])
  }

  predicate RoleSteps(a: Step) { a.TryProducer? || a.TryConsumer? || a.DropProducer? || a.DropConsumer? }
  predicate PushSteps(a: Step) { a.PushLoadHead? || a.PushLoadTail? || a.PushWrite? || a.PushStore? }
  predicate PopSteps(a: Step) { a.PopLoadTail? || a.PopLoadHead? || a.PopRead? || a.PopStore? }
  predicate LenSteps(a: Step) { !RoleSteps(a) && !PushSteps(a) && !PopSteps(a) }

  function RoleStep(s: Sys, a: Step): Sys
    requires Shaped(s) && Enabled(s, a) && RoleSteps(a)
  {
    match a
    case TryProducer(tid) =>
      var v := Join(s.views[tid], s.prodFlag.view);
      var s1 := s.(views := s.views[tid := v], prodFlag := Flag(true, v));
      if s.prodFlag.taken then s1 else s1.(prod := ProdIdle(tid))
    case TryConsumer(tid) =>
      var v := Join(s.views[tid], s.consFlag.view);
      var s1 := s.(views := s.views[tid := v], consFlag := Flag(true, v));
      if s.consFlag.taken then s1 else s1.(cons := ConsIdle(tid))
    case DropProducer => s.(prodFlag := Flag(false, s.views[s.prod.tid]), prod := NoProducer)
    case DropConsumer => s.(consFlag := Flag(false, s.views[s.cons.tid]), cons := NoConsumer)
  }

  function PushStep(s: Sys, a: Step): Sys
    requires Shaped(s) && Enabled(s, a) && PushSteps(a)
  {
    var n := |s.slots|;
    match a
    case PushLoadHead(val, i) =>
      RelaxedHead(s, s.prod.tid, i).(prod := ProdHead(s.prod.tid, val, i))
    case PushLoadTail(j) =>
      var full := n <= WrapSub(s.head[s.prod.head].value, s.tail[j].value) as int;
      AcquireTail(s, s.prod.tid, j).(prod := if full then ProdIdle(s.prod.tid)
                                             else ProdRoom(s.prod.tid, s.prod.val, s.prod.head, j))
    case PushWrite =>
      var tid, idx := s.prod.tid, SlotIndex(s.head[s.prod.head].value, n);
      s.(slots := s.slots[idx := s.slots[idx].(value := s.prod.val, writeNo := s.writeCount + 1)],
         views := s.views[tid := s.views[tid].(p := s.writeCount + 1)],
         writeCount := s.writeCount + 1, written := s.written + [s.prod.val],
         prod := ProdWrote(tid, s.prod.head))
    case PushStore =>
      var v := s.views[s.prod.tid].(h := |s.head|);
      s.(head := s.head + [Msg(WrapAdd(s.head[s.prod.head].value, 1), v)],
         views := s.views[s.prod.tid := v], prod := ProdIdle(s.prod.tid))
  }

  function PopStep(s: Sys, a: Step): Sys
    requires Shaped(s) && Enabled(s, a) && PopSteps(a)
  {
    var n := |s.slots|;
    match a
    case PopLoadTail(peek, i) =>
      RelaxedTail(s, s.cons.tid, i).(cons := ConsTail(s.cons.tid, peek, i))
    case PopLoadHead(j) =>
      var empty := s.tail[s.cons.tail].value == s.head[j].value;
      AcquireHead(s, s.cons.tid, j).(cons := if empty then ConsIdle(s.cons.tid)
                                             else ConsItem(s.cons.tid, s.cons.peek, s.cons.tail, j))
    case PopRead =>
      var tid, idx := s.cons.tid, SlotIndex(s.tail[s.cons.tail].value, n);
      s.(slots := s.slots[idx := s.slots[idx].(readNo := s.readCount + 1, readPos := s.cons.tail + 1)],
         views := s.views[tid := s.views[tid].(c := s.readCount + 1)], readCount := s.readCount + 1,
         cons := if s.cons.peek then ConsIdle(tid) else ConsRead(tid, s.cons.tail, s.slots[idx].value))
    case PopStore =>
      var v := s.views[s.cons.tid].(t := |s.tail|);
      s.(tail := s.tail + [Msg(WrapAdd(s.tail[s.cons.tail].value, 1), v)],
         views := s.views[s.cons.tid := v], cons := ConsIdle(s.cons.tid), popped := s.popped + [s.cons.val])
  }

  function LenStep(s: Sys, a: Step): Sys
    requires Shaped(s) && Enabled(s, a) && LenSteps(a)
  {
    match a
    case LenStart(tid) => s.(lens := s.lens[tid := Bracket(0)])
    case LenLoadTail(tid, i) =>
      AcquireTail(s, tid, i).(lens := s.lens[tid := LenTail(s.lens[tid].round, i)])
    case LenLoadHead(tid, j) =>
      RelaxedHead(s, tid, j).(lens := s.lens[tid := LenHead(s.lens[tid].round, s.lens[tid].t1, j, s.head[j].view)])
    case LenFence(tid) =>
      s.(views := s.views[tid := Join(s.views[tid], s.lens[tid].pend)],
         lens := s.lens[tid := LenFenced(s.lens[tid].round, s.lens[tid].t1, s.lens[tid].h)])
    case LenRecheck(tid, i) =>
      var same := s.tail[i].value == s.tail[s.lens[tid].t1].value;
      RelaxedTail(s, tid, i).(lens := s.lens[tid := if same then NoLen else Bracket(s.lens[tid].round + 1)])
    case LenClampTail(tid, i) => AcquireTail(s, tid, i).(lens := s.lens[tid := LenClamp(i)])
    case LenClampHead(tid, j) => RelaxedHead(s, tid, j).(lens := s.lens[tid := NoLen])
  }

  function Stepped(s: Sys, a: Step): Sys
    requires Shaped(s) && Enabled(s, a)
  {
    if RoleSteps(a) then RoleStep(s, a)
    else if PushSteps(a) then PushStep(s, a)
    else if PopSteps(a) then PopStep(s, a)
    else LenStep(s, a)
  }

  predicate Init(s: Sys) {
    var v := View(0, 0, 0, 0);
    && 0 < |s.slots| < TWO32 && |s.lens| == |s.views|
    && s.head == [Msg(0, v)] && s.tail == [Msg(0, v)]
    && (forall i | 0 <= i < |s.slots| :: s.slots[i].writeNo == 0 && s.slots[i].readNo == 0 && s.slots[i].readPos == 0)
    && (forall k | 0 <= k < |s.views| :: s.views[k] == v && s.lens[k] == NoLen)
    && s.prodFlag == Flag(false, v) && s.consFlag == Flag(false, v)
    && s.prod == NoProducer && s.cons == NoConsumer
    && s.writeCount == 0 && s.readCount == 0 && s.written == [] && s.popped == []
  }

  predicate Run(run: seq<Sys>, steps: seq<Step>) {
    && |run| == |steps| + 1 && Init(run[0])
    && (forall t | 0 <= t < |steps| ::
          Shaped(run[t]) && Enabled(run[t], steps[t]) && run[t + 1] == Stepped(run[t], steps[t]))
  }

  // ---------------------------------------------------------------- cursors and views

  /** The real positions: accepted pushes and completed pops. */
  function Head(s: Sys): int { |s.head| - 1 }
  function Tail(s: Sys): int { |s.tail| - 1 }

  predicate Sane(s: Sys, v: View) {
    v.h < |s.head| && v.t < |s.tail| && v.p <= s.writeCount && v.c <= s.readCount
  }

  /** What every thread and message may claim to know. */
  predicate ViewsInv(s: Sys) {
    && (forall k | 0 <= k < |s.views| :: Sane(s, s.views[k]))
    && Sane(s, s.prodFlag.view) && Sane(s, s.consFlag.view)
  }

  /** Message i of `head` says i, and carries a tail at most N behind and every earlier write. */
  predicate HeadInv(s: Sys) {
    forall i | 0 <= i < |s.head| ::
      && s.head[i].value as int == i % TWO32 && Sane(s, s.head[i].view)
      && i <= s.head[i].view.h && i <= s.head[i].view.t + |s.slots| && i <= s.head[i].view.p
  }

  /** Message j of `tail` says j, and carries a head not behind it. */
  predicate TailInv(s: Sys) {
    forall j | 0 <= j < |s.tail| ::
      && s.tail[j].value as int == j % TWO32 && Sane(s, s.tail[j].view)
      && j <= s.tail[j].view.t && j <= s.tail[j].view.h
  }

  /** The producer role's knowledge, wherever it currently rests. */
  function ProdView(s: Sys): View
    requires Shaped(s)
  {
    if s.prod.NoProducer? then s.prodFlag.view else s.views[s.prod.tid]
  }

  function ConsView(s: Sys): View
    requires Shaped(s)
  {
    if s.cons.NoConsumer? then s.consFlag.view else s.views[s.cons.tid]
  }

  predicate ProdInv(s: Sys)
    requires Shaped(s)
  {
    var v := ProdView(s);
    && s.prodFlag.taken == !s.prod.NoProducer?
    && v.h == Head(s) && v.p == s.writeCount == |s.written| && Head(s) <= v.t + |s.slots|
    && s.writeCount == (if s.prod.ProdWrote? then Head(s) + 1 else Head(s))
    && (s.prod.ProdHead? || s.prod.ProdRoom? || s.prod.ProdWrote? ==> s.prod.head == Head(s))
    && (s.prod.ProdRoom? ==> s.prod.tail <= v.t && Head(s) < s.prod.tail + |s.slots|
                             && s.tail[s.prod.tail].view.c <= v.c)
    && (s.prod.ProdWrote? ==> Head(s) < v.t + |s.slots|)
  }

  predicate ConsInv(s: Sys)
    requires Shaped(s)
  {
    var v := ConsView(s);
    && s.consFlag.taken == !s.cons.NoConsumer?
    && v.t == Tail(s) && v.c == s.readCount && Tail(s) <= v.h && Tail(s) == |s.popped|
    && (s.cons.ConsTail? || s.cons.ConsItem? || s.cons.ConsRead? ==> s.cons.tail == Tail(s))
    && (s.cons.ConsItem? ==> Tail(s) < s.cons.head && s.cons.head <= v.h && s.cons.head <= v.p)
    && (s.cons.ConsRead? ==> Tail(s) < v.h)
  }

  /** A thread inside `len`: the lower bound comes from the acquired tail, the upper bound from
      the tail the head message carried, which the fence makes the thread's own. */
  predicate LenInv(s: Sys, l: Len, v: View) {
    match l
    case LenTail(_, t1) => t1 <= v.t && t1 <= v.h
    case LenHead(_, t1, h, pend) => t1 <= v.t && t1 <= h <= v.h && h <= pend.t + |s.slots| && Sane(s, pend)
    case LenFenced(_, t1, h) => t1 <= v.t && t1 <= h <= v.h && h <= v.t + |s.slots|
    case LenClamp(t) => t <= v.h
    case _ => true
  }

  predicate CursorInv(s: Sys) {
    && Shaped(s) && |s.slots| < TWO32
    && ViewsInv(s) && HeadInv(s) && TailInv(s) && ProdInv(s) && ConsInv(s)
    && (forall k | 0 <= k < |s.lens| :: LenInv(s, s.lens[k], s.views[k]))
  }

  // ---------------------------------------------------------------- every step keeps the cursor facts

  /** Any thread may learn more at any time. */
  lemma LearningKeepsInv(s: Sys, tid: nat, w: View)
    requires CursorInv(s) && tid < |s.views| && Le(s.views[tid], w) && Sane(s, w)
    ensures CursorInv(s.(views := s.views[tid := w]))
  {
    hide WrapSub;
  }

  lemma InitKeeps(s: Sys)
    requires Init(s)
    ensures CursorInv(s)
  {
  }

  lemma LoadsKeepInv(s: Sys, tid: nat, i: nat)
    requires CursorInv(s) && tid < |s.views|
    ensures i < |s.tail| ==> CursorInv(AcquireTail(s, tid, i)) && CursorInv(RelaxedTail(s, tid, i))
    ensures i < |s.head| ==> CursorInv(AcquireHead(s, tid, i)) && CursorInv(RelaxedHead(s, tid, i))
  {
    var v := s.views[tid];
    if i < |s.tail| {
      LearningKeepsInv(s, tid, Join(v.(t := Max(v.t, i)), s.tail[i].view));
      LearningKeepsInv(s, tid, v.(t := Max(v.t, i)));
    }
    if i < |s.head| {
      LearningKeepsInv(s, tid, Join(v.(h := Max(v.h, i)), s.head[i].view));
      LearningKeepsInv(s, tid, v.(h := Max(v.h, i)));
    }
  }

  /** Moving a role or a `len` on, with the shared state untouched. */
  lemma RoleMoves(s: Sys, s': Sys)
    requires CursorInv(s) && s' == s.(prod := s'.prod, cons := s'.cons, prodFlag := s'.prodFlag, consFlag := s'.consFlag)
    requires Shaped(s') && ProdInv(s') && ConsInv(s') && Sane(s', s'.prodFlag.view) && Sane(s', s'.consFlag.view)
    ensures CursorInv(s')
  {
  }

  lemma LenMoves(s: Sys, tid: nat, l: Len)
    requires CursorInv(s) && tid < |s.lens|
    requires LenShaped(s, l) && LenInv(s, l, s.views[tid])
    ensures CursorInv(s.(lens := s.lens[tid := l]))
  {
  }

  lemma TryProducerKeepsInv(s: Sys, tid: nat)
    requires CursorInv(s) && tid < |s.views|
    ensures CursorInv(Stepped(s, TryProducer(tid)))
  {
    hide HeadInv, TailInv, LenInv;
    var v := Join(s.views[tid], s.prodFlag.view);
    LearningKeepsInv(s, tid, v);
    RoleMoves(s.(views := s.views[tid := v]), Stepped(s, TryProducer(tid)));
  }

  lemma TryConsumerKeepsInv(s: Sys, tid: nat)
    requires CursorInv(s) && tid < |s.views|
    ensures CursorInv(Stepped(s, TryConsumer(tid)))
  {
    hide HeadInv, TailInv, LenInv;
    var v := Join(s.views[tid], s.consFlag.view);
    LearningKeepsInv(s, tid, v);
    RoleMoves(s.(views := s.views[tid := v]), Stepped(s, TryConsumer(tid)));
  }

  lemma DropRoleKeepsInv(s: Sys)
    requires CursorInv(s)
    ensures s.prod.ProdIdle? ==> CursorInv(Stepped(s, DropProducer))
    ensures s.cons.ConsIdle? ==> CursorInv(Stepped(s, DropConsumer))
  {
    hide HeadInv, TailInv, LenInv;
    if s.prod.ProdIdle? { RoleMoves(s, Stepped(s, DropProducer)); }
    if s.cons.ConsIdle? { RoleMoves(s, Stepped(s, DropConsumer)); }
  }

  /** The producer moves on in its push; nothing shared changes. */
  lemma ProdMoves(s: Sys, p: Prod)
    requires CursorInv(s) && !s.prod.NoProducer? && !p.NoProducer? && p.tid == s.prod.tid
    requires ProdShaped(s, p) && (Shaped(s.(prod := p)) ==> ProdInv(s.(prod := p)))
    ensures CursorInv(s.(prod := p))
  {
  }

  lemma ConsMoves(s: Sys, c: Cons)
    requires CursorInv(s) && !s.cons.NoConsumer? && !c.NoConsumer? && c.tid == s.cons.tid
    requires ConsShaped(s, c) && (Shaped(s.(cons := c)) ==> ConsInv(s.(cons := c)))
    ensures CursorInv(s.(cons := c))
  {
  }

  lemma PushLoadHeadKeepsInv(s: Sys, val: Item, i: nat)
    requires CursorInv(s) && Enabled(s, PushLoadHead(val, i))
    ensures CursorInv(Stepped(s, PushLoadHead(val, i)))
  {
    LoadsKeepInv(s, s.prod.tid, i);
    hide HeadInv, TailInv, LenInv, ConsInv, ViewsInv;
    ProdMoves(RelaxedHead(s, s.prod.tid, i), ProdHead(s.prod.tid, val, i));
  }

  /** The fullness test on wrapped words is the test on real positions. */
  lemma FullTest(s: Sys, j: nat)
    requires CursorInv(s) && Enabled(s, PushLoadTail(j))
    ensures s.prod.head == Head(s) && j <= Head(s) <= j + |s.slots|
    ensures WrapSub(s.head[s.prod.head].value, s.tail[j].value) as int == Head(s) - j
    ensures Stepped(s, PushLoadTail(j)).prod.ProdRoom? <==> Head(s) < j + |s.slots|
  {
    WordsOfPositions(j, s.prod.head, s.tail[j].value, s.head[s.prod.head].value);
  }

  lemma PushLoadTailKeepsInv(s: Sys, j: nat)
    requires CursorInv(s) && Enabled(s, PushLoadTail(j))
    ensures CursorInv(Stepped(s, PushLoadTail(j)))
  {
    FullTest(s, j);
    LoadsKeepInv(s, s.prod.tid, j);
    hide HeadInv, TailInv, LenInv, ConsInv, ViewsInv, WrapSub;
    ProdMoves(AcquireTail(s, s.prod.tid, j), Stepped(s, PushLoadTail(j)).prod);
  }

  lemma PushWriteKeepsInv(s: Sys)
    requires CursorInv(s) && Enabled(s, PushWrite)
    ensures CursorInv(Stepped(s, PushWrite))
  {
  }

  lemma PushStoreHistories(s: Sys)
    requires Shaped(s) && ViewsInv(s) && HeadInv(s) && TailInv(s) && ProdInv(s) && s.prod.ProdWrote?
    ensures var s' := PushStep(s, PushStore); Shaped(s') && ViewsInv(s') && HeadInv(s') && TailInv(s')
  {
    NextWord(s.prod.head, s.head[s.prod.head].value);
    hide WrapAdd;
  }

  lemma PushStoreKeepsInv(s: Sys)
    requires CursorInv(s) && Enabled(s, PushStore)
    ensures CursorInv(Stepped(s, PushStore))
  {
    PushStoreHistories(s);
    hide WrapAdd, HeadInv, TailInv;
  }

  lemma PopLoadTailKeepsInv(s: Sys, peek: bool, i: nat)
    requires CursorInv(s) && Enabled(s, PopLoadTail(peek, i))
    ensures CursorInv(Stepped(s, PopLoadTail(peek, i)))
  {
    LoadsKeepInv(s, s.cons.tid, i);
    hide HeadInv, TailInv, LenInv, ProdInv, ViewsInv;
    ConsMoves(RelaxedTail(s, s.cons.tid, i), ConsTail(s.cons.tid, peek, i));
  }

  /** The emptiness test on wrapped words is the test on real positions. */
  lemma EmptyTest(s: Sys, j: nat)
    requires CursorInv(s) && Enabled(s, PopLoadHead(j))
    ensures s.cons.tail == Tail(s) <= j <= s.head[j].view.p
    ensures s.tail[s.cons.tail].value == s.head[j].value <==> j == Tail(s)
    ensures Stepped(s, PopLoadHead(j)).cons.ConsItem? <==> Tail(s) < j
  {
    WordsOfPositions(s.cons.tail, j, s.tail[s.cons.tail].value, s.head[j].value);
  }

  lemma PopLoadHeadKeepsInv(s: Sys, j: nat)
    requires CursorInv(s) && Enabled(s, PopLoadHead(j))
    ensures CursorInv(Stepped(s, PopLoadHead(j)))
  {
    EmptyTest(s, j);
    LoadsKeepInv(s, s.cons.tid, j);
    hide HeadInv, TailInv, LenInv, ProdInv, ViewsInv;
    ConsMoves(AcquireHead(s, s.cons.tid, j), Stepped(s, PopLoadHead(j)).cons);
  }

  lemma PopReadKeepsInv(s: Sys)
    requires CursorInv(s) && Enabled(s, PopRead)
    ensures CursorInv(Stepped(s, PopRead))
  {
  }

  lemma PopStoreKeepsInv(s: Sys)
    requires CursorInv(s) && Enabled(s, PopStore)
    ensures CursorInv(Stepped(s, PopStore))
  {
    NextWord(s.cons.tail, s.tail[s.cons.tail].value);
  }

  lemma LenTailKeepsInv(s: Sys, tid: nat, i: nat)
    requires CursorInv(s) && tid < |s.views| && i < |s.tail| && s.views[tid].t <= i
    ensures s.lens[tid].Bracket? ==>
              CursorInv(AcquireTail(s, tid, i).(lens := s.lens[tid := LenTail(s.lens[tid].round, i)]))
    ensures CursorInv(AcquireTail(s, tid, i).(lens := s.lens[tid := LenClamp(i)]))
  {
    hide HeadInv, ProdInv, ConsInv;
    LoadsKeepInv(s, tid, i);
    assert i <= s.tail[i].view.t && i <= s.tail[i].view.h;
    hide TailInv, ViewsInv;
    if s.lens[tid].Bracket? { LenMoves(AcquireTail(s, tid, i), tid, LenTail(s.lens[tid].round, i)); }
    LenMoves(AcquireTail(s, tid, i), tid, LenClamp(i));
  }

  lemma LenHeadKeepsInv(s: Sys, tid: nat, j: nat)
    requires CursorInv(s) && tid < |s.views| && s.lens[tid].LenTail? && Readable(s.head, j, s.views[tid].h)
    ensures CursorInv(Stepped(s, LenLoadHead(tid, j)))
  {
    hide TailInv, ProdInv, ConsInv;
    LoadsKeepInv(s, tid, j);
    assert j <= s.head[j].view.t + |s.slots| && Sane(s, s.head[j].view);
    hide HeadInv, ViewsInv;
    LenMoves(RelaxedHead(s, tid, j), tid, LenHead(s.lens[tid].round, s.lens[tid].t1, j, s.head[j].view));
  }

  lemma LenFenceKeepsInv(s: Sys, tid: nat)
    requires CursorInv(s) && tid < |s.views| && s.lens[tid].LenHead?
    ensures CursorInv(Stepped(s, LenFence(tid)))
  {
    hide TailInv, HeadInv, ProdInv, ConsInv;
    var v := Join(s.views[tid], s.lens[tid].pend);
    LearningKeepsInv(s, tid, v);
    LenMoves(s.(views := s.views[tid := v]), tid, LenFenced(s.lens[tid].round, s.lens[tid].t1, s.lens[tid].h));
  }

  lemma LenStartKeepsInv(s: Sys, tid: nat)
    requires CursorInv(s) && tid < |s.views|
    ensures CursorInv(s.(lens := s.lens[tid := Bracket(0)]))
  {
    hide TailInv, HeadInv, ProdInv, ConsInv, ViewsInv;
    LenMoves(s, tid, Bracket(0));
  }

  lemma LenRecheckKeepsInv(s: Sys, tid: nat, i: nat)
    requires CursorInv(s) && Enabled(s, LenRecheck(tid, i))
    ensures CursorInv(Stepped(s, LenRecheck(tid, i)))
  {
    hide TailInv, HeadInv, ProdInv, ConsInv, ViewsInv;
    LoadsKeepInv(s, tid, i);
    LenMoves(RelaxedTail(s, tid, i), tid, NoLen);
    LenMoves(RelaxedTail(s, tid, i), tid, Bracket(s.lens[tid].round + 1));
  }

  lemma LenClampKeepsInv(s: Sys, tid: nat, j: nat)
    requires CursorInv(s) && Enabled(s, LenClampHead(tid, j))
    ensures CursorInv(Stepped(s, LenClampHead(tid, j)))
  {
    hide TailInv, HeadInv, ProdInv, ConsInv, ViewsInv;
    LoadsKeepInv(s, tid, j);
    LenMoves(RelaxedHead(s, tid, j), tid, NoLen);
  }

  lemma StepKeepsCursorInv(s: Sys, a: Step)
    requires CursorInv(s) && Enabled(s, a)
    ensures CursorInv(Stepped(s, a))
  {
    hide TailInv, HeadInv, ProdInv, ConsInv, ViewsInv, LenInv;
    match a
    case TryProducer(tid) => TryProducerKeepsInv(s, tid);
    case TryConsumer(tid) => TryConsumerKeepsInv(s, tid);
    case DropProducer => DropRoleKeepsInv(s);
    case DropConsumer => DropRoleKeepsInv(s);
    case PushLoadHead(val, i) => PushLoadHeadKeepsInv(s, val, i);
    case PushLoadTail(j) => PushLoadTailKeepsInv(s, j);
    case PushWrite => PushWriteKeepsInv(s);
    case PushStore => PushStoreKeepsInv(s);
    case PopLoadTail(peek, i) => PopLoadTailKeepsInv(s, peek, i);
    case PopLoadHead(j) => PopLoadHeadKeepsInv(s, j);
    case PopRead => PopReadKeepsInv(s);
    case PopStore => PopStoreKeepsInv(s);
    case LenLoadTail(tid, i) => LenTailKeepsInv(s, tid, i);
    case LenClampTail(tid, i) => LenTailKeepsInv(s, tid, i);
    case LenLoadHead(tid, j) => LenHeadKeepsInv(s, tid, j);
    case LenFence(tid) => LenFenceKeepsInv(s, tid);
    case LenStart(tid) => LenStartKeepsInv(s, tid);
    case LenRecheck(tid, i) => LenRecheckKeepsInv(s, tid, i);
    case LenClampHead(tid, j) => LenClampKeepsInv(s, tid, j);
  }

  lemma {:induction false} RunKeepsCursorInv(run: seq<Sys>, steps: seq<Step>)
    requires Run(run, steps)
    ensures CursorInv(run[|steps|])
  {
    hide CursorInv, Stepped, Enabled, Shaped;
    var t := |steps|;
    if t == 0 {
      InitKeeps(run[0]);
    } else {
      RunKeepsCursorInv(run[..t], steps[..t - 1]);
      StepKeepsCursorInv(run[t - 1], steps[t - 1]);
    }
  }

  // ---------------------------------------------------------------- len

  /** What `len` returns at the step that ends it. */
  function LenResult(s: Sys, a: Step): int
    requires Shaped(s) && Enabled(s, a) && (a.LenRecheck? || a.LenClampHead?)
  {
    match a
    case LenRecheck(tid, _) => WrapSub(s.head[s.lens[tid].h].value, s.tail[s.lens[tid].t1].value) as int
    case LenClampHead(tid, j) =>
      var raw := WrapSub(s.head[j].value, s.tail[s.lens[tid].t].value) as int;
      if raw <= |s.slots| then raw else |s.slots|
  }

  /** The step ends a call of `len`: an equal recheck, or the head load of the fallback. */
  predicate Returns(s: Sys, a: Step)
    requires Shaped(s) && Enabled(s, a)
  {
    a.LenClampHead? || (a.LenRecheck? && s.tail[a.i].value == s.tail[s.lens[a.tid].t1].value)
  }

  /** A bracket whose two tail samples carry equal words, with fewer than 2^32 pops between
      them, returns H - t for positions that really were those of `head` and `tail`, and it lies
      in 0..N: the lower bound by the Acquire tail load, the upper by the fence. */
  lemma BracketIsReal(s: Sys, tid: nat, i: nat)
    requires CursorInv(s) && Enabled(s, LenRecheck(tid, i))
    requires s.tail[i].value == s.tail[s.lens[tid].t1].value
    requires i < s.lens[tid].t1 + TWO32
    ensures var t, h := s.lens[tid].t1, s.lens[tid].h;
            && i == t && t <= h <= Head(s) && t <= Tail(s)
            && LenResult(s, LenRecheck(tid, i)) == h - t && 0 <= h - t <= |s.slots|
  {
    var t, h := s.lens[tid].t1, s.lens[tid].h;
    assert LenInv(s, s.lens[tid], s.views[tid]);
    WordsOfPositions(t, i, s.tail[t].value, s.tail[i].value);
    WordsOfPositions(t, h, s.tail[t].value, s.head[h].value);
  }

  /** The clamped fallback never exceeds N, and is the clamped difference of real positions
      with the tail not ahead of the head. */
  lemma ClampIsReal(s: Sys, tid: nat, j: nat)
    requires CursorInv(s) && Enabled(s, LenClampHead(tid, j)) && j < s.lens[tid].t + TWO32
    ensures var t := s.lens[tid].t;
            && t <= j && t <= Tail(s)
            && LenResult(s, LenClampHead(tid, j)) == if j - t <= |s.slots| then j - t else |s.slots|
  {
    assert LenInv(s, s.lens[tid], s.views[tid]);
    WordsOfPositions(s.lens[tid].t, j, s.tail[s.lens[tid].t].value, s.head[j].value);
  }

  /** In every run, whatever the capacity's divisors: `len` returns at most N, unless 2^32 pops
      fell between its two tail samples, see `EventBufLimits`. */
  lemma LenNeverExceedsCapacity(run: seq<Sys>, steps: seq<Step>, a: Step)
    requires Run(run, steps) && Shaped(run[|steps|]) && Enabled(run[|steps|], a)
    requires Returns(run[|steps|], a) && (a.LenRecheck? ==> a.i < run[|steps|].lens[a.tid].t1 + TWO32)
    ensures 0 <= LenResult(run[|steps|], a) <= |run[|steps|].slots|
  {
    RunKeepsCursorInv(run, steps);
    if a.LenRecheck? { BracketIsReal(run[|steps|], a.tid, a.i); }
  }

  // ---------------------------------------------------------------- slots

  /** Slots are addressed by the wrapped position.  They keep live positions apart if N divides
      2^32, or as long as no position has wrapped. */
  predicate Fits(s: Sys) {
    s.writeCount <= TWO32 || (0 < |s.slots| && TWO32 % |s.slots| == 0)
  }

  /** They still will after the step `a`, which may write one more position. */
  predicate FitsAfter(s: Sys, a: Step) {
    s.writeCount + (if a.PushWrite? then 1 else 0) <= TWO32 || (0 < |s.slots| && TWO32 % |s.slots| == 0)
  }

  /** The live positions still hold what was written for them. */
  predicate LiveInv(s: Sys)
    requires Shaped(s)
  {
    var n := |s.slots|;
    && |s.written| == s.writeCount && 0 <= Tail(s) <= Head(s) <= s.writeCount
    && (forall q {:trigger PosSlot(q, n)} | Tail(s) <= q < s.writeCount ::
          s.slots[PosSlot(q, n)].writeNo == q + 1 && s.slots[PosSlot(q, n)].value == s.written[q])
  }

  /** A slot's last read is one the consumer published with the tail message that freed the slot. */
  predicate ServedInv(s: Sys)
    requires Shaped(s)
  {
    && (forall i | 0 <= i < |s.slots| ::
          && s.slots[i].writeNo <= s.writeCount && s.slots[i].readNo <= s.readCount
          && s.slots[i].readPos <= |s.tail| && s.slots[i].readPos <= Head(s)
          && (s.slots[i].readPos == 0 ==> s.slots[i].readNo == 0)
          && (0 < s.slots[i].readPos ==> PosSlot(s.slots[i].readPos - 1, |s.slots|) == i)
          && (s.slots[i].readPos < |s.tail| ==> s.slots[i].readNo <= s.tail[s.slots[i].readPos].view.c))
    && (forall j, k | 0 <= j <= k < |s.tail| :: s.tail[j].view.c <= s.tail[k].view.c)
  }

  predicate SlotsInv(s: Sys)
    requires Shaped(s)
  {
    && LiveInv(s) && ServedInv(s)
    && (s.cons.ConsRead? ==> s.cons.tail < s.writeCount && s.cons.val == s.written[s.cons.tail])
    && s.popped == s.written[..Tail(s)]
  }

  lemma InitSlots(s: Sys)
    requires Init(s)
    ensures SlotsInv(s)
  {
  }

  /** Steps that touch no slot and store no tail. */
  lemma QuietKeepsSlots(s: Sys, s': Sys)
    requires Shaped(s) && Shaped(s') && SlotsInv(s)
    requires s'.slots == s.slots && s'.tail == s.tail && s'.written == s.written && s'.popped == s.popped
    requires s'.writeCount == s.writeCount && s'.readCount == s.readCount
    requires |s.head| <= |s'.head| <= s.writeCount + 1 && (s'.cons.ConsRead? ==> s'.cons == s.cons)
    ensures SlotsInv(s')
  {
  }

  /** The position about to be written is N above everything the slot ever held or served. */
  lemma WriteIsApart(s: Sys)
    requires CursorInv(s) && SlotsInv(s) && Enabled(s, PushWrite) && FitsAfter(s, PushWrite)
    ensures var n, i := |s.slots|, PosSlot(Head(s), |s.slots|);
            && SlotIndex(s.head[s.prod.head].value, n) == i
            && s.slots[i].readPos <= s.prod.tail
            && (forall q: nat {:trigger PosSlot(q, n)} | Tail(s) <= q < Head(s) :: PosSlot(q, n) != i)
  {
    var n, H, i := |s.slots|, Head(s), PosSlot(Head(s), |s.slots|);
    forall q: nat | H < q + n && q < H ensures PosSlot(q, n) != i { ApartSlots(q, H, n); }
    assert s.prod.tail <= Tail(s);
  }

  /** Race freedom of the write: the producer is ordered after every read and every write the
      slot has seen. */
  lemma WriteHappensAfter(s: Sys)
    requires CursorInv(s) && SlotsInv(s) && Enabled(s, PushWrite) && FitsAfter(s, PushWrite)
    ensures var slot, v := s.slots[SlotIndex(s.head[s.prod.head].value, |s.slots|)], s.views[s.prod.tid];
            slot.readNo <= v.c && slot.writeNo <= v.p
  {
    WriteIsApart(s);
  }

  lemma WrittenLive(s: Sys)
    requires Shaped(s) && LiveInv(s) && s.prod.ProdRoom? && s.writeCount == Head(s)
    requires var n, i := |s.slots|, PosSlot(Head(s), |s.slots|);
             && SlotIndex(s.head[s.prod.head].value, n) == i
             && (forall q: nat {:trigger PosSlot(q, n)} | Tail(s) <= q < Head(s) :: PosSlot(q, n) != i)
    ensures LiveInv(PushStep(s, PushWrite))
  {
    hide PosSlot, SlotIndex;
  }

  lemma WrittenServed(s: Sys)
    requires Shaped(s) && ServedInv(s) && s.prod.ProdRoom?
    ensures ServedInv(PushStep(s, PushWrite))
  {
    hide PosSlot, SlotIndex;
  }

  lemma PushWriteKeepsSlots(s: Sys)
    requires CursorInv(s) && SlotsInv(s) && Enabled(s, PushWrite) && FitsAfter(s, PushWrite)
    ensures SlotsInv(Stepped(s, PushWrite))
  {
    WriteIsApart(s);
    hide HeadInv, TailInv, LenInv, PosSlot, ViewsInv, ServedInv, SlotIndex;
    WrittenLive(s);
    WrittenServed(s);
    assert Stepped(s, PushWrite).written[..Tail(s)] == s.written[..Tail(s)];
  }

  /** Race freedom of the read, and its value: the consumer is ordered after the write of the
      position it reads, and reads what was written for it. */
  lemma ReadHappensAfter(s: Sys)
    requires CursorInv(s) && SlotsInv(s) && Enabled(s, PopRead)
    ensures var i := SlotIndex(s.tail[s.cons.tail].value, |s.slots|);
            && i == PosSlot(Tail(s), |s.slots|) && Tail(s) < Head(s)
            && s.slots[i].writeNo == Tail(s) + 1 <= s.views[s.cons.tid].p
            && s.slots[i].readNo <= s.views[s.cons.tid].c
            && Tail(s) < |s.written| && s.slots[i].value == s.written[Tail(s)]
  {
  }

  lemma ReadLive(s: Sys)
    requires Shaped(s) && LiveInv(s) && s.cons.ConsItem?
    ensures LiveInv(PopStep(s, PopRead))
  {
    hide PosSlot, SlotIndex;
  }

  lemma ReadServed(s: Sys)
    requires Shaped(s) && ServedInv(s) && s.cons.ConsItem? && s.cons.tail == Tail(s) < Head(s)
    requires SlotIndex(s.tail[s.cons.tail].value, |s.slots|) == PosSlot(Tail(s), |s.slots|)
    ensures ServedInv(PopStep(s, PopRead))
  {
    hide PosSlot, SlotIndex;
  }

  lemma PopReadKeepsSlots(s: Sys)
    requires CursorInv(s) && SlotsInv(s) && Enabled(s, PopRead)
    ensures SlotsInv(Stepped(s, PopRead))
  {
    ReadHappensAfter(s);
    hide HeadInv, TailInv, LenInv, PosSlot, ViewsInv, ServedInv, SlotIndex;
    ReadLive(s);
    ReadServed(s);
  }

  lemma StoredServed(s: Sys)
    requires Shaped(s) && ServedInv(s) && s.cons.ConsRead?
    requires s.views[s.cons.tid].c == s.readCount && (forall j | 0 <= j < |s.tail| :: s.tail[j].view.c <= s.readCount)
    ensures ServedInv(PopStep(s, PopStore))
  {
    hide PosSlot;
  }

  lemma PopStoreKeepsSlots(s: Sys)
    requires CursorInv(s) && SlotsInv(s) && Enabled(s, PopStore)
    ensures SlotsInv(Stepped(s, PopStore))
  {
    hide LenInv, PosSlot, ServedInv;
    StoredServed(s);
    var t := Tail(s);
    assert s.written[..t] + [s.written[t]] == s.written[..t + 1];
  }

  lemma StepKeepsSlots(s: Sys, a: Step)
    requires CursorInv(s) && SlotsInv(s) && Enabled(s, a) && FitsAfter(s, a)
    ensures CursorInv(Stepped(s, a)) && SlotsInv(Stepped(s, a))
  {
    StepKeepsCursorInv(s, a);
    hide CursorInv, SlotsInv;
    match a
    case PushWrite => PushWriteKeepsSlots(s);
    case PopRead => PopReadKeepsSlots(s);
    case PopStore => PopStoreKeepsSlots(s);
    case _ => QuietStep(s, a);
  }

  /** What the steps that touch no slot and store no tail leave alone. */
  predicate Quiets(s: Sys, s': Sys) {
    && s'.slots == s.slots && s'.tail == s.tail && s'.written == s.written && s'.popped == s.popped
    && s'.writeCount == s.writeCount && s'.readCount == s.readCount
    && |s.head| <= |s'.head| && (s'.cons.ConsRead? ==> s'.cons == s.cons)
  }

  lemma RoleQuiets(s: Sys, a: Step)
    requires Shaped(s) && Enabled(s, a) && RoleSteps(a)
    ensures Quiets(s, RoleStep(s, a))
  {
  }

  lemma PushQuiets(s: Sys, a: Step)
    requires Shaped(s) && Enabled(s, a) && PushSteps(a) && !a.PushWrite?
    ensures Quiets(s, PushStep(s, a))
  {
  }

  lemma PopQuiets(s: Sys, a: Step)
    requires Shaped(s) && Enabled(s, a) && PopSteps(a) && !a.PopRead? && !a.PopStore?
    ensures Quiets(s, PopStep(s, a))
  {
  }

  lemma LenQuiets(s: Sys, a: Step)
    requires Shaped(s) && Enabled(s, a) && LenSteps(a)
    ensures Quiets(s, LenStep(s, a))
  {
  }

  lemma QuietStep(s: Sys, a: Step)
    requires CursorInv(s) && SlotsInv(s) && Enabled(s, a) && !a.PushWrite? && !a.PopRead? && !a.PopStore?
    ensures CursorInv(Stepped(s, a)) && SlotsInv(Stepped(s, a))
  {
    hide Enabled, RoleStep, PushStep, PopStep, LenStep, HeadInv, TailInv, LenInv, ViewsInv, ConsInv, SlotsInv;
    StepKeepsCursorInv(s, a);
    if RoleSteps(a) { RoleQuiets(s, a); }
    else if PushSteps(a) { PushQuiets(s, a); }
    else if PopSteps(a) { PopQuiets(s, a); }
    else { LenQuiets(s, a); }
    HeadBelowWrites(Stepped(s, a));
    QuietKeepsSlots(s, Stepped(s, a));
  }

  lemma HeadBelowWrites(s: Sys)
    requires CursorInv(s)
    ensures Shaped(s) && |s.head| <= s.writeCount + 1
  {
  }

  lemma RoleFits(s: Sys, a: Step)
    requires Shaped(s) && Enabled(s, a) && RoleSteps(a)
    ensures RoleStep(s, a).writeCount == s.writeCount && RoleStep(s, a).slots == s.slots
  {
  }

  lemma PushFits(s: Sys, a: Step)
    requires Shaped(s) && Enabled(s, a) && PushSteps(a)
    ensures PushStep(s, a).writeCount == s.writeCount + if a.PushWrite? then 1 else 0
    ensures |PushStep(s, a).slots| == |s.slots|
  {
  }

  lemma PopFits(s: Sys, a: Step)
    requires Shaped(s) && Enabled(s, a) && PopSteps(a)
    ensures PopStep(s, a).writeCount == s.writeCount && |PopStep(s, a).slots| == |s.slots|
  {
  }

  lemma LenFits(s: Sys, a: Step)
    requires Shaped(s) && Enabled(s, a) && LenSteps(a)
    ensures LenStep(s, a).writeCount == s.writeCount && LenStep(s, a).slots == s.slots
  {
  }

  /** `FitsAfter` is what it says. */
  lemma FitsStepped(s: Sys, a: Step)
    requires Shaped(s) && Enabled(s, a)
    ensures FitsAfter(s, a) <==> Fits(Stepped(s, a))
  {
    hide Shaped, Enabled, RoleStep, PushStep, PopStep, LenStep;
    if RoleSteps(a) { RoleFits(s, a); }
    else if PushSteps(a) { PushFits(s, a); }
    else if PopSteps(a) { PopFits(s, a); }
    else { LenFits(s, a); }
  }

  lemma {:induction false} RunKeepsSlots(run: seq<Sys>, steps: seq<Step>)
    requires Run(run, steps) && Shaped(run[|steps|]) && Fits(run[|steps|])
    ensures CursorInv(run[|steps|]) && SlotsInv(run[|steps|])
  {
    hide CursorInv, SlotsInv, Stepped, Enabled, Shaped;
    RunKeepsCursorInv(run, steps);
    var t := |steps|;
    if t == 0 {
      InitSlots(run[0]);
    } else {
      FitsStepped(run[t - 1], steps[t - 1]);
      RunKeepsSlots(run[..t], steps[..t - 1]);
      StepKeepsSlots(run[t - 1], steps[t - 1]);
    }
  }

  /** A slot access happens after every earlier access of that slot by the other side, and after
      every earlier write of it. */
  predicate AccessOrdered(s: Sys, a: Step)
    requires Shaped(s) && Enabled(s, a)
  {
    && (a.PushWrite? ==>
          var slot, v := s.slots[SlotIndex(s.head[s.prod.head].value, |s.slots|)], s.views[s.prod.tid];
          slot.readNo <= v.c && slot.writeNo <= v.p)
    && (a.PopRead? ==>
          var slot, v := s.slots[SlotIndex(s.tail[s.cons.tail].value, |s.slots|)], s.views[s.cons.tid];
          slot.readNo <= v.c && slot.writeNo <= v.p)
  }

  /** In every run whose positions fit, no slot access is concurrent with another: a write comes
      after every read and write of its slot, a read after the write of the item it returns. */
  lemma AccessesAreOrdered(run: seq<Sys>, steps: seq<Step>, a: Step)
    requires Run(run, steps) && Shaped(run[|steps|]) && Enabled(run[|steps|], a) && FitsAfter(run[|steps|], a)
    ensures var s := run[|steps|];
            && AccessOrdered(s, a)
            && (a.PopRead? ==>
                  var slot := s.slots[SlotIndex(s.tail[s.cons.tail].value, |s.slots|)];
                  && slot.writeNo == Tail(s) + 1
                  && Tail(s) < |s.written| && slot.value == s.written[Tail(s)])
  {
    RunKeepsSlots(run, steps);
    hide CursorInv, SlotsInv;
    if a.PushWrite? { WriteHappensAfter(run[|steps|]); }
    if a.PopRead? { ReadHappensAfter(run[|steps|]); }
  }

  /** FIFO without loss, in every run whose positions fit: the popped values are a prefix of
      the accepted pushes, in order, and never more than N behind them. */
  lemma PoppedIsAPrefix(run: seq<Sys>, steps: seq<Step>)
    requires Run(run, steps) && Shaped(run[|steps|]) && Fits(run[|steps|])
    ensures var s := run[|steps|];
            && Head(s) <= |s.written| && s.popped <= s.written[..Head(s)]
            && |s.popped| == Tail(s) <= Head(s) <= Tail(s) + |s.slots|
  {
    RunKeepsSlots(run, steps);
    var s := run[|steps|];
    assert ProdView(s).t <= Tail(s);
  }
}
