/** `LatestBuf` step by step: every atomic access of `publish`, `take_latest` and the role
    hand-overs, and every access to a payload slot or a role-state cell, is one step.

    The exchange word is an append-only history of messages; its swaps are AcqRel, read the
    newest message and append; the consumer's first load is Acquire and may return an old one.
    A thread's view holds the newest exchange message it may not look behind, and how many
    producer and consumer cell accesses happen before its present (a vector clock).  Any number
    of threads may try for either role; slots are written here as their decoded numbers, see
    `LatestBuf` for the words. */
module LatestBufSteps {
  import opened Common
  import opened SeqArith

  type Item = int

  datatype View = View(x: nat, p: nat, c: nat)

  function Join(a: View, b: View): View { View(Max(a.x, b.x), Max(a.p, b.p), Max(a.c, b.c)) }

  predicate Le(a: View, b: View) { a.x <= b.x && a.p <= b.p && a.c <= b.c }

  datatype Msg = Msg(slot: nat, ready: bool, view: View)

  /** A payload slot with the numbers of the last write and read made of it. */
  datatype Slot = Slot(gen: U32, value: Item, writeNo: nat, readNo: nat)

  /** The two role-state cells, each with the number of the last access to it. */
  datatype ProdCell = ProdCell(back: nat, nextGen: U32, accessNo: nat)
  datatype ConsCell = ConsCell(front: nat, lastGen: U32, accessNo: nat)

  datatype Flag = Flag(taken: bool, view: View)

  datatype Prod =
    | NoProducer
    | ProdIdle(tid: nat)
    | Begun(tid: nat, val: Item, back: nat, gen: U32)
    | Wrote(tid: nat, back: nat, gen: U32)
    | ProdSwapped(tid: nat, gen: U32, prev: nat, replaced: bool)

  datatype Cons =
    | NoConsumer
    | ConsIdle(tid: nat)
    | Hinted(tid: nat)
    | HasFront(tid: nat, front: nat)
    | ConsSwapped(tid: nat, claimed: nat, ready: bool)
    | Claimed(tid: nat, slot: nat)
    | Copied(tid: nat, gen: U32, value: Item)

  datatype Report = Report(generation: U32, replaced: bool)
  datatype Taken = Taken(value: Item, generation: U32, skipped: int)

  /** `started`: values of publications begun; `reports[o - 1]`: what publication o displaced, as
      decided by its swap; `claims`: ordinals claimed by the consumer's swaps; `lastClear`: the
      exchange message of the consumer's last swap; `returned`, `items`: results handed out. */
  datatype Sys = Sys(
    exchange: seq<Msg>, slots: seq<Slot>, prodCell: ProdCell, consCell: ConsCell,
    views: seq<View>, prodFlag: Flag, consFlag: Flag, prod: Prod, cons: Cons,
    prodAccesses: nat, consAccesses: nat,
    started: seq<Item>, reports: seq<bool>, claims: seq<nat>, lastClear: nat,
    returned: seq<Report>, items: seq<Taken>, empties: nat
  )

  datatype Step =
    | TryProducer(tid: nat) | DropProducer | TryConsumer(tid: nat) | DropConsumer
    | PubBegin(val: Item) | PubWrite | PubSwap | PubFinish
    | TakeLoad(i: nat) | TakeFront | TakeSwap | TakeStore | TakeRead | TakeFinish

  predicate RoleSteps(a: Step) { a.TryProducer? || a.DropProducer? || a.TryConsumer? || a.DropConsumer? }
  predicate PubSteps(a: Step) { a.PubBegin? || a.PubWrite? || a.PubSwap? || a.PubFinish? }

  predicate Shaped(s: Sys) {
    && 0 < |s.exchange| && |s.slots| == 3
    && (!s.prod.NoProducer? ==> s.prod.tid < |s.views|)
    && (!s.cons.NoConsumer? ==> s.cons.tid < |s.views|)
    && s.prodCell.back < 3 && s.consCell.front < 3 && (forall i | 0 <= i < |s.exchange| :: s.exchange[i].slot < 3)
    && (s.prod.Begun? || s.prod.Wrote? ==> s.prod.back < 3)
    && (s.prod.ProdSwapped? ==> s.prod.prev < 3)
    && (s.cons.HasFront? ==> s.cons.front < 3)
    && (s.cons.ConsSwapped? ==> s.cons.claimed < 3)
    && (s.cons.Claimed? ==> s.cons.slot < 3)
  }

  predicate Enabled(s: Sys, a: Step)
    requires Shaped(s)
  {
    match a
    case TryProducer(tid) => tid < |s.views|
    case TryConsumer(tid) => tid < |s.views|
    case DropProducer => s.prod.ProdIdle?
    case DropConsumer => s.cons.ConsIdle?
    case PubBegin(_) => s.prod.ProdIdle?
    case PubWrite => s.prod.Begun?
    case PubSwap => s.prod.Wrote?
    case PubFinish => s.prod.ProdSwapped?
    case TakeLoad(i) => s.cons.ConsIdle? && s.views[s.cons.tid].x <= i < |s.exchange|
    case TakeFront => s.cons.Hinted?
    case TakeSwap => s.cons.HasFront?
    case TakeStore => s.cons.ConsSwapped?
    case TakeRead => s.cons.Claimed?
    case TakeFinish => s.cons.Copied?
  }

  function Latest(s: Sys): Msg
    requires 0 < |s.exchange|
  {
    s.exchange[|s.exchange| - 1]
  }

  /** An AcqRel swap: acquire the newest message, append, publish the joined view. */
  function Swapped(s: Sys, tid: nat, slot: nat, ready: bool): Sys
    requires 0 < |s.exchange| && tid < |s.views|
  {
    var v := Join(s.views[tid], Latest(s).view).(x := |s.exchange|);
    s.(exchange := s.exchange + [Msg(slot, ready, v)], views := s.views[tid := v])
  }

  /** A producer access to one of its cells: it becomes the newest producer event. */
  function ProdTouch(s: Sys, tid: nat): Sys
    requires tid < |s.views|
  {
    s.(prodAccesses := s.prodAccesses + 1, views := s.views[tid := s.views[tid].(p := s.prodAccesses + 1)])
  }

  function ConsTouch(s: Sys, tid: nat): Sys
    requires tid < |s.views|
  {
    s.(consAccesses := s.consAccesses + 1, views := s.views[tid := s.views[tid].(c := s.consAccesses + 1)])
  }

  function RoleStep(s: Sys, a: Step): Sys
    requires Shaped(s) && Enabled(s, a) && RoleSteps(a)
  {
    match a
    case TryProducer(tid) =>
      var v := Join(s.views[tid], s.prodFlag.view);
      var s1 := s.(views := s.views[tid := v], prodFlag := Flag(true, v));
      if s.prodFlag.taken then s1 else s1.(prod := ProdIdle(tid))
    case TryConsumer(tid) =>
      var v := Join(s.views[tid], s.consFlag.view);
      var s1 := s.(views := s.views[tid := v], consFlag := Flag(true, v));
      if s.consFlag.taken then s1 else s1.(cons := ConsIdle(tid))
    case DropProducer => s.(prodFlag := Flag(false, s.views[s.prod.tid]), prod := NoProducer)
    case DropConsumer => s.(consFlag := Flag(false, s.views[s.cons.tid]), cons := NoConsumer)
  }

  /** `publish`. */
  function PubStep(s: Sys, a: Step): Sys
    requires Shaped(s) && Enabled(s, a) && PubSteps(a)
  {
    var tid, no := s.prod.tid, s.prodAccesses + 1;
    match a
    case PubBegin(val) =>
      var gen := NextAfter(s.prodCell.nextGen);
      ProdTouch(s, tid).(prodCell := s.prodCell.(nextGen := gen, accessNo := no),
                         started := s.started + [val], prod := Begun(tid, val, s.prodCell.back, gen))
    case PubWrite =>
      var back := s.prod.back;
      ProdTouch(s, tid).(slots := s.slots[back := s.slots[back].(gen := s.prod.gen, value := s.prod.val, writeNo := no)],
                         prod := Wrote(tid, back, s.prod.gen))
    case PubSwap =>
      Swapped(s, tid, s.prod.back, true).(
        prod := ProdSwapped(tid, s.prod.gen, Latest(s).slot, Latest(s).ready), reports := s.reports + [Latest(s).ready])
    case PubFinish =>
      ProdTouch(s, tid).(prodCell := s.prodCell.(back := s.prod.prev, accessNo := no), prod := ProdIdle(tid),
                         returned := s.returned + [Report(s.prod.gen, s.prod.replaced)])
  }

  /** `take_latest`. */
  function TakeStep(s: Sys, a: Step): Sys
    requires Shaped(s) && Enabled(s, a) && !RoleSteps(a) && !PubSteps(a)
  {
    var tid, no := s.cons.tid, s.consAccesses + 1;
    match a
    case TakeLoad(i) =>
      var v := Join(s.views[tid].(x := Max(s.views[tid].x, i)), s.exchange[i].view);
      var s1 := s.(views := s.views[tid := v]);
      if s.exchange[i].ready then s1.(cons := Hinted(tid)) else s1
    case TakeFront =>
      ConsTouch(s, tid).(consCell := s.consCell.(accessNo := no), cons := HasFront(tid, s.consCell.front))
    case TakeSwap =>
      Swapped(s, tid, s.cons.front, false).(
        cons := ConsSwapped(tid, Latest(s).slot, Latest(s).ready), lastClear := |s.exchange|,
        claims := if Latest(s).ready then s.claims + [|s.reports|] else s.claims)
    case TakeStore =>
      ConsTouch(s, tid).(consCell := s.consCell.(front := s.cons.claimed, accessNo := no),
                         cons := if s.cons.ready then Claimed(tid, s.cons.claimed) else ConsIdle(tid),
                         empties := s.empties + if s.cons.ready then 0 else 1)
    case TakeRead =>
      var slot := s.slots[s.cons.slot];
      ConsTouch(s, tid).(slots := s.slots[s.cons.slot := slot.(readNo := no)], cons := Copied(tid, slot.gen, slot.value))
    case TakeFinish =>
      var distance := SeqDistance(s.consCell.lastGen, s.cons.gen) as int;
      ConsTouch(s, tid).(consCell := s.consCell.(lastGen := s.cons.gen, accessNo := no), cons := ConsIdle(tid),
                         items := s.items + [Taken(s.cons.value, s.cons.gen, if distance == 0 then 0 else distance - 1)])
  }

  function Stepped(s: Sys, a: Step): Sys
    requires Shaped(s) && Enabled(s, a)
  {
    if RoleSteps(a) then RoleStep(s, a) else if PubSteps(a) then PubStep(s, a) else TakeStep(s, a)
  }

  predicate Init(s: Sys) {
    var v := View(0, 0, 0);
    && s.exchange == [Msg(0, false, v)] && |s.slots| == 3
    && (forall i | 0 <= i < 3 :: s.slots[i].writeNo == 0 && s.slots[i].readNo == 0)
    && s.prodCell == ProdCell(1, 0, 0) && s.consCell == ConsCell(2, 0, 0)
    && (forall k | 0 <= k < |s.views| :: s.views[k] == v)
    && s.prodFlag == Flag(false, v) && s.consFlag == Flag(false, v)
    && s.prod == NoProducer && s.cons == NoConsumer && s.prodAccesses == s.consAccesses == 0
    && s.started == [] && s.reports == [] && s.claims == [] && s.lastClear == 0
    && s.returned == [] && s.items == [] && s.empties == 0
  }

  predicate Run(run: seq<Sys>, steps: seq<Step>) {
    && |run| == |steps| + 1 && Init(run[0])
    && (forall t | 0 <= t < |steps| ::
          Shaped(run[t]) && Enabled(run[t], steps[t]) && run[t + 1] == Stepped(run[t], steps[t]))
  }

  // ---------------------------------------------------------------- slot ownership

  /** Who owns which slot, at every step: between a swap and the store that follows it the
      newly acquired slot is a local of the role. */
  function ProdSlot(s: Sys): nat { if s.prod.ProdSwapped? then s.prod.prev else s.prodCell.back }
  function ConsSlot(s: Sys): nat { if s.cons.ConsSwapped? then s.cons.claimed else s.consCell.front }
  function ExchangeSlot(s: Sys): nat
    requires 0 < |s.exchange|
  {
    Latest(s).slot
  }

  predicate SlotsPermuted(s: Sys)
    requires Shaped(s)
  {
    && {ProdSlot(s), ExchangeSlot(s), ConsSlot(s)} == {0, 1, 2}
    && ProdSlot(s) != ConsSlot(s) && ProdSlot(s) != ExchangeSlot(s) && ConsSlot(s) != ExchangeSlot(s)
    && (s.prod.Begun? || s.prod.Wrote? ==> s.prod.back == ProdSlot(s))
    && (s.cons.HasFront? ==> s.cons.front == ConsSlot(s))
    && (s.cons.Claimed? ==> s.cons.slot == ConsSlot(s))
  }

  // ---------------------------------------------------------------- vector clocks

  function ProdView(s: Sys): View
    requires Shaped(s)
  {
    if s.prod.NoProducer? then s.prodFlag.view else s.views[s.prod.tid]
  }

  function ConsView(s: Sys): View
    requires Shaped(s)
  {
    if s.cons.NoConsumer? then s.consFlag.view else s.views[s.cons.tid]
  }

  /** At most one holder per role. */
  predicate FlagsInv(s: Sys) {
    s.prodFlag.taken == !s.prod.NoProducer? && s.consFlag.taken == !s.cons.NoConsumer?
  }

  predicate Sane(s: Sys, v: View) {
    v.x < |s.exchange| && v.p <= s.prodAccesses && v.c <= s.consAccesses
  }

  predicate ViewsInv(s: Sys)
    requires Shaped(s)
  {
    && (forall k | 0 <= k < |s.views| :: Sane(s, s.views[k]))
    && (forall i | 0 <= i < |s.exchange| :: Sane(s, s.exchange[i].view))
    && Sane(s, s.prodFlag.view) && Sane(s, s.consFlag.view)
    && ProdView(s).p == s.prodAccesses && ConsView(s).c == s.consAccesses
    && s.prodCell.accessNo <= s.prodAccesses && s.consCell.accessNo <= s.consAccesses
  }

  /** Every slot's owner is ordered after whatever was done to it. */
  predicate OwnersInv(s: Sys)
    requires Shaped(s) && SlotsPermuted(s)
  {
    && (forall i | 0 <= i < 3 :: s.slots[i].writeNo <= s.prodAccesses && s.slots[i].readNo <= s.consAccesses)
    && s.slots[ProdSlot(s)].readNo <= ProdView(s).c
    && s.slots[ConsSlot(s)].writeNo <= ConsView(s).p
    && s.slots[ExchangeSlot(s)].writeNo <= Latest(s).view.p
    && s.slots[ExchangeSlot(s)].readNo <= Latest(s).view.c
  }

  // ---------------------------------------------------------------- what is in the slots

  /** Publications linearized, and the ordinal last claimed. */
  function Published(s: Sys): nat { |s.reports| }
  function LastClaim(s: Sys): nat { if s.claims == [] then 0 else s.claims[|s.claims| - 1] }

  /** The ready bit is set exactly by the publications since the consumer's last swap. */
  predicate ReadyInv(s: Sys)
    requires Shaped(s)
  {
    && s.lastClear < |s.exchange| && s.lastClear <= ConsView(s).x
    && !s.exchange[s.lastClear].ready
    && (forall i | s.lastClear < i < |s.exchange| :: s.exchange[i].ready)
    && (Latest(s).ready <==> LastClaim(s) < Published(s))
    && LastClaim(s) <= Published(s)
    && (s.cons.Hinted? || s.cons.HasFront? ==> Latest(s).ready)
    && (s.cons.ConsSwapped? ==> s.cons.ready)
    && s.empties == 0
  }

  /** Slot `i` holds publication `o`. */
  predicate HoldsEntry(s: Sys, i: nat, o: nat)
    requires Shaped(s)
  {
    i < 3 && 0 < o <= |s.started| && s.slots[i].gen == SeqOf(o) && s.slots[i].value == s.started[o - 1]
  }

  predicate InFlight(s: Sys) { s.prod.Begun? || s.prod.Wrote? }

  predicate EntriesInv(s: Sys)
    requires Shaped(s)
  {
    && |s.started| == Published(s) + (if InFlight(s) then 1 else 0)
    && s.prodCell.nextGen == SeqOf(|s.started|)
    && (s.prod.Begun? || s.prod.Wrote? || s.prod.ProdSwapped? ==> 0 < |s.started| && s.prod.gen == SeqOf(|s.started|))
    && (s.prod.Begun? ==> s.prod.val == s.started[|s.started| - 1])
    && (s.prod.Wrote? ==> HoldsEntry(s, s.prod.back, |s.started|))
    && (Latest(s).ready ==> HoldsEntry(s, ExchangeSlot(s), Published(s)))
    && (s.cons.ConsSwapped? || s.cons.Claimed? ==> HoldsEntry(s, ConsSlot(s), LastClaim(s)))
    && (s.cons.Copied? ==> 0 < LastClaim(s) <= |s.started|
                           && s.cons.gen == SeqOf(LastClaim(s)) && s.cons.value == s.started[LastClaim(s) - 1])
  }

  // ---------------------------------------------------------------- loss accounting

  function Trues(r: seq<bool>): nat {
    if r == [] then 0 else Trues(r[..|r| - 1]) + if r[|r| - 1] then 1 else 0
  }

  function Prior(claims: seq<nat>, i: nat): nat
    requires i <= |claims|
  {
    if i == 0 then 0 else claims[i - 1]
  }

  /** The `skipped` formula in ordinals: previous take `c`, this one `k`. */
  function SkippedOf(c: nat, k: nat): int
    requires c <= k
  {
    if c == 0 then (if k == 0 then 0 else (k - 1) % SPAN)
    else if (k - c) % SPAN == 0 then 0 else (k - c) % SPAN - 1
  }

  predicate Claiming(s: Sys) { s.cons.ConsSwapped? || s.cons.Claimed? || s.cons.Copied? }

  /** Between two claims, exactly the first publication displaced nothing. */
  predicate ClaimGood(claims: seq<nat>, reports: seq<bool>, i: nat)
    requires i < |claims|
  {
    && Prior(claims, i) < claims[i] <= |reports|
    && (forall q | Prior(claims, i) <= q < claims[i] :: reports[q] <==> q != Prior(claims, i))
  }

  predicate ClaimsInv(s: Sys) {
    && (forall i | 0 <= i < |s.claims| :: ClaimGood(s.claims, s.reports, i))
    && LastClaim(s) <= Published(s)
    && (forall q | LastClaim(s) <= q < Published(s) :: s.reports[q] <==> q != LastClaim(s))
  }

  predicate CountInv(s: Sys) {
    Trues(s.reports) + |s.claims| + (if LastClaim(s) < Published(s) then 1 else 0) == Published(s)
  }

  predicate ReturnedInv(s: Sys) {
    && |s.returned| + (if s.prod.ProdSwapped? then 1 else 0) == Published(s)
    && (forall o | 0 <= o < |s.returned| :: s.returned[o] == Report(SeqOf(o + 1), s.reports[o]))
    && (s.prod.ProdSwapped? ==> s.prod.replaced == s.reports[Published(s) - 1])
  }

  predicate ItemGood(s: Sys, i: nat)
    requires i < |s.claims| && i < |s.items|
  {
    && Prior(s.claims, i) < s.claims[i] <= |s.started|
    && s.items[i] == Taken(s.started[s.claims[i] - 1], SeqOf(s.claims[i]), SkippedOf(Prior(s.claims, i), s.claims[i]))
  }

  predicate ItemsInv(s: Sys) {
    && |s.items| + (if Claiming(s) then 1 else 0) == |s.claims|
    && s.consCell.lastGen == SeqOf(Prior(s.claims, |s.items|))
    && (forall i | 0 <= i < |s.items| :: ItemGood(s, i))
  }

  predicate Owned(s: Sys) {
    Shaped(s) && FlagsInv(s) && SlotsPermuted(s) && ViewsInv(s) && OwnersInv(s)
  }

  predicate Inv(s: Sys) {
    && Owned(s)
    && ReadyInv(s) && EntriesInv(s)
    && ClaimsInv(s) && CountInv(s) && ReturnedInv(s) && ItemsInv(s)
  }

  lemma InitInv(s: Sys)
    requires Init(s)
    ensures Inv(s)
  {
  }

  predicate TakeSteps(a: Step) { !RoleSteps(a) && !PubSteps(a) }

  lemma LearningKeepsOwned(s: Sys, tid: nat, w: View)
    requires Owned(s) && tid < |s.views| && Le(s.views[tid], w) && Sane(s, w)
    ensures Owned(s.(views := s.views[tid := w]))
  {
  }

  lemma TryProducerKeepsOwned(s: Sys, tid: nat)
    requires Owned(s) && tid < |s.views|
    ensures Owned(Stepped(s, TryProducer(tid)))
  {
    var v := Join(s.views[tid], s.prodFlag.view);
    LearningKeepsOwned(s, tid, v);
    FlagsMove(s.(views := s.views[tid := v]), Stepped(s, TryProducer(tid)));
  }

  lemma TryConsumerKeepsOwned(s: Sys, tid: nat)
    requires Owned(s) && tid < |s.views|
    ensures Owned(Stepped(s, TryConsumer(tid)))
  {
    var v := Join(s.views[tid], s.consFlag.view);
    LearningKeepsOwned(s, tid, v);
    FlagsMove(s.(views := s.views[tid := v]), Stepped(s, TryConsumer(tid)));
  }

  lemma FlagsMove(s: Sys, s': Sys)
    requires Owned(s) && s' == s.(prodFlag := s'.prodFlag, consFlag := s'.consFlag, prod := s'.prod, cons := s'.cons)
    requires FlagsInv(s') && Sane(s, s'.prodFlag.view) && Sane(s, s'.consFlag.view)
    requires if s'.prod == s.prod then s.prod.NoProducer? ==> s'.prodFlag == s.prodFlag
             else s.prod.NoProducer? && s'.prod.ProdIdle? && s'.prod.tid < |s.views| && Le(ProdView(s), s.views[s'.prod.tid])
    requires if s'.cons == s.cons then s.cons.NoConsumer? ==> s'.consFlag == s.consFlag
             else s.cons.NoConsumer? && s'.cons.ConsIdle? && s'.cons.tid < |s.views| && Le(ConsView(s), s.views[s'.cons.tid])
    ensures Owned(s')
  {
  }

  lemma DropKeepsOwned(s: Sys, a: Step)
    requires Owned(s) && Enabled(s, a) && (a.DropProducer? || a.DropConsumer?)
    ensures Owned(Stepped(s, a))
  {
    hide SeqDistance, NextAfter;
  }

  lemma PubCellKeepsOwned(s: Sys, a: Step)
    requires Owned(s) && Enabled(s, a) && (a.PubBegin? || a.PubFinish?)
    ensures Owned(Stepped(s, a))
  {
    hide SeqDistance, NextAfter;
  }

  lemma PubWriteKeepsOwned(s: Sys, a: Step)
    requires Owned(s) && Enabled(s, a) && (a.PubWrite?)
    ensures Owned(Stepped(s, a))
  {
    hide SeqDistance, NextAfter;
  }

  lemma PubSwapKeepsOwned(s: Sys, a: Step)
    requires Owned(s) && Enabled(s, a) && (a.PubSwap?)
    ensures Owned(Stepped(s, a))
  {
    hide SeqDistance, NextAfter;
  }

  lemma TakeLoadKeepsOwned(s: Sys, i: nat)
    requires Owned(s) && Enabled(s, TakeLoad(i))
    ensures Owned(Stepped(s, TakeLoad(i)))
  {
    var v := s.views[s.cons.tid];
    LearningKeepsOwned(s, s.cons.tid, Join(v.(x := Max(v.x, i)), s.exchange[i].view));
  }

  lemma TakeCellKeepsOwned(s: Sys, a: Step)
    requires Owned(s) && Enabled(s, a) && (a.TakeFront? || a.TakeStore? || a.TakeFinish?)
    ensures Owned(Stepped(s, a))
  {
    hide SeqDistance, NextAfter;
  }

  lemma TakeReadKeepsOwned(s: Sys, a: Step)
    requires Owned(s) && Enabled(s, a) && (a.TakeRead?)
    ensures Owned(Stepped(s, a))
  {
    hide SeqDistance, NextAfter;
  }

  lemma TakeSwapKeepsOwned(s: Sys, a: Step)
    requires Owned(s) && Enabled(s, a) && (a.TakeSwap?)
    ensures Owned(Stepped(s, a))
  {
    hide SeqDistance, NextAfter;
  }

  lemma StepKeepsOwned(s: Sys, a: Step)
    requires Owned(s) && Enabled(s, a)
    ensures Owned(Stepped(s, a))
  {
    hide Owned, Stepped;
    match a
    case TryProducer(tid) => TryProducerKeepsOwned(s, tid);
    case TryConsumer(tid) => TryConsumerKeepsOwned(s, tid);
    case DropProducer => DropKeepsOwned(s, a);
    case DropConsumer => DropKeepsOwned(s, a);
    case PubWrite => PubWriteKeepsOwned(s, a);
    case PubSwap => PubSwapKeepsOwned(s, a);
    case PubBegin(_) => PubCellKeepsOwned(s, a);
    case PubFinish => PubCellKeepsOwned(s, a);
    case TakeLoad(i) => TakeLoadKeepsOwned(s, i);
    case TakeRead => TakeReadKeepsOwned(s, a);
    case TakeSwap => TakeSwapKeepsOwned(s, a);
    case _ => TakeCellKeepsOwned(s, a);
  }

  lemma RoleKeepsReady(s: Sys, a: Step)
    requires Shaped(s) && FlagsInv(s) && ViewsInv(s) && ReadyInv(s) && Enabled(s, a) && RoleSteps(a)
    ensures Shaped(Stepped(s, a)) ==> ReadyInv(Stepped(s, a))
  {
    hide SeqDistance, NextAfter;
  }

  lemma PubKeepsReady(s: Sys, a: Step)
    requires Shaped(s) && FlagsInv(s) && ViewsInv(s) && ReadyInv(s) && Enabled(s, a) && PubSteps(a)
    ensures Shaped(Stepped(s, a)) ==> ReadyInv(Stepped(s, a))
  {
    hide SeqDistance, NextAfter;
  }

  lemma TakeKeepsReady(s: Sys, a: Step)
    requires Shaped(s) && FlagsInv(s) && ViewsInv(s) && ReadyInv(s) && Enabled(s, a) && TakeSteps(a)
    ensures Shaped(Stepped(s, a)) ==> ReadyInv(Stepped(s, a))
  {
    hide SeqDistance, NextAfter;
  }

  lemma PubKeepsEntries(s: Sys, a: Step)
    requires Shaped(s) && SlotsPermuted(s) && ReadyInv(s) && EntriesInv(s) && Enabled(s, a) && PubSteps(a)
    ensures Shaped(Stepped(s, a)) ==> EntriesInv(Stepped(s, a))
  {
    hide SeqOf, NextAfter;
    if a.PubBegin? { NextAfterIsSuccessor(s.prodCell.nextGen, |s.started|); }
  }

  lemma RoleKeepsEntries(s: Sys, a: Step)
    requires Shaped(s) && FlagsInv(s) && SlotsPermuted(s) && ReadyInv(s) && EntriesInv(s) && Enabled(s, a) && RoleSteps(a)
    ensures Shaped(Stepped(s, a)) ==> EntriesInv(Stepped(s, a))
  {
    hide SeqOf, SeqDistance;
  }

  lemma TakeKeepsEntries(s: Sys, a: Step)
    requires Shaped(s) && SlotsPermuted(s) && ReadyInv(s) && EntriesInv(s) && Enabled(s, a) && TakeSteps(a)
    ensures Shaped(Stepped(s, a)) ==> EntriesInv(Stepped(s, a))
  {
    if a.TakeSwap? {
      SwapKeepsEntries(s);
    } else if a.TakeRead? {
      ReadKeepsEntries(s);
    } else {
      CellKeepsEntries(s, a);
    }
  }

  lemma SwapKeepsEntries(s: Sys)
    requires Shaped(s) && SlotsPermuted(s) && ReadyInv(s) && EntriesInv(s) && Enabled(s, TakeSwap)
    ensures Shaped(Stepped(s, TakeSwap)) ==> EntriesInv(Stepped(s, TakeSwap))
  {
    hide SeqOf, SeqDistance, NextAfter;
  }

  lemma ReadKeepsEntries(s: Sys)
    requires Shaped(s) && SlotsPermuted(s) && EntriesInv(s) && Enabled(s, TakeRead)
    ensures Shaped(Stepped(s, TakeRead)) ==> EntriesInv(Stepped(s, TakeRead))
  {
    hide SeqOf, SeqDistance, NextAfter;
  }

  lemma CellKeepsEntries(s: Sys, a: Step)
    requires Shaped(s) && SlotsPermuted(s) && ReadyInv(s) && EntriesInv(s) && Enabled(s, a)
    requires a.TakeLoad? || a.TakeFront? || a.TakeStore? || a.TakeFinish?
    ensures Shaped(Stepped(s, a)) ==> EntriesInv(Stepped(s, a))
  {
    assert s.cons.ConsSwapped? ==> s.cons.ready;
    var s' := Stepped(s, a);
    assert s'.slots == s.slots && s'.exchange == s.exchange && s'.started == s.started && s'.prod == s.prod;
    hide SeqOf, SeqDistance, NextAfter, ReadyInv, SlotsPermuted;
  }

  lemma ClaimStable(claims: seq<nat>, reports: seq<bool>, claims': seq<nat>, reports': seq<bool>, i: nat)
    requires claims <= claims' && reports <= reports' && i < |claims| && ClaimGood(claims, reports, i)
    ensures ClaimGood(claims', reports', i)
  {
  }

  lemma StepKeepsClaims(s: Sys, a: Step)
    requires Shaped(s) && ReadyInv(s) && ClaimsInv(s) && Enabled(s, a)
    ensures ClaimsInv(Stepped(s, a))
  {
    hide SeqDistance, NextAfter;
    var s' := Stepped(s, a);
    assert s.claims <= s'.claims && s.reports <= s'.reports;
    forall i | 0 <= i < |s.claims| ensures ClaimGood(s'.claims, s'.reports, i) {
      ClaimStable(s.claims, s.reports, s'.claims, s'.reports, i);
    }
  }

  lemma TruesSnoc(r: seq<bool>, b: bool)
    ensures Trues(r + [b]) == Trues(r) + if b then 1 else 0
  {
    assert (r + [b])[..|r|] == r;
  }

  lemma StepKeepsCount(s: Sys, a: Step)
    requires Shaped(s) && ReadyInv(s) && CountInv(s) && Enabled(s, a)
    ensures CountInv(Stepped(s, a))
  {
    hide SeqDistance, NextAfter, Trues;
    if a.PubSwap? { TruesSnoc(s.reports, Latest(s).ready); }
  }

  lemma StepKeepsReturned(s: Sys, a: Step)
    requires Shaped(s) && FlagsInv(s) && EntriesInv(s) && ReturnedInv(s) && Enabled(s, a)
    ensures ReturnedInv(Stepped(s, a))
  {
    hide SeqOf, SeqDistance, NextAfter;
  }

  /** The code's saturating distance is the ordinal formula. */
  lemma SkippedIs(c: nat, k: nat)
    requires c < k
    ensures var d := SeqDistance(SeqOf(c), SeqOf(k)) as int;
            SkippedOf(c, k) == if d == 0 then 0 else d - 1
  {
    SeqZeroIff(c);
    DistanceOfOrdinals(SeqOf(c), c, k);
  }

  lemma ItemStable(s: Sys, s': Sys, i: nat)
    requires s.claims <= s'.claims && s.started <= s'.started && s.items <= s'.items
    requires i < |s.items| && i < |s.claims| && ItemGood(s, i)
    ensures ItemGood(s', i)
  {
    hide SeqOf, SkippedOf;
  }

  lemma StepGrows(s: Sys, a: Step)
    requires Shaped(s) && Enabled(s, a)
    ensures var s' := Stepped(s, a);
            s.claims <= s'.claims && s.started <= s'.started && s.items <= s'.items && s.reports <= s'.reports
  {
    hide SeqDistance, NextAfter;
  }

  lemma FinishKeepsItems(s: Sys)
    requires Shaped(s) && EntriesInv(s) && ClaimsInv(s) && ItemsInv(s) && s.cons.Copied?
    ensures ItemsInv(Stepped(s, TakeFinish))
  {
    var n := |s.items|;
    assert s.claims[n] == LastClaim(s) && ClaimGood(s.claims, s.reports, n);
    SkippedIs(Prior(s.claims, n), s.claims[n]);
    hide SeqOf, SkippedOf, SeqDistance;
    var s' := Stepped(s, TakeFinish);
    forall i | 0 <= i < n ensures ItemGood(s', i) { ItemStable(s, s', i); }
    assert ItemGood(s', n);
  }

  lemma StepKeepsItems(s: Sys, a: Step)
    requires Shaped(s) && FlagsInv(s) && ReadyInv(s) && ItemsInv(s) && Enabled(s, a) && !a.TakeFinish?
    ensures ItemsInv(Stepped(s, a))
  {
    StepGrows(s, a);
    hide SeqOf, SeqDistance, NextAfter, ItemGood;
    var s' := Stepped(s, a);
    assert s'.items == s.items;
    forall i | 0 <= i < |s.items| ensures ItemGood(s', i) { ItemStable(s, s', i); }
  }

  lemma StepKeepsInv(s: Sys, a: Step)
    requires Inv(s) && Enabled(s, a)
    ensures Inv(Stepped(s, a))
  {
    hide Stepped, SlotsPermuted, ViewsInv, OwnersInv, ReadyInv, EntriesInv, ClaimsInv, CountInv, ReturnedInv, ItemsInv;
    StepKeepsOwned(s, a);
    if RoleSteps(a) {
      RoleKeepsReady(s, a);
      RoleKeepsEntries(s, a);
    } else if PubSteps(a) {
      PubKeepsReady(s, a);
      PubKeepsEntries(s, a);
    } else {
      TakeKeepsReady(s, a);
      TakeKeepsEntries(s, a);
    }
    StepKeepsClaims(s, a);
    StepKeepsCount(s, a);
    StepKeepsReturned(s, a);
    if a.TakeFinish? { FinishKeepsItems(s); } else { StepKeepsItems(s, a); }
  }

  lemma {:induction false} RunKeepsInv(run: seq<Sys>, steps: seq<Step>)
    requires Run(run, steps)
    ensures Inv(run[|steps|])
  {
    hide Inv, Stepped, Enabled, Shaped;
    var t := |steps|;
    if t == 0 {
      InitInv(run[0]);
    } else {
      RunKeepsInv(run[..t], steps[..t - 1]);
      StepKeepsInv(run[t - 1], steps[t - 1]);
    }
  }

  // ---------------------------------------------------------------- what it promises

  /** In every run, at every step, the three roles own the three slots between them. */
  lemma SlotsAlwaysPermuted(run: seq<Sys>, steps: seq<Step>)
    requires Run(run, steps)
    ensures var s := run[|steps|];
            && Shaped(s) && {ProdSlot(s), ExchangeSlot(s), ConsSlot(s)} == {0, 1, 2}
            && (s.prod.Begun? || s.prod.Wrote? ==> s.prod.back == ProdSlot(s))
            && (s.cons.Claimed? ==> s.cons.slot == ConsSlot(s))
  {
    RunKeepsInv(run, steps);
  }

  /** No cell access is concurrent with another: each comes after everything done to its cell,
      by the vector clocks, whatever threads hold the roles. */
  lemma AccessesAreOrdered(s: Sys, a: Step)
    requires Inv(s) && Enabled(s, a)
    ensures a.PubBegin? || a.PubFinish? ==> s.prodCell.accessNo <= s.views[s.prod.tid].p
    ensures a.PubWrite? ==>
              s.slots[s.prod.back].writeNo <= s.views[s.prod.tid].p && s.slots[s.prod.back].readNo <= s.views[s.prod.tid].c
    ensures a.TakeFront? || a.TakeStore? || a.TakeFinish? ==> s.consCell.accessNo <= s.views[s.cons.tid].c
    ensures a.TakeRead? ==>
              s.slots[s.cons.slot].writeNo <= s.views[s.cons.tid].p && s.slots[s.cons.slot].readNo <= s.views[s.cons.tid].c
  {
  }

  /** An empty poll: a clear word, however old, changes nothing but what the thread has seen,
      and leaves any newer publication pending. */
  lemma EmptyPollChangesNothing(s: Sys, i: nat)
    requires Inv(s) && Enabled(s, TakeLoad(i)) && !s.exchange[i].ready
    ensures Stepped(s, TakeLoad(i)) == s.(views := Stepped(s, TakeLoad(i)).views)
    ensures Latest(s).ready ==>
              LastClaim(s) < Published(s) && HoldsEntry(Stepped(s, TakeLoad(i)), ExchangeSlot(s), Published(s))
  {
  }

  /** A set word, however old, is a promise: the swap that follows always finds the ready bit,
      so the second empty branch is never taken while the consumer role is held once. */
  lemma SwapFindsReady(s: Sys)
    requires Inv(s) && Enabled(s, TakeSwap)
    ensures Latest(s).ready && Stepped(s, TakeSwap).cons.ready && LastClaim(Stepped(s, TakeSwap)) == Published(s)
  {
  }

  lemma NoEmptySwap(run: seq<Sys>, steps: seq<Step>)
    requires Run(run, steps)
    ensures run[|steps|].empties == 0
  {
    RunKeepsInv(run, steps);
  }

  /** In every run: each item handed out carries the value published under its generation, takes
      are of strictly newer publications, and `skipped` is the modular formula. */
  lemma TakenIsPublished(run: seq<Sys>, steps: seq<Step>, i: nat)
    requires Run(run, steps) && i < |run[|steps|].items|
    ensures var s := run[|steps|];
            && i < |s.claims| && Prior(s.claims, i) < s.claims[i] <= Published(s) <= |s.started|
            && s.items[i].value == s.started[s.claims[i] - 1]
            && s.items[i].generation == SeqOf(s.claims[i])
            && s.items[i].skipped == SkippedOf(Prior(s.claims, i), s.claims[i])
  {
    RunKeepsInv(run, steps);
    var s := run[|steps|];
    assert ItemGood(s, i) && ClaimGood(s.claims, s.reports, i);
  }

  /** In every run: the publications reported to have displaced an unread one are those
      published, less those claimed, less the one pending. */
  lemma ReportsCountTheLost(run: seq<Sys>, steps: seq<Step>)
    requires Run(run, steps)
    ensures var s := run[|steps|];
            && Shaped(s)
            && Trues(s.reports) == Published(s) - |s.claims| - (if Latest(s).ready then 1 else 0)
            && (forall o | 0 <= o < |s.returned| :: o < |s.reports| && s.returned[o] == Report(SeqOf(o + 1), s.reports[o]))
  {
    RunKeepsInv(run, steps);
  }

  lemma {:induction false} TruesOfGap(r: seq<bool>, a: nat, b: nat)
    requires a < b <= |r| && (forall q | a <= q < b :: r[q] <==> q != a)
    ensures Trues(r[a..b]) == b - a - 1
    decreases b
  {
    assert r[a..b][..b - a - 1] == r[a..b - 1];
    if a < b - 1 { TruesOfGap(r, a, b - 1); } else { assert r[a..b - 1] == []; }
  }

  /** The two ends agree: below one span, what a take says it skipped is the number of
      displacements reported among the publications after the previous take up to this one. */
  lemma SkippedEqualsReported(run: seq<Sys>, steps: seq<Step>, i: nat)
    requires Run(run, steps) && i < |run[|steps|].items| && i < |run[|steps|].claims|
    requires var s := run[|steps|]; s.claims[i] < Prior(s.claims, i) + SPAN
    ensures var s := run[|steps|];
            && Prior(s.claims, i) < s.claims[i] <= |s.reports|
            && s.items[i].skipped == Trues(s.reports[Prior(s.claims, i)..s.claims[i]])
  {
    TakenIsPublished(run, steps, i);
    RunKeepsInv(run, steps);
    var s := run[|steps|];
    assert ClaimGood(s.claims, s.reports, i);
    TruesOfGap(s.reports, Prior(s.claims, i), s.claims[i]);
    SkippedExactIff(Prior(s.claims, i), s.claims[i]);
  }

  /** `skipped` is the true number of publications in between exactly below one span; from the
      start one more fits, because no generation is 0. */
  lemma SkippedExactIff(c: nat, k: nat)
    requires c < k
    ensures SkippedOf(c, k) == k - c - 1 <==> k - c < SPAN || (c == 0 && k == SPAN)
    ensures 0 < c && (k - c) % SPAN == 0 ==> SkippedOf(c, k) == 0
  {
    if k - c < SPAN {
      DivUnique(k - c, SPAN, 0, k - c);
      DivUnique(k - c - 1, SPAN, 0, k - c - 1);
    } else if c == 0 && k == SPAN {
      DivUnique(k - 1, SPAN, 0, k - 1);
    }
  }
}
