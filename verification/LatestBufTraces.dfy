/** `LatestBuf` judged by the steps taken alone: who holds the roles, that no call can be blocked,
    and that the swaps of every run implement an atomic newest-value cell. */
module LatestBufTraces {
  import opened SeqArith
  import opened LatestBufSteps

  // ---------------------------------------------------------------- the roles

  /** A role is granted exactly if it is free, to the thread that asked, who then knows what the
      last holder knew; nothing else changes. */
  lemma ProducerGranted(s: Sys, tid: nat)
    requires Inv(s) && Enabled(s, TryProducer(tid))
    ensures var s', v := Stepped(s, TryProducer(tid)), Join(s.views[tid], s.prodFlag.view);
            && s'.prod == (if s.prod.NoProducer? then ProdIdle(tid) else s.prod)
            && s' == s.(prod := s'.prod, prodFlag := Flag(true, v), views := s.views[tid := v])
            && Le(s.prodFlag.view, s'.views[tid])
    ensures Stepped(s, TryProducer(tid)).prod != s.prod <==> !s.prodFlag.taken
  {
  }

  lemma ConsumerGranted(s: Sys, tid: nat)
    requires Inv(s) && Enabled(s, TryConsumer(tid))
    ensures var s', v := Stepped(s, TryConsumer(tid)), Join(s.views[tid], s.consFlag.view);
            && s'.cons == (if s.cons.NoConsumer? then ConsIdle(tid) else s.cons)
            && s' == s.(cons := s'.cons, consFlag := Flag(true, v), views := s.views[tid := v])
            && Le(s.consFlag.view, s'.views[tid])
    ensures Stepped(s, TryConsumer(tid)).cons != s.cons <==> !s.consFlag.taken
  {
  }

  /** Dropping a handle frees the role and leaves what its holder knew. */
  lemma RolesFreed(s: Sys)
    requires Inv(s)
    ensures Enabled(s, DropProducer) <==> s.prod.ProdIdle?
    ensures s.prod.ProdIdle? ==>
              Stepped(s, DropProducer) == s.(prod := NoProducer, prodFlag := Flag(false, s.views[s.prod.tid]))
    ensures Enabled(s, DropConsumer) <==> s.cons.ConsIdle?
    ensures s.cons.ConsIdle? ==>
              Stepped(s, DropConsumer) == s.(cons := NoConsumer, consFlag := Flag(false, s.views[s.cons.tid]))
  {
  }

  // ---------------------------------------------------------------- no call blocks

  function PubLeft(p: Prod): nat {
    match p
    case Begun(_, _, _, _) => 3
    case Wrote(_, _, _) => 2
    case ProdSwapped(_, _, _, _) => 1
    case _ => 0
  }

  function TakeLeft(c: Cons): nat {
    match c
    case Hinted(_) => 5
    case HasFront(_, _) => 4
    case ConsSwapped(_, _, _) => 3
    case Claimed(_, _) => 2
    case Copied(_, _, _) => 1
    case _ => 0
  }

  /** `publish` is wait-free: four steps, each enabled as soon as the one before is taken, and
      nobody else moves it. */
  lemma PublishIsWaitFree(s: Sys, a: Step, val: Item)
    requires Inv(s) && Enabled(s, a)
    ensures PubSteps(a) ==>
              && PubLeft(Stepped(s, a).prod) == (if a.PubBegin? then 3 else PubLeft(s.prod) - 1)
              && !Stepped(s, a).prod.NoProducer? && Stepped(s, a).prod.tid == s.prod.tid
    ensures !PubSteps(a) && !RoleSteps(a) ==> Stepped(s, a).prod == s.prod
    ensures 0 < PubLeft(s.prod) ==> Enabled(s, PubWrite) || Enabled(s, PubSwap) || Enabled(s, PubFinish)
    ensures s.prod.ProdIdle? ==> Enabled(s, PubBegin(val))
  {
    hide ViewsInv, OwnersInv, ReadyInv, EntriesInv, ClaimsInv, CountInv, ReturnedInv, ItemsInv;
  }

  /** `take_latest` too: one step if its load finds nothing ready, six if it does. */
  lemma TakeIsWaitFree(s: Sys, a: Step)
    requires Inv(s) && Enabled(s, a)
    ensures TakeSteps(a) ==>
              && TakeLeft(Stepped(s, a).cons)
                 == (if !a.TakeLoad? then TakeLeft(s.cons) - 1 else if s.exchange[a.i].ready then 5 else 0)
              && !Stepped(s, a).cons.NoConsumer? && Stepped(s, a).cons.tid == s.cons.tid
    ensures !TakeSteps(a) && !RoleSteps(a) ==> Stepped(s, a).cons == s.cons
    ensures 0 < TakeLeft(s.cons) ==>
              || Enabled(s, TakeFront) || Enabled(s, TakeSwap) || Enabled(s, TakeStore)
              || Enabled(s, TakeRead) || Enabled(s, TakeFinish)
    ensures s.cons.ConsIdle? ==> Enabled(s, TakeLoad(|s.exchange| - 1))
  {
    hide OwnersInv, EntriesInv, ClaimsInv, CountInv, ReturnedInv, ItemsInv;
  }

  // ---------------------------------------------------------------- an atomic cell

  /** A newest-value cell whose operations are atomic: how many values were put, whether the last
      is still pending, what each put displaced, and which put each take claimed. */
  datatype Cell = Cell(pending: bool, displaced: seq<bool>, claims: seq<nat>)

  function Put(c: Cell): Cell { Cell(true, c.displaced + [c.pending], c.claims) }
  function Claim(c: Cell): Cell { if c.pending then Cell(false, c.displaced, c.claims + [|c.displaced|]) else c }

  /** What it does along the steps: a publication puts at its swap, a take claims at its swap. */
  function CellAfter(steps: seq<Step>): Cell {
    if steps == [] then Cell(false, [], [])
    else
      var before := CellAfter(steps[..|steps| - 1]);
      match steps[|steps| - 1]
      case PubSwap => Put(before)
      case TakeSwap => Claim(before)
      case _ => before
  }

  /** The values of the publications begun, and how many calls have returned. */
  function Values(steps: seq<Step>): seq<Item> {
    if steps == [] then []
    else
      match steps[|steps| - 1]
      case PubBegin(val) => Values(steps[..|steps| - 1]) + [val]
      case _ => Values(steps[..|steps| - 1])
  }

  function PubsDone(steps: seq<Step>): nat {
    if steps == [] then 0 else PubsDone(steps[..|steps| - 1]) + if steps[|steps| - 1].PubFinish? then 1 else 0
  }

  function TakesDone(steps: seq<Step>): nat {
    if steps == [] then 0 else TakesDone(steps[..|steps| - 1]) + if steps[|steps| - 1].TakeFinish? then 1 else 0
  }

  predicate TraceInv(s: Sys, steps: seq<Step>)
    requires 0 < |s.exchange|
  {
    && CellAfter(steps) == Cell(Latest(s).ready, s.reports, s.claims)
    && s.started == Values(steps) && |s.returned| == PubsDone(steps) && |s.items| == TakesDone(steps)
  }

  lemma StepKeepsTrace(s: Sys, a: Step, steps: seq<Step>)
    requires Shaped(s) && ReadyInv(s) && TraceInv(s, steps) && Enabled(s, a)
    ensures 0 < |Stepped(s, a).exchange| && TraceInv(Stepped(s, a), steps + [a])
  {
    hide SeqOf, SeqDistance, NextAfter;
    assert (steps + [a])[..|steps|] == steps;
  }

  lemma {:induction false} RunKeepsTrace(run: seq<Sys>, steps: seq<Step>)
    requires Run(run, steps)
    ensures 0 < |run[|steps|].exchange| && TraceInv(run[|steps|], steps)
  {
    var t := |steps|;
    if 0 < t {
      RunKeepsTrace(run[..t], steps[..t - 1]);
      RunKeepsInv(run[..t], steps[..t - 1]);
      var s, a := run[t - 1], steps[t - 1];
      hide TraceInv, Stepped, Enabled, Init, OwnersInv, EntriesInv, ClaimsInv, CountInv, ReturnedInv, ItemsInv, ViewsInv;
      StepKeepsTrace(s, a, steps[..t - 1]);
      assert steps == steps[..t - 1] + [a];
    }
  }

  /** In every run the channel is that cell: the o-th finished publication reports what its put
      displaced, and the i-th finished take hands out the value of the publication it claimed,
      under its generation, with the number of publications since the claim before. */
  lemma IsAtomicCell(run: seq<Sys>, steps: seq<Step>)
    requires Run(run, steps)
    ensures var s, c, vals := run[|steps|], CellAfter(steps), Values(steps);
            && PubsDone(steps) == |s.returned| <= |c.displaced| <= |vals|
            && TakesDone(steps) == |s.items| <= |c.claims|
            && (forall o | 0 <= o < |s.returned| :: s.returned[o] == Report(SeqOf(o + 1), c.displaced[o]))
            && (forall i | 0 <= i < |s.items| ::
                  && Prior(c.claims, i) < c.claims[i] <= |vals|
                  && s.items[i] == Taken(vals[c.claims[i] - 1], SeqOf(c.claims[i]), SkippedOf(Prior(c.claims, i), c.claims[i])))
  {
    RunKeepsTrace(run, steps);
    RunKeepsInv(run, steps);
    var s := run[|steps|];
    hide SeqOf, SkippedOf, OwnersInv, ViewsInv;
    forall i | 0 <= i < |s.items|
      ensures Prior(s.claims, i) < s.claims[i] <= |s.started|
      ensures s.items[i] == Taken(s.started[s.claims[i] - 1], SeqOf(s.claims[i]), SkippedOf(Prior(s.claims, i), s.claims[i]))
    {
      assert ItemGood(s, i);
    }
  }
}
