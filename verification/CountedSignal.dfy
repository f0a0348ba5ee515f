/** `CountedSignal`: exact saturation of a shared counter whose first load may be stale.

    The counter is an append-only modification order.  A Relaxed load may return any value not
    older than the thread has seen; a read-modify-write reads the newest and appends.  The role
    flags are AcqRel swaps and Release stores, so a hand-over passes on what the old holder saw.
    Every source-level atomic operation is one step. */
module CountedSignal {
  import opened Common
  import opened SeqArith

  const MAX: U32 := 0xFFFF_FFFF

  datatype Flag = Flag(taken: bool, seen: nat)

  /** The producer inside `increment`. */
  datatype Prod = NoProducer | Idle(tid: nat) | SawMax(tid: nat) | Adding(tid: nat)
  datatype Cons = NoConsumer | Ready(tid: nat)

  datatype Take = Take(count: U32, since: nat)

  /** `views[k]`: the newest modification thread k may not look behind.  History: `lastInc`, the
      producer's last modification; `since`, the increments recorded since the last take;
      `begun` and `recorded` count increments. */
  datatype Sys = Sys(
    count: seq<U32>, views: seq<nat>, prodFlag: Flag, consFlag: Flag, prod: Prod, cons: Cons,
    lastInc: nat, since: nat, begun: nat, recorded: nat, takes: seq<Take>
  )

  datatype Step =
    | TryProducer(tid: nat) | DropProducer | TryConsumer(tid: nat) | DropConsumer
    | IncLoad(i: nat) | IncOr | IncAdd | TakeCount

  predicate Shaped(s: Sys) {
    && 0 < |s.count|
    && (!s.prod.NoProducer? ==> s.prod.tid < |s.views|) && (!s.cons.NoConsumer? ==> s.cons.tid < |s.views|)
  }

  function Newest(s: Sys): U32
    requires 0 < |s.count|
  {
    s.count[|s.count| - 1]
  }

  predicate Enabled(s: Sys, a: Step)
    requires Shaped(s)
  {
    match a
    case TryProducer(tid) => tid < |s.views|
    case TryConsumer(tid) => tid < |s.views|
    case DropProducer => s.prod.Idle?
    case DropConsumer => s.cons.Ready?
    case IncLoad(i) => s.prod.Idle? && s.views[s.prod.tid] <= i < |s.count|
    case IncOr => s.prod.SawMax?
    case IncAdd => s.prod.Adding?
    case TakeCount => s.cons.Ready?
  }

  /** A read-modify-write by thread `tid` leaving `v`. */
  function Modified(s: Sys, tid: nat, v: U32): Sys
    requires tid < |s.views|
  {
    s.(count := s.count + [v], views := s.views[tid := |s.count|])
  }

  function Stepped(s: Sys, a: Step): Sys
    requires Shaped(s) && Enabled(s, a)
  {
    match a
    case TryProducer(tid) =>
      var v := Max(s.views[tid], s.prodFlag.seen);
      var s1 := s.(views := s.views[tid := v], prodFlag := Flag(true, v));
      if s.prodFlag.taken then s1 else s1.(prod := Idle(tid))
    case TryConsumer(tid) =>
      var v := Max(s.views[tid], s.consFlag.seen);
      var s1 := s.(views := s.views[tid := v], consFlag := Flag(true, v));
      if s.consFlag.taken then s1 else s1.(cons := Ready(tid))
    case DropProducer => s.(prodFlag := Flag(false, s.views[s.prod.tid]), prod := NoProducer)
    case DropConsumer => s.(consFlag := Flag(false, s.views[s.cons.tid]), cons := NoConsumer)
    case IncLoad(i) =>
      var tid := s.prod.tid;
      s.(views := s.views[tid := i], begun := s.begun + 1,
         prod := if s.count[i] == MAX then SawMax(tid) else Adding(tid))
    case IncOr =>
      var s1 := Modified(s, s.prod.tid, Newest(s)).(lastInc := |s.count|);
      if Newest(s) == MAX then s1.(prod := Idle(s.prod.tid), since := s.since + 1, recorded := s.recorded + 1)
      else s1.(prod := Adding(s.prod.tid))
    case IncAdd =>
      Modified(s, s.prod.tid, WrapAdd(Newest(s), 1)).(
        lastInc := |s.count|, prod := Idle(s.prod.tid), since := s.since + 1, recorded := s.recorded + 1)
    case TakeCount =>
      Modified(s, s.cons.tid, 0).(since := 0, takes := s.takes + [Take(Newest(s), s.since)])
  }

  predicate Init(s: Sys) {
    && s.count == [0] && (forall k | 0 <= k < |s.views| :: s.views[k] == 0)
    && s.prodFlag == Flag(false, 0) && s.consFlag == Flag(false, 0)
    && s.prod == NoProducer && s.cons == NoConsumer
    && s.lastInc == 0 && s.since == s.begun == s.recorded == 0 && s.takes == []
  }

  predicate Run(run: seq<Sys>, steps: seq<Step>) {
    && |run| == |steps| + 1 && Init(run[0])
    && (forall t | 0 <= t < |steps| ::
          Shaped(run[t]) && Enabled(run[t], steps[t]) && run[t + 1] == Stepped(run[t], steps[t]))
  }

  function Saturated(n: nat): U32 { if n < MAX as int then n as U32 else MAX }

  function Sum(takes: seq<Take>): nat {
    if takes == [] then 0 else Sum(takes[..|takes| - 1]) + takes[|takes| - 1].since
  }

  function ProdSeen(s: Sys): nat
    requires Shaped(s)
  {
    if s.prod.NoProducer? then s.prodFlag.seen else s.views[s.prod.tid]
  }

  predicate Inv(s: Sys) {
    && Shaped(s) && s.prodFlag.taken == !s.prod.NoProducer? && s.consFlag.taken == !s.cons.NoConsumer?
    && (forall k | 0 <= k < |s.views| :: s.views[k] < |s.count|)
    && s.prodFlag.seen < |s.count| && s.consFlag.seen < |s.count|
    && s.lastInc <= ProdSeen(s)
    && (forall i | s.lastInc < i < |s.count| :: s.count[i] == 0)
    && Newest(s) == Saturated(s.since)
    && (s.prod.Adding? ==> Newest(s) != MAX)
    && (forall i | 0 <= i < |s.takes| :: s.takes[i].count == Saturated(s.takes[i].since))
    && Sum(s.takes) + s.since == s.recorded
    && s.begun == s.recorded + (if s.prod.SawMax? || s.prod.Adding? then 1 else 0)
  }

  lemma InitInv(s: Sys)
    requires Init(s)
    ensures Inv(s)
  {
  }

  lemma SumSnoc(takes: seq<Take>, t: Take)
    ensures Sum(takes + [t]) == Sum(takes) + t.since
  {
    assert (takes + [t])[..|takes|] == takes;
  }

  lemma RoleStepKeepsInv(s: Sys, a: Step)
    requires Inv(s) && Enabled(s, a) && (a.TryProducer? || a.TryConsumer? || a.DropProducer? || a.DropConsumer?)
    ensures Inv(Stepped(s, a))
  {
    hide Sum, Saturated;
  }

  lemma IncStepKeepsInv(s: Sys, a: Step)
    requires Inv(s) && Enabled(s, a) && (a.IncLoad? || a.IncOr? || a.IncAdd?)
    ensures Inv(Stepped(s, a))
  {
    hide Sum;
  }

  lemma TakeKeepsInv(s: Sys)
    requires Inv(s) && Enabled(s, TakeCount)
    ensures Inv(Stepped(s, TakeCount))
  {
    hide Sum;
    SumSnoc(s.takes, Take(Newest(s), s.since));
  }

  lemma StepKeepsInv(s: Sys, a: Step)
    requires Inv(s) && Enabled(s, a)
    ensures Inv(Stepped(s, a))
  {
    hide Inv, Stepped;
    match a
    case IncLoad(_) => IncStepKeepsInv(s, a);
    case IncOr => IncStepKeepsInv(s, a);
    case IncAdd => IncStepKeepsInv(s, a);
    case TakeCount => TakeKeepsInv(s);
    case _ => RoleStepKeepsInv(s, a);
  }

  lemma {:induction false} RunKeepsInv(run: seq<Sys>, steps: seq<Step>)
    requires Run(run, steps)
    ensures Inv(run[|steps|])
  {
    hide Inv, Stepped, Enabled, Shaped;
    var t := |steps|;
    if t == 0 {
      InitInv(run[0]);
    } else {
      RunKeepsInv(run[..t], steps[..t - 1]);
      StepKeepsInv(run[t - 1], steps[t - 1]);
    }
  }

  /** However stale the load that led to it, `fetch_add` is never applied at `u32::MAX`, so it
      never wraps. */
  lemma AddNeverWraps(s: Sys)
    requires Inv(s) && Enabled(s, IncAdd)
    ensures Newest(s) != MAX && Newest(Stepped(s, IncAdd)) as int == Newest(s) as int + 1
  {
  }

  /** A value below MAX read from the past still rules out MAX now: only takes can follow the
      producer's own last modification. */
  lemma StaleLoadIsSafe(s: Sys, i: nat)
    requires Inv(s) && Enabled(s, IncLoad(i)) && s.count[i] != MAX
    ensures Newest(s) == s.count[i] || Newest(s) == 0
  {
  }

  // ---------------------------------------------------------------- judged by the steps alone

  /** A role is granted exactly if it is free, to the thread that asked, who then sees no less
      than the last holder did; nothing else changes. */
  lemma RolesGranted(s: Sys, tid: nat)
    requires Inv(s) && tid < |s.views|
    ensures var s', v := Stepped(s, TryProducer(tid)), Max(s.views[tid], s.prodFlag.seen);
            && s' == s.(prod := s'.prod, prodFlag := Flag(true, v), views := s.views[tid := v])
            && s'.prod == (if s.prod.NoProducer? then Idle(tid) else s.prod)
            && (s'.prod != s.prod <==> !s.prodFlag.taken)
    ensures var s', v := Stepped(s, TryConsumer(tid)), Max(s.views[tid], s.consFlag.seen);
            && s' == s.(cons := s'.cons, consFlag := Flag(true, v), views := s.views[tid := v])
            && s'.cons == (if s.cons.NoConsumer? then Ready(tid) else s.cons)
            && (s'.cons != s.cons <==> !s.consFlag.taken)
  {
  }

  lemma RolesFreed(s: Sys)
    requires Inv(s)
    ensures Enabled(s, DropProducer) <==> s.prod.Idle?
    ensures s.prod.Idle? ==>
              Stepped(s, DropProducer) == s.(prod := NoProducer, prodFlag := Flag(false, s.views[s.prod.tid]))
    ensures Enabled(s, DropConsumer) <==> s.cons.Ready?
    ensures s.cons.Ready? ==>
              Stepped(s, DropConsumer) == s.(cons := NoConsumer, consFlag := Flag(false, s.views[s.cons.tid]))
  {
  }

  /** `increment` is at most three operations, whatever the consumer does: after a load below
      MAX one add; after MAX one `fetch_or`, and an add only if that no longer found MAX. */
  lemma IncrementIsShort(s: Sys, a: Step)
    requires Inv(s) && Enabled(s, a)
    ensures var p := Stepped(s, a).prod;
            match a
            case IncLoad(i) => p == (if s.count[i] == MAX then SawMax(s.prod.tid) else Adding(s.prod.tid))
            case IncOr => p == (if Newest(s) == MAX then Idle(s.prod.tid) else Adding(s.prod.tid))
            case IncAdd => p == Idle(s.prod.tid)
            case TakeCount => p == s.prod
            case _ => true
    ensures s.prod.Idle? ==> Enabled(s, IncLoad(|s.count| - 1))
  {
  }

  /** Calls of `increment` begun among the steps. */
  function Begun(steps: seq<Step>): nat {
    if steps == [] then 0 else Begun(steps[..|steps| - 1]) + if steps[|steps| - 1].IncLoad? then 1 else 0
  }

  /** The step that settles an increment: the add, or the `fetch_or` that found the counter full. */
  predicate Settles(s: Sys, a: Step)
    requires Shaped(s)
  {
    a.IncAdd? || (a.IncOr? && Newest(s) == MAX)
  }

  /** Increments settled among the first `t` steps since the last take before step `t`. */
  function SettledSince(run: seq<Sys>, steps: seq<Step>, t: nat): nat
    requires t < |run| == |steps| + 1 && (forall u | 0 <= u < |steps| :: Shaped(run[u]))
  {
    if t == 0 || steps[t - 1].TakeCount? then 0
    else SettledSince(run, steps, t - 1) + if Settles(run[t - 1], steps[t - 1]) then 1 else 0
  }

  predicate TraceInv(run: seq<Sys>, steps: seq<Step>, t: nat)
    requires t < |run| == |steps| + 1 && (forall u | 0 <= u < |steps| :: Shaped(run[u]))
  {
    run[t].begun == Begun(steps[..t]) && run[t].since == SettledSince(run, steps, t)
  }

  lemma {:induction false} TraceHolds(run: seq<Sys>, steps: seq<Step>, t: nat)
    requires Run(run, steps) && t < |run|
    ensures TraceInv(run, steps, t)
    decreases t
  {
    if 0 < t {
      TraceHolds(run, steps, t - 1);
      assert steps[..t][..t - 1] == steps[..t - 1];
      assert run[t] == Stepped(run[t - 1], steps[t - 1]);
    }
  }

  lemma InvAt(run: seq<Sys>, steps: seq<Step>, t: nat)
    requires Run(run, steps) && t < |run|
    ensures Inv(run[t])
  {
    hide Inv, Stepped, Enabled, Shaped, Init;
    RunKeepsInv(run[..t + 1], steps[..t]);
  }

  /** Step `t`, if it is a take, returns the increments settled since the take before it,
      saturated, and clears the counter; no other step returns anything. */
  predicate TakesExactly(run: seq<Sys>, steps: seq<Step>, t: nat)
    requires t < |steps| && |run| == |steps| + 1 && (forall u | 0 <= u < |steps| :: Shaped(run[u]))
  {
    var since := SettledSince(run, steps, t);
    if steps[t].TakeCount? then
      && Newest(run[t]) == Saturated(since)
      && run[t + 1].takes == run[t].takes + [Take(Saturated(since), since)]
      && 0 < |run[t + 1].count| && Newest(run[t + 1]) == 0
    else
      run[t + 1].takes == run[t].takes
  }

  /** In every run, through any hand-overs and however old the loads, every take is exact, and
      the counter always shows the increments since the last one, saturated at `u32::MAX`. */
  lemma TakesAreExact(run: seq<Sys>, steps: seq<Step>)
    requires Run(run, steps)
    ensures forall t | 0 <= t < |steps| :: TakesExactly(run, steps, t)
    ensures Shaped(run[|steps|]) && Newest(run[|steps|]) == Saturated(SettledSince(run, steps, |steps|))
  {
    hide SettledSince, Stepped, Enabled, Saturated, Newest, Init;
    forall t | 0 <= t < |steps| ensures TakesExactly(run, steps, t) {
      CounterAt(run, steps, t);
      TakesGrow(run[t], steps[t]);
    }
    CounterAt(run, steps, |steps|);
  }

  lemma CounterAt(run: seq<Sys>, steps: seq<Step>, t: nat)
    requires Run(run, steps) && t < |run|
    ensures Shaped(run[t]) && Newest(run[t]) == Saturated(SettledSince(run, steps, t))
    ensures run[t].since == SettledSince(run, steps, t)
  {
    hide SettledSince, Stepped, Enabled;
    InvAt(run, steps, t);
    TraceHolds(run, steps, t);
  }

  lemma TakesGrow(s: Sys, a: Step)
    requires Shaped(s) && Enabled(s, a)
    ensures var s' := Stepped(s, a);
            && Shaped(s')
            && s'.takes == (if a.TakeCount? then s.takes + [Take(Newest(s), s.since)] else s.takes)
            && (a.TakeCount? ==> Newest(s') == 0)
  {
  }

  /** And none is lost: the increments begun among the steps are those in the windows of the
      takes, those since the last one, and the one in progress. */
  lemma IncrementsAddUp(run: seq<Sys>, steps: seq<Step>)
    requires Run(run, steps)
    ensures var s := run[|steps|];
            && Begun(steps) == Sum(s.takes) + SettledSince(run, steps, |steps|)
                             + (if s.prod.SawMax? || s.prod.Adding? then 1 else 0)
            && (forall i | 0 <= i < |s.takes| :: s.takes[i].count == Saturated(s.takes[i].since))
  {
    RunKeepsInv(run, steps);
    TraceHolds(run, steps, |steps|);
    assert steps[..|steps|] == steps;
  }

  /** Below saturation the window counts add up to the returned counts. */
  lemma {:induction false} UnsaturatedTakesLoseNothing(takes: seq<Take>)
    requires forall i | 0 <= i < |takes| :: takes[i].count == Saturated(takes[i].since) && takes[i].count != MAX
    ensures Sum(takes) == Returned(takes)
  {
    if takes != [] { UnsaturatedTakesLoseNothing(takes[..|takes| - 1]); }
  }

  function Returned(takes: seq<Take>): nat {
    if takes == [] then 0 else Returned(takes[..|takes| - 1]) + takes[|takes| - 1].count as nat
  }

  // ---------------------------------------------------------------- the object

  function Incremented(count: U32): U32 { if count == MAX then MAX else count + 1 }

  class Signal {
    var count: U32
    var producerTaken: bool
    var consumerTaken: bool
    /** Increments since the last take. */
    ghost var since: nat

    ghost predicate Valid()
      reads this
    {
      count == Saturated(since)
    }

    constructor ()
      ensures Valid() && since == 0 && !producerTaken && !consumerTaken
    {
      count, since := 0, 0;
      producerTaken, consumerTaken := false, false;
    }

    /** One handle per role; taking or dropping one leaves the count alone. */
    method TryProducer() returns (ok: bool)
      requires Valid()
      modifies this`producerTaken
      ensures Valid() && ok == !old(producerTaken) && producerTaken
    {
      ok := !producerTaken;
      producerTaken := true;
    }

    method DropProducer()
      requires Valid() && producerTaken
      modifies this`producerTaken
      ensures Valid() && !producerTaken
    {
      producerTaken := false;
    }

    method TryConsumer() returns (ok: bool)
      requires Valid()
      modifies this`consumerTaken
      ensures Valid() && ok == !old(consumerTaken) && consumerTaken
    {
      ok := !consumerTaken;
      consumerTaken := true;
    }

    method DropConsumer()
      requires Valid() && consumerTaken
      modifies this`consumerTaken
      ensures Valid() && !consumerTaken
    {
      consumerTaken := false;
    }

    method Increment()
      requires Valid()
      modifies this`count, this`since
      ensures Valid() && since == old(since) + 1 && count == Incremented(old(count))
    {
      var observed := count;
      since := since + 1;
      if observed == MAX {
        var current := count;
        count := current;
        if current == MAX { return; }
      }
      count := WrapAdd(count, 1);
    }

    /** The snapshot is exact below `u32::MAX`; at it, at least that many happened. */
    method TakeCount() returns (snapshot: U32)
      requires Valid()
      modifies this`count, this`since
      ensures Valid() && since == 0 && snapshot == Saturated(old(since)) == old(count) && count == 0
      ensures snapshot != MAX ==> snapshot as int == old(since)
      ensures snapshot == MAX ==> MAX as int <= old(since)
    {
      snapshot := count;
      count, since := 0, 0;
    }
  }
}
