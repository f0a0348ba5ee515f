/** Loads in these machines really can be stale: runs in which one is, and the call copes. */
module StaleLoads {
  import opened SeqArith
  import C = CountedSignal
  import S = LatestBufSteps

  // ---------------------------------------------------------------- CountedSignal

  function NewSignal(): (s: C.Sys)
    ensures C.Init(s) && |s.views| == 2
  {
    C.Sys([0], [0, 0], C.Flag(false, 0), C.Flag(false, 0), C.NoProducer, C.NoConsumer, 0, 0, 0, 0, [])
  }

  lemma Extend(run: seq<C.Sys>, steps: seq<C.Step>, a: C.Step) returns (run': seq<C.Sys>, steps': seq<C.Step>)
    requires C.Run(run, steps) && C.Shaped(run[|steps|]) && C.Enabled(run[|steps|], a)
    ensures C.Run(run', steps') && run' == run + [C.Stepped(run[|steps|], a)] && steps' == steps + [a]
  {
    hide C.Stepped, C.Enabled, C.Shaped, C.Init;
    run', steps' := run + [C.Stepped(run[|steps|], a)], steps + [a];
  }

  /** Thread 0 produces, thread 1 consumes and has taken nothing; k increments so far. */
  predicate Counting(s: C.Sys, k: nat) {
    && 0 < |s.count| && |s.views| == 2 && s.prod == C.Idle(0) && s.cons == C.Ready(1)
    && C.Newest(s) == C.Saturated(k) && s.since == k && s.takes == []
    && s.views[0] == |s.count| - 1 && s.views[1] < |s.count|
  }

  lemma CountOne(run: seq<C.Sys>, steps: seq<C.Step>, k: nat) returns (run': seq<C.Sys>, steps': seq<C.Step>)
    requires C.Run(run, steps) && Counting(run[|steps|], k) && k < SPAN
    ensures C.Run(run', steps') && Counting(run'[|steps'|], k + 1)
  {
    run', steps' := Extend(run, steps, C.IncLoad(|run[|steps|].count| - 1));
    run', steps' := Extend(run', steps', C.IncAdd);
  }

  lemma {:induction false} CountUp(run: seq<C.Sys>, steps: seq<C.Step>, k: nat)
    returns (run': seq<C.Sys>, steps': seq<C.Step>)
    requires C.Run(run, steps) && Counting(run[|steps|], 0) && k <= SPAN
    ensures C.Run(run', steps') && Counting(run'[|steps'|], k)
  {
    if k == 0 {
      run', steps' := run, steps;
    } else {
      run', steps' := CountUp(run, steps, k - 1);
      run', steps' := CountOne(run', steps', k - 1);
    }
  }

  lemma SignalRoles() returns (run: seq<C.Sys>, steps: seq<C.Step>)
    ensures C.Run(run, steps) && Counting(run[|steps|], 0)
  {
    run, steps := Extend([NewSignal()], [], C.TryProducer(0));
    run, steps := Extend(run, steps, C.TryConsumer(1));
  }

  /** The case the `fetch_or` is there for: the word is full and a take clears it, then an
      increment begins with a load that still returns the maximum.  It is not lost: the first take
      returned the maximum, the next one returns 1. */
  lemma StaleMaximumCounts() returns (run: seq<C.Sys>, steps: seq<C.Step>, t: nat)
    ensures C.Run(run, steps) && t < |steps| && C.Shaped(run[t])
    ensures steps[t].IncLoad? && steps[t].i < |run[t].count| && run[t].count[steps[t].i] == C.MAX && C.Newest(run[t]) == 0
    ensures run[|steps|].takes == [C.Take(C.MAX, SPAN), C.Take(1, 1)]
  {
    run, steps := SignalRoles();
    run, steps := CountUp(run, steps, SPAN);
    run, steps := TakeAndLoad(run, steps);
    t := |steps| - 1;
    var run1, steps1 := FinishAndTake(run, steps);
    run, steps := run1, steps1;
  }

  lemma TakeAndLoad(run: seq<C.Sys>, steps: seq<C.Step>) returns (run': seq<C.Sys>, steps': seq<C.Step>)
    requires C.Run(run, steps) && Counting(run[|steps|], SPAN)
    ensures C.Run(run', steps') && steps' != []
    ensures var t, s := |steps'| - 1, run'[|steps'| - 1];
            && C.Shaped(s) && steps'[t].IncLoad? && steps'[t].i < |s.count| && s.count[steps'[t].i] == C.MAX && C.Newest(s) == 0
    ensures var s := run'[|steps'|];
            && 0 < |s.count| && C.Newest(s) == 0 && s.prod == C.SawMax(0) && s.cons == C.Ready(1) && |s.views| == 2
            && s.since == 0 && s.takes == [C.Take(C.MAX, SPAN)]
  {
    var seen := |run[|steps|].count| - 1;
    run', steps' := Extend(run, steps, C.TakeCount);
    run', steps' := Extend(run', steps', C.IncLoad(seen));
  }

  lemma FinishAndTake(run: seq<C.Sys>, steps: seq<C.Step>) returns (run': seq<C.Sys>, steps': seq<C.Step>)
    requires C.Run(run, steps)
    requires var s := run[|steps|];
             && 0 < |s.count| && C.Newest(s) == 0 && s.prod == C.SawMax(0) && s.cons == C.Ready(1) && |s.views| == 2
             && s.since == 0 && s.takes == [C.Take(C.MAX, SPAN)]
    ensures C.Run(run', steps') && run <= run' && steps <= steps'
    ensures run'[|steps'|].takes == [C.Take(C.MAX, SPAN), C.Take(1, 1)]
  {
    run', steps' := Extend(run, steps, C.IncOr);
    run', steps' := Extend(run', steps', C.IncAdd);
    run', steps' := Extend(run', steps', C.TakeCount);
  }

  // ---------------------------------------------------------------- LatestBuf

  function NewChannel(): (s: S.Sys)
    ensures S.Init(s) && |s.views| == 2
  {
    var v := S.View(0, 0, 0);
    var slot := S.Slot(0, 0, 0, 0);
    S.Sys([S.Msg(0, false, v)], [slot, slot, slot], S.ProdCell(1, 0, 0), S.ConsCell(2, 0, 0), [v, v],
          S.Flag(false, v), S.Flag(false, v), S.NoProducer, S.NoConsumer, 0, 0, [], [], [], 0, [], [], 0)
  }

  lemma Go(run: seq<S.Sys>, steps: seq<S.Step>, a: S.Step) returns (run': seq<S.Sys>, steps': seq<S.Step>)
    requires S.Run(run, steps) && S.Shaped(run[|steps|]) && S.Enabled(run[|steps|], a)
    ensures S.Run(run', steps') && run' == run + [S.Stepped(run[|steps|], a)] && steps' == steps + [a]
  {
    hide S.Stepped, S.Enabled, S.Shaped, S.Init;
    run', steps' := run + [S.Stepped(run[|steps|], a)], steps + [a];
  }

  predicate Fresh(s: S.Sys) {
    && S.Shaped(s) && |s.views| == 2 && s.views[1].x == 0 && s.cons == S.ConsIdle(1)
    && |s.exchange| == 1 && !s.exchange[0].ready && s.returned == []
  }

  lemma RolesAreFresh(s: S.Sys)
    requires s == NewChannel()
    ensures S.Shaped(s) && S.Enabled(s, S.TryProducer(0))
    ensures var s1 := S.Stepped(s, S.TryProducer(0));
            && S.Shaped(s1) && S.Enabled(s1, S.TryConsumer(1))
            && var s2 := S.Stepped(s1, S.TryConsumer(1));
            Fresh(s2) && s2.prod == S.ProdIdle(0) && s2.prodCell.back == 1 && s2.prodCell.nextGen == 0
  {
  }

  lemma BeginIsFresh(s: S.Sys, val: S.Item)
    requires Fresh(s) && s.prod == S.ProdIdle(0) && s.prodCell.back == 1 && s.prodCell.nextGen == 0
    ensures S.Enabled(s, S.PubBegin(val))
    ensures var s' := S.Stepped(s, S.PubBegin(val)); Fresh(s') && s'.prod == S.Begun(0, val, 1, 1)
  {
  }

  lemma WriteIsFresh(s: S.Sys, val: S.Item)
    requires Fresh(s) && s.prod == S.Begun(0, val, 1, 1)
    ensures S.Enabled(s, S.PubWrite) && Fresh(S.Stepped(s, S.PubWrite)) && S.Stepped(s, S.PubWrite).prod == S.Wrote(0, 1, 1)
  {
  }

  lemma PublishIsPending(s: S.Sys)
    requires Fresh(s) && s.prod == S.Wrote(0, 1, 1)
    ensures S.Enabled(s, S.PubSwap)
    ensures var s1 := S.Stepped(s, S.PubSwap);
            && S.Shaped(s1) && S.Enabled(s1, S.PubFinish)
            && Pending(S.Stepped(s1, S.PubFinish))
  {
  }

  /** A finished publication that a poll may miss, its load returning the word from before, or
      find, if it returns the newest. */
  predicate Pending(s: S.Sys) {
    && S.Shaped(s) && S.Latest(s).ready && s.returned == [S.Report(1, false)] && |s.exchange| == 2
    && S.Enabled(s, S.TakeLoad(0)) && S.Stepped(s, S.TakeLoad(0)).cons.ConsIdle?
    && S.Enabled(s, S.TakeLoad(1)) && S.Stepped(s, S.TakeLoad(1)).cons.Hinted?
  }

  /** Such a state is reached. */
  lemma StalePollMisses(val: S.Item) returns (run: seq<S.Sys>, steps: seq<S.Step>)
    ensures S.Run(run, steps) && Pending(run[|steps|])
  {
    RolesAreFresh(NewChannel());
    hide S.Stepped, S.Enabled, S.Init, Pending, NewChannel;
    run, steps := Go([NewChannel()], [], S.TryProducer(0));
    run, steps := Go(run, steps, S.TryConsumer(1));
    BeginIsFresh(run[|steps|], val);
    run, steps := Go(run, steps, S.PubBegin(val));
    WriteIsFresh(run[|steps|], val);
    run, steps := Go(run, steps, S.PubWrite);
    PublishIsPending(run[|steps|]);
    run, steps := Go(run, steps, S.PubSwap);
    run, steps := Go(run, steps, S.PubFinish);
  }
}
