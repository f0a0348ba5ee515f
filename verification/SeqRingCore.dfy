/** The shared state of `SeqRing` and its producer, one atomic access at a time.

    Every store of `push_inner` is its own step, and so is every word of the volatile payload
    copy; the words are copied in any order.  Steps interleave sequentially consistently: the
    formal weak-memory status of the payload bytes is not claimed here. */
module SeqRingCore {
  import opened SeqArith

  type Word = int
  type Payload = seq<Word>

  /** Where the producer stands inside `push_inner`. */
  datatype Phase =
    | Idle
    | SkipZero                     // fetch_add produced 0; the store of 1 is still to come
    | Assigned                     // the sequence is known, the slot is untouched
    | Writing(written: set<nat>)   // the slot is invalidated and fenced; these words are copied
    | Stamped                      // slot_seq holds the new sequence

  /** The ring's fields, the producer's local `seq`, and two history fields nothing reads:
      every value pushed so far (ordinal k is `pushed[k - 1]`), and for each slot the last
      ordinal whose push has invalidated it. */
  datatype Core = Core(
    nextSeq: U32,
    publishedSeq: U32,
    slotSeq: seq<U32>,
    slots: seq<Payload>,
    width: nat,
    phase: Phase,
    local: U32,
    pushed: seq<Payload>,
    owner: seq<nat>
  )

  datatype PushStep = FetchAdd(value: Payload) | StoreOne | Invalidate | WriteWord(w: nat) | Stamp | Publish

  predicate Shaped(c: Core) {
    && 0 < |c.slotSeq| == |c.slots| == |c.owner|
    && (forall i | 0 <= i < |c.slots| :: |c.slots[i]| == c.width)
    && (forall k | 0 <= k < |c.pushed| :: |c.pushed[k]| == c.width)
  }

  predicate CanPush(c: Core, a: PushStep)
    requires Shaped(c)
  {
    match a
    case FetchAdd(v) => c.phase.Idle? && |v| == c.width
    case StoreOne => c.phase.SkipZero?
    case Invalidate => c.phase.Assigned?
    case WriteWord(w) => c.phase.Writing? && w < c.width && w !in c.phase.written && 0 < |c.pushed|
    case Stamp => c.phase.Writing? && (forall w: nat | w < c.width :: w in c.phase.written)
    case Publish => c.phase.Stamped?
  }

  function ProducerStep(c: Core, a: PushStep): (c': Core)
    requires Shaped(c) && CanPush(c, a)
    ensures Shaped(c') && |c'.slotSeq| == |c.slotSeq| && c'.width == c.width
  {
    var n := |c.slotSeq|;
    var idx := IdxFor(c.local, n);
    match a
    case FetchAdd(v) =>
      var seq_ := WrapAdd(c.nextSeq, 1);
      c.(nextSeq := seq_, local := if seq_ == 0 then 1 else seq_,
         phase := if seq_ == 0 then SkipZero else Assigned, pushed := c.pushed + [v])
    case StoreOne => c.(nextSeq := 1, phase := Assigned)
    case Invalidate => c.(slotSeq := c.slotSeq[idx := 0], owner := c.owner[idx := |c.pushed|], phase := Writing({}))
    case WriteWord(w) =>
      var value := c.pushed[|c.pushed| - 1];
      c.(slots := c.slots[idx := c.slots[idx][w := value[w]]], phase := Writing(c.phase.written + {w}))
    case Stamp => c.(slotSeq := c.slotSeq[idx := c.local], phase := Stamped)
    case Publish => c.(publishedSeq := c.local, phase := Idle)
  }

  // ---------------------------------------------------------------- what every step keeps

  /** How many pushes have been published, have stamped their slot, have invalidated it. */
  function Published(c: Core): nat {
    if c.phase.Idle? || |c.pushed| == 0 then |c.pushed| else |c.pushed| - 1
  }

  function Stored(c: Core): nat {
    if c.phase.Idle? || c.phase.Stamped? || |c.pushed| == 0 then |c.pushed| else |c.pushed| - 1
  }

  function Begun(c: Core): nat {
    if c.phase.SkipZero? || c.phase.Assigned? then (if |c.pushed| == 0 then 0 else |c.pushed| - 1) else |c.pushed|
  }

  predicate CountersInv(c: Core) {
    && (!c.phase.Idle? ==> 0 < |c.pushed| && c.local == SeqOf(|c.pushed|))
    && (c.phase.SkipZero? ==> c.local == 1)
    && c.nextSeq == (if c.phase.SkipZero? then 0 else SeqOf(|c.pushed|))
    && c.publishedSeq == SeqOf(Published(c))
  }

  predicate OwnersInv(c: Core)
    requires Shaped(c)
  {
    && (forall i | 0 <= i < |c.owner| && 0 < c.owner[i] ::
          c.owner[i] <= Begun(c) && SlotOf(c.owner[i], |c.slotSeq|) == i)
    && (forall o {:trigger SlotOf(o, |c.slotSeq|)} | 0 < o <= Begun(c) :: o <= c.owner[SlotOf(o, |c.slotSeq|)])
  }

  predicate SlotsInv(c: Core)
    requires Shaped(c)
  {
    && (forall i | 0 <= i < |c.owner| ::
          && c.slotSeq[i] == (if 0 < c.owner[i] <= Stored(c) then SeqOf(c.owner[i]) else 0)
          && (0 < c.owner[i] <= Stored(c) ==> c.slots[i] == c.pushed[c.owner[i] - 1]))
    && (c.phase.Writing? ==>
          0 < |c.pushed| &&
          var idx := SlotOf(|c.pushed|, |c.slotSeq|);
          && c.owner[idx] == |c.pushed|
          && (forall w | w in c.phase.written && w < c.width :: c.slots[idx][w] == c.pushed[|c.pushed| - 1][w]))
  }

  predicate CoreInv(c: Core) {
    && Shaped(c) && CountersInv(c)
    && (forall i | 0 <= i < |c.owner| :: c.owner[i] <= |c.pushed|)
    && OwnersInv(c) && SlotsInv(c)
  }

  /** A new ring: empty counters, arbitrary payload bytes. */
  predicate InitCore(c: Core) {
    && Shaped(c) && c.phase.Idle? && c.pushed == []
    && c.nextSeq == c.publishedSeq == 0
    && (forall i | 0 <= i < |c.owner| :: c.owner[i] == 0 && c.slotSeq[i] == 0)
  }

  lemma InitCoreInv(c: Core)
    requires InitCore(c)
    ensures CoreInv(c)
  {
  }

  lemma PushStepKeepsCounters(c: Core, a: PushStep)
    requires CoreInv(c) && CanPush(c, a)
    ensures CountersInv(ProducerStep(c, a))
  {
    if a.FetchAdd? { NextAfterIsSuccessor(c.nextSeq, |c.pushed|); }
  }

  lemma PushStepKeepsOwners(c: Core, a: PushStep)
    requires CoreInv(c) && CanPush(c, a)
    ensures OwnersInv(ProducerStep(c, a))
    ensures forall i | 0 <= i < |c.owner| :: c.owner[i] <= ProducerStep(c, a).owner[i] <= |ProducerStep(c, a).pushed|
  {
    if a.Invalidate? { SeqOfSlot(|c.pushed|, |c.slotSeq|); }
  }

  lemma PushStepKeepsSlots(c: Core, a: PushStep)
    requires CoreInv(c) && CanPush(c, a)
    ensures SlotsInv(ProducerStep(c, a))
  {
    if 0 < |c.pushed| { SeqOfSlot(|c.pushed|, |c.slotSeq|); }
    var c' := ProducerStep(c, a);
    if a.Stamp? {
      var idx := SlotOf(|c.pushed|, |c.slotSeq|);
      assert c.slots[idx] == c.pushed[|c.pushed| - 1];
    }
  }

  lemma PushStepKeepsInv(c: Core, a: PushStep)
    requires CoreInv(c) && CanPush(c, a)
    ensures CoreInv(ProducerStep(c, a))
    ensures Published(c) <= Published(ProducerStep(c, a)) && Stored(c) <= Stored(ProducerStep(c, a)) && Begun(c) <= Begun(ProducerStep(c, a))
    ensures c.pushed <= ProducerStep(c, a).pushed
  {
    PushStepKeepsCounters(c, a);
    PushStepKeepsOwners(c, a);
    PushStepKeepsSlots(c, a);
  }

  // ---------------------------------------------------------------- the reader

  /** `read_seq_inner` for ordinal `j` between its first and second check: if the slot still
      belongs to `j`, the words copied so far are words of the value pushed as `j`. */
  predicate ReadInv(c: Core, j: nat, got: set<nat>, buf: Payload)
    requires Shaped(c)
  {
    && 0 < j <= Published(c) && |buf| == c.width
    && (c.owner[SlotOf(j, |c.slotSeq|)] == j ==>
          forall w | w in got && w < c.width :: buf[w] == c.pushed[j - 1][w])
  }

  lemma PushStepKeepsRead(c: Core, a: PushStep, j: nat, got: set<nat>, buf: Payload)
    requires CoreInv(c) && CanPush(c, a) && ReadInv(c, j, got, buf)
    ensures ReadInv(ProducerStep(c, a), j, got, buf)
  {
    PushStepKeepsInv(c, a);
    PushStepKeepsOwners(c, a);
  }

  lemma CopyKeepsRead(c: Core, j: nat, got: set<nat>, buf: Payload, w: nat)
    requires CoreInv(c) && ReadInv(c, j, got, buf) && w < c.width
    ensures ReadInv(c, j, got + {w}, buf[w := c.slots[SlotOf(j, |c.slotSeq|)][w]])
  {
  }

  /** An accepted copy is the value pushed as `j`, unless a push exactly whole spans later has
      already stamped the slot: the only way the second check can be fooled. */
  lemma AcceptedCopyIsTheValue(c: Core, j: nat, got: set<nat>, buf: Payload)
    requires CoreInv(c) && ReadInv(c, j, got, buf)
    requires forall w: nat | w < c.width :: w in got
    requires c.slotSeq[SlotOf(j, |c.slotSeq|)] == SeqOf(j)
    ensures buf == c.pushed[j - 1] || j + SPAN <= Stored(c)
  {
    var o := c.owner[SlotOf(j, |c.slotSeq|)];
    SameSequence(j, o);
    if o < j + SPAN { DivUnique(o - j, SPAN, 0, o - j); }
  }

  /** A failed check on a published ordinal names the push that took its slot. */
  lemma MissIsAnOverwrite(c: Core, j: nat)
    requires CoreInv(c) && 0 < j <= Published(c)
    requires c.slotSeq[SlotOf(j, |c.slotSeq|)] != SeqOf(j)
    ensures var o := c.owner[SlotOf(j, |c.slotSeq|)];
            j < o <= Begun(c) && SlotOf(o, |c.slotSeq|) == SlotOf(j, |c.slotSeq|) && Retires(j, o, |c.slotSeq|)
  {
    SlotReuse(j, c.owner[SlotOf(j, |c.slotSeq|)], |c.slotSeq|);
  }

  /** One call of `read_seq_inner` for ordinal `j`, its word copies interleaved with the
      producer's steps: the words copied so far and the ring. */
  datatype Session = Session(core: Core, got: set<nat>, buf: Payload)
  datatype SessionStep = Producer(p: PushStep) | CopyOne(w: nat)

  predicate SessionCan(s: Session, a: SessionStep) {
    && Shaped(s.core) && |s.buf| == s.core.width
    && match a
       case Producer(p) => CanPush(s.core, p)
       case CopyOne(w) => w < s.core.width
  }

  function SessionStepped(s: Session, a: SessionStep, j: nat): Session
    requires SessionCan(s, a) && 0 < j
  {
    match a
    case Producer(p) => s.(core := ProducerStep(s.core, p))
    case CopyOne(w) =>
      s.(got := s.got + {w}, buf := s.buf[w := s.core.slots[IdxFor(SeqOf(j), |s.core.slotSeq|)][w]])
  }

  predicate SessionRun(ss: seq<Session>, steps: seq<SessionStep>, j: nat) {
    && 0 < j && |ss| == |steps| + 1
    && (forall t | 0 <= t < |steps| :: SessionCan(ss[t], steps[t]) && ss[t + 1] == SessionStepped(ss[t], steps[t], j))
  }

  lemma {:induction false} SessionKeeps(ss: seq<Session>, steps: seq<SessionStep>, j: nat)
    requires SessionRun(ss, steps, j) && CoreInv(ss[0].core) && j <= Published(ss[0].core)
    requires ss[0].got == {} && |ss[0].buf| == ss[0].core.width
    ensures CoreInv(ss[|steps|].core)
    ensures ReadInv(ss[|steps|].core, j, ss[|steps|].got, ss[|steps|].buf)
  {
    var t := |steps|;
    if 0 < t {
      SessionKeeps(ss[..t], steps[..t - 1], j);
      var s := ss[t - 1];
      SeqOfSlot(j, |s.core.slotSeq|);
      hide CoreInv, ReadInv, Shaped, CanPush, ProducerStep;
      match steps[t - 1] {
        case Producer(p) =>
          PushStepKeepsInv(s.core, p);
          PushStepKeepsRead(s.core, p, j, s.got, s.buf);
        case CopyOne(w) =>
          CopyKeepsRead(s.core, j, s.got, s.buf, w);
      }
    }
  }

  /** In every interleaving, for every reader (`poll_up_to`, `latest`) of a published ordinal j:
      if at the end of the copy the slot still carries j's sequence, the copy is exactly the
      value pushed as j, provided push j + SPAN has not stamped its slot; and if it does not,
      a push that retires j has begun on its slot. */
  lemma AnyInterleavingReadsTheValue(ss: seq<Session>, steps: seq<SessionStep>, j: nat)
    requires SessionRun(ss, steps, j) && CoreInv(ss[0].core) && j <= Published(ss[0].core)
    requires ss[0].got == {} && |ss[0].buf| == ss[0].core.width
    ensures var s := ss[|steps|];
            && CoreInv(s.core) && j <= |s.core.pushed|
            && var n := |s.core.slotSeq|;
            && (s.core.slotSeq[IdxFor(SeqOf(j), n)] == SeqOf(j) && (forall w: nat | w < s.core.width :: w in s.got) ==>
                  s.buf == s.core.pushed[j - 1] || j + SPAN <= Stored(s.core))
            && (s.core.slotSeq[IdxFor(SeqOf(j), n)] != SeqOf(j) ==>
                  exists o :: j < o <= Begun(s.core) && SlotOf(o, n) == SlotOf(j, n) && Retires(j, o, n))
  {
    SessionKeeps(ss, steps, j);
    var s := ss[|steps|];
    SeqOfSlot(j, |s.core.slotSeq|);
    if s.core.slotSeq[IdxFor(SeqOf(j), |s.core.slotSeq|)] != SeqOf(j) {
      MissIsAnOverwrite(s.core, j);
    } else if forall w: nat | w < s.core.width :: w in s.got {
      AcceptedCopyIsTheValue(s.core, j, s.got, s.buf);
    }
  }

  // ---------------------------------------------------------------- an uninterrupted push

  /** What the steps of one whole `push_inner` do to an idle ring. */
  function SoloPushed(c: Core, v: Payload): Core
    requires Shaped(c) && c.phase.Idle? && |v| == c.width
  {
    var s := NextAfter(c.nextSeq);
    var idx := IdxFor(s, |c.slotSeq|);
    c.(nextSeq := s, publishedSeq := s, local := s, slotSeq := c.slotSeq[idx := s], slots := c.slots[idx := v],
       pushed := c.pushed + [v], owner := c.owner[idx := |c.pushed| + 1])
  }

  predicate Path(cs: seq<Core>, ps: seq<PushStep>) {
    && |cs| == |ps| + 1
    && (forall t | 0 <= t < |ps| :: Shaped(cs[t]) && CanPush(cs[t], ps[t]) && cs[t + 1] == ProducerStep(cs[t], ps[t]))
  }

  lemma PathSnoc(cs: seq<Core>, ps: seq<PushStep>, p: PushStep) returns (cs': seq<Core>, ps': seq<PushStep>)
    requires Path(cs, ps) && Shaped(cs[|ps|]) && CanPush(cs[|ps|], p)
    ensures Path(cs', ps') && cs'[0] == cs[0] && cs'[|ps'|] == ProducerStep(cs[|ps|], p)
  {
    cs', ps' := cs + [ProducerStep(cs[|ps|], p)], ps + [p];
  }

  function Below(w: nat): (r: set<nat>)
    ensures forall x: nat :: x in r <==> x < w
  {
    if w == 0 then {} else Below(w - 1) + {w - 1}
  }

  /** The ring with the first `w` words of the current push copied. */
  function PartWritten(c: Core, w: nat): Core
    requires Shaped(c) && 0 < |c.pushed| && w <= c.width
  {
    var idx := IdxFor(c.local, |c.slotSeq|);
    var v := c.pushed[|c.pushed| - 1];
    c.(slots := c.slots[idx := v[..w] + c.slots[idx][w..]], phase := Writing(Below(w)))
  }

  lemma {:induction false} CopyWords(cs: seq<Core>, ps: seq<PushStep>, w: nat)
    returns (cs': seq<Core>, ps': seq<PushStep>)
    requires Path(cs, ps) && Shaped(cs[|ps|])
    requires var c := cs[|ps|]; 0 < |c.pushed| && w <= c.width && c.phase == Writing({})
    ensures Path(cs', ps') && cs'[0] == cs[0] && cs'[|ps'|] == PartWritten(cs[|ps|], w)
  {
    var c := cs[|ps|];
    var idx := IdxFor(c.local, |c.slotSeq|);
    if w == 0 {
      cs', ps' := cs, ps;
      assert c.pushed[|c.pushed| - 1][..0] + c.slots[idx][0..] == c.slots[idx];
    } else {
      cs', ps' := CopyWords(cs, ps, w - 1);
      var part := PartWritten(c, w - 1);
      var v := c.pushed[|c.pushed| - 1];
      cs', ps' := PathSnoc(cs', ps', WriteWord(w - 1));
      assert part.slots[idx][w - 1 := v[w - 1]] == v[..w] + c.slots[idx][w..];
      assert Below(w - 1) + {w - 1} == Below(w);
    }
  }

  /** The closed form is reached by the producer's own steps. */
  lemma SoloPushSteps(c: Core, v: Payload) returns (cs: seq<Core>, ps: seq<PushStep>)
    requires Shaped(c) && c.phase.Idle? && |v| == c.width
    ensures Path(cs, ps) && cs[0] == c && cs[|ps|] == SoloPushed(c, v)
  {
    cs, ps := PathSnoc([c], [], FetchAdd(v));
    if cs[|ps|].phase.SkipZero? { cs, ps := PathSnoc(cs, ps, StoreOne); }
    cs, ps := PathSnoc(cs, ps, Invalidate);
    cs, ps := CopyWords(cs, ps, c.width);
    var idx := IdxFor(NextAfter(c.nextSeq), |c.slotSeq|);
    assert v[..c.width] + c.slots[idx][c.width..] == v;
    cs, ps := PathSnoc(cs, ps, Stamp);
    assert c.slotSeq[idx := 0][idx := NextAfter(c.nextSeq)] == c.slotSeq[idx := NextAfter(c.nextSeq)];
    cs, ps := PathSnoc(cs, ps, Publish);
  }

  lemma {:induction false} PathKeepsInv(cs: seq<Core>, ps: seq<PushStep>)
    requires Path(cs, ps) && CoreInv(cs[0])
    ensures CoreInv(cs[|ps|])
  {
    if ps != [] {
      var t := |ps| - 1;
      PathKeepsInv(cs[..t + 1], ps[..t]);
      PushStepKeepsInv(cs[t], ps[t]);
    }
  }

  lemma SoloPushKeepsInv(c: Core, v: Payload)
    requires CoreInv(c) && c.phase.Idle? && |v| == c.width
    ensures CoreInv(SoloPushed(c, v))
    ensures NextAfter(c.nextSeq) == SeqOf(|c.pushed| + 1)
  {
    var cs, ps := SoloPushSteps(c, v);
    PathKeepsInv(cs, ps);
    NextAfterIsSuccessor(c.nextSeq, |c.pushed|);
  }
}
