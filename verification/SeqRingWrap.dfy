/** How many of the newest N entries a `SeqRing` loses where its sequence counter wraps: by their
    slots being retaken, and by the lag-recovery jump of a poll. */
module SeqRingWrap {
  import opened Common
  import opened SeqArith
  import opened SeqRingCore

  /** A push among the first `p` has taken the slot of ordinal `j`. */
  predicate Overwritten(j: nat, p: nat, n: nat)
    requires 0 < j && 0 < n
  {
    exists o | j < o <= p :: SlotOf(o, n) == SlotOf(j, n)
  }

  /** With no push in flight, a slot still belongs to ordinal `j` exactly if no later push took it. */
  lemma OwnsIff(c: Core, j: nat)
    requires CoreInv(c) && c.phase.Idle? && 0 < j <= |c.pushed|
    ensures c.owner[SlotOf(j, |c.slotSeq|)] == j <==> !Overwritten(j, |c.pushed|, |c.slotSeq|)
  {
    var o := c.owner[SlotOf(j, |c.slotSeq|)];
    assert j <= o <= |c.pushed| && SlotOf(o, |c.slotSeq|) == SlotOf(j, |c.slotSeq|);
  }

  /** The last ordinal of the cycle before the one `p` is in (0 in the first cycle). */
  function Boundary(p: nat): nat {
    if p == 0 then 0 else ((p - 1) / SPAN) * SPAN
  }

  /** The lost ordinals are those in (LossLo, LossHi]. */
  function LossLo(p: nat, n: nat): int
    requires 0 < n
  {
    Max(Boundary(p) - SPAN % n, p - n)
  }

  function LossHi(p: nat, n: nat): int
    requires 0 < n
  {
    if Boundary(p) == 0 then LossLo(p, n) else Max(LossLo(p, n), Min(Boundary(p), p - SPAN % n))
  }

  /** Which of the newest n ordinals have lost their slot: one interval next to the wrap. */
  lemma LostInterval(j: nat, p: nat, n: nat)
    requires 0 < n <= SPAN && 0 < j <= p < j + n
    ensures Overwritten(j, p, n) <==> LossLo(p, n) < j <= LossHi(p, n)
  {
    var r := SPAN % n;
    var q := (p - 1) / SPAN;
    if Overwritten(j, p, n) {
      var o :| j < o <= p && SlotOf(o, n) == SlotOf(j, n);
      SlotReuse(j, o, n);
      StraddleIff(j, o, p);
    }
    if LossLo(p, n) < j <= LossHi(p, n) {
      StraddleIff(j, j + r, p);
      SlotCollision(j - 1, j + r - 1, SPAN, n);
      assert SlotOf(j + r, n) == SlotOf(j, n);
    }
  }

  /** Two ordinals less than a span below `p` lie in different cycles exactly if p's boundary is between. */
  lemma StraddleIff(j: nat, o: nat, p: nat)
    requires 0 < j < o <= p < j + SPAN
    ensures (j - 1) / SPAN < (o - 1) / SPAN <==> 0 < Boundary(p) && j <= Boundary(p) < o
  {
    var q, r := (p - 1) / SPAN, (p - 1) % SPAN;
    var d := p - j;
    if d <= r { DivUnique(j - 1, SPAN, q, r - d); } else { DivUnique(j - 1, SPAN, q - 1, r - d + SPAN); }
    var e := p - o;
    if e <= r { DivUnique(o - 1, SPAN, q, r - e); } else { DivUnique(o - 1, SPAN, q - 1, r - e + SPAN); }
  }

  function LostSet(p: nat, n: nat): set<int>
    requires 0 < n
  {
    set j: int | Max(0, p - n) < j <= p && Overwritten(j, p, n)
  }

  function Interval(lo: int, hi: int): (s: set<int>)
    requires lo <= hi
    ensures |s| == hi - lo
    ensures forall j :: j in s <==> lo < j <= hi
    decreases hi - lo
  {
    if lo == hi then {} else Interval(lo, hi - 1) + {hi}
  }

  lemma LossLength(p: nat, n: nat, b: int, r: int)
    requires 0 <= r < n && b == Boundary(p) && r == SPAN % n && (b == 0 || b < p)
    ensures 0 <= LossHi(p, n) - LossLo(p, n) <= Min(r, n - r)
    ensures 0 < p && 0 < b == p - r ==> LossHi(p, n) - LossLo(p, n) == Min(r, n - r)
  {
  }

  lemma LostSetIsInterval(p: nat, n: nat)
    requires 0 < n <= SPAN
    ensures LossLo(p, n) <= LossHi(p, n) && LostSet(p, n) == Interval(LossLo(p, n), LossHi(p, n))
  {
    if 0 < p { BoundaryNear(p); }
    LossLength(p, n, Boundary(p), SPAN % n);
    forall j: int ensures j in LostSet(p, n) <==> LossLo(p, n) < j <= LossHi(p, n) {
      if Max(0, p - n) < j <= p { LostInterval(j, p, n); }
    }
  }

  /** The number lost at any one time: the interval's length, never more than min(r, n - r)
      with r = SPAN % n, hence never more than half the capacity. */
  lemma WrapLossBound(p: nat, n: nat)
    requires 0 < n <= SPAN
    ensures |LostSet(p, n)| == LossHi(p, n) - LossLo(p, n)
    ensures |LostSet(p, n)| <= Min(SPAN % n, n - SPAN % n)
    ensures 2 * |LostSet(p, n)| <= n
  {
    LostSetIsInterval(p, n);
    if 0 < p { BoundaryNear(p); }
    LossLength(p, n, Boundary(p), SPAN % n);
  }

  lemma BoundaryNear(p: nat)
    requires 0 < p
    ensures Boundary(p) < p <= Boundary(p) + SPAN
    ensures 0 < Boundary(p) ==> SPAN <= Boundary(p)
  {
    assert p - 1 == ((p - 1) / SPAN) * SPAN + (p - 1) % SPAN;
  }

  /** The bound is reached once per wrap: after every q-th cycle, r pushes into the next. */
  lemma WrapLossAttained(q: nat, n: nat)
    requires 0 < q && 0 < n <= SPAN && 0 < SPAN % n
    ensures |LostSet(q * SPAN + SPAN % n, n)| == Min(SPAN % n, n - SPAN % n)
  {
    var r := SPAN % n;
    var p := q * SPAN + r;
    DivUnique(p - 1, SPAN, q, r - 1);
    WrapLossBound(p, n);
    LossLength(p, n, q * SPAN, r);
  }

  /** No loss at all exactly when n divides the span. */
  lemma SeamlessIff(n: nat)
    requires 0 < n <= SPAN
    ensures SPAN % n == 0 <==> forall p: nat :: LostSet(p, n) == {}
  {
    if SPAN % n == 0 {
      forall p: nat ensures LostSet(p, n) == {} { WrapLossBound(p, n); }
    } else {
      WrapLossAttained(1, n);
      assert LostSet(1 * SPAN + SPAN % n, n) != {};
    }
  }

  // ---------------------------------------------------------------- how many over a whole wrap

  /** Ordinal `j` loses its slot while it is still among the newest n. */
  predicate LosesEarly(j: nat, n: nat)
    requires 0 < j && 0 < n
  {
    exists p | j <= p < j + n :: Overwritten(j, p, n)
  }

  /** Of each cycle exactly the last r = SPAN % n ordinals do, those whose slot is used again r
      pushes later, on the other side of the wrap. */
  lemma LosesEarlyIff(j: nat, q: nat, n: nat)
    requires 0 < n <= SPAN && 0 < q && (q - 1) * SPAN < j <= q * SPAN
    ensures LosesEarly(j, n) <==> q * SPAN - SPAN % n < j
  {
    var r := SPAN % n;
    InCycle(j, q);
    if LosesEarly(j, n) {
      var p :| j <= p < j + n && Overwritten(j, p, n);
      var o :| j < o <= p && SlotOf(o, n) == SlotOf(j, n);
      SlotReuse(j, o, n);
    }
    if q * SPAN - r < j {
      InCycle(j + r, q + 1);
      SlotCollision(j - 1, j + r - 1, SPAN, n);
      assert SlotOf(j + r, n) == SlotOf(j, n);
      assert Overwritten(j, j + r, n);
    }
  }

  lemma InCycle(j: nat, q: nat)
    requires 0 < q && (q - 1) * SPAN < j <= q * SPAN
    ensures (j - 1) / SPAN == q - 1
  {
    DivUnique(j - 1, SPAN, q - 1, j - 1 - (q - 1) * SPAN);
  }

  /** The ordinals of the q-th cycle that lose their slot early. */
  function EarlySet(q: nat, n: nat): set<int>
    requires 0 < q && 0 < n
  {
    set j: int | (q - 1) * SPAN < j <= q * SPAN && LosesEarly(j, n)
  }

  /** What one wrap costs a consumer that is always a whole window behind: r entries, up to n - 1,
      although no more than min(r, n - r) of them are missing from the window at any one time. */
  lemma EarlyLossPerWrap(q: nat, n: nat)
    requires 0 < q && 0 < n <= SPAN
    ensures EarlySet(q, n) == Interval(q * SPAN - SPAN % n, q * SPAN) && |EarlySet(q, n)| == SPAN % n
  {
    forall j: int ensures j in EarlySet(q, n) <==> q * SPAN - SPAN % n < j <= q * SPAN {
      if (q - 1) * SPAN < j <= q * SPAN { LosesEarlyIff(j, q, n); }
    }
  }

  function Pow2(e: nat): nat { if e == 0 then 1 else 2 * Pow2(e - 1) }

  lemma {:induction false} Pow2Split(a: nat, b: nat)
    ensures Pow2(a + b) == Pow2(a) * Pow2(b)
    ensures 0 < Pow2(a)
  {
    if a > 0 { Pow2Split(a - 1, b); assert Pow2(a - 1 + b) == Pow2(a - 1) * Pow2(b); }
  }

  lemma DivisorOfTwo32(n: nat, m: nat)
    requires n * m == TWO32 && 2 <= n && 2 <= m
    ensures n <= SPAN && SPAN % n == n - 1
  {
    var rest := m - 2;
    assert n * m == n * 2 + n * rest;
    assert 0 <= n * rest;
    assert SPAN == (m - 1) * n + (n - 1);
    DivUnique(SPAN, n, m - 1, n - 1);
  }

  lemma PowersOfTwo32()
    ensures Pow2(32) == TWO32
  {
    assert Pow2(8) == 256;
    Pow2Split(8, 8);
    Pow2Split(16, 16);
  }

  lemma PowerOfTwoResidue(e: nat)
    requires 0 < e < 32
    ensures var n := Pow2(e); 1 < n <= SPAN && SPAN % n == n - 1
  {
    PowersOfTwo32();
    Pow2Split(e, 32 - e);
    Pow2Split(e - 1, 0);
    Pow2Split(31 - e, 0);
    DivisorOfTwo32(Pow2(e), Pow2(32 - e));
  }

  /** A power of two above 1 has at most one slot missing at any time, but over each wrap n - 1
      entries lose theirs early. */
  lemma PowerOfTwoLoss(e: nat, q: nat)
    requires 0 < e < 32 && 0 < q
    ensures var n := Pow2(e);
            && 1 < n <= SPAN && |EarlySet(q, n)| == n - 1
            && (forall p: nat :: |LostSet(p, n)| <= 1) && |LostSet(q * SPAN + n - 1, n)| == 1
  {
    var n := Pow2(e);
    PowerOfTwoResidue(e);
    hide Pow2, LostSet, EarlySet;
    EarlyLossPerWrap(q, n);
    forall p: nat ensures |LostSet(p, n)| <= 1 { WrapLossBound(p, n); }
    WrapLossAttained(q, n);
  }

  // ---------------------------------------------------------------- what a lagging drain loses

  /** How far behind its goal a poll starts to walk, after the jump if there is one. */
  function Left(lag: int, newest: U32, n: nat): int {
    if lag <= n then lag else if newest as int < n then n - 1 else n
  }

  /** Of the newest n entries, those a poll that jumped cannot deliver: the ones that lost their
      slot, and a live one the jump itself passes over, see `JumpPassesLiveIff`. */
  function DrainLoss(p: nat, n: nat): nat
    requires 0 < n
  {
    |LostSet(p, n)| + if SeqOf(p) as int < n - SPAN % n then 1 else 0
  }

  lemma NewestWord(p: nat)
    requires 0 < p
    ensures SeqOf(p) as int == p - Boundary(p)
  {
    assert p - 1 == ((p - 1) / SPAN) * SPAN + (p - 1) % SPAN;
  }

  /** The one entry of the newest n a jump can pass over still owns its slot exactly if the
      newest sequence is below n - r. */
  lemma PassedEntry(p: nat, n: nat)
    requires 0 < n <= SPAN && n < p && SeqOf(p) as int < n
    ensures Overwritten(p - n + 1, p, n) <==> n - SPAN % n <= SeqOf(p) as int
  {
    NewestWord(p);
    BoundaryNear(p);
    LostInterval(p - n + 1, p, n);
  }

  /** The jump of a poll more than n behind passes over an entry of the newest n that still owns
      its slot if and only if the newest sequence is below n - r, with r = SPAN % n. */
  lemma JumpPassesLiveIff(p: nat, n: nat, lag: nat)
    requires 0 < n < lag <= p && n <= SPAN
    ensures (exists j: nat | p - n < j <= p - Left(lag, SeqOf(p), n) :: !Overwritten(j, p, n))
       <==> SeqOf(p) as int < n - SPAN % n
  {
    if SeqOf(p) as int < n {
      PassedEntry(p, n);
      var oldest: nat := p - n + 1;
      assert oldest <= p - Left(lag, SeqOf(p), n);
    }
  }

  /** The exact largest loss of a poll that jumps and drains to its goal.  It exceeds what the
      slots alone lose, min(r, n - r), exactly when 1 < n and r < n - r. */
  function DrainLossBound(n: nat): int
    requires 0 < n
  {
    if n == 1 then 0 else Min(SPAN % n + 1, n - SPAN % n)
  }

  lemma DrainLossBounded(p: nat, n: nat)
    requires 0 < n <= SPAN && n < p
    ensures DrainLoss(p, n) <= DrainLossBound(n)
    ensures DrainLossBound(n) > Min(SPAN % n, n - SPAN % n) <==> 1 < n && SPAN % n < n - SPAN % n
  {
    NewestWord(p);
    BoundaryNear(p);
    WrapLossBound(p, n);
  }

  /** How many pushes into a cycle the loss is largest. */
  function WorstOffset(n: nat): (w: nat)
    requires 0 < n
    ensures w <= n
  {
    if SPAN % n < n - SPAN % n then Max(1, SPAN % n) else SPAN % n
  }

  /** It is reached after every full cycle, by a consumer n + 1 behind. */
  lemma DrainLossAttained(q: nat, n: nat)
    requires 0 < q && 1 < n < SPAN - 1
    ensures var p := q * SPAN + WorstOffset(n);
            && n + 1 < p && SeqDistance(SeqOf(p - n - 1), SeqOf(p)) as int == n + 1
            && DrainLoss(p, n) == DrainLossBound(n) > 0
  {
    var w := WorstOffset(n);
    var p := q * SPAN + w;
    DivUnique(p - 1, SPAN, q, w - 1);
    assert Boundary(p) == q * SPAN && q * SPAN >= SPAN;
    NewestWord(p);
    WrapLossBound(p, n);
    DistanceExactIff(SeqOf(p - n - 1), p - n - 1, p);
  }

  /** A consumer at ordinal `c` with cursor word `last` whose next poll jumps. */
  predicate Jumps(last: U32, c: nat, p: nat, n: nat) {
    CursorAt(last, c) && c < p && n < SeqDistance(last, SeqOf(p)) as int
  }

  /** Every poll that jumps can still deliver all of the newest n if and only if n is 1, or so
      large that there is next to nothing to jump over: dividing the span is not enough. */
  lemma JumpSeamlessIff(n: nat)
    requires 0 < n <= SPAN
    ensures (forall last: U32, c: nat, p: nat {:trigger Jumps(last, c, p, n)} | Jumps(last, c, p, n) :: DrainLoss(p, n) == 0)
       <==> n == 1 || SPAN - 1 <= n
  {
    if 1 < n < SPAN - 1 {
      DrainLossAttained(1, n);
      var p := 1 * SPAN + WorstOffset(n);
      assert Jumps(SeqOf(p - n - 1), p - n - 1, p, n);
    } else {
      forall last: U32, c: nat, p: nat | Jumps(last, c, p, n) ensures DrainLoss(p, n) == 0 {
        NewestWord(p);
        BoundaryNear(p);
        WrapLossBound(p, n);
      }
    }
  }

  // ---------------------------------------------------------------- the documented capacities

  /** `wrap` is how many entries lose their slot early over each wrap, `slots` the most that are
      missing from the newest n at one time, `drain` the most that a poll which jumps and drains
      to its goal cannot deliver; all are reached. */
  ghost predicate WrapLosses(n: nat, wrap: nat, slots: nat, drain: nat)
    requires 0 < n
  {
    && (forall q: nat | 0 < q :: |EarlySet(q, n)| == wrap)
    && (forall p: nat :: |LostSet(p, n)| <= slots) && (exists p: nat :: |LostSet(p, n)| == slots)
    && (forall p: nat | n < p :: DrainLoss(p, n) <= drain) && (exists p: nat :: n < p && DrainLoss(p, n) == drain)
  }

  lemma WrapLossesAre(n: nat)
    requires 1 < n < SPAN - 1
    ensures WrapLosses(n, SPAN % n, Min(SPAN % n, n - SPAN % n), DrainLossBound(n))
  {
    forall q: nat | 0 < q ensures |EarlySet(q, n)| == SPAN % n { EarlyLossPerWrap(q, n); }
    forall p: nat ensures |LostSet(p, n)| <= Min(SPAN % n, n - SPAN % n) { WrapLossBound(p, n); }
    forall p: nat | n < p ensures DrainLoss(p, n) <= DrainLossBound(n) { DrainLossBounded(p, n); }
    DrainLossAttained(1, n);
    assert DrainLoss(1 * SPAN + WorstOffset(n), n) == DrainLossBound(n);
    if 0 < SPAN % n {
      WrapLossAttained(1, n);
      assert |LostSet(1 * SPAN + SPAN % n, n)| == Min(SPAN % n, n - SPAN % n);
    } else {
      WrapLossBound(0, n);
      assert |LostSet(0, n)| == 0;
    }
  }

  /** The capacities of the table.  Over a wrap, 96 costs 63 entries, of which never more than 33
      are missing at one time. */
  lemma DocumentedRows()
    ensures WrapLosses(48, 15, 15, 16) && WrapLosses(96, 63, 33, 33) && WrapLosses(121, 58, 58, 59)
    ensures forall n: nat | n in [3, 5, 15, 17, 51, 85, 255, 257, 65537] :: WrapLosses(n, 0, 0, 1)
  {
    hide WrapLosses;
    WrapLossesAre(48);
    WrapLossesAre(96);
    WrapLossesAre(121);
    forall n: nat | n in [3, 5, 15, 17, 51, 85, 255, 257, 65537] ensures WrapLosses(n, 0, 0, 1) { WrapLossesAre(n); }
  }
}
