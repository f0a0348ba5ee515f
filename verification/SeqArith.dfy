/** Thirty-two bit counter arithmetic shared by the transports.

    `SeqRing` and `LatestBuf` count with a `u32` that skips the reserved value 0, so one full
    cycle has SPAN = 2^32 - 1 values; `EventBuf` counts with a plain wrapping `u32`, whose cycle
    has TWO32 = 2^32 values.  The proofs talk about unbounded ordinals 1, 2, 3, ... and this
    module says what the `u32` code computes about them. */
module SeqArith {

  const TWO32: nat := 0x1_0000_0000
  const SPAN: nat := 0xFFFF_FFFF

  newtype U32 = x: int | 0 <= x < 0x1_0000_0000

  // ---------------------------------------------------------------- the code's own helpers

  function WrapAdd(a: U32, b: U32): U32 {
    ((a as int + b as int) % TWO32) as U32
  }

  function WrapSub(a: U32, b: U32): (r: U32)
    ensures r as int == if b <= a then a as int - b as int else a as int - b as int + TWO32
  {
    ((a as int - b as int) % TWO32) as U32
  }

  /** `idx_for`: the slot a sequence is stored in. */
  function IdxFor(seq_: U32, n: nat): nat
    requires 0 < n
  {
    WrapSub(seq_, 1) as int % n
  }

  /** `next_after`, also `next_generation`: step over the reserved value 0. */
  function NextAfter(s: U32): U32 {
    var next := WrapAdd(s, 1);
    if next == 0 then 1 else next
  }

  /** `seq_distance`, also `generation_distance`.  The subtraction in the wrapped branch cannot
      underflow: `raw` is at least 1 there. */
  function SeqDistance(from: U32, to: U32): (d: U32)
    ensures d as int == if from <= to then to as int - from as int else to as int - from as int + SPAN
  {
    var raw := WrapSub(to, from);
    if to < from then raw - 1 else raw
  }

  // ---------------------------------------------------------------- ordinals

  /** The value the counter shows after `k` advances from the empty value 0. */
  function SeqOf(k: nat): U32 {
    if k == 0 then 0 else ((k - 1) % SPAN + 1) as U32
  }

  /** A cursor word stands for ordinal `c` when it is that ordinal's sequence, or is the
      reserved 0 standing just before a cycle's first sequence. */
  predicate CursorAt(cursor: U32, c: nat) {
    cursor == SeqOf(c) || (cursor == 0 && c % SPAN == 0)
  }

  /** The slot of ordinal `k`. */
  function SlotOf(k: nat, n: nat): (i: nat)
    requires 0 < k && 0 < n
    ensures i < n
  {
    ((k - 1) % SPAN) % n
  }

  lemma MulBound(d: int, m: int)
    requires 0 < m
    ensures d >= 1 ==> d * m >= m
    ensures d <= -1 ==> d * m <= -m
  {
  }

  lemma DivUnique(a: int, m: int, q: int, r: int)
    requires 0 < m && 0 <= r < m && a == q * m + r
    ensures a / m == q && a % m == r
  {
    assert a == (a / m) * m + a % m;
    var d := a / m - q;
    assert d * m == r - a % m;
    MulBound(d, m);
  }

  lemma SeqOfSlot(k: nat, n: nat)
    requires 0 < k && 0 < n
    ensures SeqOf(k) != 0
    ensures IdxFor(SeqOf(k), n) == SlotOf(k, n)
  {
  }

  /** 0 is the empty value and no ordinal's sequence. */
  lemma SeqZeroIff(k: nat)
    ensures SeqOf(k) == 0 <==> k == 0
  {
  }

  /** Advancing the word is advancing the ordinal, from either cursor encoding. */
  lemma NextAfterIsSuccessor(cursor: U32, c: nat)
    requires CursorAt(cursor, c)
    ensures NextAfter(cursor) == SeqOf(c + 1)
  {
    if c > 0 {
      var q, r := (c - 1) / SPAN, (c - 1) % SPAN;
      if r + 1 < SPAN {
        DivUnique(c, SPAN, q, r + 1);
      } else {
        DivUnique(c, SPAN, q + 1, 0);
      }
    }
  }

  /** Two ordinals carry the same sequence exactly when they are whole spans apart. */
  lemma SameSequence(a: nat, b: nat)
    requires 0 < a <= b
    ensures SeqOf(a) == SeqOf(b) <==> (b - a) % SPAN == 0
  {
    var q1, r1 := (a - 1) / SPAN, (a - 1) % SPAN;
    var q2, r2 := (b - 1) / SPAN, (b - 1) % SPAN;
    if r1 <= r2 { DivUnique(b - a, SPAN, q2 - q1, r2 - r1); }
    else { DivUnique(b - a, SPAN, q2 - q1 - 1, r2 - r1 + SPAN); }
  }

  /** What the distance of two words says about the ordinals behind them, for every pair. */
  lemma DistanceOfOrdinals(cursor: U32, c: nat, b: nat)
    requires CursorAt(cursor, c) && c <= b && 0 < b
    ensures cursor != 0 ==> SeqDistance(cursor, SeqOf(b)) as int == (b - c) % SPAN
    ensures cursor == 0 && c < b ==> SeqDistance(cursor, SeqOf(b)) as int == (b - c - 1) % SPAN + 1
    ensures cursor == SeqOf(b) <==> (cursor != 0 && (b - c) % SPAN == 0)
  {
    var q2, r2 := (b - 1) / SPAN, (b - 1) % SPAN;
    if cursor != 0 {
      SameSequence(c, b);
      var q1, r1 := (c - 1) / SPAN, (c - 1) % SPAN;
      if r1 <= r2 { DivUnique(b - c, SPAN, q2 - q1, r2 - r1); }
      else { DivUnique(b - c, SPAN, q2 - q1 - 1, r2 - r1 + SPAN); }
    } else if c < b {
      var q1 := c / SPAN;
      DivUnique(b - c - 1, SPAN, q2 - q1, r2);
    }
  }

  /** The distance is the ordinal difference exactly while the gap is below one span; the
      cursor word 0 buys one more ordinal. */
  lemma DistanceExactIff(cursor: U32, c: nat, b: nat)
    requires CursorAt(cursor, c) && c <= b && 0 < b && (cursor == 0 ==> c < b)
    ensures SeqDistance(cursor, SeqOf(b)) as int == b - c
       <==> b - c < SPAN || (cursor == 0 && b - c == SPAN)
  {
    DistanceOfOrdinals(cursor, c, b);
    if b - c < SPAN {
      DivUnique(b - c, SPAN, 0, b - c);
      if c < b { DivUnique(b - c - 1, SPAN, 0, b - c - 1); }
    } else if b - c == SPAN {
      DivUnique(b - c - 1, SPAN, 0, b - c - 1);
      DivUnique(b - c, SPAN, 1, 0);
    }
  }

  // ---------------------------------------------------------------- slot collisions

  lemma ModEqSmall(a: int, b: int, n: int)
    requires 0 < n && 0 <= a - b < n
    ensures a % n == b % n <==> a == b
  {
    if a % n == b % n {
      var d := a / n - b / n;
      assert a - b == d * n;
      MulBound(d, n);
    }
  }

  /** The one arithmetic fact behind both rings.  A counter with `m` values addresses `n` slots
      by its value modulo `n`.  Two positions less than `n` apart share a slot exactly when the
      counter wraps between them and they are `m % n` apart. */
  lemma SlotCollision(p: nat, q: nat, m: nat, n: nat)
    requires 0 < n <= m && p < q < p + n
    ensures (p % m) % n == (q % m) % n <==> p / m < q / m && q - p == m % n
  {
    var a, r := p / m, p % m;
    assert p == a * m + r;
    if r + (q - p) < m {
      DivUnique(q, m, a, r + (q - p));
      ModEqSmall(r + (q - p), r, n);
    } else {
      var t := r + (q - p) - m;
      assert (a + 1) * m == a * m + m;
      DivUnique(q, m, a + 1, t);
      // r and t = r + (q - p) - m agree modulo n exactly when q - p and m do
      var e := m % n;
      assert m == (m / n) * n + e;
      ModShift(t, q - p - e, m / n, r, n);
      if q - p != e {
        if q - p > e { ModEqSmall(r + (q - p - e), r, n); } else { ModEqSmall(r, r + (q - p - e), n); }
      }
    }
  }

  lemma ModShift(t: int, d: int, k: int, r: int, n: int)
    requires 0 < n && t == r + d - k * n
    ensures t % n == (r + d) % n
  {
    var q, e := t / n, t % n;
    assert t == q * n + e;
    assert (q + k) * n == q * n + k * n;
    DivUnique(r + d, n, q + k, e);
  }

  /** A later push lands on the slot of ordinal `j` only if it is at least `n` later, or exactly
      SPAN % n later across the sequence wrap.  (A ring with more slots than there are sequences
      never uses the surplus, so there the bound is the span.) */
  predicate Retires(j: nat, o: nat, n: nat)
    requires 0 < n
  {
    j + n <= o || j + SPAN <= o || (0 < j < o && (j - 1) / SPAN < (o - 1) / SPAN && o - j == SPAN % n)
  }

  lemma SlotReuse(j: nat, o: nat, n: nat)
    requires 0 < j < o && 0 < n
    requires SlotOf(j, n) == SlotOf(o, n)
    ensures Retires(j, o, n)
  {
    if n <= SPAN {
      if o < j + n { SlotCollision(j - 1, o - 1, SPAN, n); }
    } else if o < j + SPAN {
      SameSequence(j, o);
      DivUnique(o - j, SPAN, 0, o - j);
      DivUnique((j - 1) % SPAN, n, 0, (j - 1) % SPAN);
      DivUnique((o - 1) % SPAN, n, 0, (o - 1) % SPAN);
    }
  }

  /** The lag-recovery jump of `poll_up_to`, on the words it computes with.  The two distances
      add up to the lag, and the jump leaves `n`, or `n - 1` exactly when `newest < n`. */
  function ResumeAfter(newest: U32, n: nat): U32
    requires 0 < n
  {
    var keepFrom := WrapSub(newest, ((n - 1) % TWO32) as U32);
    WrapSub(keepFrom, 1)
  }

  lemma JumpWords(last: U32, newest: U32, n: nat)
    requires 0 < n && newest != 0 && n < SeqDistance(last, newest) as int
    ensures SeqDistance(last, ResumeAfter(newest, n)) as int + SeqDistance(ResumeAfter(newest, n), newest) as int
         == SeqDistance(last, newest) as int
    ensures SeqDistance(ResumeAfter(newest, n), newest) as int == if newest as int < n then n - 1 else n
  {
    ResumeWord(newest, n);
  }

  lemma ResumeWord(newest: U32, n: nat)
    requires 0 < n < SPAN && newest != 0
    ensures ResumeAfter(newest, n) as int
         == if n <= newest as int then newest as int - n else newest as int - n + TWO32
  {
    DivUnique(n - 1, TWO32, 0, n - 1);
  }

  /** The word the jump leaves stands for the ordinal that distance behind the goal. */
  lemma JumpOrdinal(newest: U32, goal: nat, n: nat)
    requires 0 < goal && newest == SeqOf(goal) && 0 < n < SPAN
    requires goal >= n
    ensures CursorAt(ResumeAfter(newest, n), goal - if newest as int < n then n - 1 else n)
  {
    ResumeWord(newest, n);
    var q, r := (goal - 1) / SPAN, (goal - 1) % SPAN;
    if newest as int < n {
      if goal > n - 1 { DivUnique(goal - n, SPAN, q - 1, r + 1 - n + SPAN); }
    } else if newest as int == n {
      DivUnique(goal - n, SPAN, q, 0);
    } else {
      DivUnique(goal - n - 1, SPAN, q, r - n);
    }
  }

  // ---------------------------------------------------------------- wrapping positions

  /** `EventBuf` cursors: position q is the word q % 2^32 and lives in slot (q % 2^32) % n. */
  function PosSlot(q: nat, n: nat): (i: nat)
    requires 0 < n
    ensures i < n
  {
    (q % TWO32) % n
  }

  /** The words of real positions less than 2^32 apart. */
  lemma WordsOfPositions(a: nat, b: nat, wa: U32, wb: U32)
    requires wa as int == a % TWO32 && wb as int == b % TWO32 && a <= b < a + TWO32
    ensures WrapSub(wb, wa) as int == b - a
    ensures wa == wb <==> a == b
  {
    var q, r := a / TWO32, a % TWO32;
    if r + (b - a) < TWO32 { DivUnique(b, TWO32, q, r + (b - a)); }
    else { DivUnique(b, TWO32, q + 1, r + (b - a) - TWO32); }
  }

  lemma NextWord(a: nat, w: U32)
    requires w as int == a % TWO32
    ensures WrapAdd(w, 1) as int == (a + 1) % TWO32
  {
    var q, r := a / TWO32, a % TWO32;
    if r + 1 < TWO32 { DivUnique(a + 1, TWO32, q, r + 1); } else { DivUnique(a + 1, TWO32, q + 1, 0); }
  }

  /** Two live positions share a slot exactly when they straddle the 2^32 wrap and are
      2^32 % n apart. */
  lemma LiveCollision(p: nat, q: nat, n: nat)
    requires 0 < n <= TWO32 && p < q < p + n
    ensures PosSlot(p, n) == PosSlot(q, n) <==> p / TWO32 < q / TWO32 && q - p == TWO32 % n
  {
    SlotCollision(p, q, TWO32, n);
  }

  /** So none ever do if n divides 2^32, or before any position has wrapped. */
  lemma ApartSlots(p: nat, q: nat, n: nat)
    requires 0 < n <= TWO32 && p < q < p + n && (TWO32 % n == 0 || q < TWO32)
    ensures PosSlot(p, n) != PosSlot(q, n)
  {
    LiveCollision(p, q, n);
    if q < TWO32 { DivUnique(q, TWO32, 0, q); }
  }
}
