/** `EventBuf` as an object: the bounded queue with backpressure, and exactly which capacities
    make it one.  Slots are addressed by the wrapped 32-bit cursor modulo N. */
module EventBuf {
  import opened Common
  import opened SeqArith

  // ---------------------------------------------------------------- the fields as a value

  datatype Buf<T> = Buf(head: U32, tail: U32, slots: seq<T>)

  datatype Op<T> = Push(value: T) | Pop | Peek

  /** `Accepted(false)` is the `Err(val)` of a full buffer, which hands the value back. */
  datatype Reply<T> = Accepted(ok: bool) | Item(item: Option<T>)

  predicate IsFull<T>(b: Buf<T>) {
    |b.slots| <= WrapSub(b.head, b.tail) as int
  }

  /** One call, as the code computes it from the words. */
  function Called<T>(b: Buf<T>, op: Op<T>): (Buf<T>, Reply<T>)
    requires 0 < |b.slots|
  {
    match op
    case Push(v) =>
      if IsFull(b) then (b, Accepted(false))
      else (b.(slots := b.slots[b.head as int % |b.slots| := v], head := WrapAdd(b.head, 1)), Accepted(true))
    case Pop =>
      if b.tail == b.head then (b, Item(None))
      else (b.(tail := WrapAdd(b.tail, 1)), Item(Some(b.slots[b.tail as int % |b.slots|])))
    case Peek =>
      if b.tail == b.head then (b, Item(None))
      else (b, Item(Some(b.slots[b.tail as int % |b.slots|])))
  }

  /** The same call on the bounded queue the buffer is meant to be. */
  function QueueCalled<T>(q: seq<T>, n: nat, op: Op<T>): (seq<T>, Reply<T>) {
    match op
    case Push(v) => if n <= |q| then (q, Accepted(false)) else (q + [v], Accepted(true))
    case Pop => if q == [] then (q, Item(None)) else (q[1..], Item(Some(q[0])))
    case Peek => if q == [] then (q, Item(None)) else (q, Item(Some(q[0])))
  }

  /** State after a sequence of calls on a new buffer with `junk` in its slots. */
  function After<T>(junk: seq<T>, ops: seq<Op<T>>): (b: Buf<T>)
    requires 0 < |junk|
    ensures |b.slots| == |junk|
  {
    if ops == [] then Buf(0, 0, junk) else Called(After(junk, ops[..|ops| - 1]), ops[|ops| - 1]).0
  }

  function QueueAfter<T>(n: nat, ops: seq<Op<T>>): seq<T> {
    if ops == [] then [] else QueueCalled(QueueAfter(n, ops[..|ops| - 1]), n, ops[|ops| - 1]).0
  }

  /** How many pushes the bounded queue has accepted. */
  function Pushes<T>(n: nat, ops: seq<Op<T>>): nat {
    if ops == [] then 0
    else
      var before := QueueAfter(n, ops[..|ops| - 1]);
      Pushes(n, ops[..|ops| - 1]) + if ops[|ops| - 1].Push? && |before| < n then 1 else 0
  }

  /** After these calls, the next call gets the bounded queue's reply. */
  predicate Agrees<T(==)>(junk: seq<T>, ops: seq<Op<T>>, op: Op<T>)
    requires 0 < |junk|
  {
    Called(After(junk, ops), op).1 == QueueCalled(QueueAfter(|junk|, ops), |junk|, op).1
  }

  // ---------------------------------------------------------------- when it is the queue

  /** No two positions less than n apart, up to position `h`, share a slot. */
  predicate Fits(n: nat, h: nat) {
    0 < n < TWO32 && (TWO32 % n == 0 || h <= TWO32)
  }

  /** The words stand for positions `h - |q|` and `h`. */
  predicate Cursors<T>(b: Buf<T>, q: seq<T>, h: nat) {
    && 0 < |b.slots| < TWO32 && |q| <= |b.slots| && |q| <= h
    && b.head as int == h % TWO32 && b.tail as int == (h - |q|) % TWO32
  }

  predicate Holds<T(==)>(b: Buf<T>, q: seq<T>, h: nat)
    requires 0 < |b.slots| && |q| <= h
  {
    forall p: nat {:trigger PosSlot(p, |b.slots|)} | h - |q| <= p < h :: b.slots[PosSlot(p, |b.slots|)] == q[p - (h - |q|)]
  }

  /** Cursor arithmetic alone: acceptance, emptiness and lengths are always the queue's. */
  lemma CallKeepsCursors<T>(b: Buf<T>, q: seq<T>, h: nat, op: Op<T>)
    requires Cursors(b, q, h)
    ensures var h' := if op.Push? && |q| < |b.slots| then h + 1 else h;
            Cursors(Called(b, op).0, QueueCalled(q, |b.slots|, op).0, h')
    ensures op.Push? ==> Called(b, op).1 == QueueCalled(q, |b.slots|, op).1
    ensures !op.Push? ==> (Called(b, op).1.item.None? <==> q == [])
  {
    WordsOfPositions(h - |q|, h, b.tail, b.head);
    NextWord(h, b.head);
    if q != [] { NextWord(h - |q|, b.tail); }
  }

  lemma PushHolds<T>(b: Buf<T>, q: seq<T>, h: nat, v: T)
    requires Cursors(b, q, h) && Holds(b, q, h) && |q| < |b.slots| && Fits(|b.slots|, h + 1)
    ensures Holds(b.(slots := b.slots[b.head as int % |b.slots| := v], head := WrapAdd(b.head, 1)), q + [v], h + 1)
  {
    var n := |b.slots|;
    forall p: nat | h - |q| <= p < h ensures PosSlot(p, n) != PosSlot(h, n) { ApartSlots(p, h, n); }
    assert b.head as int % n == PosSlot(h, n);
    hide PosSlot, WrapAdd;
  }

  lemma FrontHolds<T>(b: Buf<T>, q: seq<T>, h: nat)
    requires Cursors(b, q, h) && Holds(b, q, h) && q != []
    ensures b.slots[b.tail as int % |b.slots|] == q[0]
    ensures Holds(b.(tail := WrapAdd(b.tail, 1)), q[1..], h)
  {
    assert b.tail as int % |b.slots| == PosSlot(h - |q|, |b.slots|);
    hide PosSlot, WrapAdd;
  }

  /** While positions fit, contents are the queue's too. */
  lemma CallKeepsContents<T>(b: Buf<T>, q: seq<T>, h: nat, op: Op<T>)
    requires Cursors(b, q, h) && Holds(b, q, h)
    requires var h' := if op.Push? && |q| < |b.slots| then h + 1 else h; Fits(|b.slots|, h')
    ensures var h' := if op.Push? && |q| < |b.slots| then h + 1 else h;
            && |QueueCalled(q, |b.slots|, op).0| <= h'
            && Holds(Called(b, op).0, QueueCalled(q, |b.slots|, op).0, h')
    ensures Called(b, op).1 == QueueCalled(q, |b.slots|, op).1
  {
    CallKeepsCursors(b, q, h, op);
    hide PosSlot, WrapAdd, Holds;
    match op {
      case Push(v) => if |q| < |b.slots| { PushHolds(b, q, h, v); }
      case _ => if q != [] { FrontHolds(b, q, h); }
    }
  }

  lemma {:induction false} AfterCursors<T>(junk: seq<T>, ops: seq<Op<T>>)
    requires 0 < |junk| < TWO32
    ensures Cursors(After(junk, ops), QueueAfter(|junk|, ops), Pushes(|junk|, ops))
  {
    if ops != [] {
      var before := ops[..|ops| - 1];
      AfterCursors(junk, before);
      CallKeepsCursors(After(junk, before), QueueAfter(|junk|, before), Pushes(|junk|, before), ops[|ops| - 1]);
    }
  }

  lemma {:induction false} AfterContents<T>(junk: seq<T>, ops: seq<Op<T>>)
    requires 0 < |junk| && Fits(|junk|, Pushes(|junk|, ops))
    ensures Cursors(After(junk, ops), QueueAfter(|junk|, ops), Pushes(|junk|, ops))
    ensures Holds(After(junk, ops), QueueAfter(|junk|, ops), Pushes(|junk|, ops))
  {
    AfterCursors(junk, ops);
    if ops != [] {
      var before := ops[..|ops| - 1];
      AfterContents(junk, before);
      CallKeepsContents(After(junk, before), QueueAfter(|junk|, before), Pushes(|junk|, before), ops[|ops| - 1]);
    }
  }

  /** FIFO for every capacity below 2^32 that divides 2^32, and for the others as long as at
      most 2^32 pushes have been accepted. */
  lemma FifoWhileFits<T>(junk: seq<T>, ops: seq<Op<T>>, op: Op<T>)
    requires 0 < |junk| && Fits(|junk|, Pushes(|junk|, ops + [op]))
    ensures Agrees(junk, ops, op)
  {
    assert (ops + [op])[..|ops|] == ops;
    AfterContents(junk, ops);
    CallKeepsContents(After(junk, ops), QueueAfter(|junk|, ops), Pushes(|junk|, ops), op);
  }

  // ---------------------------------------------------------------- and when it is not

  lemma AfterSnoc<T>(junk: seq<T>, ops: seq<Op<T>>, op: Op<T>)
    requires 0 < |junk|
    ensures After(junk, ops + [op]) == Called(After(junk, ops), op).0
    ensures QueueAfter(|junk|, ops + [op]) == QueueCalled(QueueAfter(|junk|, ops), |junk|, op).0
    ensures Pushes(|junk|, ops + [op])
         == Pushes(|junk|, ops) + if op.Push? && |QueueAfter(|junk|, ops)| < |junk| then 1 else 0
  {
    assert (ops + [op])[..|ops|] == ops;
  }

  /** `k` items pushed and popped, one at a time. */
  lemma {:induction false} Cycled(junk: seq<int>, k: nat) returns (ops: seq<Op<int>>)
    requires 0 < |junk| < TWO32
    ensures QueueAfter(|junk|, ops) == [] && Pushes(|junk|, ops) == k
  {
    ops := [];
    if 0 < k {
      ops := Cycled(junk, k - 1);
      AfterSnoc(junk, ops, Push(0));
      AfterSnoc(junk, ops + [Push(0)], Pop);
      ops := ops + [Push(0)] + [Pop];
    }
  }

  /** `k` more pushes of 0, without a pop. */
  lemma {:induction false} Filled(junk: seq<int>, ops: seq<Op<int>>, k: nat) returns (ops': seq<Op<int>>)
    requires 0 < |junk| && QueueAfter(|junk|, ops) == [] && k <= |junk|
    ensures QueueAfter(|junk|, ops') == seq(k, _ => 0) && Pushes(|junk|, ops') == Pushes(|junk|, ops) + k
  {
    ops' := ops;
    if 0 < k {
      ops' := Filled(junk, ops, k - 1);
      AfterSnoc(junk, ops', Push(0));
      ops' := ops' + [Push(0)];
      assert seq(k - 1, _ => 0) + [0] == seq(k, _ => 0);
    }
  }

  /** Just below the wrap of a capacity that does not divide 2^32: one more push takes slot 0,
      which the oldest item occupies. */
  lemma WrapSlots(n: nat)
    requires 0 < n < TWO32 && TWO32 % n != 0
    ensures var r := TWO32 % n; (TWO32 - r) % TWO32 == TWO32 - r && (TWO32 - r) % n == 0
  {
    var r := TWO32 % n;
    DivUnique(TWO32 - r, TWO32, 0, TWO32 - r);
    DivUnique(TWO32 - r, n, TWO32 / n, 0);
  }

  /** Any other capacity below 2^32 loses order at its first wrap: with 2^32 % n items waiting
      just below the wrap, one more push overwrites the oldest of them. */
  lemma WrapBreaksFifo(junk: seq<int>) returns (ops: seq<Op<int>>)
    requires 0 < |junk| < TWO32 && TWO32 % |junk| != 0
    ensures !Agrees(junk, ops, Pop)
  {
    hide After, QueueAfter, Pushes, WrapSub;
    var n := |junk|;
    WrapSlots(n);
    var full := Cycled(junk, TWO32 - TWO32 % n);
    full := Filled(junk, full, TWO32 % n);
    AfterCursors(junk, full);
    var b, q := After(junk, full), QueueAfter(n, full);
    assert b.head == 0 && b.tail as int == TWO32 - TWO32 % n;
    CallKeepsCursors(b, q, TWO32, Push(1));
    AfterSnoc(junk, full, Push(1));
    ops := full + [Push(1)];
    OldestIsOverwritten(b, q);
  }

  lemma OldestIsOverwritten(b: Buf<int>, q: seq<int>)
    requires 0 < |b.slots| && q != [] && q[0] == 0 && |q| < |b.slots|
    requires b.head == 0 && b.tail != 1 && b.tail as int % |b.slots| == 0 && !IsFull(b)
    ensures var b', q' := Called(b, Push(1)).0, QueueCalled(q, |b.slots|, Push(1)).0;
            Called(b', Pop).1 == Item(Some(1)) && QueueCalled(q', |b.slots|, Pop).1 == Item(Some(0))
  {
  }

  /** Pushing without popping into a buffer of 2^32 slots or more. */
  lemma {:induction false} Flooded(junk: seq<int>, k: nat) returns (ops: seq<Op<int>>)
    requires TWO32 <= |junk| && k <= TWO32
    ensures QueueAfter(|junk|, ops) == seq(k, _ => 0)
    ensures After(junk, ops).tail == 0 && After(junk, ops).head as int == k % TWO32
  {
    ops := [];
    if 0 < k {
      ops := Flooded(junk, k - 1);
      AfterSnoc(junk, ops, Push(0));
      NextWord(k - 1, After(junk, ops).head);
      ops := ops + [Push(0)];
      assert seq(k - 1, _ => 0) + [0] == seq(k, _ => 0);
    }
  }

  /** So the buffer is a bounded FIFO for every sequence of calls exactly when its capacity is
      below 2^32 and divides 2^32. */
  lemma FifoIff(junk: seq<int>)
    requires 0 < |junk|
    ensures (forall ops: seq<Op<int>>, op: Op<int> :: Agrees(junk, ops, op))
       <==> |junk| < TWO32 && TWO32 % |junk| == 0
  {
    if |junk| < TWO32 && TWO32 % |junk| == 0 {
      forall ops: seq<Op<int>>, op: Op<int> ensures Agrees(junk, ops, op) { FifoWhileFits(junk, ops, op); }
    } else if |junk| < TWO32 {
      var ops := WrapBreaksFifo(junk);
    } else {
      var ops := Flooded(junk, TWO32);
      assert !Agrees(junk, ops, Pop);
    }
  }

  // ---------------------------------------------------------------- the object

  class EventBuffer<T(==)> {
    var head: U32
    var tail: U32
    const slots: array<T>
    var producerTaken: bool
    var consumerTaken: bool
    /** The queue this buffer stands for, and how many pushes it has accepted. */
    ghost var queue: seq<T>
    ghost var accepted: nat

    ghost function Abs(): Buf<T>
      reads this, slots
    {
      Buf(head, tail, slots[..])
    }

    /** The positions used so far still map to distinct slots, see `FifoIff`. */
    ghost predicate InOrder()
      reads this
    {
      Fits(slots.Length, accepted)
    }

    ghost predicate Valid()
      reads this, slots
    {
      Cursors(Abs(), queue, accepted) && (InOrder() ==> Holds(Abs(), queue, accepted))
    }

    constructor (n: nat, junk: T)
      requires 0 < n < TWO32
      ensures Valid() && queue == [] && accepted == 0 && slots.Length == n && fresh(slots)
      ensures !producerTaken && !consumerTaken
    {
      head, tail := 0, 0;
      producerTaken, consumerTaken := false, false;
      slots := new T[n](_ => junk);
      queue, accepted := [], 0;
    }

    /** One handle per role; taking or dropping one leaves the queue alone. */
    method TryProducer() returns (ok: bool)
      requires Valid()
      modifies this`producerTaken
      ensures Valid() && ok == !old(producerTaken) && producerTaken
    {
      ok := !producerTaken;
      producerTaken := true;
    }

    method DropProducer()
      requires Valid() && producerTaken
      modifies this`producerTaken
      ensures Valid() && !producerTaken
    {
      producerTaken := false;
    }

    method TryConsumer() returns (ok: bool)
      requires Valid()
      modifies this`consumerTaken
      ensures Valid() && ok == !old(consumerTaken) && consumerTaken
    {
      ok := !consumerTaken;
      consumerTaken := true;
    }

    method DropConsumer()
      requires Valid() && consumerTaken
      modifies this`consumerTaken
      ensures Valid() && !consumerTaken
    {
      consumerTaken := false;
    }

    /** Rejected exactly when N items wait; a rejected value is handed back, nothing changes. */
    method Push(val: T) returns (err: Option<T>)
      requires Valid()
      modifies this`head, this`queue, this`accepted, slots
      ensures Valid()
      ensures err == if |old(queue)| < slots.Length then None else Some(val)
      ensures queue == if |old(queue)| < slots.Length then old(queue) + [val] else old(queue)
      ensures accepted == old(accepted) + if err.None? then 1 else 0
      ensures |queue| <= slots.Length
      ensures (Abs(), Reply<T>.Accepted(err.None?)) == Called(old(Abs()), Op.Push(val))
    {
      hide PosSlot, WrapSub, WrapAdd, Holds;
      ghost var b := Abs();
      CallKeepsCursors(b, queue, accepted, Op.Push(val));
      if Fits(slots.Length, accepted + 1) {
        if |queue| < slots.Length { PushHolds(b, queue, accepted, val); }
      }
      var h := head;
      var t := tail;
      if slots.Length <= WrapSub(h, t) as int {
        return Some(val);
      }
      var idx := h as int % slots.Length;
      slots[idx] := val;
      head := WrapAdd(h, 1);
      queue, accepted := queue + [val], accepted + 1;
      assert slots[..] == b.slots[idx := val];
      err := None;
    }

    method Pop() returns (item: Option<T>)
      requires Valid()
      modifies this`tail, this`queue
      ensures Valid()
      ensures item.None? <==> old(queue) == []
      ensures queue == if old(queue) == [] then [] else old(queue)[1..]
      ensures InOrder() && item.Some? ==> item.value == old(queue)[0]
      ensures (Abs(), Item(item)) == Called(old(Abs()), Op.Pop)
    {
      hide PosSlot, WrapSub, WrapAdd, Holds;
      ghost var b := Abs();
      CallKeepsCursors(b, queue, accepted, Op.Pop);
      if InOrder() && queue != [] { FrontHolds(b, queue, accepted); }
      var t := tail;
      var h := head;
      if t == h { return None; }
      var val := slots[t as int % slots.Length];
      tail := WrapAdd(t, 1);
      queue := queue[1..];
      item := Some(val);
    }

    method Peek() returns (item: Option<T>)
      requires Valid()
      ensures item.None? <==> queue == []
      ensures InOrder() && item.Some? ==> item.value == queue[0]
      ensures (Abs(), Item(item)) == Called(Abs(), Op.Peek)
    {
      CallKeepsCursors(Abs(), queue, accepted, Op.Peek);
      if InOrder() && queue != [] { FrontHolds(Abs(), queue, accepted); }
      if tail == head { return None; }
      item := Some(slots[tail as int % slots.Length]);
    }

    /** `drain`: the hook calls are returned in order. */
    method Drain(max: nat) returns (out: seq<T>)
      requires Valid()
      modifies this`tail, this`queue
      ensures Valid() && |out| == if max < |old(queue)| then max else |old(queue)|
      ensures queue == old(queue)[|out|..]
      ensures InOrder() ==> out == old(queue)[..|out|]
    {
      out := [];
      while |out| < max
        invariant Valid() && |out| <= max && |out| <= |old(queue)|
        invariant queue == old(queue)[|out|..]
        invariant InOrder() ==> out == old(queue)[..|out|]
      {
        var item := Pop();
        if item.None? { break; }
        out := out + [item.value];
      }
    }
  }
}
