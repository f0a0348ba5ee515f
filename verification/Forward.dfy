/** `forward`: move items from a source into a sink, here between two `EventBuf`s, and around
    one `EventBuf` whose two handles are both given. */
module Forward {
  import opened Common
  import opened SeqArith
  import opened EventBuf

  /** The queue after `k` pops, each pushed straight back. */
  function Rotated<T>(q: seq<T>, k: nat): (r: seq<T>)
    ensures |r| == |q|
  {
    if k == 0 || q == [] then q
    else
      var before := Rotated(q, k - 1);
      before[1..] + [before[0]]
  }

  /** Rotating by k puts item i + k (modulo the length) at i, so whole turns change nothing. */
  lemma {:induction false} RotatedAt<T>(q: seq<T>, k: nat, i: nat)
    requires i < |q|
    ensures Rotated(q, k)[i] == q[(i + k) % |q|]
  {
    if k > 0 {
      var n := |q|;
      if i + 1 < n {
        RotatedAt(q, k - 1, i + 1);
      } else {
        RotatedAt(q, k - 1, 0);
        WholeTurn(k - 1, n);
      }
    }
  }

  lemma WholeTurn(k: nat, n: nat)
    requires 0 < n
    ensures (n - 1 + (k + 1)) % n == k % n
  {
    var q, r := k / n, k % n;
    DivUnique(k, n, q, r);
    DivUnique(k + n, n, q + 1, r);
  }

  /** Nothing is lost between two buffers: the old source is what was moved, then the item
      handed back in the error if there is one, then what the source still holds.  It stops
      early only on an empty source or a full sink. */
  method Between<T(==)>(src: EventBuffer<T>, snk: EventBuffer<T>, max: nat)
    returns (count: nat, err: Option<T>)
    requires src.Valid() && snk.Valid() && src != snk && src.slots != snk.slots
    modifies src, snk, src.slots, snk.slots
    ensures src.Valid() && snk.Valid() && src.accepted == old(src.accepted)
    ensures |snk.queue| == old(|snk.queue|) + count && snk.accepted == old(snk.accepted) + count
    ensures count <= max && |old(src.queue)| == count + (if err.Some? then 1 else 0) + |src.queue|
    ensures src.InOrder() ==>
              && snk.queue == old(snk.queue) + old(src.queue)[..count]
              && old(src.queue) == old(src.queue)[..count] + (if err.Some? then [err.value] else []) + src.queue
    ensures err.Some? ==> count < max && |snk.queue| == snk.slots.Length
    ensures err.None? ==> count == max || src.queue == []
  {
    hide Cursors, Holds, Called;
    count := 0;
    ghost var from, into := src.queue, snk.queue;
    while count < max
      invariant src.Valid() && snk.Valid() && src.accepted == old(src.accepted)
      invariant count <= max && count <= |from| && src.queue == from[count..]
      invariant |snk.queue| == |into| + count && snk.accepted == old(snk.accepted) + count
      invariant src.InOrder() ==> snk.queue == into + from[..count]
    {
      var item := src.Pop();
      if item.None? { return count, None; }
      var e := snk.Push(item.value);
      if e.Some? { return count, e; }
      count := count + 1;
    }
    err := None;
  }

  /** From a buffer's consumer into the same buffer's producer: the queue rotates. */
  method Around<T(==)>(buf: EventBuffer<T>, max: nat) returns (count: nat, err: Option<T>)
    requires buf.Valid()
    modifies buf, buf.slots
    ensures buf.Valid() && err.None?
    ensures count == if old(buf.queue) == [] then 0 else max
    ensures buf.accepted == old(buf.accepted) + count
    ensures buf.InOrder() ==> buf.queue == Rotated(old(buf.queue), count)
  {
    hide Called;
    count := 0;
    ghost var q := buf.queue;
    while count < max
      invariant buf.Valid() && count <= max && (q == [] ==> count == 0)
      invariant |buf.queue| == |q| && buf.accepted == old(buf.accepted) + count
      invariant buf.InOrder() ==> buf.queue == Rotated(q, count)
    {
      var item := buf.Pop();
      if item.None? { return count, None; }
      var e := buf.Push(item.value);
      if e.Some? { return count, e; }
      count := count + 1;
    }
    err := None;
  }
}
