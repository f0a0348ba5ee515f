/** `RingBuf`: the single-owner overwrite ring, for any capacity a `usize` can name. */
module Ring {
  import opened Common
  import opened SeqArith

  /** The last `n` of `s`, all of it if shorter. */
  function Last<T>(s: seq<T>, n: nat): (r: seq<T>)
    ensures |r| == if |s| < n then |s| else n
  {
    if |s| < n then s else s[|s| - n..]
  }

  lemma LastAppend<T>(s: seq<T>, x: T, n: nat)
    requires 0 < n
    ensures Last(s + [x], n) == if |Last(s, n)| < n then Last(s, n) + [x] else Last(s, n)[1..] + [x]
  {
  }

  /** `v` as a `usize` value no larger than `cap`: neither underflowed nor overflowed. */
  function InCap(v: int, cap: nat): nat
    requires 0 <= v <= cap
  {
    v
  }

  /** The slot of the i-th live entry, 0 the oldest.  It steps back from `head`, so that no
      value it forms exceeds `cap`, however large a capacity `usize` allows. */
  function Index(head: nat, len: nat, cap: nat, i: nat): (r: nat)
    requires i < len <= cap && head < cap
    ensures r < cap
  {
    var back := InCap(len - i, cap);
    if head >= back then InCap(head - back, cap) else InCap(cap - InCap(back - head, cap), cap)
  }

  /** It is the textbook `(head + cap - len + i) % cap`. */
  lemma IndexIsModular(head: nat, len: nat, cap: nat, i: nat)
    requires i < len <= cap && head < cap
    ensures Index(head, len, cap, i) == (head + cap - len + i) % cap
  {
    var back := len - i;
    if head >= back {
      DivUnique(cap + (head - back), cap, 1, head - back);
    } else {
      DivUnique(head + cap - back, cap, 0, head + cap - back);
    }
  }

  class RingBuf<T> {
    const buf: array<T>
    var head: nat
    var len: nat
    /** Everything pushed since the last clear. */
    ghost var pushed: seq<T>

    ghost predicate Valid()
      reads this, buf
    {
      && 0 < buf.Length && head < buf.Length
      && len == (if |pushed| < buf.Length then |pushed| else buf.Length)
      && (forall i: nat {:trigger Index(head, len, buf.Length, i)} | i < len ::
            buf[Index(head, len, buf.Length, i)] == Last(pushed, buf.Length)[i])
    }

    constructor (n: nat, junk: T)
      requires 0 < n
      ensures Valid() && pushed == [] && buf.Length == n && fresh(buf)
    {
      buf := new T[n](_ => junk);
      head, len, pushed := 0, 0, [];
    }

    method Push(val: T)
      requires Valid()
      modifies this, buf
      ensures Valid() && pushed == old(pushed) + [val]
    {
      var n := buf.Length;
      ghost var h, l, live := head, len, Last(pushed, n);
      LastAppend(pushed, val, n);
      buf[head] := val;
      head := InCap(head + 1, n) % n;
      if len < n { len := InCap(len + 1, n); }
      pushed := pushed + [val];
      forall i: nat | i < len ensures buf[Index(head, len, n, i)] == Last(pushed, n)[i] {
        IndexAfterPush(h, l, n, i);
      }
    }

    /** Nothing but the cursors changes. */
    method Clear()
      requires Valid()
      modifies this
      ensures Valid() && pushed == []
    {
      head, len, pushed := 0, 0, [];
    }

    /** `get`: the i-th of the last min(pushes since clear, N) values, oldest first. */
    method Get(i: nat) returns (r: Option<T>)
      requires Valid()
      ensures r == if i < |Last(pushed, buf.Length)| then Some(Last(pushed, buf.Length)[i]) else None
    {
      if i >= len { return None; }
      r := Some(buf[Index(head, len, buf.Length, i)]);
    }

    method Latest() returns (r: Option<T>)
      requires Valid()
      ensures r == if pushed == [] then None else Some(pushed[|pushed| - 1])
    {
      if len == 0 { return None; }
      var idx := Index(head, len, buf.Length, len - 1);
      r := Some(buf[idx]);
    }

    /** Walking the iterator to its end yields exactly those values, oldest to newest. */
    method Collect() returns (out: seq<T>)
      requires Valid()
      ensures out == Last(pushed, buf.Length)
    {
      out := [];
      var pos := 0;
      while true
        invariant pos == |out| <= len && out == Last(pushed, buf.Length)[..pos]
        decreases len - pos
      {
        var val := Get(pos);
        if val.None? { break; }
        pos := pos + 1;
        out := out + [val.value];
      }
    }
  }

  /** One push moves every survivor's index by one and puts the new entry last. */
  lemma IndexAfterPush(head: nat, len: nat, n: nat, i: nat)
    requires 0 < n && head < n && len <= n
    requires var len' := if len < n then len + 1 else len; i < len'
    ensures var head', len' := (head + 1) % n, if len < n then len + 1 else len;
            && head' < n
            && (i == len' - 1 ==> Index(head', len', n, i) == head)
            && (i < len' - 1 ==>
                  var old_i := if len < n then i else i + 1;
                  Index(head', len', n, i) == Index(head, len, n, old_i) != head)
  {
    if head + 1 < n { DivUnique(head + 1, n, 0, head + 1); } else { DivUnique(n, n, 1, 0); }
  }
}
