/** `BlockBuilder`: fill one private block with contiguous samples and yield it only complete. */
module Block {
  import opened Common
  import opened SeqArith

  datatype Block<T> = Block(firstSequence: U32, lastSequence: U32, samples: seq<T>)
  datatype FillError<T> =
    | ReservedSequence(sample: T)
    | Discontinuous(expected: U32, received: U32, rejected: T)
  datatype Outcome<T> = Partial | Complete(block: Block<T>) | Rejected(error: FillError<T>)

  function NextSequence(sequence: U32): (n: U32)
    ensures n != 0
  {
    if sequence == 0xFFFF_FFFF then 1 else sequence + 1
  }

  /** It is the counters' successor, for every word. */
  lemma NextSequenceIsNextAfter(s: U32)
    ensures NextSequence(s) == NextAfter(s)
  {
  }

  // ---------------------------------------------------------------- one builder over a trace

  datatype Sample<T> = Sample(sequence: U32, value: T)
  datatype Call<T> = Push(sample: Sample<T>) | Clear

  /** The partial block, as the samples accepted into it. */
  type Fill<T> = seq<Sample<T>>

  predicate Accepts<T>(fill: Fill<T>, s: Sample<T>) {
    s.sequence != 0 && (fill != [] ==> s.sequence == NextSequence(fill[|fill| - 1].sequence))
  }

  function Values<T>(fill: Fill<T>): (r: seq<T>)
    ensures |r| == |fill|
  {
    seq(|fill|, i requires 0 <= i < |fill| => fill[i].value)
  }

  /** What a push replies, in terms of the partial block. */
  function Reply<T>(fill: Fill<T>, n: nat, s: Sample<T>): Outcome<T> {
    if s.sequence == 0 then Rejected(ReservedSequence(s.value))
    else if fill != [] && s.sequence != NextSequence(fill[|fill| - 1].sequence) then
      Rejected(Discontinuous(NextSequence(fill[|fill| - 1].sequence), s.sequence, s.value))
    else if |fill| + 1 != n then Partial
    else Complete(Block((fill + [s])[0].sequence, s.sequence, Values(fill + [s])))
  }

  function Filled<T>(fill: Fill<T>, n: nat, c: Call<T>): Fill<T> {
    match c
    case Clear => []
    case Push(s) => if !Accepts(fill, s) then fill else if |fill| + 1 == n then [] else fill + [s]
  }

  /** Everything a trace of calls has done: the samples accepted, in order, and what became of
      the closed fills, each either yielded as a block or cleared. */
  datatype Segment<T> = Yielded(fill: Fill<T>, block: Block<T>) | Cleared(fill: Fill<T>)
  datatype History<T> = History(accepted: Fill<T>, closed: seq<Segment<T>>, fill: Fill<T>)

  function Extended<T>(h: History<T>, n: nat, c: Call<T>): History<T> {
    match c
    case Clear => History(h.accepted, h.closed + [Cleared(h.fill)], [])
    case Push(s) =>
      match Reply(h.fill, n, s)
      case Rejected(_) => h
      case Partial => History(h.accepted + [s], h.closed, Filled(h.fill, n, c))
      case Complete(b) => History(h.accepted + [s], h.closed + [Yielded(h.fill + [s], b)], Filled(h.fill, n, c))
  }

  function After<T>(n: nat, calls: seq<Call<T>>): History<T> {
    if calls == [] then History([], [], []) else Extended(After(n, calls[..|calls| - 1]), n, calls[|calls| - 1])
  }

  function Flat<T>(segments: seq<Segment<T>>): Fill<T> {
    if segments == [] then [] else Flat(segments[..|segments| - 1]) + segments[|segments| - 1].fill
  }

  /** Consecutive sequences, skipping 0. */
  predicate Contiguous<T>(fill: Fill<T>) {
    && (forall i | 0 <= i < |fill| :: fill[i].sequence != 0)
    && (forall i | 0 <= i < |fill| - 1 :: fill[i + 1].sequence == NextSequence(fill[i].sequence))
  }

  /** A yielded block is n accepted contiguous samples, with their values and end sequences. */
  predicate IsBlockOf<T(==)>(b: Block<T>, fill: Fill<T>, n: nat) {
    && 0 < |fill| == n && Contiguous(fill) && b.samples == Values(fill)
    && b.firstSequence == fill[0].sequence && b.lastSequence == fill[n - 1].sequence
  }

  predicate GoodSegment<T(==)>(g: Segment<T>, n: nat) {
    match g
    case Yielded(fill, b) => IsBlockOf(b, fill, n)
    case Cleared(fill) => |fill| < n && Contiguous(fill)
  }

  predicate Good<T(==)>(h: History<T>, n: nat) {
    && h.accepted == Flat(h.closed) + h.fill
    && |h.fill| < n && Contiguous(h.fill)
    && (forall i | 0 <= i < |h.closed| :: GoodSegment(h.closed[i], n))
  }

  lemma FlatSnoc<T>(segments: seq<Segment<T>>, g: Segment<T>)
    ensures Flat(segments + [g]) == Flat(segments) + g.fill
  {
    assert (segments + [g])[..|segments|] == segments;
  }

  lemma AcceptedIsContiguous<T>(fill: Fill<T>, s: Sample<T>)
    requires Contiguous(fill) && Accepts(fill, s)
    ensures Contiguous(fill + [s])
  {
  }

  lemma ExtendedIsGood<T>(h: History<T>, n: nat, c: Call<T>)
    requires 0 < n && Good(h, n)
    ensures Good(Extended(h, n, c), n)
  {
    hide Flat, NextSequence;
    match c {
      case Clear =>
        FlatSnoc(h.closed, Cleared(h.fill));
      case Push(s) =>
        if Accepts(h.fill, s) { AcceptedIsContiguous(h.fill, s); }
        hide Contiguous;
        match Reply(h.fill, n, s) {
          case Complete(b) => FlatSnoc(h.closed, Yielded(h.fill + [s], b));
          case _ =>
        }
    }
  }

  /** For every trace: the accepted samples are the closed fills and the current one, in order;
      every closed fill is a complete block's or a cleared partial's; the current is partial. */
  lemma {:induction false} NothingIsLost<T>(n: nat, calls: seq<Call<T>>)
    requires 0 < n
    ensures Good(After(n, calls), n)
  {
    if calls != [] {
      NothingIsLost(n, calls[..|calls| - 1]);
      ExtendedIsGood(After(n, calls[..|calls| - 1]), n, calls[|calls| - 1]);
    }
  }

  /** A rejection changes nothing: not the builder, not the history.  The reserved sequence is
      reported as such whatever the partial block is, any other as out of order. */
  lemma RejectionChangesNothing<T>(n: nat, calls: seq<Call<T>>, s: Sample<T>)
    requires Reply(After(n, calls).fill, n, s).Rejected?
    ensures After(n, calls + [Push(s)]) == After(n, calls) && Filled(After(n, calls).fill, n, Push(s)) == After(n, calls).fill
    ensures s.sequence == 0 ==> Reply(After(n, calls).fill, n, s) == Rejected(ReservedSequence(s.value))
    ensures s.sequence != 0 ==> var fill := After(n, calls).fill;
              fill != [] && Reply(fill, n, s) == Rejected(Discontinuous(NextSequence(fill[|fill| - 1].sequence), s.sequence, s.value))
  {
    assert (calls + [Push(s)])[..|calls|] == calls;
  }

  /** Contiguity is of sequence words, so it is of ordinals exactly below one span: a sample of
      ordinal `o` is taken for the successor of ordinal `p` if and only if whole spans separate
      it from p + 1. */
  lemma SuccessorIffWholeSpans(p: nat, o: nat)
    requires 0 < p < o
    ensures SeqOf(o) == NextSequence(SeqOf(p)) <==> (o - p - 1) % SPAN == 0
    ensures o - p - 1 < SPAN ==> (SeqOf(o) == NextSequence(SeqOf(p)) <==> o == p + 1)
  {
    NextSequenceIsNextAfter(SeqOf(p));
    NextAfterIsSuccessor(SeqOf(p), p);
    SameSequence(p + 1, o);
    if o - p - 1 < SPAN { DivUnique(o - p - 1, SPAN, 0, o - p - 1); }
  }

  // ---------------------------------------------------------------- the object

  class BlockBuilder<T> {
    const samples: array<T>
    var len: nat
    var firstSequence: U32
    var lastSequence: U32
    ghost var fill: Fill<T>

    ghost predicate Valid()
      reads this, samples
    {
      && len == |fill| < samples.Length && Contiguous(fill) && samples[..len] == Values(fill)
      && firstSequence == (if fill == [] then 0 else fill[0].sequence)
      && lastSequence == (if fill == [] then 0 else fill[len - 1].sequence)
    }

    constructor (n: nat, junk: T)
      requires 0 < n
      ensures Valid() && fill == [] && samples.Length == n && fresh(samples)
    {
      samples := new T[n](_ => junk);
      len, firstSequence, lastSequence, fill := 0, 0, 0, [];
    }

    method Push(sequence: U32, sample: T) returns (r: Outcome<T>)
      requires Valid()
      modifies this, samples
      ensures Valid() && r == Reply(old(fill), samples.Length, Sample(sequence, sample))
      ensures fill == Filled(old(fill), samples.Length, Call.Push(Sample(sequence, sample)))
      ensures sequence == 0 ==> r == Rejected(ReservedSequence(sample))
      ensures sequence != 0 && old(fill) != [] && sequence != NextSequence(old(lastSequence)) ==>
                r == Rejected(Discontinuous(NextSequence(old(lastSequence)), sequence, sample))
      ensures sequence != 0 && (old(fill) == [] || sequence == NextSequence(old(lastSequence))) ==>
                && (r.Partial? || r.Complete?) && (r.Complete? <==> old(len) + 1 == samples.Length)
                && fill == (if r.Complete? then [] else old(fill) + [Sample(sequence, sample)])
                && (r.Complete? ==> IsBlockOf(r.block, old(fill) + [Sample(sequence, sample)], samples.Length))
      ensures r.Rejected? ==>
                && samples[..] == old(samples[..]) && len == old(len)
                && firstSequence == old(firstSequence) && lastSequence == old(lastSequence)
    {
      ghost var before, s := fill, Sample(sequence, sample);
      if sequence == 0 {
        return Rejected(ReservedSequence(sample));
      }
      if len != 0 {
        var expected := NextSequence(lastSequence);
        if sequence != expected {
          return Rejected(Discontinuous(expected, sequence, sample));
        }
      } else {
        firstSequence := sequence;
      }
      samples[len] := sample;
      len := len + 1;
      lastSequence := sequence;
      fill := fill + [s];
      assert samples[..len] == Values(before) + [sample] == Values(fill);
      if len != samples.Length {
        return Partial;
      }
      r := Complete(Block(firstSequence, lastSequence, samples[..]));
      assert samples[..] == samples[..len];
      Clear();
    }

    method Clear()
      requires len <= samples.Length && 0 < samples.Length
      modifies this
      ensures Valid() && fill == []
    {
      len, firstSequence, lastSequence, fill := 0, 0, 0, [];
    }

    method ExpectedSequence() returns (r: Option<U32>)
      requires Valid()
      ensures r.None? <==> fill == []
      ensures r.Some? ==> forall v: T, s: U32 :: Accepts(fill, Sample(s, v)) <==> s == r.value
    {
      r := if len == 0 then None else Some(NextSequence(lastSequence));
    }
  }
}
