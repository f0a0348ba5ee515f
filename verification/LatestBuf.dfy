/** `LatestBuf` as an object, on the words it really keeps: the exchange state packs a slot
    number and the ready bit, the role cells keep their slot XORed so that a new channel is all
    zeros. */
module LatestBuf {
  import opened Common
  import opened SeqArith
  import Steps = LatestBufSteps

  // ---------------------------------------------------------------- the codecs

  const SLOT_MASK: bv32 := 3
  const READY_BIT: bv32 := 4
  const PRODUCER_SLOT_XOR: bv32 := 1
  const CONSUMER_SLOT_XOR: bv32 := 2

  function Encode(slot: bv32, ready: bool): bv32 { slot | if ready then READY_BIT else 0 }
  function SlotBits(state: bv32): bv32 { state & SLOT_MASK }
  predicate Ready(state: bv32) { state & READY_BIT != 0 }
  function ProducerSlot(encoded: bv32): bv32 { encoded ^ PRODUCER_SLOT_XOR }
  function ConsumerSlot(encoded: bv32): bv32 { encoded ^ CONSUMER_SLOT_XOR }

  /** The exchange word gives back the slot and the bit; both XOR codecs are their own inverses
      and stay within the slot mask. */
  lemma CodecsInvert(slot: bv32, ready: bool)
    requires slot <= SLOT_MASK
    ensures SlotBits(Encode(slot, ready)) == slot && (Ready(Encode(slot, ready)) <==> ready)
    ensures Encode(slot, ready) == slot + if ready then 4 else 0
    ensures ProducerSlot(ProducerSlot(slot)) == slot && ConsumerSlot(ConsumerSlot(slot)) == slot
  {
  }

  /** An all-zero channel is the initial one: exchange owns slot 0 with nothing ready, the
      producer owns slot 1, the consumer slot 2. */
  lemma ZeroIsInitial()
    ensures SlotBits(0) == 0 && !Ready(0) && ProducerSlot(0) == 1 && ConsumerSlot(0) == 2
  {
  }

  // ---------------------------------------------------------------- the channel

  datatype Entry<T> = Entry(generation: U32, value: T)
  datatype PublishReport = PublishReport(generation: U32, replacedUnread: bool)
  datatype LatestItem<T> = LatestItem(value: T, generation: U32, skipped: nat)

  /** The channel's words, decoded. */
  datatype Chan<T> = Chan(slot: nat, ready: bool, slots: seq<Entry<T>>,
                          back: nat, nextGeneration: U32, front: nat, lastGeneration: U32)

  /** `publish` on them: write the back slot, exchange it for the one in the middle. */
  function Published<T>(c: Chan<T>, value: T): (Chan<T>, PublishReport)
    requires c.back < |c.slots|
  {
    var generation := NextAfter(c.nextGeneration);
    (c.(slots := c.slots[c.back := Entry(generation, value)], nextGeneration := generation,
        slot := c.back, ready := true, back := c.slot),
     PublishReport(generation, c.ready))
  }

  /** `take_latest`: with something ready, exchange the front slot for it and copy it out. */
  function Taken<T>(c: Chan<T>): (Chan<T>, Option<LatestItem<T>>)
    requires c.slot < |c.slots|
  {
    if !c.ready then (c, None)
    else
      var entry := c.slots[c.slot];
      var distance := SeqDistance(c.lastGeneration, entry.generation) as nat;
      (c.(slot := c.front, ready := false, front := c.slot, lastGeneration := entry.generation),
       Some(LatestItem(entry.value, entry.generation, if distance == 0 then 0 else distance - 1)))
  }

  class Channel<T> {
    var exchange: bv32
    const slots: array<Entry<T>>
    var backEncoded: bv32
    var nextGeneration: U32
    var frontEncoded: bv32
    var lastGeneration: U32
    var producerTaken: bool
    var consumerTaken: bool
    /** Everything ever published, and the ordinal of the last item taken (0 before any). */
    ghost var published: seq<T>
    ghost var lastTaken: nat

    ghost function Abs(): Chan<T>
      reads this, slots
    {
      Chan(SlotBits(exchange) as nat, Ready(exchange), slots[..],
           ProducerSlot(backEncoded) as nat, nextGeneration, ConsumerSlot(frontEncoded) as nat, lastGeneration)
    }

    ghost predicate Valid()
      reads this, slots
    {
      && slots.Length == 3
      && ProducerSlot(backEncoded) < 3 && ConsumerSlot(frontEncoded) < 3 && SlotBits(exchange) < 3
      && ProducerSlot(backEncoded) != ConsumerSlot(frontEncoded)
      && ProducerSlot(backEncoded) != SlotBits(exchange)
      && ConsumerSlot(frontEncoded) != SlotBits(exchange)
      && nextGeneration == SeqOf(|published|) && lastGeneration == SeqOf(lastTaken)
      && lastTaken <= |published| && (Ready(exchange) <==> lastTaken < |published|)
      && (Ready(exchange) ==>
            slots[SlotBits(exchange) as nat] == Entry(SeqOf(|published|), published[|published| - 1]))
    }

    constructor (junk: T)
      ensures Valid() && published == [] && lastTaken == 0 && !producerTaken && !consumerTaken && fresh(slots)
    {
      exchange, backEncoded, frontEncoded := 0, 0, 0;
      nextGeneration, lastGeneration := 0, 0;
      slots := new Entry<T>[3](_ => Entry(0, junk));
      producerTaken, consumerTaken := false, false;
      published, lastTaken := [], 0;
      new;
      ZeroIsInitial();
    }

    /** One handle per role; taking or dropping one leaves the channel alone. */
    method TryProducer() returns (ok: bool)
      requires Valid()
      modifies this`producerTaken
      ensures Valid() && ok == !old(producerTaken) && producerTaken
    {
      ok := !producerTaken;
      producerTaken := true;
    }

    method DropProducer()
      requires Valid() && producerTaken
      modifies this`producerTaken
      ensures Valid() && !producerTaken
    {
      producerTaken := false;
    }

    method TryConsumer() returns (ok: bool)
      requires Valid()
      modifies this`consumerTaken
      ensures Valid() && ok == !old(consumerTaken) && consumerTaken
    {
      ok := !consumerTaken;
      consumerTaken := true;
    }

    method DropConsumer()
      requires Valid() && consumerTaken
      modifies this`consumerTaken
      ensures Valid() && !consumerTaken
    {
      consumerTaken := false;
    }

    /** Publishing always succeeds and says whether an unread publication was displaced. */
    method Publish(value: T) returns (report: PublishReport)
      requires Valid()
      modifies this, slots
      ensures Valid() && published == old(published) + [value] && lastTaken == old(lastTaken)
      ensures report == PublishReport(SeqOf(|published|), old(lastTaken) < |old(published)|)
      ensures (Abs(), report) == Published(old(Abs()), value)
      ensures producerTaken == old(producerTaken) && consumerTaken == old(consumerTaken)
    {
      hide SeqOf, NextAfter;
      NextAfterIsSuccessor(nextGeneration, |published|);
      var generation := NextAfter(nextGeneration);
      nextGeneration := generation;
      var back := ProducerSlot(backEncoded);
      slots[back as nat] := Entry(generation, value);
      var previous := exchange;
      exchange := Encode(back, true);
      CodecsInvert(back, true);
      CodecsInvert(SlotBits(previous), true);
      backEncoded := ProducerSlot(SlotBits(previous));
      published := published + [value];
      report := PublishReport(generation, Ready(previous));
    }

    /** The newest unread publication with its generation and the modular count of those in
        between; nothing, and no change, if none is unread. */
    method TakeLatest() returns (item: Option<LatestItem<T>>)
      requires Valid()
      modifies this
      ensures Valid() && published == old(published)
      ensures item.None? <==> old(lastTaken) == |published|
      ensures item.None? ==> exchange == old(exchange) && frontEncoded == old(frontEncoded) && lastTaken == old(lastTaken)
      ensures (Abs(), item) == Taken(old(Abs()))
      ensures item.Some? ==>
                && lastTaken == |published|
                && item.value.value == published[|published| - 1] && item.value.generation == SeqOf(|published|)
                && item.value.skipped == Steps.SkippedOf(old(lastTaken), |published|)
      ensures producerTaken == old(producerTaken) && consumerTaken == old(consumerTaken)
    {
      hide SeqOf, SeqDistance, Steps.SkippedOf;
      if !Ready(exchange) { return None; }
      var front := ConsumerSlot(frontEncoded);
      var previous := exchange;
      exchange := Encode(front, false);
      CodecsInvert(front, false);
      CodecsInvert(SlotBits(previous), true);
      frontEncoded := ConsumerSlot(SlotBits(previous));
      var entry := slots[SlotBits(previous) as nat];
      Steps.SkippedIs(lastTaken, |published|);
      var distance := SeqDistance(lastGeneration, entry.generation) as nat;
      lastGeneration := entry.generation;
      lastTaken := |published|;
      item := Some(LatestItem(entry.value, entry.generation, if distance == 0 then 0 else distance - 1));
    }
  }
}
