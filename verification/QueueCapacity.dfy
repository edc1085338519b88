/** What the constructor promises: room for maxSize elements without further allocations. */
module QueueCapacity {
  import opened Blocks
  import opened ReaderWriterQueue
  import opened QueueInvariant
  import opened QueueSteps
  import opened QueueTheorems

  /** No block is smaller than m. */
  predicate Sizable<T>(s: State<T>, m: nat) {
    s.largest >= m && forall id :: 0 <= id < |s.blocks| ==> s.blocks[id].size >= m
  }

  lemma ProduceSizable<T>(s: State<T>, m: nat)
    requires Sizable(s, m)
    ensures Sizable(Produce(s), m)
  {
    hide Bump;
  }

  lemma ConsumeSizable<T>(s: State<T>, m: nat)
    requires Sizable(s, m)
    ensures Sizable(Consume(s), m)
  {
    hide Bump;
  }

  lemma {:induction false} RunSizable<T>(s: State<T>, acts: seq<Action<T>>, m: nat)
    requires Sizable(s, m)
    ensures Sizable(Run(s, acts), m)
    decreases |acts|
  {
    hide Produce, Consume;
    if acts != [] {
      var n := |acts| - 1;
      RunSizable(s, acts[..n], m);
      ProduceSizable(Run(s, acts[..n]), m);
      ConsumeSizable(Run(s, acts[..n]), m);
    }
  }

  /** The element that the consumer has moved out without having stored the new front. */
  function InTransit(c: Consumer): nat {
    if c.CStoreFront? then 1 else 0
  }

  predicate Crowded<T>(s: State<T>, n: nat) {
    |AbsQueue(s)| + InTransit(s.c) >= n
  }

  lemma LastPart<T>(parts: seq<seq<T>>)
    requires |parts| >= 1
    ensures |Flatten(parts)| >= |parts[|parts| - 1]|
  {}

  /** A full block is one short of its size. */
  lemma FullGap(front: nat, tail: nat, size: nat)
    requires front < size && tail < size && size >= 2 && Bump(tail, size) == front
    ensures Gap(front, tail, size) == size - 1 && front != tail
    ensures Gap(Bump(front, size), tail, size) == size - 2
  {}

  /** No slot of a full tail block is being filled. */
  lemma FullTail<T>(s: State<T>, ring: seq<nat>, t: nat)
    requires Good(s, ring, t) && NoRoom(s)
    ensures Hi(ViewOf(s), s.tailBlock) == Get(s, s.tailBlock).tail
  {
    AtTail(ViewOf(s), ring, t);
    NotNext(ring, t, s.tailBlock);
    hide Ring, ConsumerKnows, Parts, Flatten, BlockOk, Bump, Distinct;
  }

  /** When there is no room, the tail block alone holds as many elements as fit. */
  lemma NoRoomIsCrowded<T>(s: State<T>, ring: seq<nat>, t: nat, m: nat)
    requires Good(s, ring, t) && NoRoom(s) && Sizable(s, m) && m >= 1
    ensures Crowded(s, m - 1)
  {
    var v, id := ViewOf(s), s.tailBlock;
    var b := Get(s, id);
    AtTail(v, ring, t);
    FullTail(s, ring, t);
    LoNearFront(s, ring, t, id);
    FullGap(b.front, b.tail, b.size);
    AbsQueueIsRing(s, ring, t);
    PartsAt(v, ring, t, t);
    LastPart(Parts(v, ring, t));
    hide Good, Ring, Flatten, Parts, AbsQueue, Bump, Gap, NoRoom;
    ItemsCount(b.data, Lo(v, id), b.tail, Gap(Lo(v, id), b.tail, b.size));
  }

  /** The first block is the smallest of a power of two slots, one of which always stays free, that holds maxSize elements. */
  lemma InitSizable<T>(maxSize: nat)
    ensures Sizable(Init<T>(maxSize), maxSize + 1)
    ensures var s := Init<T>(maxSize);
            |s.blocks| == 1 && s.blocks[0].size == s.largest && PowerOfTwo(s.largest) && (maxSize >= 1 ==> s.largest / 2 <= maxSize)
  {}

  lemma CrowdedAt<T>(maxSize: nat, acts: seq<Action<T>>)
    requires maxSize >= 1 && NoRoom(Run(Init<T>(maxSize), acts))
    ensures Crowded(Run(Init<T>(maxSize), acts), maxSize)
  {
    hide Good, Run, NoRoom, Crowded, Sizable;
    InitSizable<T>(maxSize);
    RunSizable(Init(maxSize), acts, maxSize + 1);
    var ring, t := Reachable(maxSize, acts);
    NoRoomIsCrowded(Run(Init<T>(maxSize), acts), ring, t, maxSize + 1);
  }

  /** try_enqueue fails only if the queue held maxSize elements or more when it was called, counting one that the consumer
      was just removing: so many fit without allocation, however often blocks have been reused. */
  lemma HoldsMaxSize<T>(maxSize: nat, before: seq<Action<T>>, acts: seq<Action<T>>)
    requires maxSize >= 1
    requires var s := Run(Init(maxSize), before); s.p.PStart? && ProducerBusy(s, acts) && Run(s, acts).p == PDone(false)
    ensures Crowded(Run(Init<T>(maxSize), before), maxSize)
  {
    hide Run, NoRoom, Crowded, ProducerBusy, Init;
    EnqueueFalse(maxSize, before, acts);
    CrowdedAt(maxSize, before);
  }
}
