/** blocks::DefaultDecoder of audio.h: a thread that decodes blocks and retries each until the queue takes it, and a
    player that peeks and pops. */
module Decoder {
  import opened Blocks
  import opened ReaderWriterQueue
  import opened QueueInvariant
  import opened QueueSteps
  import opened QueueTheorems
  import opened QueueCalls
  import opened QueueCapacity

  /** The queue and the blocks decoded so far; the last one may still be waiting to be taken. */
  datatype Player<T> = Player(queue: State<T>, decoded: seq<T>)

  /** Decode: the previous block is in the queue, so decode another and try it. Retry: the queue was full. */
  datatype Event<T> = Decode(block: T) | Retry | QueueThread | PlayerThread | PlayerCalls(call: Call)

  function React<T>(d: Player<T>, e: Event<T>): Player<T> {
    match e
    case Decode(block) =>
      if d.queue.p.PIdle? || d.queue.p == PDone(true) then
        Player(Step(d.queue, Enqueue(block, CannotAlloc)), d.decoded + [block])
      else d
    case Retry =>
      if d.queue.p == PDone(false) && d.decoded != [] then
        d.(queue := Step(d.queue, Enqueue(d.decoded[|d.decoded| - 1], CannotAlloc)))
      else d
    case QueueThread => d.(queue := Step(d.queue, ProducerStep))
    case PlayerThread => d.(queue := Step(d.queue, ConsumerStep))
    case PlayerCalls(call) => d.(queue := Step(d.queue, Ask(call)))
  }

  function Play<T>(d: Player<T>, events: seq<Event<T>>): Player<T> {
    if events == [] then d else React(Play(d, events[..|events| - 1]), events[|events| - 1])
  }

  /** DefaultDecoder's queue is built for 128 blocks. */
  function Start<T>(): Player<T> {
    Player(Init(128), [])
  }

  /** sent is what was decoded, except for the block being offered or waiting for a retry. */
  ghost predicate InStep<T>(d: Player<T>) {
    var p, n := d.queue.p, |d.queue.sent|;
    && d.queue.sent <= d.decoded
    && (p.PIdle? || p == PDone(true) ==> n == |d.decoded|)
    && (p == PDone(false) ==> n + 1 == |d.decoded|)
    && (Offered(p) != [] ==> d.decoded == d.queue.sent + Offered(p))
  }

  lemma ProducerInStep<T>(d: Player<T>)
    requires InStep(d) && !d.queue.p.PFault?
    ensures InStep(d.(queue := Produce(d.queue)))
  {
    hide Bump, Set, Write, Get;
    ProduceOffers(d.queue);
    hide Produce;
  }

  lemma CallInStep<T>(d: Player<T>, e: Event<T>)
    requires InStep(d) && (e.Decode? || e.Retry?)
    ensures InStep(React(d, e))
  {
    if e.Retry? && d.decoded != [] {
      var n := |d.decoded| - 1;
      assert d.decoded == d.decoded[..n] + [d.decoded[n]];
    }
    hide Produce, Consume;
  }

  lemma ReactInStep<T>(d: Player<T>, e: Event<T>)
    requires InStep(d) && !d.queue.p.PFault?
    ensures InStep(React(d, e))
  {
    if e.Decode? || e.Retry? {
      CallInStep(d, e);
    } else if e.QueueThread? {
      ProducerInStep(d);
    } else {
      ConsumerNearer(d.queue);
      GotGrows(d.queue);
      hide Produce, Consume, Offered;
    }
  }

  /** What the decoder does to the queue is one action. */
  function ActionOf<T>(d: Player<T>, e: Event<T>): Action<T> {
    match e
    case Decode(block) => Enqueue(block, CannotAlloc)
    case Retry => if d.decoded == [] then ProducerStep else Enqueue(d.decoded[|d.decoded| - 1], CannotAlloc)
    case QueueThread => ProducerStep
    case PlayerThread => ConsumerStep
    case PlayerCalls(call) => Ask(call)
  }

  lemma ReactIsStep<T>(d: Player<T>, e: Event<T>)
    ensures React(d, e).queue == d.queue || React(d, e).queue == Step(d.queue, ActionOf(d, e))
  {
    hide Step;
  }

  lemma NoFault<T>(s: State<T>, ring: seq<nat>, t: nat)
    requires Good(s, ring, t)
    ensures !s.p.PFault?
  {
    hide Ring, ConsumerKnows, Parts, Flatten;
  }

  lemma {:induction false} PlayInStep<T>(events: seq<Event<T>>) returns (ring: seq<nat>, t: nat)
    ensures Good(Play(Start(), events).queue, ring, t) && InStep(Play(Start(), events))
    decreases |events|
  {
    hide Good, React, InStep;
    if events == [] {
      InitGood<T>(128);
      ring, t := [0], 0;
      assert InStep(Start<T>()) by {
        Begins<T>();
      }
    } else {
      var n := |events| - 1;
      ring, t := PlayInStep(events[..n]);
      var d := Play(Start(), events[..n]);
      NoFault(d.queue, ring, t);
      ReactInStep(d, events[n]);
      ReactIsStep(d, events[n]);
      if React(d, events[n]).queue != d.queue {
        ring, t := StepGood(d.queue, ring, t, ActionOf(d, events[n]));
      }
    }
  }

  lemma Begins<T>()
    ensures InStep(Start<T>())
  {}

  /** However the two threads interleave and however often the queue is full, the player gets a gap-free beginning of
      what was decoded, in order; the rest is in the queue, but for at most one block still being offered. */
  lemma PlaysInOrder<T>(events: seq<Event<T>>)
    ensures var d := Play(Start(), events);
            && d.queue.got + AbsQueue(d.queue) <= d.decoded
            && |d.decoded| <= |d.queue.got + AbsQueue(d.queue)| + 1
  {
    hide Good, AbsQueue, Produce, Consume, InStep;
    var ring, t := PlayInStep(events);
    var d := Play(Start(), events);
    NoFault(d.queue, ring, t);
    AbsQueueIsRing(d.queue, ring, t);
    Counts(d);
  }

  lemma Counts<T>(d: Player<T>)
    requires InStep(d) && !d.queue.p.PFault?
    ensures d.queue.sent <= d.decoded && |d.decoded| <= |d.queue.sent| + 1
  {}

  // ---- a block offered gets into the queue ----

  /** Neither a new block nor a retry. */
  predicate Continues<T>(events: seq<Event<T>>) {
    forall i :: 0 <= i < |events| ==> !events[i].Decode? && !events[i].Retry?
  }

  function DecoderSteps<T>(events: seq<Event<T>>): nat {
    if events == [] then 0 else DecoderSteps(events[..|events| - 1]) + if events[|events| - 1].QueueThread? then 1 else 0
  }

  /** An event that continues is one action of either thread, and leaves the blocks decoded as they are. */
  lemma ContinuedStep<T>(d: Player<T>, e: Event<T>)
    requires !e.Decode? && !e.Retry?
    ensures React(d, e).queue == Step(d.queue, ActionOf(d, e)) && !ActionOf(d, e).Enqueue? && React(d, e).decoded == d.decoded
    ensures e.QueueThread? <==> ActionOf(d, e).ProducerStep?
  {
    hide Step;
  }

  /** The call that offers x, begun in s, after some more events. */
  ghost predicate Offering<T>(s: State<T>, x: T, d: Player<T>, steps: nat) {
    && Enqueuing(s, x, CannotAlloc, d.queue)
    && (ProducerIdle(d.queue.p) || steps + ProducerRank(d.queue.p) <= 11)
  }

  lemma OfferingNext<T>(s: State<T>, x: T, d: Player<T>, steps: nat, ring: seq<nat>, t: nat, e: Event<T>)
    requires Good(d.queue, ring, t) && Offering(s, x, d, steps) && !e.Decode? && !e.Retry?
    ensures Offering(s, x, React(d, e), steps + if e.QueueThread? then 1 else 0)
  {
    hide Good, Enqueuing, Step, React, ProducerRank;
    ContinuedStep(d, e);
    StepEnqueuing(s, x, CannotAlloc, d.queue, ring, t, ActionOf(d, e));
    if ProducerIdle(d.queue.p) {
      IdleStays(d.queue, ActionOf(d, e));
    } else {
      NoFaults(d.queue, ring, t);
      StepRank(d.queue, ActionOf(d, e));
    }
  }

  lemma IdleStays<T>(s: State<T>, a: Action<T>)
    requires ProducerIdle(s.p) && !a.Enqueue?
    ensures ProducerIdle(Step(s, a).p)
  {
    ConsumerNearer(s);
    hide Consume;
  }

  lemma NoFaults<T>(s: State<T>, ring: seq<nat>, t: nat)
    requires Good(s, ring, t)
    ensures !s.p.PFault? && !s.c.CFault?
  {
    hide Ring, Parts, Flatten;
  }

  lemma {:induction false} OfferingOn<T>(s: State<T>, x: T, d: Player<T>, ring: seq<nat>, t: nat, more: seq<Event<T>>)
    returns (ring': seq<nat>, t': nat)
    requires Good(d.queue, ring, t) && Offering(s, x, d, 0) && Continues(more)
    ensures Good(Play(d, more).queue, ring', t') && Offering(s, x, Play(d, more), DecoderSteps(more))
    ensures Play(d, more).decoded == d.decoded
    decreases |more|
  {
    hide Good, Offering, React;
    if more == [] {
      ring', t' := ring, t;
    } else {
      var n := |more| - 1;
      ring', t' := OfferingOn(s, x, d, ring, t, more[..n]);
      var d' := Play(d, more[..n]);
      OfferingNext(s, x, d', DecoderSteps(more[..n]), ring', t', more[n]);
      ContinuedStep(d', more[n]);
      ring', t' := StepGood(d'.queue, ring', t', ActionOf(d', more[n]));
    }
  }

  /** The decoder does not give up: a block that is offered, for the first time or again, while the queue has room is in the
      queue after 11 steps of the decoder's thread, whatever the player does meanwhile. */
  lemma OfferedIsTaken<T>(events: seq<Event<T>>, e: Event<T>, more: seq<Event<T>>)
    requires var q := Play(Start(), events).queue;
             && !NoRoom(q) && (if q.p == PDone(false) then e.Retry? else e.Decode? && ProducerIdle(q.p))
    requires Continues(more) && DecoderSteps(more) >= 11
    ensures var d := Play(Start(), events); var d' := Play(React(d, e), more);
            && d'.decoded == (if e.Decode? then d.decoded + [e.block] else d.decoded)
            && d'.queue.p == PDone(true) && d'.queue.sent == d'.decoded
  {
    hide Good, Produce, Consume, Enqueuing, NoRoom, ProducerRank;
    var d := Play(Start(), events);
    var ring, t := PlayInStep(events);
    OfferStarts(d, e);
    var x := if e.Decode? then e.block else d.decoded[|d.decoded| - 1];
    StartsEnqueuing(d.queue, x, CannotAlloc);
    var ring1, t1 := StepGood(d.queue, ring, t, Enqueue(x, CannotAlloc));
    ProducerNearer(React(d, e).queue);
    ring1, t1 := OfferingOn(d.queue, x, React(d, e), ring1, t1, more);
    var q' := Play(React(d, e), more).queue;
    ProducerNearer(q');
    NoFaults(q', ring1, t1);
    TakenEnd(d.queue, x, q');
  }

  lemma OfferStarts<T>(d: Player<T>, e: Event<T>)
    requires InStep(d) && (if d.queue.p == PDone(false) then e.Retry? else e.Decode? && ProducerIdle(d.queue.p))
    ensures e.Retry? ==> d.decoded != []
    ensures var x := if e.Decode? then e.block else d.decoded[|d.decoded| - 1];
            && React(d, e).queue == Step(d.queue, Enqueue(x, CannotAlloc)) && ProducerIdle(d.queue.p)
            && React(d, e).decoded == (if e.Decode? then d.decoded + [e.block] else d.decoded)
            && d.queue.sent + [x] == React(d, e).decoded
  {
    if e.Retry? {
      var n := |d.decoded| - 1;
      assert d.decoded == d.decoded[..n] + [d.decoded[n]];
    }
    hide Produce, Consume;
  }

  lemma TakenEnd<T>(s: State<T>, x: T, s': State<T>)
    requires Enqueuing(s, x, CannotAlloc, s') && !NoRoom(s) && ProducerIdle(s'.p)
    ensures s'.p == PDone(true) && s'.sent == s.sent + [x]
  {
    hide NoRoom;
  }

  lemma {:induction false} PlaySizable<T>(events: seq<Event<T>>)
    ensures Sizable(Play(Start(), events).queue, 129)
    decreases |events|
  {
    hide React, Sizable;
    if events == [] {
      InitSizable<T>(128);
    } else {
      var d, e := Play(Start(), events[..|events| - 1]), events[|events| - 1];
      PlaySizable(events[..|events| - 1]);
      ReactIsStep(d, e);
      StepSizable(d.queue, ActionOf(d, e), 129);
    }
  }

  lemma StepSizable<T>(s: State<T>, a: Action<T>, m: nat)
    requires Sizable(s, m)
    ensures Sizable(Step(s, a), m)
  {
    hide Produce, Consume;
    ProduceSizable(s, m);
    ConsumeSizable(s, m);
  }

  lemma NextPower(y: nat)
    requires y >= 1
    ensures CeilToPow2(2 * y + 1) == 2 * CeilToPow2(y + 1)
    ensures CeilToPow2(2) == 2
  {
    assert CeilToPow2(1) == 1;
  }

  lemma Power256()
    ensures CeilToPow2(129) == 256
  {
    hide CeilToPow2;
    NextPower(1);
    NextPower(2);
    NextPower(4);
    NextPower(8);
    NextPower(16);
    NextPower(32);
    NextPower(64);
  }

  lemma FirstBlock<T>()
    ensures |Start<T>().queue.blocks| == 1 && Start<T>().queue.largest == 256
  {
    hide CeilToPow2;
    Power256();
  }

  /** The queue, which starts with one block of 256 slots, has room for every block unless it holds 128, counting one that the
      player is just removing. */
  lemma RoomFor128<T>(events: seq<Event<T>>)
    ensures |Start<T>().queue.blocks| == 1 && Start<T>().queue.largest == 256
    ensures var q := Play(Start(), events).queue; NoRoom(q) ==> Crowded(q, 128)
  {
    hide Good, NoRoom, Crowded, Sizable, Init;
    FirstBlock<T>();
    var ring, t := PlayInStep(events);
    PlaySizable(events);
    var q := Play(Start(), events).queue;
    if NoRoom(q) {
      NoRoomIsCrowded(q, ring, t, 129);
    }
  }
}
