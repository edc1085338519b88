/** The lock-free single-producer single-consumer queue of readerwriterqueue.h as a transition system: every load and
    store of a weak_atomic is one step, steps of the two threads interleave freely, and memory is sequentially
    consistent. Local variables live in the program counters. */
module ReaderWriterQueue {
  import opened Blocks

  datatype Mode = CanAlloc | CannotAlloc

  /** What the consumer calls: try_dequeue and pop both Take, peek only looks. */
  datatype Call = Take | Peek

  /** inner_enqueue: the step that comes next, with the values read so far. tb is tailBlock_. */
  datatype Producer<T> =
    | PIdle
    | PDone(ok: bool)
    | PStart(x: T, mode: Mode)
    | PFront(x: T, mode: Mode, tb: nat)
    | PTail(x: T, mode: Mode, tb: nat, blockFront: nat)
    | PWrite(x: T, tb: nat, blockTail: nat)
    | PStoreTail(x: T, tb: nat, nextBlockTail: nat)
    | PNext(x: T, mode: Mode, tb: nat)
    | PFrontBlock(x: T, mode: Mode, tb: nat, nb: nat)
    | PNextAgain(x: T, tb: nat)
    | PNextFront(x: T, nb: nat)
    | PNextTail(x: T, nb: nat, nextBlockFront: nat)
    | PNextWrite(x: T, nb: nat, nextBlockTail: nat)
    | PNextStoreTail(x: T, nb: nat, nextBlockTail: nat)
    | PNew(x: T, tb: nat)
    | PNewTail(x: T, tb: nat, nb: nat)
    | PNewNext(x: T, tb: nat, nb: nat)
    | PNewStoreNext(x: T, tb: nat, nb: nat, nx: nat)
    | PLink(x: T, tb: nat, nb: nat)
    | PStoreTailBlock(x: T, nb: nat)
    | PFault

  /** try_dequeue, pop and peek: ta is tailBlockAtStart and fb is frontBlock_. */
  datatype Consumer =
    | CIdle
    | CDone(ok: bool)
    | CPeeked(block: nat, index: nat)
    | CStart(call: Call)
    | CFrontBlock(call: Call, ta: nat)
    | CTail(call: Call, ta: nat, fb: nat)
    | CFront(call: Call, ta: nat, fb: nat, blockTail: nat)
    | CNext(call: Call, fb: nat)
    | CNextFront(call: Call, nb: nat)
    | CNextTail(call: Call, nb: nat, nextBlockFront: nat)
    | CAdvance(nb: nat, nextBlockFront: nat)
    | CRead(fb: nat, blockFront: nat)
    | CStoreFront(fb: nat, newFront: nat)
    | CFault

  /** Shared memory, the two threads, and the histories of elements published and removed. */
  datatype State<T> = State(
    blocks: seq<Block<T>>, frontBlock: nat, tailBlock: nat, largest: nat,
    p: Producer<T>, c: Consumer, sent: seq<T>, got: seq<T>)

  function NullBlock<T>(): Block<T> {
    Block(0, 0, 0, 0, [])
  }

  function Get<T>(s: State<T>, id: nat): Block<T> {
    if id < |s.blocks| then s.blocks[id] else NullBlock()
  }

  function Set<T>(blocks: seq<Block<T>>, id: nat, b: Block<T>): seq<Block<T>> {
    if id < |blocks| then blocks[id := b] else blocks
  }

  function Read<T>(b: Block<T>, i: nat): Slot<T> {
    if i < |b.data| then b.data[i] else Empty
  }

  function Write<T>(b: Block<T>, i: nat, x: Slot<T>): Block<T> {
    if i < |b.data| then b.(data := b.data[i := x]) else b
  }

  /** Placement new into a slot; it must not hold an element. */
  function Construct<T>(s: State<T>, id: nat, i: nat, x: T, then_: Producer<T>): State<T> {
    var b := Get(s, id);
    if i < |b.data| && b.data[i].Empty? then s.(blocks := Set(s.blocks, id, Write(b, i, Full(x))), p := then_)
    else s.(p := PFault)
  }

  /** One step of inner_enqueue. */
  function Produce<T>(s: State<T>): State<T> {
    match s.p
    case PStart(x, mode) => s.(p := PFront(x, mode, s.tailBlock))
    case PFront(x, mode, tb) => s.(p := PTail(x, mode, tb, Get(s, tb).front))
    case PTail(x, mode, tb, blockFront) =>
      var b := Get(s, tb);
      s.(p := if Bump(b.tail, b.size) != blockFront then PWrite(x, tb, b.tail) else PNext(x, mode, tb))
    case PWrite(x, tb, blockTail) => Construct(s, tb, blockTail, x, PStoreTail(x, tb, Bump(blockTail, Get(s, tb).size)))
    case PStoreTail(x, tb, nextBlockTail) =>
      s.(blocks := Set(s.blocks, tb, Get(s, tb).(tail := nextBlockTail)), p := PDone(true), sent := s.sent + [x])
    case PNext(x, mode, tb) => s.(p := PFrontBlock(x, mode, tb, Get(s, tb).next))
    case PFrontBlock(x, mode, tb, nb) =>
      s.(p := if nb != s.frontBlock then PNextAgain(x, tb) else if mode.CanAlloc? then PNew(x, tb) else PDone(false))
    case PNextAgain(x, tb) => s.(p := PNextFront(x, Get(s, tb).next))
    case PNextFront(x, nb) => s.(p := PNextTail(x, nb, Get(s, nb).front))
    case PNextTail(x, nb, nextBlockFront) =>
      s.(p := if nextBlockFront == Get(s, nb).tail then PNextWrite(x, nb, Get(s, nb).tail) else PFault)
    case PNextWrite(x, nb, nextBlockTail) =>
      Construct(s, nb, nextBlockTail, x, PNextStoreTail(x, nb, Bump(nextBlockTail, Get(s, nb).size)))
    case PNextStoreTail(x, nb, nextBlockTail) =>
      s.(blocks := Set(s.blocks, nb, Get(s, nb).(tail := nextBlockTail)), p := PStoreTailBlock(x, nb))
    case PNew(x, tb) =>
      var size := 2 * s.largest;
      var b := Block(0, 0, 0, size, seq(size, i => if i == 0 then Full(x) else Empty));
      s.(largest := size, blocks := s.blocks + [b], p := PNewTail(x, tb, |s.blocks|))
    case PNewTail(x, tb, nb) =>
      if Get(s, nb).front == 0 then s.(blocks := Set(s.blocks, nb, Get(s, nb).(tail := 1)), p := PNewNext(x, tb, nb))
      else s.(p := PFault)
    case PNewNext(x, tb, nb) => s.(p := PNewStoreNext(x, tb, nb, Get(s, tb).next))
    case PNewStoreNext(x, tb, nb, nx) => s.(blocks := Set(s.blocks, nb, Get(s, nb).(next := nx)), p := PLink(x, tb, nb))
    case PLink(x, tb, nb) => s.(blocks := Set(s.blocks, tb, Get(s, tb).(next := nb)), p := PStoreTailBlock(x, nb))
    case PStoreTailBlock(x, nb) => s.(tailBlock := nb, p := PDone(true), sent := s.sent + [x])
    case _ => s
  }

  /** One step of try_dequeue, pop or peek. */
  function Consume<T>(s: State<T>): State<T> {
    match s.c
    case CStart(call) => s.(c := CFrontBlock(call, s.tailBlock))
    case CFrontBlock(call, ta) => s.(c := CTail(call, ta, s.frontBlock))
    case CTail(call, ta, fb) => s.(c := CFront(call, ta, fb, Get(s, fb).tail))
    case CFront(call, ta, fb, blockTail) =>
      var blockFront := Get(s, fb).front;
      s.(c := if blockFront != blockTail then (if call.Take? then CRead(fb, blockFront) else CPeeked(fb, blockFront))
              else if fb != ta then CNext(call, fb) else CDone(false))
    case CNext(call, fb) => s.(c := CNextFront(call, Get(s, fb).next))
    case CNextFront(call, nb) => s.(c := CNextTail(call, nb, Get(s, nb).front))
    case CNextTail(call, nb, nextBlockFront) =>
      s.(c := if nextBlockFront == Get(s, nb).tail then CFault
              else if call.Take? then CAdvance(nb, nextBlockFront) else CPeeked(nb, nextBlockFront))
    case CAdvance(nb, nextBlockFront) => s.(frontBlock := nb, c := CRead(nb, nextBlockFront))
    case CRead(fb, blockFront) =>
      var b := Get(s, fb);
      (match Read(b, blockFront)
       case Full(v) => s.(blocks := Set(s.blocks, fb, Write(b, blockFront, Empty)), got := s.got + [v],
                          c := CStoreFront(fb, Bump(blockFront, b.size)))
       case Empty => s.(c := CFault))
    case CStoreFront(fb, newFront) => s.(blocks := Set(s.blocks, fb, Get(s, fb).(front := newFront)), c := CDone(true))
    case _ => s
  }

  /** One step of the whole system: a thread moves, or an idle thread calls. */
  datatype Action<T> = ProducerStep | ConsumerStep | Enqueue(x: T, mode: Mode) | Ask(call: Call)

  predicate ProducerIdle<T>(p: Producer<T>) {
    p.PIdle? || p.PDone?
  }

  predicate ConsumerIdle(c: Consumer) {
    c.CIdle? || c.CDone? || c.CPeeked?
  }

  /** An action that is not enabled changes nothing. */
  function Step<T>(s: State<T>, a: Action<T>): State<T> {
    match a
    case ProducerStep => Produce(s)
    case ConsumerStep => Consume(s)
    case Enqueue(x, mode) => if ProducerIdle(s.p) then s.(p := PStart(x, mode)) else s
    case Ask(call) => if ConsumerIdle(s.c) then s.(c := CStart(call)) else s
  }

  /** The state after a run; any interleaving is a sequence of actions. */
  function Run<T>(s: State<T>, acts: seq<Action<T>>): State<T> {
    if acts == [] then s else Step(Run(s, acts[..|acts| - 1]), acts[|acts| - 1])
  }

  /** ReaderWriterQueue(maxSize) */
  function Init<T>(maxSize: nat): State<T> {
    var size := CeilToPow2(maxSize + 1);
    State([Block(0, 0, 0, size, seq(size, i => Empty))], 0, 0, size, PIdle, CIdle, [], [])
  }
}
