/** What one call of the queue does, from the call to its return, whatever the other thread does meanwhile. */
module QueueCalls {
  import opened Blocks
  import opened ReaderWriterQueue
  import opened QueueInvariant
  import opened QueueSteps
  import opened QueueTheorems

  // ---- inner_enqueue ----

  /** The element of a call in progress. */
  function Offered<T>(p: Producer<T>): seq<T> {
    match p
    case PIdle => []
    case PDone(_) => []
    case PFault => []
    case _ => [p.x]
  }

  /** A step of inner_enqueue keeps its element until it publishes it. */
  lemma ProduceOffers<T>(s: State<T>)
    requires !s.p.PFault?
    ensures var s' := Produce(s);
            || (s'.sent == s.sent && (Offered(s'.p) == Offered(s.p) || s'.p.PFault? || s'.p == PDone(false)))
            || (s'.sent == s.sent + Offered(s.p) && s'.p == PDone(true))
    ensures ProducerIdle(s.p) ==> Produce(s) == s
    ensures !ProducerIdle(s.p) ==> Offered(s.p) != [] && (Produce(s).p == PDone(true) ==> Produce(s).sent == s.sent + Offered(s.p))
  {
    hide Bump, Set, Write, Get;
  }

  /** The element is published with the return of true, and only then. */
  predicate Publishing<T(==)>(s: State<T>, x: T, before: seq<T>) {
    if s.p.PDone? then s.sent == (if s.p.ok then before + [x] else before)
    else s.sent == before && (Offered(s.p) == [x] || s.p.PFault?)
  }

  lemma ProducePublishing<T>(s: State<T>, x: T, before: seq<T>)
    requires Publishing(s, x, before)
    ensures Publishing(Produce(s), x, before)
  {
    hide Bump, Set, Write, Get;
  }

  lemma StepPublishing<T>(s: State<T>, a: Action<T>, x: T, before: seq<T>)
    requires Publishing(s, x, before) && (a.Enqueue? ==> !ProducerIdle(s.p))
    ensures Publishing(Step(s, a), x, before)
  {
    hide Produce, Consume;
    match a
    case ProducerStep => ProducePublishing(s, x, before);
    case ConsumerStep =>
      ConsumerNearer(s);
      GotGrows(s);
    case _ =>
  }

  // ---- which blocks there are ----

  predicate SameBlocks<T>(s: State<T>, s': State<T>) {
    |s'.blocks| == |s.blocks| && s'.largest == s.largest
  }

  /** One block more, of twice the size of the largest. */
  predicate NewBlock<T>(s: State<T>, s': State<T>) {
    |s'.blocks| == |s.blocks| + 1 && s'.largest == 2 * s.largest && s'.blocks[|s.blocks|].size == s'.largest
  }

  predicate SameSizes<T>(s: State<T>, s': State<T>) {
    SameBlocks(s, s') && forall id :: 0 <= id < |s.blocks| ==> s'.blocks[id].size == s.blocks[id].size
  }

  lemma ConsumerBlocks<T>(s: State<T>)
    ensures SameSizes(s, Consume(s))
  {
    hide Bump;
  }

  lemma ProducerBlocks<T>(s: State<T>)
    ensures if s.p.PNew? then NewBlock(s, Produce(s)) else SameSizes(s, Produce(s))
  {
    hide Bump;
  }

  /** Which blocks a call that began in s may have made by now. */
  predicate Growing<T>(s: State<T>, s': State<T>, allowed: bool) {
    var p := s'.p;
    if p.PNewTail? || p.PNewNext? || p.PNewStoreNext? || p.PLink? then allowed && NewBlock(s, s')
    else if p.PStoreTailBlock? || p.PDone? then SameBlocks(s, s') || (allowed && NewBlock(s, s'))
    else SameBlocks(s, s')
  }

  /** Where inner_enqueue goes around the making of a block. */
  lemma NewOrder<T>(s: State<T>)
    ensures var p := Produce(s).p;
            && (s.p.PNew? <==> p.PNewTail?) && (p.PNewNext? ==> s.p.PNewTail?) && (p.PNewStoreNext? ==> s.p.PNewNext?)
            && (p.PLink? ==> s.p.PNewStoreNext?) && (s.p.PNewTail? ==> p.PNewNext? || p.PFault?)
            && (s.p.PNewNext? ==> p.PNewStoreNext?) && (s.p.PNewStoreNext? ==> p.PLink?) && (s.p.PLink? ==> p.PStoreTailBlock?)
            && (s.p.PStoreTailBlock? ==> p == PDone(true)) && (ProducerIdle(s.p) ==> p == s.p)
  {
    hide Bump, Set, Write, Get;
  }

  lemma StepGrowing<T>(s: State<T>, s': State<T>, allowed: bool, a: Action<T>)
    requires Growing(s, s', allowed) && (a.Enqueue? ==> !ProducerIdle(s'.p)) && !s'.p.PFault? && !Produce(s').p.PFault? && (s'.p.PNew? ==> allowed)
    ensures Growing(s, Step(s', a), allowed)
  {
    hide Produce, Consume;
    ProducerBlocks(s');
    ConsumerBlocks(s');
    NewOrder(s');
    ConsumerNearer(s');
  }

  // ---- a call in progress ----

  predicate HasMode<T>(p: Producer<T>, mode: Mode) {
    match p
    case PStart(_, m) => m == mode
    case PFront(_, m, _) => m == mode
    case PTail(_, m, _, _) => m == mode
    case PNext(_, m, _) => m == mode
    case PFrontBlock(_, m, _, _) => m == mode
    case PNew(_, _) => mode.CanAlloc?
    case _ => true
  }

  lemma StepHasMode<T>(s: State<T>, mode: Mode, a: Action<T>)
    requires HasMode(s.p, mode) && (a.Enqueue? ==> !ProducerIdle(s.p))
    ensures HasMode(Step(s, a).p, mode)
  {
    hide Bump, Set, Write, Get;
    match a
    case ProducerStep =>
    case _ =>
      ConsumerNearer(s);
      hide Consume;
  }

  /** A call that has seen no room so far: try_enqueue is on its way to false, and enqueue to a new block. */
  predicate Roomless<T>(s: State<T>, s': State<T>, mode: Mode) {
    var b := Get(s', s'.tailBlock);
    HasMode(s'.p, mode) &&
    match s'.p
    case PStart(_, _) => true
    case PFront(_, _, tb) => tb == s'.tailBlock
    case PTail(_, _, tb, blockFront) => tb == s'.tailBlock && blockFront == Bump(b.tail, b.size)
    case PNext(_, _, tb) => tb == s'.tailBlock
    case PFrontBlock(_, _, _, nb) => nb == b.next
    case PNew(_, _) => true
    case PNewTail(_, _, _) => mode.CanAlloc?
    case PNewNext(_, _, _) => mode.CanAlloc?
    case PNewStoreNext(_, _, _, _) => mode.CanAlloc?
    case PLink(_, _, _) => mode.CanAlloc?
    case PStoreTailBlock(_, _) => mode.CanAlloc? && !SameBlocks(s, s')
    case PDone(ok) => if mode.CanAlloc? then ok && !SameBlocks(s, s') else !ok
    case _ => false
  }

  lemma ReadingRoomless<T>(s: State<T>, s': State<T>, mode: Mode)
    requires Roomless(s, s', mode) && NoRoom(s') && Reading(s'.p)
    ensures Roomless(s, Produce(s'), mode)
  {
    hide Bump;
  }

  lemma MakingRoomless<T>(s: State<T>, s': State<T>, mode: Mode)
    requires Roomless(s, s', mode) && !Reading(s'.p) && !ProducerIdle(s'.p) && Growing(s, s', true) && !Produce(s').p.PFault?
    ensures Roomless(s, Produce(s'), mode)
  {
    hide Bump, Set, Write, Get;
    ProducerBlocks(s');
  }

  lemma StepRoomless<T>(s: State<T>, s': State<T>, mode: Mode, a: Action<T>)
    requires Roomless(s, s', mode) && (Reading(s'.p) ==> NoRoom(s')) && !ProducerIdle(s'.p)
    requires Growing(s, s', true) && !Produce(s').p.PFault?
    ensures Roomless(s, Step(s', a), mode)
  {
    hide Bump, Growing;
    match a
    case ProducerStep =>
      if Reading(s'.p) {
        ReadingRoomless(s, s', mode);
      } else {
        MakingRoomless(s, s', mode);
      }
      hide Produce;
    case ConsumerStep =>
      ConsumerFrame(s', s'.tailBlock);
      ConsumerBlocks(s');
      hide Consume;
    case _ =>
  }

  /** What holds during a call of inner_enqueue that began in s. */
  predicate Enqueuing<T(==)>(s: State<T>, x: T, mode: Mode, s': State<T>) {
    && Publishing(s', x, s.sent)
    && HasMode(s'.p, mode) && (mode.CanAlloc? ==> NotFailing(s'.p))
    && Growing(s, s', mode.CanAlloc? && NoRoom(s))
    && (!NoRoom(s) ==> WillSucceed(s'))
  }

  lemma WillNotAllocate<T>(s: State<T>)
    ensures WillSucceed(s) ==> !s.p.PNew?
  {}

  lemma StepEnqueuing<T>(s: State<T>, x: T, mode: Mode, s': State<T>, ring: seq<nat>, t: nat, a: Action<T>)
    requires Good(s', ring, t) && Enqueuing(s, x, mode, s') && (a.Enqueue? ==> !ProducerIdle(s'.p))
    ensures Enqueuing(s, x, mode, Step(s', a))
  {
    hide Good, Publishing, NotFailing, Growing, NoRoom, WillSucceed, Step, ProducerIdle;
    StepPublishing(s', a, x, s.sent);
    StepHasMode(s', mode, a);
    NextFaultless(s', ring, t);
    WillNotAllocate(s');
    StepGrowing(s, s', mode.CanAlloc? && NoRoom(s), a);
    if mode.CanAlloc? {
      StepNotFailing(s', a);
    }
    if !NoRoom(s) {
      StepWillSucceed(s', ring, t, a);
    }
  }

  lemma NextFaultless<T>(s: State<T>, ring: seq<nat>, t: nat)
    requires Good(s, ring, t)
    ensures !s.p.PFault? && !Produce(s).p.PFault?
  {
    hide Produce;
    var ring', t' := StepGood(s, ring, t, ProducerStep);
    hide Ring, Flatten, Parts, ConsumerKnows;
  }

  lemma StartsEnqueuing<T>(s: State<T>, x: T, mode: Mode)
    requires ProducerIdle(s.p)
    ensures var s1 := Step(s, Enqueue(x, mode)); Enqueuing(s, x, mode, s1) && Roomless(s, s1, mode) && s1.p == PStart(x, mode) && NoRoom(s1) == NoRoom(s)
  {
    hide Bump;
  }

  lemma {:induction false} RunEnqueuing<T>(s: State<T>, x: T, mode: Mode, ring: seq<nat>, t: nat, acts: seq<Action<T>>)
    requires ProducerIdle(s.p) && Good(s, ring, t)
    requires ProducerBusy(Step(s, Enqueue(x, mode)), acts)
    ensures Enqueuing(s, x, mode, Run(Step(s, Enqueue(x, mode)), acts))
    decreases |acts|
  {
    hide Good, Enqueuing, Step, ProducerIdle;
    StartsEnqueuing(s, x, mode);
    var s1 := Step(s, Enqueue(x, mode));
    if acts != [] {
      var n := |acts| - 1;
      ProducerBusyBefore(s1, acts, n);
      RunEnqueuing(s, x, mode, ring, t, acts[..n]);
      var ring1, t1 := StepGood(s, ring, t, Enqueue(x, mode));
      ring1, t1 := GoodRun(s1, ring1, t1, acts[..n]);
      StepEnqueuing(s, x, mode, Run(s1, acts[..n]), ring1, t1, acts[n]);
    }
  }

  /** No room at any instant at which the call looks for it. */
  ghost predicate NeverRoom<T>(s: State<T>, acts: seq<Action<T>>) {
    forall k :: 0 <= k < |acts| ==> Reading(Run(s, acts[..k]).p) ==> NoRoom(Run(s, acts[..k]))
  }

  lemma NeverRoomBefore<T>(s: State<T>, acts: seq<Action<T>>, n: nat)
    requires n <= |acts| && NeverRoom(s, acts)
    ensures NeverRoom(s, acts[..n])
    ensures n < |acts| && Reading(Run(s, acts[..n]).p) ==> NoRoom(Run(s, acts[..n]))
  {
    hide NoRoom;
    forall k | 0 <= k < n ensures acts[..n][..k] == acts[..k] {
    }
  }

  lemma {:induction false} RunRoomless<T>(s: State<T>, x: T, mode: Mode, ring: seq<nat>, t: nat, acts: seq<Action<T>>)
    requires ProducerIdle(s.p) && Good(s, ring, t)
    requires var s1 := Step(s, Enqueue(x, mode)); ProducerBusy(s1, acts) && NeverRoom(s1, acts)
    ensures Roomless(s, Run(Step(s, Enqueue(x, mode)), acts), mode)
    decreases |acts|
  {
    hide Good, Enqueuing, Roomless, Step, ProducerIdle, NoRoom, ProducerBusy, NeverRoom;
    StartsEnqueuing(s, x, mode);
    var s1 := Step(s, Enqueue(x, mode));
    if acts != [] {
      var n := |acts| - 1;
      ProducerBusyBefore(s1, acts, n);
      NeverRoomBefore(s1, acts, n);
      RunRoomless(s, x, mode, ring, t, acts[..n]);
      RunEnqueuing(s, x, mode, ring, t, acts[..n]);
      var ring1, t1 := StepGood(s, ring, t, Enqueue(x, mode));
      ring1, t1 := GoodRun(s1, ring1, t1, acts[..n]);
      NextFaultless(Run(s1, acts[..n]), ring1, t1);
      EnqueuingGrowing(s, x, mode, Run(s1, acts[..n]));
      StepRoomless(s, Run(s1, acts[..n]), mode, acts[n]);
    }
  }

  lemma EnqueuingGrowing<T>(s: State<T>, x: T, mode: Mode, s': State<T>)
    requires Enqueuing(s, x, mode, s')
    ensures Growing(s, s', true)
  {
    hide NoRoom, NewBlock, SameBlocks;
  }

  /** A call of enqueue or try_enqueue, up to its return. The element is published exactly if the call returns true. If there is
      room when it is called, it returns true and makes no block; if there is none whenever it looks, try_enqueue returns
      false, and enqueue returns true with one block more, of twice the largest size. try_enqueue never makes a block. */
  lemma EnqueueCall<T>(maxSize: nat, before: seq<Action<T>>, x: T, mode: Mode, acts: seq<Action<T>>)
    requires maxSize >= 1 && ProducerIdle(Run(Init<T>(maxSize), before).p)
    requires var s1 := Step(Run(Init(maxSize), before), Enqueue(x, mode)); ProducerBusy(s1, acts)
    ensures var s := Run(Init(maxSize), before); var s1 := Step(s, Enqueue(x, mode)); var s' := Run(s1, acts);
            && (SameBlocks(s, s') || (mode.CanAlloc? && NoRoom(s) && NewBlock(s, s')))
            && (ProducerIdle(s'.p) ==>
                && s'.p.PDone? && s'.sent == (if s'.p.ok then s.sent + [x] else s.sent)
                && (mode.CanAlloc? || !NoRoom(s) ==> s'.p.ok)
                && (NeverRoom(s1, acts) ==> s'.p.ok == mode.CanAlloc? == NewBlock(s, s')))
  {
    hide Good, Step, Enqueuing, Roomless, NoRoom, ProducerBusy, NeverRoom;
    var s := Run(Init(maxSize), before);
    var ring, t := Reachable(maxSize, before);
    RunEnqueuing(s, x, mode, ring, t, acts);
    var s1 := Step(s, Enqueue(x, mode));
    var s' := Run(s1, acts);
    EnqueuingEnd(s, x, mode, s');
    if NeverRoom(s1, acts) && ProducerIdle(s'.p) {
      RunRoomless(s, x, mode, ring, t, acts);
      RoomlessEnd(s, s', mode);
    }
  }

  lemma EnqueuingEnd<T>(s: State<T>, x: T, mode: Mode, s': State<T>)
    requires Enqueuing(s, x, mode, s')
    ensures SameBlocks(s, s') || (mode.CanAlloc? && NoRoom(s) && NewBlock(s, s'))
    ensures ProducerIdle(s'.p) ==>
              && s'.p.PDone? && s'.sent == (if s'.p.ok then s.sent + [x] else s.sent)
              && (mode.CanAlloc? || !NoRoom(s) ==> s'.p.ok)
  {
    hide NoRoom;
  }

  lemma RoomlessEnd<T>(s: State<T>, s': State<T>, mode: Mode)
    requires Roomless(s, s', mode) && ProducerIdle(s'.p)
    ensures s'.p == PDone(mode.CanAlloc?) && (mode.CanAlloc? ==> !SameBlocks(s, s'))
    ensures SameBlocks(s, s') ==> !NewBlock(s, s')
  {}

  /** While the consumer takes no step, the room is at every instant what it was. */
  lemma {:induction false} RoomStays<T>(s: State<T>, acts: seq<Action<T>>, k: nat)
    requires s.p.PStart? && NoRoom(s) && ProducerBusy(s, acts) && k <= |acts|
    requires forall i :: 0 <= i < |acts| ==> !acts[i].ConsumerStep?
    ensures Reading(Run(s, acts[..k]).p) ==> NoRoom(Run(s, acts[..k]))
    decreases k
  {
    hide NoRoom, Step, ProducerIdle;
    if k == 0 {
      assert acts[..0] == [];
    } else {
      RoomStays(s, acts, k - 1);
      assert acts[..k][..k - 1] == acts[..k - 1];
      ReadsOn(Run(s, acts[..k - 1]), acts[k - 1]);
    }
  }

  lemma ReadsOn<T>(s: State<T>, a: Action<T>)
    requires !ProducerIdle(s.p) && !a.ConsumerStep?
    ensures Reading(Step(s, a).p) ==> Reading(s.p) && NoRoom(Step(s, a)) == NoRoom(s)
  {
    hide Produce, NoRoom;
    match a
    case ProducerStep =>
      if Reading(s.p) {
        SameRoom(s);
      } else {
        NeverReadsAgain(s);
      }
    case Ask(call) => AskedRoom(s, CStart(call));
    case Enqueue(x, mode) =>
  }

  /** In particular, while the consumer takes no step, try_enqueue returns true exactly if there is room when it is called. */
  lemma TryEnqueueAlone<T>(maxSize: nat, before: seq<Action<T>>, x: T, acts: seq<Action<T>>)
    requires maxSize >= 1 && ProducerIdle(Run(Init<T>(maxSize), before).p)
    requires var s1 := Step(Run(Init(maxSize), before), Enqueue(x, CannotAlloc));
             ProducerBusy(s1, acts) && ProducerIdle(Run(s1, acts).p)
    requires forall i :: 0 <= i < |acts| ==> !acts[i].ConsumerStep?
    ensures var s := Run(Init(maxSize), before); var s1 := Step(s, Enqueue(x, CannotAlloc));
            Run(s1, acts).p == PDone(!NoRoom(s))
  {
    hide Step, NoRoom, ProducerBusy, Reading;
    var s := Run(Init(maxSize), before);
    EnqueueCall(maxSize, before, x, CannotAlloc, acts);
    StartsEnqueuing(s, x, CannotAlloc);
    var s1 := Step(s, Enqueue(x, CannotAlloc));
    if NoRoom(s) {
      forall k | 0 <= k < |acts| && Reading(Run(s1, acts[..k]).p) ensures NoRoom(Run(s1, acts[..k])) {
        RoomStays(s1, acts, k);
      }
      assert NeverRoom(s1, acts);
    }
  }

  // ---- try_dequeue, pop and peek ----

  /** A call of try_dequeue, pop or peek, up to its return. If the queue holds anything when it is called it succeeds, and what
      is removed or shown is the oldest element; if the queue is empty and stays so it does not; peek removes nothing. */
  lemma DequeueCall<T>(maxSize: nat, before: seq<Action<T>>, call: Call, acts: seq<Action<T>>)
    requires maxSize >= 1 && ConsumerIdle(Run(Init<T>(maxSize), before).c)
    requires var s1 := Step(Run(Init(maxSize), before), Ask(call)); ConsumerBusy(s1, acts) && ConsumerIdle(Run(s1, acts).c)
    ensures var s := Run(Init(maxSize), before); var s' := Run(Step(s, Ask(call)), acts);
            && (AbsQueue(s) == [] && s'.sent == s.sent ==> s'.c == CDone(false))
            && (s'.c == CDone(false) ==> AbsQueue(s) == [] && s'.got == s.got)
            && (AbsQueue(s) != [] ==> |s.got| < |s'.sent| && s'.sent[|s.got|] == AbsQueue(s)[0])
            && (s'.c != CDone(false) ==> if call.Take? then s'.c == CDone(true) else s'.c.CPeeked?)
            && (s'.c == CDone(true) ==> |s.got| < |s'.sent| && s'.got == s.got + [s'.sent[|s.got|]])
            && (s'.c.CPeeked? ==> |s.got| < |s'.sent| && s'.got == s.got
                                  && Read(Get(s', s'.c.block), s'.c.index) == Full(s'.sent[|s.got|]))
  {
    hide Good, AbsQueue, ConsumerBusy, Produce, Consume;
    var s := Run(Init(maxSize), before);
    var s1 := Step(s, Ask(call));
    var s' := Run(s1, acts);
    RunOneCall(s1, acts);
    StartedRun(maxSize, before, Ask(call), acts);
    FirstInFirstOut(maxSize, before);
    FirstInFirstOut(maxSize, before + [Ask(call)] + acts);
    HistoriesGrow(s1, acts, 0);
    assert Run(s1, acts[..0]) == s1;
    if s'.c == CDone(false) {
      DequeueFalse(maxSize, before + [Ask(call)], acts);
      AskKeepsQueue(s, call);
    } else if s'.c.CPeeked? {
      PeekShowsHead(maxSize, before + [Ask(call)] + acts);
    }
  }

  lemma AskKeepsQueue<T>(s: State<T>, call: Call)
    requires ConsumerIdle(s.c)
    ensures AbsQueue(s.(c := CStart(call))) == AbsQueue(s)
  {
    hide Walk;
  }

  lemma StartedRun<T>(maxSize: nat, before: seq<Action<T>>, a: Action<T>, acts: seq<Action<T>>)
    ensures var s := Run(Init(maxSize), before);
            && Run(Init(maxSize), before + [a]) == Step(s, a)
            && Run(Init(maxSize), before + [a] + acts) == Run(Step(s, a), acts)
  {
    hide Step;
    RunJoin(Init<T>(maxSize), before + [a], acts);
    assert (before + [a])[..|before|] == before;
  }

  /** After a successful peek, pop cannot fail, and what it removes is the element that peek showed, whatever the
      producer does in between. */
  lemma PopAfterPeek<T>(maxSize: nat, before: seq<Action<T>>, acts: seq<Action<T>>)
    requires maxSize >= 1 && Run(Init<T>(maxSize), before).c.CPeeked?
    requires var s := Step(Run(Init(maxSize), before), Ask(Take)); ConsumerBusy(s, acts) && ConsumerIdle(Run(s, acts).c)
    ensures var s := Run(Init(maxSize), before); var s' := Run(Step(s, Ask(Take)), acts);
            && |AbsQueue(s)| >= 1 && Read(Get(s, s.c.block), s.c.index) == Full(AbsQueue(s)[0])
            && s'.c == CDone(true) && s'.got == s.got + [AbsQueue(s)[0]]
  {
    hide AbsQueue, ConsumerBusy, Produce, Consume;
    PeekShowsHead(maxSize, before);
    DequeueCall(maxSize, before, Take, acts);
  }
}
