/** What the queue promises, in every interleaving of a producer and a consumer. */
module QueueTheorems {
  import opened Blocks
  import opened ReaderWriterQueue
  import opened QueueInvariant
  import opened QueueSteps

  // ---- the abstract queue ----

  /** The contents of the blocks from id along next up to tailBlock. */
  function Walk<T>(v: View<T>, id: nat, fuel: nat): seq<T>
    decreases fuel
  {
    if fuel == 0 then []
    else Contents(v, id) + (if id == v.tailBlock then [] else Walk(v, At(v, id).next, fuel - 1))
  }

  /** The elements in the queue, oldest first: those a consumer could still see. */
  function AbsQueue<T>(s: State<T>): seq<T> {
    Walk(ViewOf(s), s.frontBlock, |s.blocks|)
  }

  /** Distinct numbers below n are at most n. */
  lemma {:induction false} Pigeons(ring: seq<nat>, n: nat)
    requires Distinct(ring) && forall i :: 0 <= i < |ring| ==> ring[i] < n
    ensures |ring| <= n
    decreases n
  {
    if |ring| >= 1 {
      assert ring[0] < n;
      if i :| 0 <= i < |ring| && ring[i] == n - 1 {
        var rest := ring[..i] + ring[i + 1..];
        forall j, k | 0 <= j < k < |rest| ensures rest[j] != rest[k] {
          assert rest[j] == ring[if j < i then j else j + 1] && rest[k] == ring[if k < i then k else k + 1];
        }
        forall j | 0 <= j < |rest| ensures rest[j] < n - 1 {
          assert rest[j] == ring[if j < i then j else j + 1];
        }
        Pigeons(rest, n - 1);
      } else {
        Pigeons(ring, n - 1);
      }
    }
  }

  lemma {:induction false} WalkIsRing<T>(v: View<T>, ring: seq<nat>, t: nat, i: nat, fuel: nat)
    requires Ring(v, ring, t) && i <= t && fuel > t - i
    ensures Walk(v, ring[i], fuel) == Flatten(Parts(v, ring, t)[i..])
    decreases t - i
  {
    hide Contents, Flatten, At, Distinct;
    var parts := Parts(v, ring, t);
    PartsAt(v, ring, t, i);
    assert parts[i..] == [parts[i]] + parts[i + 1..];
    FlattenFront(parts[i], parts[i + 1..]);
    RingStop(v, ring, t, i);
    if i == t {
      FlattenEmpty<T>();
    } else {
      WalkIsRing(v, ring, t, i + 1, fuel - 1);
    }
  }

  lemma FlattenEmpty<T>()
    ensures Flatten<T>([]) == []
  {}

  lemma RingStop<T>(v: View<T>, ring: seq<nat>, t: nat, i: nat)
    requires Ring(v, ring, t) && i <= t
    ensures ring[i] == v.tailBlock <==> i == t
    ensures i < t ==> At(v, ring[i]).next == ring[i + 1]
  {
    assert Stop(v, ring, t, i);
  }

  lemma AbsQueueIsRing<T>(s: State<T>, ring: seq<nat>, t: nat)
    requires Good(s, ring, t)
    ensures AbsQueue(s) == Flatten(Parts(ViewOf(s), ring, t))
    ensures s.sent == s.got + AbsQueue(s)
  {
    hide Flatten, Parts, ProducerKnows, ConsumerKnows, Stop;
    var v := ViewOf(s);
    RingIds(v, ring, t);
    Pigeons(ring, |s.blocks|);
    WalkIsRing(v, ring, t, 0, |s.blocks|);
    assert Parts(v, ring, t)[0..] == Parts(v, ring, t);
  }

  // ---- every run ----

  lemma InitGood<T>(maxSize: nat)
    requires maxSize >= 1
    ensures Good(Init<T>(maxSize), [0], 0)
  {
    hide PowerOfTwo;
    var s := Init<T>(maxSize);
    var v := ViewOf(s);
    assert Window(s.blocks[0].data, 0, 0);
    assert BlockOk(v, 0);
    assert Parts(v, [0], 0) == [[]];
    assert Flatten([[]]) == Flatten<T>([]) + [];
  }

  /** In every reachable state the blocks form the ring and both threads know what they need: the blocks after
      frontBlock up to tailBlock hold elements, and those beyond tailBlock none but the one being prepared. */
  lemma {:induction false} Reachable<T>(maxSize: nat, acts: seq<Action<T>>) returns (ring: seq<nat>, t: nat)
    requires maxSize >= 1
    ensures Good(Run(Init(maxSize), acts), ring, t)
    decreases |acts|
  {
    hide Good, Step;
    if acts == [] {
      InitGood<T>(maxSize);
      ring, t := [0], 0;
    } else {
      var n := |acts| - 1;
      ring, t := Reachable(maxSize, acts[..n]);
      ring, t := StepGood(Run(Init(maxSize), acts[..n]), ring, t, acts[n]);
    }
  }

  /** The elements removed so far followed by those in the queue are exactly those enqueued, in order: nothing is lost,
      duplicated or reordered, whatever blocks are advanced over, reused or added. */
  lemma FirstInFirstOut<T>(maxSize: nat, acts: seq<Action<T>>)
    requires maxSize >= 1
    ensures var s := Run(Init(maxSize), acts); s.sent == s.got + AbsQueue(s)
  {
    hide Good;
    var ring, t := Reachable(maxSize, acts);
    AbsQueueIsRing(Run(Init(maxSize), acts), ring, t);
  }

  /** No assertion of the code fails, no element is constructed over another, and no empty slot is read. */
  lemma NeverFaults<T>(maxSize: nat, acts: seq<Action<T>>)
    requires maxSize >= 1
    ensures var s := Run(Init(maxSize), acts); !s.p.PFault? && !s.c.CFault?
  {
    hide Ring, Flatten, Parts;
    var ring, t := Reachable(maxSize, acts);
  }

  // ---- calls that fail ----

  /** tailBlock is full and the block after it is the front block. */
  predicate NoRoom<T>(s: State<T>) {
    var b := Get(s, s.tailBlock);
    Bump(b.tail, b.size) == b.front && b.next == s.frontBlock
  }

  predicate FreeAhead<T>(s: State<T>) {
    Get(s, s.tailBlock).next != s.frontBlock
  }

  /** inner_enqueue has seen nothing yet that makes it return false or allocate. */
  predicate MaySucceed<T>(s: State<T>) {
    match s.p
    case PTail(_, _, tb, blockFront) => FreeAhead(s) || Bump(Get(s, tb).tail, Get(s, tb).size) != blockFront
    case PNext(_, _, _) => FreeAhead(s)
    case PFrontBlock(_, _, _, _) => FreeAhead(s)
    case PNew(_, _) => false
    case PDone(ok) => ok
    case _ => true
  }

  /** The consumer leaves next and tail of every block alone. */
  lemma ConsumerFrame<T>(s: State<T>, id: nat)
    ensures var s' := Consume(s);
            && s'.tailBlock == s.tailBlock && s'.p == s.p && Get(s', id).next == Get(s, id).next
            && Get(s', id).tail == Get(s, id).tail && Get(s', id).size == Get(s, id).size
    ensures !s.c.CAdvance? ==> Consume(s).frontBlock == s.frontBlock
    ensures !s.c.CStoreFront? || s.c.fb != id ==> Get(Consume(s), id).front == Get(s, id).front
  {
    hide Bump;
  }

  /** A free block ahead of tailBlock stays free until the producer takes it. */
  lemma FreeStays<T>(s: State<T>, ring: seq<nat>, t: nat)
    requires Good(s, ring, t) && FreeAhead(s)
    ensures FreeAhead(Consume(s))
  {
    var v := ViewOf(s);
    ConsumerFrame(s, s.tailBlock);
    AtTail(v, ring, t);
    AtFront(v, ring, t);
    hide Ring, ProducerKnows, Parts, Flatten, BlockOk, Read, Write, Set;
    if s.c.CAdvance? {
      assert Consume(s).frontBlock == ring[1];
    }
  }

  /** The block the producer compares with is tailBlock. */
  lemma ProducerOwns<T>(s: State<T>, ring: seq<nat>, t: nat)
    requires Good(s, ring, t)
    ensures s.p.PFront? || s.p.PTail? || s.p.PNext? || s.p.PFrontBlock? ==> s.p.tb == s.tailBlock
    ensures s.p.PFrontBlock? ==> s.p.nb == Get(s, s.tailBlock).next
  {
    hide Ring, ConsumerKnows, Parts, Flatten, BlockOk;
  }

  lemma EarlyMaySucceed<T>(s: State<T>)
    requires MaySucceed(s) && !NoRoom(s) && (s.p.PStart? || s.p.PFront? || s.p.PTail?)
    requires !s.p.PStart? ==> s.p.tb == s.tailBlock
    ensures MaySucceed(Produce(s))
  {
    hide Bump;
  }

  lemma LaterMaySucceed<T>(s: State<T>)
    requires MaySucceed(s) && !ProducerIdle(s.p) && !s.p.PStart? && !s.p.PFront? && !s.p.PTail?
    requires s.p.PFrontBlock? ==> s.p.nb == Get(s, s.tailBlock).next
    ensures MaySucceed(Produce(s))
  {
    hide Bump, Set, Write;
  }

  lemma ProducerMaySucceed<T>(s: State<T>, ring: seq<nat>, t: nat)
    requires Good(s, ring, t) && MaySucceed(s) && !NoRoom(s) && !ProducerIdle(s.p)
    ensures MaySucceed(Produce(s))
  {
    ProducerOwns(s, ring, t);
    hide Good, MaySucceed, NoRoom, Produce, Get;
    if s.p.PStart? || s.p.PFront? || s.p.PTail? {
      EarlyMaySucceed(s);
    } else {
      LaterMaySucceed(s);
    }
  }

  lemma StepMaySucceed<T>(s: State<T>, ring: seq<nat>, t: nat, a: Action<T>)
    requires Good(s, ring, t) && MaySucceed(s) && !NoRoom(s) && !ProducerIdle(s.p)
    ensures MaySucceed(Step(s, a))
  {
    match a
    case ProducerStep =>
      ProducerMaySucceed(s, ring, t);
    case ConsumerStep =>
      if FreeAhead(s) {
        FreeStays(s, ring, t);
      }
      ConsumerFrame(s, s.tailBlock);
      ProducerOwns(s, ring, t);
      hide Consume, Good;
    case _ =>
  }

  /** inner_enqueue has only read so far. */
  predicate Reading<T>(p: Producer<T>) {
    p.PStart? || p.PFront? || p.PTail? || p.PNext? || p.PFrontBlock?
  }

  lemma BumpApart(front: nat, tail: nat, size: nat)
    requires front < size && tail < size && front != tail
    ensures Bump(front, size) != Bump(tail, size)
  {}

  /** The consumer takes no room away. */
  lemma ConsumerMakesRoom<T>(s: State<T>, ring: seq<nat>, t: nat)
    requires Good(s, ring, t) && !NoRoom(s)
    ensures !NoRoom(Consume(s))
  {
    var v, id := ViewOf(s), s.tailBlock;
    AtTail(v, ring, t);
    ConsumerFrame(s, id);
    if FreeAhead(s) {
      FreeStays(s, ring, t);
    } else if s.c.CStoreFront? && s.c.fb == id {
      assert s.c.newFront == Bump(Get(s, id).front, Get(s, id).size) && Get(s, id).front != Get(s, id).tail by {
        hide Ring, ProducerKnows, Parts, Flatten, BlockOk;
      }
      BumpApart(Get(s, id).front, Get(s, id).tail, Get(s, id).size);
      hide Good, Ring, Bump, Parts, Flatten;
    } else {
      hide Good, Ring, Bump, Parts, Flatten, Consume;
    }
  }

  lemma ReadingOnly<T>(s: State<T>)
    requires Reading(s.p)
    ensures Produce(s) == s.(p := Produce(s).p)
  {}

  /** A call that finds room neither fails nor allocates. */
  predicate WillSucceed<T>(s: State<T>) {
    MaySucceed(s) && (Reading(s.p) ==> !NoRoom(s))
  }

  lemma StepWillSucceed<T>(s: State<T>, ring: seq<nat>, t: nat, a: Action<T>)
    requires Good(s, ring, t) && WillSucceed(s) && (a.Enqueue? ==> !ProducerIdle(s.p))
    ensures WillSucceed(Step(s, a))
  {
    hide Good, NoRoom, Bump;
    match a
    case ProducerStep =>
      if Reading(s.p) {
        ReadingOnly(s);
        ProducerMaySucceed(s, ring, t);
        assert NoRoom(Produce(s)) == NoRoom(s) by {
          SameRoom(s);
        }
        hide Produce;
      } else if !ProducerIdle(s.p) {
        NeverReadsAgain(s);
        LaterMaySucceed(s);
        hide Produce;
      }
    case ConsumerStep =>
      hide Consume;
      ConsumerFrame(s, s.tailBlock);
      if Reading(s.p) {
        ConsumerMakesRoom(s, ring, t);
        StepMaySucceed(s, ring, t, a);
      }
    case Ask(call) => AskedRoom(s, CStart(call));
    case Enqueue(x, mode) =>
  }

  lemma AskedRoom<T>(s: State<T>, c: Consumer)
    ensures NoRoom(s.(c := c)) == NoRoom(s)
  {}

  lemma SameRoom<T>(s: State<T>)
    requires Reading(s.p)
    ensures NoRoom(Produce(s)) == NoRoom(s)
  {
    hide Bump;
  }

  lemma NeverReadsAgain<T>(s: State<T>)
    requires !Reading(s.p)
    ensures !Reading(Produce(s).p)
  {
    hide Bump, Set, Write, Get;
  }

  ghost predicate ProducerBusy<T>(s: State<T>, acts: seq<Action<T>>) {
    forall k :: 0 <= k < |acts| ==> !ProducerIdle(Run(s, acts[..k]).p)
  }

  lemma {:induction false} GoodRun<T>(s: State<T>, ring: seq<nat>, t: nat, acts: seq<Action<T>>)
    returns (ring': seq<nat>, t': nat)
    requires Good(s, ring, t)
    ensures Good(Run(s, acts), ring', t')
    decreases |acts|
  {
    hide Good, Step;
    if acts == [] {
      ring', t' := ring, t;
    } else {
      var n := |acts| - 1;
      ring', t' := GoodRun(s, ring, t, acts[..n]);
      ring', t' := StepGood(Run(s, acts[..n]), ring', t', acts[n]);
    }
  }

  lemma {:induction false} EnqueueHistory<T>(s: State<T>, ring: seq<nat>, t: nat, acts: seq<Action<T>>)
    requires Good(s, ring, t) && s.p.PStart? && !NoRoom(s) && ProducerBusy(s, acts)
    ensures WillSucceed(Run(s, acts))
    decreases |acts|
  {
    hide Good, Step, NoRoom;
    if acts != [] {
      hide WillSucceed;
      var n := |acts| - 1;
      ProducerBusyBefore(s, acts, n);
      EnqueueHistory(s, ring, t, acts[..n]);
      var ring', t' := GoodRun(s, ring, t, acts[..n]);
      StepWillSucceed(Run(s, acts[..n]), ring', t', acts[n]);
    }
  }

  lemma ProducerBusyBefore<T>(s: State<T>, acts: seq<Action<T>>, n: nat)
    requires n <= |acts| && ProducerBusy(s, acts)
    ensures ProducerBusy(s, acts[..n])
    ensures n < |acts| ==> !ProducerIdle(Run(s, acts[..n]).p)
  {
    forall k | 0 <= k < n ensures !ProducerIdle(Run(s, acts[..n][..k]).p) {
      assert acts[..n][..k] == acts[..k];
    }
  }

  /** If try_enqueue returns false, then there was no room when it was called: the tail block was full and there was no
      free block ahead. */
  lemma EnqueueFalse<T>(maxSize: nat, before: seq<Action<T>>, acts: seq<Action<T>>)
    requires maxSize >= 1
    requires var s := Run(Init(maxSize), before); s.p.PStart? && ProducerBusy(s, acts) && Run(s, acts).p == PDone(false)
    ensures NoRoom(Run(Init<T>(maxSize), before))
  {
    hide Good, NoRoom;
    var s := Run(Init(maxSize), before);
    var ring, t := Reachable(maxSize, before);
    if !NoRoom(s) {
      EnqueueHistory(s, ring, t, acts);
    }
  }

  /** enqueue, which may allocate, never fails. */
  predicate NotFailing<T>(p: Producer<T>) {
    match p
    case PStart(_, mode) => mode.CanAlloc?
    case PFront(_, mode, _) => mode.CanAlloc?
    case PTail(_, mode, _, _) => mode.CanAlloc?
    case PNext(_, mode, _) => mode.CanAlloc?
    case PFrontBlock(_, mode, _, _) => mode.CanAlloc?
    case PDone(ok) => ok
    case _ => true
  }

  lemma StepNotFailing<T>(s: State<T>, a: Action<T>)
    requires NotFailing(s.p) && (a.Enqueue? ==> !ProducerIdle(s.p))
    ensures NotFailing(Step(s, a).p)
  {
    hide Bump, Set, Write, Get;
    match a
    case ProducerStep =>
    case _ =>
      ConsumerSilent(s);
      hide Consume;
  }

  lemma ConsumerSilent<T>(s: State<T>)
    ensures Consume(s).p == s.p
  {
    hide Bump, Set, Write, Get;
  }

  /** enqueue always succeeds, whatever the consumer does. */
  lemma {:induction false} EnqueueSucceeds<T>(s: State<T>, acts: seq<Action<T>>)
    requires s.p.PStart? && s.p.mode.CanAlloc? && ProducerBusy(s, acts)
    ensures NotFailing(Run(s, acts).p)
    decreases |acts|
  {
    hide Step, ProducerIdle;
    if acts == [] {
    } else {
      hide NotFailing;
      var n := |acts| - 1;
      ProducerBusyBefore(s, acts, n);
      EnqueueSucceeds(s, acts[..n]);
      StepNotFailing(Run(s, acts[..n]), acts[n]);
    }
  }

  /** How many more steps of its own inner_enqueue needs at most. */
  function ProducerRank<T>(p: Producer<T>): nat {
    match p
    case PStart(_, _) => 11
    case PFront(_, _, _) => 10
    case PTail(_, _, _, _) => 9
    case PNext(_, _, _) => 8
    case PFrontBlock(_, _, _, _) => 7
    case PNew(_, _) => 6
    case PNewTail(_, _, _) => 5
    case PNextAgain(_, _) => 6
    case PNextFront(_, _) => 5
    case PNewNext(_, _, _) => 4
    case PNextTail(_, _, _) => 4
    case PNewStoreNext(_, _, _, _) => 3
    case PNextWrite(_, _, _) => 3
    case PLink(_, _, _) => 2
    case PNextStoreTail(_, _, _) => 2
    case PWrite(_, _, _) => 2
    case PStoreTail(_, _, _) => 1
    case PStoreTailBlock(_, _) => 1
    case _ => 0
  }

  function ConsumerRank(c: Consumer): nat {
    match c
    case CStart(_) => 10
    case CFrontBlock(_, _) => 9
    case CTail(_, _, _) => 8
    case CFront(_, _, _, _) => 7
    case CNext(_, _) => 6
    case CNextFront(_, _) => 5
    case CNextTail(_, _, _) => 4
    case CAdvance(_, _) => 3
    case CRead(_, _) => 2
    case CStoreFront(_, _) => 1
    case _ => 0
  }

  /** Every step brings a call nearer its end, and no step of the other thread sets it back. */
  lemma ProducerNearer<T>(s: State<T>)
    ensures ProducerRank(s.p) >= 1 ==> ProducerRank(Produce(s).p) < ProducerRank(s.p) <= 11
    ensures Produce(s).c == s.c
    ensures ProducerRank(s.p) == 0 <==> ProducerIdle(s.p) || s.p.PFault?
  {
    hide Bump, Set, Write, Get;
  }

  lemma ConsumerNearer<T>(s: State<T>)
    ensures ConsumerRank(s.c) >= 1 ==> ConsumerRank(Consume(s).c) < ConsumerRank(s.c) <= 10
    ensures Consume(s).p == s.p
    ensures ConsumerRank(s.c) == 0 <==> ConsumerIdle(s.c) || s.c.CFault?
  {
    hide Bump, Set, Write, Get;
  }

  function ProducerSteps<T>(acts: seq<Action<T>>): nat {
    if acts == [] then 0 else ProducerSteps(acts[..|acts| - 1]) + if acts[|acts| - 1].ProducerStep? then 1 else 0
  }

  function ConsumerSteps<T>(acts: seq<Action<T>>): nat {
    if acts == [] then 0 else ConsumerSteps(acts[..|acts| - 1]) + if acts[|acts| - 1].ConsumerStep? then 1 else 0
  }

  lemma StepRank<T>(s: State<T>, a: Action<T>)
    requires !s.p.PFault? && !s.c.CFault?
    ensures !ProducerIdle(s.p) ==>
              ProducerRank(Step(s, a).p) + (if a.ProducerStep? then 1 else 0) <= ProducerRank(s.p)
    ensures !ConsumerIdle(s.c) ==>
              ConsumerRank(Step(s, a).c) + (if a.ConsumerStep? then 1 else 0) <= ConsumerRank(s.c)
  {
    ProducerNearer(s);
    ConsumerNearer(s);
    hide Produce, Consume, ProducerRank, ConsumerRank;
  }

  /** The steps of a call that is not over yet. */
  lemma {:induction false} ProducerRankFalls<T>(maxSize: nat, before: seq<Action<T>>, acts: seq<Action<T>>)
    requires maxSize >= 1 && ProducerBusy(Run(Init(maxSize), before), acts)
    ensures var s := Run(Init(maxSize), before); ProducerSteps(acts) + ProducerRank(Run(s, acts).p) <= ProducerRank(s.p)
    decreases |acts|
  {
    hide Step, ProducerIdle, ProducerRank;
    if acts != [] {
      var s, n := Run(Init(maxSize), before), |acts| - 1;
      ProducerBusyBefore(s, acts, n);
      ProducerRankFalls(maxSize, before, acts[..n]);
      RunJoin(Init(maxSize), before, acts[..n]);
      NeverFaults(maxSize, before + acts[..n]);
      StepRank(Run(s, acts[..n]), acts[n]);
    }
  }

  lemma {:induction false} ConsumerRankFalls<T>(maxSize: nat, before: seq<Action<T>>, acts: seq<Action<T>>)
    requires maxSize >= 1 && ConsumerBusy(Run(Init(maxSize), before), acts)
    ensures var s := Run(Init(maxSize), before); ConsumerSteps(acts) + ConsumerRank(Run(s, acts).c) <= ConsumerRank(s.c)
    decreases |acts|
  {
    hide Step, ConsumerIdle, ConsumerRank;
    if acts != [] {
      var s, n := Run(Init(maxSize), before), |acts| - 1;
      BusyBefore(s, acts, n);
      ConsumerRankFalls(maxSize, before, acts[..n]);
      RunJoin(Init(maxSize), before, acts[..n]);
      NeverFaults(maxSize, before + acts[..n]);
      StepRank(Run(s, acts[..n]), acts[n]);
    }
  }

  /** Neither thread waits for the other: in every run a call has at most 11 steps of the producer, or 10 of the consumer,
      and with the last of so many it has returned, however many steps of the other thread come in between. */
  lemma WaitFree<T>(maxSize: nat, before: seq<Action<T>>, acts: seq<Action<T>>)
    requires maxSize >= 1
    ensures var s := Run(Init(maxSize), before);
            && (ProducerBusy(s, acts) ==>
                ProducerSteps(acts) <= 11 && (ProducerSteps(acts) == 11 ==> ProducerIdle(Run(s, acts).p)))
            && (ConsumerBusy(s, acts) ==>
                ConsumerSteps(acts) <= 10 && (ConsumerSteps(acts) == 10 ==> ConsumerIdle(Run(s, acts).c)))
  {
    hide ProducerBusy, ConsumerBusy, ProducerRank, ConsumerRank, ProducerIdle, ConsumerIdle, Produce, Consume;
    var s := Run(Init(maxSize), before);
    ProducerNearer(s);
    ConsumerNearer(s);
    ProducerNearer(Run(s, acts));
    ConsumerNearer(Run(s, acts));
    RunJoin(Init(maxSize), before, acts);
    NeverFaults(maxSize, before + acts);
    if ProducerBusy(s, acts) {
      ProducerRankFalls(maxSize, before, acts);
    }
    if ConsumerBusy(s, acts) {
      ConsumerRankFalls(maxSize, before, acts);
    }
  }

  /** try_dequeue, pop and peek have seen nothing yet that makes them report an empty queue. */
  predicate MayFind<T>(s: State<T>) {
    var b := Get(s, s.frontBlock);
    match s.c
    case CFrontBlock(_, ta) => ta != s.frontBlock || b.tail != b.front
    case CTail(_, ta, _) => ta != s.frontBlock || b.tail != b.front
    case CFront(_, ta, _, blockTail) => ta != s.frontBlock || blockTail != b.front
    case CDone(ok) => ok
    case _ => true
  }

  lemma EmptyQueue<T>(s: State<T>, ring: seq<nat>, t: nat)
    requires Good(s, ring, t) && s.c.CStart? && s.tailBlock == s.frontBlock && Drained(ViewOf(s), s.frontBlock)
    ensures AbsQueue(s) == []
  {
    hide Ring, ProducerKnows, Parts, Flatten, BlockOk;
  }

  /** Which steps of the producer move the tail of a block. */
  lemma ProducerWrites<T>(s: State<T>, id: nat)
    requires id < |s.blocks|
    ensures var s' := Produce(s);
            && s'.frontBlock == s.frontBlock && s'.c == s.c && s'.got == s.got && Get(s', id).front == Get(s, id).front
            && (Get(s', id).tail == Get(s, id).tail || (s.p.PStoreTail? && s.p.tb == id)
                || ((s.p.PNextStoreTail? || s.p.PNewTail?) && s.p.nb == id))
    ensures s.p.PStoreTail? && s.p.tb == id ==> Get(Produce(s), id).tail == s.p.nextBlockTail
  {
    hide Bump;
  }

  /** The producer leaves front alone and does not empty the front block. */
  lemma ProducerFrame<T>(s: State<T>, ring: seq<nat>, t: nat)
    requires Good(s, ring, t)
    ensures var s', fb := Produce(s), s.frontBlock;
            && s'.frontBlock == fb && s'.c == s.c && s'.got == s.got && Get(s', fb).front == Get(s, fb).front
            && (Get(s, fb).tail != Get(s, fb).front ==> Get(s', fb).tail != Get(s, fb).front)
  {
    var v, fb := ViewOf(s), s.frontBlock;
    AtTail(v, ring, t);
    AtFront(v, ring, t);
    ProducerWrites(s, fb);
    hide Ring, ConsumerKnows, Parts, Flatten, Window, Bump, Items, Gap, Produce, Distinct, BlockOk;
  }

  lemma ConsumerMayFind<T>(s: State<T>, ring: seq<nat>, t: nat)
    requires Good(s, ring, t) && MayFind(s) && !ConsumerIdle(s.c)
    ensures MayFind(Consume(s)) || AbsQueue(s) == []
  {
    if s.c.CStart? {
      if s.tailBlock == s.frontBlock && Drained(ViewOf(s), s.frontBlock) {
        EmptyQueue(s, ring, t);
      }
    } else {
      hide Ring, ProducerKnows, Parts, Flatten, AbsQueue, Drained;
    }
  }

  lemma StepMayFind<T>(s: State<T>, ring: seq<nat>, t: nat, a: Action<T>)
    requires Good(s, ring, t) && MayFind(s) && !ConsumerIdle(s.c)
    ensures MayFind(Step(s, a)) || AbsQueue(s) == []
  {
    match a
    case ProducerStep =>
      ProducerFrame(s, ring, t);
      hide Produce, Good, AbsQueue;
    case ConsumerStep =>
      ConsumerMayFind(s, ring, t);
    case _ =>
  }

  ghost predicate ConsumerBusy<T>(s: State<T>, acts: seq<Action<T>>) {
    forall k :: 0 <= k < |acts| ==> !ConsumerIdle(Run(s, acts[..k]).c)
  }

  lemma BusyBefore<T>(s: State<T>, acts: seq<Action<T>>, n: nat)
    requires n <= |acts| && ConsumerBusy(s, acts)
    ensures ConsumerBusy(s, acts[..n])
  {
    forall k | 0 <= k < n ensures !ConsumerIdle(Run(s, acts[..n][..k]).c) {
      assert acts[..n][..k] == acts[..k];
    }
  }

  lemma {:induction false} DequeueHistory<T>(s: State<T>, ring: seq<nat>, t: nat, acts: seq<Action<T>>)
    requires Good(s, ring, t) && s.c.CStart? && ConsumerBusy(s, acts)
    ensures MayFind(Run(s, acts)) || exists k :: 0 <= k < |acts| && AbsQueue(Run(s, acts[..k])) == []
    decreases |acts|
  {
    hide Good, Step, AbsQueue;
    if acts == [] {
    } else {
      hide MayFind;
      var n := |acts| - 1;
      var before := acts[..n];
      forall k | 0 <= k <= n ensures before[..k] == acts[..k] {}
      BusyBefore(s, acts, n);
      DequeueHistory(s, ring, t, before);
      if k :| 0 <= k < |before| && AbsQueue(Run(s, before[..k])) == [] {
        assert AbsQueue(Run(s, acts[..k])) == [];
      } else {
        var ring', t' := GoodRun(s, ring, t, before);
        StepMayFind(Run(s, before), ring', t', acts[n]);
      }
    }
  }

  /** If try_dequeue, pop or peek reports an empty queue, the queue was empty when it was called. */
  lemma DequeueFalse<T>(maxSize: nat, before: seq<Action<T>>, acts: seq<Action<T>>)
    requires maxSize >= 1
    requires var s := Run(Init(maxSize), before); s.c.CStart? && ConsumerBusy(s, acts) && Run(s, acts).c == CDone(false)
    ensures AbsQueue(Run(Init<T>(maxSize), before)) == []
  {
    hide Good, AbsQueue, ConsumerBusy, Produce, Consume;
    var s := Run(Init(maxSize), before);
    var ring, t := Reachable(maxSize, before);
    DequeueHistory(s, ring, t, acts);
    RunOneCall(s, acts);
    FirstInFirstOut(maxSize, before);
    forall k | 0 <= k < |acts| && AbsQueue(s) != []
      ensures AbsQueue(Run(s, acts[..k])) != []
    {
      RunJoin(Init(maxSize), before, acts[..k]);
      FirstInFirstOut(maxSize, before + acts[..k]);
      HistoriesGrow(s, acts, k);
      HistoriesGrow(s, acts[..k], 0);
      assert Run(s, acts[..k][..0]) == s;
    }
  }

  // ---- peek, then pop ----

  lemma FirstItem<T>(v: View<T>, id: nat)
    requires BlockOk(v, id) && Lo(v, id) == At(v, id).front && !Drained(v, id) && (Hi(v, id) == At(v, id).tail || Hi(v, id) != Lo(v, id))
    ensures At(v, id).data[At(v, id).front].Full? && |Contents(v, id)| >= 1
    ensures Contents(v, id)[0] == At(v, id).data[At(v, id).front].value
  {
    var b := At(v, id);
    ItemsFirst(b.data, b.front, Gap(b.front, b.tail, b.size));
  }

  /** No producer mark sits on front. */
  lemma FillingAhead<T>(s: State<T>, ring: seq<nat>, t: nat, id: nat)
    requires Good(s, ring, t) && !Drained(ViewOf(s), id) && id in ring[..t + 1]
    ensures Hi(ViewOf(s), id) == Get(s, id).tail || Hi(ViewOf(s), id) != Get(s, id).front
  {
    var v := ViewOf(s);
    AtTail(v, ring, t);
    hide Ring, ConsumerKnows, Parts, Flatten, BlockOk, Bump;
    NotNext(ring, t, id);
    hide Distinct;
  }

  lemma NotNext(ring: seq<nat>, t: nat, id: nat)
    requires t < |ring| && Distinct(ring) && id in ring[..t + 1]
    ensures t + 1 < |ring| ==> ring[t + 1] != id
  {}

  lemma PeekGood<T>(s: State<T>, ring: seq<nat>, t: nat)
    requires Good(s, ring, t) && s.c.CPeeked?
    ensures |AbsQueue(s)| >= 1 && Read(Get(s, s.c.block), s.c.index) == Full(AbsQueue(s)[0])
  {
    var v, id := ViewOf(s), s.c.block;
    AbsQueueIsRing(s, ring, t);
    AtFront(v, ring, t);
    assert Taking(s.c) == None;
    assert id == ring[0] || (t >= 1 && id == ring[1] && Drained(v, ring[0])) by {
      hide Ring, ProducerKnows, Parts, Flatten, BlockOk;
    }
    assert id in ring[..t + 1] by {
      assert id == ring[0] ==> ring[..t + 1][0] == id;
      assert t >= 1 && id == ring[1] ==> ring[..t + 1][1] == id;
    }
    assert !Drained(v, id) && s.c.index == At(v, id).front by {
      hide Ring, ProducerKnows, Parts, Flatten, BlockOk;
    }
    FillingAhead(s, ring, t, id);
    FirstItem(v, id);
    var parts := Parts(v, ring, t);
    PartsAt(v, ring, t, 0);
    FlattenHead(parts);
    hide Good, Ring, Parts, Flatten, BlockOk, AbsQueue;
    if id != ring[0] {
      DrainedEmpty(v, ring[0]);
      PartsAt(v, ring, t, 1);
      FlattenHead(parts[1..]);
    }
  }

  lemma DrainedEmpty<T>(v: View<T>, id: nat)
    requires Drained(v, id) && v.taking == None
    ensures Contents(v, id) == []
  {}

  /** What peek points at is the oldest element of the queue, and stays so for as long as the consumer holds it,
      whatever the producer does. */
  lemma PeekShowsHead<T>(maxSize: nat, acts: seq<Action<T>>)
    requires maxSize >= 1 && Run(Init<T>(maxSize), acts).c.CPeeked?
    ensures var s := Run(Init(maxSize), acts);
            |AbsQueue(s)| >= 1 && Read(Get(s, s.c.block), s.c.index) == Full(AbsQueue(s)[0])
  {
    hide Good, AbsQueue;
    var ring, t := Reachable(maxSize, acts);
    PeekGood(Run(Init(maxSize), acts), ring, t);
  }

  lemma GotGrows<T>(s: State<T>)
    ensures Consume(s).sent == s.sent && Produce(s).got == s.got
    ensures s.got <= Consume(s).got && s.sent <= Produce(s).sent
  {
    hide Bump, Set, Write;
  }

  /** Both histories only grow. */
  lemma {:induction false} HistoriesGrow<T>(s: State<T>, acts: seq<Action<T>>, k: nat)
    requires k <= |acts|
    ensures Run(s, acts[..k]).got <= Run(s, acts).got && Run(s, acts[..k]).sent <= Run(s, acts).sent
    decreases |acts|
  {
    hide Produce, Consume;
    if k == |acts| {
      assert acts[..k] == acts;
    } else {
      var n := |acts| - 1;
      HistoriesGrow(s, acts[..n], k);
      assert acts[..n][..k] == acts[..k];
      GotGrows(Run(s, acts[..n]));
    }
  }

  /** One call: nothing is removed before the element is read, and one element is after; peek removes none. */
  predicate OneCall<T(==)>(c: Consumer, call: Call, got: seq<T>, before: seq<T>) {
    match c
    case CStart(k) => k == call && got == before
    case CFrontBlock(k, _) => k == call && got == before
    case CTail(k, _, _) => k == call && got == before
    case CFront(k, _, _, _) => k == call && got == before
    case CNext(k, _) => k == call && got == before
    case CNextFront(k, _) => k == call && got == before
    case CNextTail(k, _, _) => k == call && got == before
    case CAdvance(_, _) => call.Take? && got == before
    case CRead(_, _) => call.Take? && got == before
    case CPeeked(_, _) => call.Peek? && got == before
    case CStoreFront(_, _) => call.Take? && |got| == |before| + 1
    case CDone(ok) => if ok then call.Take? && |got| == |before| + 1 else got == before
    case CFault => true
    case CIdle => false
  }

  lemma StepOneCall<T>(s: State<T>, a: Action<T>, call: Call, before: seq<T>)
    requires OneCall(s.c, call, s.got, before) && !ConsumerIdle(s.c)
    ensures OneCall(Step(s, a).c, call, Step(s, a).got, before)
  {
    hide Bump, Set, Write, Construct;
    match a
    case ProducerStep =>
      ProducerSilent(s);
      hide Produce;
    case _ =>
      hide Produce;
  }

  lemma ProducerSilent<T>(s: State<T>)
    ensures Produce(s).c == s.c && Produce(s).got == s.got
  {
    hide Bump, Set;
  }

  lemma {:induction false} RunOneCall<T>(s: State<T>, acts: seq<Action<T>>)
    requires s.c.CStart? && ConsumerBusy(s, acts)
    ensures OneCall(Run(s, acts).c, s.c.call, Run(s, acts).got, s.got)
    decreases |acts|
  {
    hide Step, ConsumerIdle;
    if acts == [] {
    } else {
      hide OneCall;
      var n := |acts| - 1;
      BusyBefore(s, acts, n);
      RunOneCall(s, acts[..n]);
      StepOneCall(Run(s, acts[..n]), acts[n], s.c.call, s.got);
    }
  }

  lemma {:induction false} RunJoin<T>(s: State<T>, before: seq<Action<T>>, acts: seq<Action<T>>)
    ensures Run(s, before + acts) == Run(Run(s, before), acts)
    decreases |acts|
  {
    hide Step;
    if acts == [] {
      assert before + acts == before;
    } else {
      var n := |acts| - 1;
      RunJoin(s, before, acts[..n]);
      assert (before + acts)[..|before| + n] == before + acts[..n];
    }
  }
}
