/** Each step of either thread keeps the invariant of the queue. */
module QueueSteps {
  import opened Blocks
  import opened ReaderWriterQueue
  import opened QueueInvariant

  /** Only blocks outside the ring change, or none. */
  lemma RingSame<T>(v: View<T>, w: View<T>, ring: seq<nat>, t: nat)
    requires Ring(v, ring, t) && forall j :: 0 <= j < |ring| ==> SameBlock(v, w, ring[j])
    requires w.frontBlock == v.frontBlock && w.tailBlock == v.tailBlock && v.ready == w.ready
    ensures Ring(w, ring, t) && Parts(w, ring, t) == Parts(v, ring, t)
  {
    hide Contents, SameBlock, Distinct, Stop;
    forall j | 0 <= j < |ring|
      ensures Stop(w, ring, t, j) && Contents(w, ring[j]) == Contents(v, ring[j])
    {
      StopKept(v, w, ring, t, j);
      SameKeeps(v, w, ring[j]);
    }
  }

  /** What the consumer knows survives steps of the producer. */
  lemma ConsumerKeeps<T>(c: Consumer, v: View<T>, w: View<T>, ring: seq<nat>, ring': seq<nat>, t: nat, t': nat)
    requires ConsumerKnows(c, v, ring, t) && t <= t' && w.frontBlock == v.frontBlock
    requires t >= 1 ==> Second(ring') == Second(ring) && At(w, Second(ring)).front == At(v, Second(ring)).front
    requires At(w, v.frontBlock).front == At(v, v.frontBlock).front && At(w, v.frontBlock).size == At(v, v.frontBlock).size
    requires At(w, v.frontBlock).tail == At(v, v.frontBlock).tail || (t == 0 && !Drained(w, v.frontBlock))
    ensures ConsumerKnows(c, w, ring', t')
  {}

  // ---- the producer ----

  /** What the ring says about tailBlock and the blocks next to it. */
  lemma AtTail<T>(v: View<T>, ring: seq<nat>, t: nat)
    requires Ring(v, ring, t)
    ensures t < |ring| && BlockOk(v, v.tailBlock) && v.tailBlock == ring[t] && v.frontBlock == ring[0] && Distinct(ring)
    ensures At(v, v.tailBlock).next == ring[Succ(t, |ring|)]
    ensures t >= 1 ==> !Drained(v, v.tailBlock)
    ensures t + 1 < |ring| ==> BlockOk(v, ring[t + 1]) && (!v.ready ==> Drained(v, ring[t + 1]))
  {
    assert Stop(v, ring, t, t) && (t + 1 < |ring| ==> Stop(v, ring, t, t + 1));
  }

  lemma AtFront<T>(v: View<T>, ring: seq<nat>, t: nat)
    requires Ring(v, ring, t)
    ensures t < |ring| && BlockOk(v, v.frontBlock) && v.frontBlock == ring[0] && Distinct(ring)
    ensures t >= 1 ==> v.frontBlock != v.tailBlock
    ensures At(v, v.frontBlock).next == ring[Succ(0, |ring|)]
    ensures t >= 1 ==> Second(ring) == ring[1] && BlockOk(v, ring[1]) && !Drained(v, ring[1])
    ensures t + 1 < |ring| ==> v.frontBlock != ring[t + 1]
  {
    assert Stop(v, ring, t, 0) && (t >= 1 ==> Stop(v, ring, t, 1));
  }

  /** front as just loaded lies behind the slots still taken. */
  lemma FrontLoaded(front: nat, lo: nat, tail: nat, size: nat)
    requires front < size && tail < size && size >= 2 && (lo == front || (lo == Bump(front, size) && front != tail))
    ensures Between(front, lo, tail, size) && Between(front, front, tail, size)
  {}

  /** Room seen with an old front is still there. */
  lemma RoomLeft(front: nat, lo: nat, tail: nat, size: nat)
    requires front < size && tail < size && lo < size && Between(front, lo, tail, size) && Bump(tail, size) != front
    ensures Bump(tail, size) != lo
  {}

  /** The consumer is at most one slot ahead of the front it has stored. */
  lemma LoNearFront<T>(s: State<T>, ring: seq<nat>, t: nat, id: nat)
    requires Good(s, ring, t)
    ensures var v, b := ViewOf(s), Get(s, id);
            Lo(v, id) == b.front || (Lo(v, id) == Bump(b.front, b.size) && b.front != b.tail && s.c == CStoreFront(id, Lo(v, id)))
  {
    hide Parts, Flatten, Contents, Ring, ProducerKnows, Bump;
  }

  lemma ReadFront<T>(s: State<T>, ring: seq<nat>, t: nat)
    requires Good(s, ring, t) && s.p.PFront?
    ensures Good(Produce(s), ring, t)
  {
    hide Parts, Flatten, Contents, Ring, Window, PowerOfTwo, Between, Bump, ConsumerKnows, Lo;
    var v, b := ViewOf(s), Get(s, s.tailBlock);
    AtTail(v, ring, t);
    LoNearFront(s, ring, t, s.tailBlock);
    FrontLoaded(b.front, Lo(v, s.tailBlock), b.tail, b.size);
    assert ViewOf(Produce(s)) == v;
  }

  lemma ReadTail<T>(s: State<T>, ring: seq<nat>, t: nat)
    requires Good(s, ring, t) && s.p.PTail?
    ensures Good(Produce(s), ring, t)
  {
    hide Parts, Flatten, Contents, Ring, Window, PowerOfTwo, Between, Bump, ConsumerKnows;
    var v, b := ViewOf(s), Get(s, s.tailBlock);
    AtTail(v, ring, t);
    if Bump(b.tail, b.size) != s.p.blockFront {
      RoomLeft(s.p.blockFront, Lo(v, s.tailBlock), b.tail, b.size);
      RoomLeft(s.p.blockFront, b.front, b.tail, b.size);
    }
    assert ViewOf(Produce(s)) == v;
  }

  /** Loads of next and frontBlock: if they differ there is a free block ahead. */
  lemma ReadNext<T>(s: State<T>, ring: seq<nat>, t: nat)
    requires Good(s, ring, t) && (s.p.PNext? || s.p.PFrontBlock? || s.p.PNextAgain? || s.p.PNewNext?)
    ensures Good(Produce(s), ring, t)
  {
    hide Parts, Flatten, Contents, Ring, Window, PowerOfTwo, ConsumerKnows, BlockOk, Distinct;
    var v := ViewOf(s);
    AtTail(v, ring, t);
    assert ViewOf(Produce(s)) == v;
  }

  /** The free block is empty, so the assertion on it holds. */
  lemma ReadNextBlock<T>(s: State<T>, ring: seq<nat>, t: nat)
    requires Good(s, ring, t) && (s.p.PNextFront? || s.p.PNextTail?)
    ensures Good(Produce(s), ring, t)
  {
    hide Parts, Flatten, Contents, Ring, Window, PowerOfTwo, ConsumerKnows, BlockOk, Distinct;
    var v := ViewOf(s);
    AtTail(v, ring, t);
    assert ViewOf(Produce(s)) == v;
  }

  lemma ReadOther<T>(s: State<T>, ring: seq<nat>, t: nat)
    requires Good(s, ring, t) && (s.p.PIdle? || s.p.PDone? || s.p.PFault? || s.p.PStart?)
    ensures Good(Produce(s), ring, t)
  {
    hide Parts, Flatten, Contents, Ring, ConsumerKnows;
    assert ViewOf(Produce(s)) == ViewOf(s);
  }

  lemma PartsAt<T>(v: View<T>, ring: seq<nat>, t: nat, i: nat)
    requires i <= t < |ring|
    ensures Parts(v, ring, t)[i] == Contents(v, ring[i])
  {
    hide Contents;
  }

  /** A change to tailBlock that keeps front and next and does not empty it. */
  lemma TailBlockChanges<T>(v: View<T>, w: View<T>, c: Consumer, ring: seq<nat>, t: nat)
    requires Ring(v, ring, t) && ConsumerKnows(c, v, ring, t) && SameElsewhere(v, w, ring, t)
    requires w.frontBlock == v.frontBlock && w.tailBlock == v.tailBlock && v.ready == w.ready
    requires BlockOk(w, v.tailBlock)
    requires var b, b' := At(v, v.tailBlock), At(w, v.tailBlock);
             b'.front == b.front && b'.size == b.size && b'.next == b.next && (b'.tail == b.tail || b'.tail != b'.front)
    ensures Ring(w, ring, t) && ConsumerKnows(c, w, ring, t)
    ensures Parts(w, ring, t) == Parts(v, ring, t)[t := Contents(w, v.tailBlock)]
    ensures Parts(v, ring, t)[t] == Contents(v, v.tailBlock)
  {
    AtTail(v, ring, t);
    AtFront(v, ring, t);
    hide Parts, Contents, ConsumerKnows, BlockOk, Distinct, Ring;
    RingUpdate(v, w, ring, t, t);
    PartsUpdate(v, w, ring, t, t);
    assert Parts(v, ring, t)[t] == Contents(v, v.tailBlock) by {
      PartsAt(v, ring, t, t);
    }
    assert t >= 1 ==> SameBlock(v, w, ring[0]);
    assert t >= 2 ==> SameBlock(v, w, ring[1]);
    ConsumerKeeps(c, v, w, ring, ring, t, t);
  }

  /** Filling the slot at tail, before tail moves. */
  lemma FillSlot<T>(v: View<T>, w: View<T>, id: nat, x: T)
    requires BlockOk(v, id) && v.filling.None? && Bump(At(v, id).tail, At(v, id).size) != Lo(v, id)
    requires w == v.(blocks := Set(v.blocks, id, Write(At(v, id), At(v, id).tail, Full(x))),
                     filling := Mark(id, Bump(At(v, id).tail, At(v, id).size)))
    ensures At(v, id).data[At(v, id).tail].Empty?
    ensures BlockOk(w, id) && Contents(w, id) == Contents(v, id) && Lo(w, id) == Lo(v, id)
    ensures At(w, id) == At(v, id).(data := At(w, id).data) && At(w, id).data[At(v, id).tail] == Full(x)
  {
    var b := At(v, id);
    WindowFill(b.data, Lo(v, id), b.tail, x);
    hide Window, Gap, Bump, PowerOfTwo;
    ItemsOutside(b.data, Lo(v, id), Gap(Lo(v, id), b.tail, b.size), b.tail, Full(x));
  }

  /** Writing the element into the free slot at tail. */
  lemma WriteSlot<T>(s: State<T>, ring: seq<nat>, t: nat)
    requires Good(s, ring, t) && s.p.PWrite?
    ensures Good(Produce(s), ring, t)
  {
    hide Parts, Flatten, Items, Ring, Window, PowerOfTwo, Gap, Bump, ConsumerKnows, Distinct, SameElsewhere, Contents, BlockOk, Lo, Hi;
    var v, id, x := ViewOf(s), s.tailBlock, s.p.x;
    AtTail(v, ring, t);
    var b := At(v, id);
    var w := v.(blocks := Set(v.blocks, id, Write(b, b.tail, Full(x))), filling := Mark(id, Bump(b.tail, b.size)));
    FillSlot(v, w, id, x);
    TailSlot(v, id);
    assert ViewOf(Produce(s)) == w;
    SetElsewhere(v, w, ring, t, Write(b, b.tail, Full(x)));
    TailBlockChanges(v, w, s.c, ring, t);
    assert Parts(w, ring, t) == Parts(v, ring, t);
  }

  /** Publishing the element written at tail. */
  lemma PublishSlot<T>(v: View<T>, w: View<T>, id: nat, x: T)
    requires BlockOk(v, id) && v.filling == Mark(id, Bump(At(v, id).tail, At(v, id).size)) && Room(v, id)
    requires Read(At(v, id), At(v, id).tail) == Full(x)
    requires w.blocks == Set(v.blocks, id, At(v, id).(tail := Bump(At(v, id).tail, At(v, id).size)))
    requires w.taking == v.taking && w.filling == None
    ensures BlockOk(w, id) && Contents(w, id) == Contents(v, id) + [x] && Lo(w, id) == Lo(v, id)
    ensures At(w, id) == At(v, id).(tail := At(w, id).tail) && At(w, id).tail != At(w, id).front
  {
    var b := At(v, id);
    hide Window, Gap, PowerOfTwo, Items;
    ItemsFill(b.data, Lo(v, id), b.tail, x);
  }

  lemma StoreTail<T>(s: State<T>, ring: seq<nat>, t: nat)
    requires Good(s, ring, t) && s.p.PStoreTail?
    ensures Good(Produce(s), ring, t)
  {
    hide Parts, Flatten, Items, Ring, Window, PowerOfTwo, Gap, Bump, ConsumerKnows, Distinct, SameElsewhere, Contents, BlockOk, Lo, Hi, Room;
    var v, id, x := ViewOf(s), s.tailBlock, s.p.x;
    AtTail(v, ring, t);
    var b := At(v, id);
    var b' := b.(tail := Bump(b.tail, b.size));
    var w := v.(blocks := Set(v.blocks, id, b'), filling := None);
    PublishSlot(v, w, id, x);
    assert ViewOf(Produce(s)) == w;
    SetElsewhere(v, w, ring, t, b');
    TailBlockChanges(v, w, s.c, ring, t);
    AppendLast(Parts(v, ring, t), Parts(w, ring, t), x);
  }

  /** An element more in the last part. */
  lemma AppendLast<T>(parts: seq<seq<T>>, parts': seq<seq<T>>, x: T)
    requires |parts| >= 1 && parts' == parts[|parts| - 1 := parts[|parts| - 1] + [x]]
    ensures Flatten(parts') == Flatten(parts) + [x]
  {
    assert parts'[..|parts| - 1] == parts[..|parts| - 1];
  }

  lemma TailSlot<T>(v: View<T>, id: nat)
    requires BlockOk(v, id)
    ensures id < |v.blocks| && At(v, id).tail < |At(v, id).data| && At(v, id).front < |At(v, id).data| == At(v, id).size
  {}

  /** A change to the free block after tailBlock. */
  lemma NextBlockChanges<T>(v: View<T>, w: View<T>, c: Consumer, ring: seq<nat>, t: nat)
    requires Ring(v, ring, t) && ConsumerKnows(c, v, ring, t) && t + 1 < |ring| && SameElsewhere(v, w, ring, t + 1)
    requires w.frontBlock == v.frontBlock && w.tailBlock == v.tailBlock && (v.ready ==> w.ready)
    requires BlockOk(w, ring[t + 1]) && At(w, ring[t + 1]).next == At(v, ring[t + 1]).next
    requires w.ready || Drained(w, ring[t + 1])
    ensures Ring(w, ring, t) && ConsumerKnows(c, w, ring, t) && Parts(w, ring, t) == Parts(v, ring, t)
  {
    AtFront(v, ring, t);
    hide Parts, Contents, ConsumerKnows, BlockOk, Distinct, Ring;
    RingUpdate(v, w, ring, t, t + 1);
    PartsUpdate(v, w, ring, t, t + 1);
    assert SameBlock(v, w, ring[0]);
    assert t >= 1 ==> SameBlock(v, w, ring[1]);
    ConsumerKeeps(c, v, w, ring, ring, t, t);
  }

  /** The free block ahead is empty and out of the consumer's hands. */
  lemma FreeBlock<T>(s: State<T>, ring: seq<nat>, t: nat)
    requires Good(s, ring, t) && t + 1 < |ring| && !s.p.PStoreTailBlock?
    ensures var v, nb := ViewOf(s), ring[t + 1];
            && BlockOk(v, nb) && Drained(v, nb) && nb != v.frontBlock && Lo(v, nb) == At(v, nb).front
            && Contents(v, nb) == [] && Room(v, nb)
  {
    var v, nb := ViewOf(s), ring[t + 1];
    AtTail(v, ring, t);
    AtFront(v, ring, t);
    LoNearFront(s, ring, t, nb);
    hide Parts, Flatten, Ring, Window, PowerOfTwo, ProducerKnows, Distinct;
  }

  lemma NextWrite<T>(s: State<T>, ring: seq<nat>, t: nat)
    requires Good(s, ring, t) && s.p.PNextWrite?
    ensures Good(Produce(s), ring, t)
  {
    hide Parts, Flatten, Items, Ring, Window, PowerOfTwo, Gap, Bump, ConsumerKnows, Distinct, SameElsewhere, Contents, BlockOk, Lo, Hi;
    var v, id, x := ViewOf(s), s.p.nb, s.p.x;
    AtTail(v, ring, t);
    FreeBlock(s, ring, t);
    var b := At(v, id);
    var w := v.(blocks := Set(v.blocks, id, Write(b, b.tail, Full(x))), filling := Mark(id, Bump(b.tail, b.size)));
    FillSlot(v, w, id, x);
    TailSlot(v, id);
    assert ViewOf(Produce(s)) == w;
    SetElsewhere(v, w, ring, t + 1, Write(b, b.tail, Full(x)));
    NextBlockChanges(v, w, s.c, ring, t);
  }

  lemma NextStoreTail<T>(s: State<T>, ring: seq<nat>, t: nat)
    requires Good(s, ring, t) && s.p.PNextStoreTail?
    ensures Good(Produce(s), ring, t)
  {
    hide Parts, Flatten, Items, Ring, Window, PowerOfTwo, Gap, Bump, ConsumerKnows, Distinct, SameElsewhere, Contents, BlockOk, Lo, Hi, Room;
    var v, id, x := ViewOf(s), s.p.nb, s.p.x;
    AtTail(v, ring, t);
    FreeBlock(s, ring, t);
    var b := At(v, id);
    var b' := b.(tail := Bump(b.tail, b.size));
    var w := v.(blocks := Set(v.blocks, id, b'), filling := None, ready := true);
    PublishSlot(v, w, id, x);
    assert ViewOf(Produce(s)) == w;
    SetElsewhere(v, w, ring, t + 1, b');
    NextBlockChanges(v, w, s.c, ring, t);
  }

  /** Changes outside the ring. */
  lemma OutsideChanges<T>(v: View<T>, w: View<T>, c: Consumer, ring: seq<nat>, t: nat)
    requires Ring(v, ring, t) && ConsumerKnows(c, v, ring, t) && forall j :: 0 <= j < |ring| ==> SameBlock(v, w, ring[j])
    requires w.frontBlock == v.frontBlock && w.tailBlock == v.tailBlock && v.ready == w.ready
    ensures Ring(w, ring, t) && ConsumerKnows(c, w, ring, t) && Parts(w, ring, t) == Parts(v, ring, t)
  {
    AtFront(v, ring, t);
    RingSame(v, w, ring, t);
    hide Parts, Contents, ConsumerKnows, BlockOk, Distinct, Ring;
    assert SameBlock(v, w, ring[0]);
    assert t >= 1 ==> SameBlock(v, w, ring[1]);
    ConsumerKeeps(c, v, w, ring, ring, t, t);
  }

  lemma RingIds<T>(v: View<T>, ring: seq<nat>, t: nat)
    requires Ring(v, ring, t)
    ensures forall j :: 0 <= j < |ring| ==> ring[j] < |v.blocks|
  {
    forall j | 0 <= j < |ring| ensures ring[j] < |v.blocks| {
      assert Stop(v, ring, t, j);
    }
  }

  lemma NewWindow<T>(data: seq<Slot<T>>, x: T)
    requires |data| >= 2 && forall j :: 0 <= j < |data| ==> data[j] == if j == 0 then Full(x) else Empty
    ensures Window(data, 0, 1)
  {}

  lemma NewBlock<T>(s: State<T>, ring: seq<nat>, t: nat)
    requires Good(s, ring, t) && s.p.PNew?
    ensures Good(Produce(s), ring, t)
  {
    hide Flatten, Items, Ring, Window, Gap, ConsumerKnows, Distinct, BlockOk, Contents, Parts;
    var s', v, w := Produce(s), ViewOf(s), ViewOf(Produce(s));
    AtTail(v, ring, t);
    RingIds(v, ring, t);
    NewWindow(s'.blocks[|s.blocks|].data, s.p.x);
    forall j | 0 <= j < |ring|
      ensures SameBlock(v, w, ring[j])
    {}
    OutsideChanges(v, w, s.c, ring, t);
  }

  /** Writes to the block that only the producer knows. */
  lemma PrivateWrite<T>(v: View<T>, w: View<T>, c: Consumer, ring: seq<nat>, t: nat, nb: nat, b: Block<T>)
    requires Ring(v, ring, t) && ConsumerKnows(c, v, ring, t) && nb !in ring && w == v.(blocks := Set(v.blocks, nb, b))
    ensures Ring(w, ring, t) && ConsumerKnows(c, w, ring, t) && Parts(w, ring, t) == Parts(v, ring, t)
    ensures At(w, v.tailBlock) == At(v, v.tailBlock)
  {
    hide Ring, ConsumerKnows, Parts;
    AtTail(v, ring, t);
    forall j | 0 <= j < |ring|
      ensures SameBlock(v, w, ring[j])
    {
      assert ring[j] in ring;
    }
    OutsideChanges(v, w, c, ring, t);
  }

  lemma NewStoreTail<T>(s: State<T>, ring: seq<nat>, t: nat)
    requires Good(s, ring, t) && s.p.PNewTail?
    ensures Good(Produce(s), ring, t)
  {
    hide Flatten, Ring, Window, ConsumerKnows, Parts, PowerOfTwo;
    var v, nb := ViewOf(s), s.p.nb;
    var b' := At(v, nb).(tail := 1);
    var w := v.(blocks := Set(v.blocks, nb, b'));
    assert ViewOf(Produce(s)) == w;
    PrivateWrite(v, w, s.c, ring, t, nb, b');
  }

  lemma NewStoreNext<T>(s: State<T>, ring: seq<nat>, t: nat)
    requires Good(s, ring, t) && s.p.PNewStoreNext?
    ensures Good(Produce(s), ring, t)
  {
    hide Flatten, Ring, Window, ConsumerKnows, Parts, PowerOfTwo;
    var v, nb := ViewOf(s), s.p.nb;
    var b' := At(v, nb).(next := s.p.nx);
    var w := v.(blocks := Set(v.blocks, nb, b'));
    assert ViewOf(Produce(s)) == w;
    PrivateWrite(v, w, s.c, ring, t, nb, b');
  }

  function Inserted(ring: seq<nat>, t: nat, nb: nat): seq<nat>
    requires t < |ring|
  {
    ring[..t + 1] + [nb] + ring[t + 1..]
  }

  /** The private block as a block of the ring. */
  lemma PrivateJoins<T>(v: View<T>, w: View<T>, ring: seq<nat>, nb: nat, x: T)
    requires Private(v, ring, nb, x, 1) && SameBlock(v, w, nb) && MarkWithin(v.taking, v.frontBlock) && v.frontBlock in ring
    requires v.filling == None
    ensures BlockOk(w, nb) && !Drained(w, nb) && Contents(w, nb) == [x]
  {
    var b := At(v, nb);
    assert Items(b.data, 0, 1) == Items(b.data, 0, 0) + One(b.data, 0);
    hide Window, PowerOfTwo;
  }

  lemma InsertedAt(ring: seq<nat>, t: nat, nb: nat, i: nat)
    requires t < |ring| && i < |ring| + 1
    ensures |Inserted(ring, t, nb)| == |ring| + 1
    ensures Inserted(ring, t, nb)[i] == if i <= t then ring[i] else if i == t + 1 then nb else ring[i - 1]
  {}

  ghost predicate Kept<T>(v: View<T>, w: View<T>, id: nat) {
    (BlockOk(v, id) ==> BlockOk(w, id)) && Drained(w, id) == Drained(v, id) && Contents(w, id) == Contents(v, id)
  }

  lemma InsertedDistinct(ring: seq<nat>, t: nat, nb: nat)
    requires t < |ring| && Distinct(ring) && nb !in ring
    ensures Distinct(Inserted(ring, t, nb))
  {}

  ghost predicate Inserts<T>(v: View<T>, w: View<T>, ring: seq<nat>, t: nat, nb: nat)
    requires t < |ring|
  {
    && BlockOk(w, nb) && At(w, nb).next == ring[Succ(t, |ring|)] && !v.ready && w.ready
    && w.frontBlock == v.frontBlock && w.tailBlock == v.tailBlock
    && forall i {:trigger ring[i]} :: 0 <= i < |ring| ==>
        Kept(v, w, ring[i]) && At(w, ring[i]).next == if i == t then nb else At(v, ring[i]).next
  }

  lemma InsertIndex<T>(v: View<T>, w: View<T>, ring: seq<nat>, t: nat, nb: nat, i: nat)
    requires Ring(v, ring, t) && Inserts(v, w, ring, t, nb) && i <= |ring|
    ensures |Inserted(ring, t, nb)| == |ring| + 1 && Stop(w, Inserted(ring, t, nb), t, i)
  {
    hide Inserted, Distinct, BlockOk, Drained, Contents, At;
    InsertedAt(ring, t, nb, i);
    InsertedAt(ring, t, nb, Succ(i, |ring| + 1));
    if i <= t {
      assert Stop(v, ring, t, i);
    } else if i > t + 1 {
      assert Stop(v, ring, t, i - 1);
    }
  }

  /** A ring with one more block behind tailBlock. */
  lemma InsertRing<T>(v: View<T>, w: View<T>, ring: seq<nat>, t: nat, nb: nat)
    requires Ring(v, ring, t) && nb !in ring && Inserts(v, w, ring, t, nb)
    ensures Ring(w, Inserted(ring, t, nb), t)
  {
    InsertedDistinct(ring, t, nb);
    InsertedAt(ring, t, nb, 0);
    InsertedAt(ring, t, nb, t);
    hide Inserted, Distinct, Stop;
    forall i | 0 <= i <= |ring|
      ensures Stop(w, Inserted(ring, t, nb), t, i)
    {
      InsertIndex(v, w, ring, t, nb, i);
    }
  }

  lemma InsertParts<T>(v: View<T>, w: View<T>, ring: seq<nat>, t: nat, nb: nat)
    requires t < |ring| && forall i {:trigger ring[i]} :: 0 <= i < |ring| ==> Kept(v, w, ring[i])
    ensures Parts(w, Inserted(ring, t, nb), t) == Parts(v, ring, t)
  {
    hide BlockOk, Contents;
  }

  /** A new next pointer changes nothing else about a block. */
  lemma LinkKeeps<T>(v: View<T>, w: View<T>, id: nat, nb: nat)
    requires w == v.(blocks := Set(v.blocks, v.tailBlock, At(v, v.tailBlock).(next := nb)), ready := true)
    ensures Kept(v, w, id) && (id != v.tailBlock ==> SameBlock(v, w, id))
    ensures id < |v.blocks| && id == v.tailBlock ==> At(w, id).next == nb
  {
    hide Items, Gap, Window, PowerOfTwo;
  }

  /** Linking the new block behind tailBlock. */
  lemma LinkRing<T>(v: View<T>, w: View<T>, ring: seq<nat>, t: nat, nb: nat, x: T)
    requires Ring(v, ring, t) && Private(v, ring, nb, x, 1) && At(v, nb).next == At(v, v.tailBlock).next
    requires MarkWithin(v.taking, v.frontBlock) && v.filling == None && !v.ready
    requires w == v.(blocks := Set(v.blocks, v.tailBlock, At(v, v.tailBlock).(next := nb)), ready := true)
    ensures Ring(w, Inserted(ring, t, nb), t) && Parts(w, Inserted(ring, t, nb), t) == Parts(v, ring, t)
    ensures BlockOk(w, nb) && !Drained(w, nb) && Contents(w, nb) == [x]
  {
    hide Ring, BlockOk, Inserted, Kept, Contents, Drained;
    AtTail(v, ring, t);
    AtFront(v, ring, t);
    LinkKeeps(v, w, nb, nb);
    PrivateJoins(v, w, ring, nb, x);
    LinkInserts(v, w, ring, t, nb);
    InsertRing(v, w, ring, t, nb);
    InsertParts(v, w, ring, t, nb);
  }

  lemma LinkInserts<T>(v: View<T>, w: View<T>, ring: seq<nat>, t: nat, nb: nat)
    requires Ring(v, ring, t) && BlockOk(w, nb) && nb !in ring && !v.ready
    requires At(v, nb).next == At(v, v.tailBlock).next
    requires w == v.(blocks := Set(v.blocks, v.tailBlock, At(v, v.tailBlock).(next := nb)), ready := true)
    ensures Inserts(v, w, ring, t, nb)
  {
    hide Ring, BlockOk, Kept, SameBlock;
    AtTail(v, ring, t);
    RingIds(v, ring, t);
    forall i | 0 <= i < |ring|
      ensures Kept(v, w, ring[i]) && At(w, ring[i]).next == if i == t then nb else At(v, ring[i]).next
    {
      LinkKeeps(v, w, ring[i], nb);
    }
  }

  lemma LinkFields<T>(v: View<T>, w: View<T>, id: nat, nb: nat)
    requires w == v.(blocks := Set(v.blocks, v.tailBlock, At(v, v.tailBlock).(next := nb)), ready := true)
    ensures At(w, id) == At(v, id).(next := At(w, id).next)
  {}

  lemma TakingAtFront<T>(s: State<T>, ring: seq<nat>, t: nat)
    requires Good(s, ring, t)
    ensures MarkWithin(Taking(s.c), s.frontBlock)
  {
    hide Ring, ProducerKnows, Parts, Flatten;
  }

  lemma Link<T>(s: State<T>, ring: seq<nat>, t: nat)
    requires Good(s, ring, t) && s.p.PLink?
    ensures Good(Produce(s), Inserted(ring, t, s.p.nb), t)
  {
    hide Flatten, Ring, ConsumerKnows, Distinct, BlockOk, Contents, Parts, Private, Inserted, PowerOfTwo;
    var v, nb := ViewOf(s), s.p.nb;
    TakingAtFront(s, ring, t);
    AtTail(v, ring, t);
    AtFront(v, ring, t);
    var w := v.(blocks := Set(v.blocks, v.tailBlock, At(v, v.tailBlock).(next := nb)), ready := true);
    assert ViewOf(Produce(s)) == w;
    LinkRing(v, w, ring, t, nb, s.p.x);
    LinkFields(v, w, v.frontBlock, nb);
    LinkFields(v, w, Second(ring), nb);
    InsertedAt(ring, t, nb, t + 1);
    if t >= 1 {
      InsertedAt(ring, t, nb, 1);
    }
    hide At, Set;
    ConsumerKeeps(s.c, v, w, ring, Inserted(ring, t, nb), t, t);
  }

  lemma PartsAdvance<T>(v: View<T>, w: View<T>, ring: seq<nat>, t: nat)
    requires t + 1 < |ring| && w == v.(tailBlock := ring[t + 1], ready := false)
    ensures Parts(w, ring, t + 1) == Parts(v, ring, t) + [Contents(v, ring[t + 1])]
  {
    hide Contents;
    forall j | 0 <= j < |ring|
      ensures Contents(w, ring[j]) == Contents(v, ring[j])
    {
      SameView(v, w, ring[j]);
    }
  }

  lemma RingAdvance<T>(v: View<T>, w: View<T>, ring: seq<nat>, t: nat)
    requires Ring(v, ring, t) && t + 1 < |ring| && !Drained(v, ring[t + 1]) && w == v.(tailBlock := ring[t + 1], ready := false)
    ensures Ring(w, ring, t + 1)
  {
    hide BlockOk, Distinct, At, Drained;
    var t' := t + 1;
    forall j | 0 <= j < |ring|
      ensures Stop(w, ring, t', j)
    {
      assert Stop(v, ring, t, j);
      SameView(v, w, ring[j]);
    }
    hide Stop;
  }

  /** The prepared block becomes tailBlock, and its element becomes visible. */
  lemma StoreTailBlock<T>(s: State<T>, ring: seq<nat>, t: nat)
    requires Good(s, ring, t) && s.p.PStoreTailBlock?
    ensures t + 1 < |ring| && Good(Produce(s), ring, t + 1)
  {
    hide Flatten, Ring, ConsumerKnows, Contents, PowerOfTwo, BlockOk, Distinct, Parts;
    var v := ViewOf(s);
    AtFront(v, ring, t);
    var w := v.(tailBlock := s.p.nb, ready := false);
    assert ViewOf(Produce(s)) == w;
    RingAdvance(v, w, ring, t);
    PartsAdvance(v, w, ring, t);
    FlattenAppend(Parts(v, ring, t), [s.p.x]);
    ConsumerKeeps(s.c, v, w, ring, ring, t, t + 1);
  }

  lemma SameView<T>(v: View<T>, w: View<T>, id: nat)
    requires w == v.(tailBlock := w.tailBlock, frontBlock := w.frontBlock, ready := w.ready)
    ensures BlockOk(w, id) == BlockOk(v, id) && Contents(w, id) == Contents(v, id)
    ensures Drained(w, id) == Drained(v, id) && At(w, id) == At(v, id)
  {}

  /** Every step of the producer keeps the invariant, on the ring that the step leaves. */
  lemma ProducerStepGood<T>(s: State<T>, ring: seq<nat>, t: nat) returns (ring': seq<nat>, t': nat)
    requires Good(s, ring, t)
    ensures Good(Produce(s), ring', t')
  {
    hide Good, Produce;
    ring', t' := ring, t;
    match s.p
    case PFront(_, _, _) => ReadFront(s, ring, t);
    case PTail(_, _, _, _) => ReadTail(s, ring, t);
    case PWrite(_, _, _) => WriteSlot(s, ring, t);
    case PStoreTail(_, _, _) => StoreTail(s, ring, t);
    case PNextFront(_, _) => ReadNextBlock(s, ring, t);
    case PNextTail(_, _, _) => ReadNextBlock(s, ring, t);
    case PNextWrite(_, _, _) => NextWrite(s, ring, t);
    case PNextStoreTail(_, _, _) => NextStoreTail(s, ring, t);
    case PNew(_, _) => NewBlock(s, ring, t);
    case PNewTail(_, _, _) => NewStoreTail(s, ring, t);
    case PNewStoreNext(_, _, _, _) => NewStoreNext(s, ring, t);
    case PLink(_, _, _) =>
      RingLonger(s, ring, t);
      Link(s, ring, t);
      ring' := Inserted(ring, t, s.p.nb);
    case PStoreTailBlock(_, _) =>
      StoreTailBlock(s, ring, t);
      t' := t + 1;
    case PNext(_, _, _) => ReadNext(s, ring, t);
    case PFrontBlock(_, _, _, _) => ReadNext(s, ring, t);
    case PNextAgain(_, _) => ReadNext(s, ring, t);
    case PNewNext(_, _, _) => ReadNext(s, ring, t);
    case _ => ReadOther(s, ring, t);
  }

  lemma RingLonger<T>(s: State<T>, ring: seq<nat>, t: nat)
    requires Good(s, ring, t)
    ensures t < |ring|
  {}

  // ---- the consumer ----

  lemma ConsumerStart<T>(s: State<T>, ring: seq<nat>, t: nat)
    requires Good(s, ring, t) && (s.c.CIdle? || s.c.CDone? || s.c.CPeeked? || s.c.CFault? || s.c.CStart? || s.c.CFrontBlock?)
    ensures Good(Consume(s), ring, t)
  {
    hide Parts, Flatten, Contents, Ring, ProducerKnows, BlockOk, Distinct;
    AtTail(ViewOf(s), ring, t);
    assert ViewOf(Consume(s)) == ViewOf(s);
  }

  /** Loads of the front block: an empty one with tailBlock elsewhere stays empty. */
  lemma ConsumerFront<T>(s: State<T>, ring: seq<nat>, t: nat)
    requires Good(s, ring, t) && (s.c.CTail? || s.c.CFront?)
    ensures Good(Consume(s), ring, t)
  {
    hide Parts, Flatten, Contents, Ring, ProducerKnows, BlockOk, Distinct;
    assert ViewOf(Consume(s)) == ViewOf(s);
  }

  /** Loads of the next block: it is not empty, so the assertion on it holds. */
  lemma ConsumerNext<T>(s: State<T>, ring: seq<nat>, t: nat)
    requires Good(s, ring, t) && (s.c.CNext? || s.c.CNextFront? || s.c.CNextTail?)
    ensures Good(Consume(s), ring, t)
  {
    hide Parts, Flatten, Contents, Ring, ProducerKnows, BlockOk, Distinct;
    AtFront(ViewOf(s), ring, t);
    assert ViewOf(Consume(s)) == ViewOf(s);
  }

  lemma BetweenBump(front: nat, lo: nat, tail: nat, size: nat)
    requires front < size && lo < size && tail < size && size >= 2 && lo != tail && Between(front, lo, tail, size)
    ensures Between(front, Bump(lo, size), tail, size)
  {}

  /** What consuming may do to the front block while the producer works on tailBlock. */
  ghost predicate FrontMoves<T>(v: View<T>, w: View<T>) {
    var fb := v.frontBlock;
    var b, b', lo := At(v, fb), At(w, fb), Lo(v, fb);
    && w.tailBlock == v.tailBlock && b'.tail == b.tail && b'.size == b.size && b'.next == b.next
    && BlockOk(v, fb) && lo < b.size
    && (b'.front == b.front || b'.front == lo)
    && ((Lo(w, fb) == lo && b'.data == b.data)
        || (Lo(w, fb) == Bump(lo, b.size) && lo != b.tail && b'.data == b.data[lo := Empty]))
    && forall id {:trigger SameBlock(v, w, id)} :: id != fb ==> SameBlock(v, w, id)
  }

  lemma TailMoves<T>(p: Producer<T>, v: View<T>, w: View<T>, ring: seq<nat>, t: nat)
    requires FrontMoves(v, w) && ProducerKnows(p, v, ring, t) && (p.PTail? || p.PWrite? || p.PStoreTail?)
    requires BlockOk(v, v.tailBlock)
    ensures ProducerKnows(p, w, ring, t)
  {
    hide Window, PowerOfTwo, Gap, Between, Bump;
    if v.tailBlock == v.frontBlock {
      var b, lo := At(v, v.tailBlock), Lo(v, v.tailBlock);
      if lo != b.tail && p.PTail? {
        BetweenBump(p.blockFront, lo, b.tail, b.size);
      }
      BumpInjective(lo, b.tail, b.size);
    } else {
      assert SameBlock(v, w, v.tailBlock);
    }
  }

  lemma BumpInjective(i: nat, j: nat, size: nat)
    requires i < size && j < size
    ensures Bump(i, size) == Bump(j, size) ==> i == j
  {}

  /** What the producer knows survives steps of the consumer on the front block. */
  lemma ProducerKeeps<T>(p: Producer<T>, v: View<T>, w: View<T>, ring: seq<nat>, t: nat)
    requires FrontMoves(v, w) && ProducerKnows(p, v, ring, t) && Ring(v, ring, t)
    ensures ProducerKnows(p, w, ring, t)
  {
    AtTail(v, ring, t);
    AtFront(v, ring, t);
    if p.PTail? || p.PWrite? || p.PStoreTail? {
      TailMoves(p, v, w, ring, t);
    } else {
      hide Window, Gap, BlockOk, PowerOfTwo, Ring, Distinct, Items;
      assert v.tailBlock != v.frontBlock ==> SameBlock(v, w, v.tailBlock);
      if p.PNewTail? || p.PNewNext? || p.PNewStoreNext? || p.PLink? {
        assert p.nb != v.frontBlock && SameBlock(v, w, p.nb);
      } else if t + 1 < |ring| {
        assert SameBlock(v, w, ring[t + 1]);
      }
    }
  }

  /** A change to the front block. */
  lemma FrontBlockChanges<T>(v: View<T>, w: View<T>, p: Producer<T>, ring: seq<nat>, t: nat)
    requires Ring(v, ring, t) && ProducerKnows(p, v, ring, t) && FrontMoves(v, w)
    requires w.frontBlock == v.frontBlock && v.ready == w.ready && BlockOk(w, v.frontBlock)
    ensures Ring(w, ring, t) && ProducerKnows(p, w, ring, t)
    ensures Parts(w, ring, t) == Parts(v, ring, t)[0 := Contents(w, v.frontBlock)]
    ensures Parts(v, ring, t)[0] == Contents(v, v.frontBlock)
  {
    AtFront(v, ring, t);
    ProducerKeeps(p, v, w, ring, t);
    hide Ring, ProducerKnows, Parts, BlockOk, Contents;
    forall j | 0 <= j < |ring| && j != 0
      ensures SameBlock(v, w, ring[j])
    {
      assert ring[j] != ring[0];
    }
    hide Distinct, SameBlock;
    RingUpdate(v, w, ring, t, 0);
    PartsUpdate(v, w, ring, t, 0);
    PartsAt(v, ring, t, 0);
  }

  /** The producer has filled no further than tail, so front has something to take. */
  lemma FrontFilled<T>(s: State<T>, ring: seq<nat>, t: nat)
    requires Good(s, ring, t) && s.c.CRead?
    ensures var v, id := ViewOf(s), s.frontBlock;
            BlockOk(v, id) && Lo(v, id) == At(v, id).front != Hi(v, id) && At(v, id).front != At(v, id).tail
  {
    var v := ViewOf(s);
    AtTail(v, ring, t);
    AtFront(v, ring, t);
    hide Ring, Distinct, Window, PowerOfTwo, Parts, Flatten, Bump;
  }

  /** Moving the element at front out of its slot. */
  lemma TakeSlot<T>(v: View<T>, w: View<T>, id: nat)
    requires BlockOk(v, id) && Lo(v, id) == At(v, id).front != Hi(v, id) && At(v, id).front != At(v, id).tail
    requires w == v.(blocks := Set(v.blocks, id, Write(At(v, id), At(v, id).front, Empty)),
                     taking := Mark(id, Bump(At(v, id).front, At(v, id).size)))
    ensures Read(At(v, id), At(v, id).front).Full? && BlockOk(w, id)
    ensures Contents(v, id) == [Read(At(v, id), At(v, id).front).value] + Contents(w, id)
    ensures At(w, id) == At(v, id).(data := At(v, id).data[At(v, id).front := Empty])
  {
    var b := At(v, id);
    WindowTake(b.data, b.front, Hi(v, id));
    hide Window, Gap, PowerOfTwo, Items;
    ItemsTake(b.data, b.front, b.tail, b.data[b.front].value);
  }

  lemma SetOther<T>(v: View<T>, w: View<T>, id: nat, b: Block<T>)
    requires w.blocks == Set(v.blocks, id, b) && w.filling == v.filling
    requires w.taking == v.taking || (MarkWithin(w.taking, id) && MarkWithin(v.taking, id))
    ensures forall j {:trigger SameBlock(v, w, j)} :: j != id ==> SameBlock(v, w, j)
  {}

  /** The first element leaves the first part. */
  lemma RemoveFirst<T>(parts: seq<seq<T>>, parts': seq<seq<T>>, x: T)
    requires |parts| >= 1 && |parts'| == |parts| && parts' == parts[0 := parts'[0]] && parts[0] == [x] + parts'[0]
    ensures Flatten(parts) == [x] + Flatten(parts')
  {
    hide Flatten;
    assert parts'[1..] == parts[1..];
    FlattenHead(parts);
    FlattenHead(parts');
  }

  lemma ReadSlot<T>(s: State<T>, ring: seq<nat>, t: nat)
    requires Good(s, ring, t) && s.c.CRead?
    ensures Good(Consume(s), ring, t)
  {
    hide Parts, Flatten, Items, Ring, Window, PowerOfTwo, Gap, Bump, ProducerKnows, Distinct, Contents, BlockOk, Hi;
    var v, id := ViewOf(s), s.frontBlock;
    FrontFilled(s, ring, t);
    var b := At(v, id);
    var w := v.(blocks := Set(v.blocks, id, Write(b, b.front, Empty)), taking := Mark(id, Bump(b.front, b.size)));
    TakeSlot(v, w, id);
    TailSlot(v, id);
    assert ViewOf(Consume(s)) == w;
    SetOther(v, w, id, Write(b, b.front, Empty));
    hide SameBlock;
    FrontBlockChanges(v, w, s.p, ring, t);
    RemoveFirst(Parts(v, ring, t), Parts(w, ring, t), Read(b, b.front).value);
  }

  lemma StoreFront<T>(s: State<T>, ring: seq<nat>, t: nat)
    requires Good(s, ring, t) && s.c.CStoreFront?
    ensures Good(Consume(s), ring, t)
  {
    hide Parts, Flatten, Items, Ring, Window, PowerOfTwo, Gap, Bump, ProducerKnows, Distinct;
    var v, id := ViewOf(s), s.frontBlock;
    AtFront(v, ring, t);
    var b' := At(v, id).(front := s.c.newFront);
    var w := v.(blocks := Set(v.blocks, id, b'), taking := None);
    assert ViewOf(Consume(s)) == w;
    SetOther(v, w, id, b');
    hide SameBlock;
    FrontBlockChanges(v, w, s.p, ring, t);
    assert Parts(w, ring, t) == Parts(v, ring, t);
  }

  function Rotated(ring: seq<nat>): (r: seq<nat>)
    requires |ring| >= 1
    ensures |r| == |ring|
  {
    ring[1..] + [ring[0]]
  }

  lemma RotatedAt(ring: seq<nat>, i: nat)
    requires i < |ring|
    ensures Rotated(ring)[i] == ring[Succ(i, |ring|)]
  {}

  lemma RotatedSame(ring: seq<nat>, nb: nat)
    requires |ring| >= 1 && Distinct(ring)
    ensures Distinct(Rotated(ring)) && (nb !in ring ==> nb !in Rotated(ring))
  {}

  /** frontBlock moves on from an empty block. */
  lemma RotateRing<T>(v: View<T>, w: View<T>, ring: seq<nat>, t: nat)
    requires Ring(v, ring, t) && t >= 1 && Drained(v, ring[0]) && w == v.(frontBlock := ring[1])
    ensures Ring(w, Rotated(ring), t - 1)
  {
    var ring', t' := Rotated(ring), t - 1;
    RotatedSame(ring, 0);
    hide BlockOk, Drained, Distinct, At, Rotated;
    RotatedAt(ring, 0);
    RotatedAt(ring, t');
    forall i | 0 <= i < |ring|
      ensures Stop(w, ring', t', i)
    {
      var j := Succ(i, |ring|);
      RotatedAt(ring, i);
      RotatedAt(ring, j);
      assert Stop(v, ring, t, j);
      SameView(v, w, ring[j]);
    }
  }

  lemma RotateParts<T>(v: View<T>, w: View<T>, ring: seq<nat>, t: nat)
    requires 1 <= t < |ring| && w == v.(frontBlock := ring[1]) && Contents(v, ring[0]) == []
    ensures Flatten(Parts(w, Rotated(ring), t - 1)) == Flatten(Parts(v, ring, t))
  {
    hide Contents, Flatten;
    forall j | 0 <= j < |ring|
      ensures Contents(w, ring[j]) == Contents(v, ring[j])
    {
      SameView(v, w, ring[j]);
    }
    assert Parts(v, ring, t) == [Contents(v, ring[0])] + Parts(w, Rotated(ring), t - 1);
    FlattenFront(Contents(v, ring[0]), Parts(w, Rotated(ring), t - 1));
  }

  lemma ProducerRotates<T>(p: Producer<T>, v: View<T>, w: View<T>, ring: seq<nat>, t: nat)
    requires ProducerKnows(p, v, ring, t) && Ring(v, ring, t) && t >= 1 && w == v.(frontBlock := ring[1])
    ensures ProducerKnows(p, w, Rotated(ring), t - 1)
  {
    assert Distinct(ring);
    if p.PNewTail? || p.PNewNext? || p.PNewStoreNext? || p.PLink? {
      RotatedSame(ring, p.nb);
    }
    RotatedAt(ring, t);
    hide Window, PowerOfTwo, Gap, Items, Ring, Distinct, Rotated, BlockOk;
  }

  lemma AdvanceFront<T>(s: State<T>, ring: seq<nat>, t: nat)
    requires Good(s, ring, t) && s.c.CAdvance?
    ensures t >= 1 && Good(Consume(s), Rotated(ring), t - 1)
  {
    var v := ViewOf(s);
    AtFront(v, ring, t);
    hide Parts, Flatten, Ring, Window, PowerOfTwo, ProducerKnows, Distinct, Rotated;
    var w := v.(frontBlock := ring[1]);
    assert ViewOf(Consume(s)) == w;
    RotateRing(v, w, ring, t);
    RotateParts(v, w, ring, t);
    ProducerRotates(s.p, v, w, ring, t);
  }

  /** Every step of the consumer keeps the invariant, on the ring that the step leaves. */
  lemma ConsumerStepGood<T>(s: State<T>, ring: seq<nat>, t: nat) returns (ring': seq<nat>, t': nat)
    requires Good(s, ring, t)
    ensures Good(Consume(s), ring', t')
  {
    hide Good, Consume;
    ring', t' := ring, t;
    match s.c
    case CTail(_, _, _) => ConsumerFront(s, ring, t);
    case CFront(_, _, _, _) => ConsumerFront(s, ring, t);
    case CNext(_, _) => ConsumerNext(s, ring, t);
    case CNextFront(_, _) => ConsumerNext(s, ring, t);
    case CNextTail(_, _, _) => ConsumerNext(s, ring, t);
    case CRead(_, _) => ReadSlot(s, ring, t);
    case CStoreFront(_, _) => StoreFront(s, ring, t);
    case CAdvance(_, _) =>
      RingLonger(s, ring, t);
      AdvanceFront(s, ring, t);
      ring', t' := Rotated(ring), t - 1;
    case _ => ConsumerStart(s, ring, t);
  }

  lemma CallGood<T>(s: State<T>, ring: seq<nat>, t: nat, a: Action<T>)
    requires Good(s, ring, t) && (a.Enqueue? || a.Ask?)
    ensures Good(Step(s, a), ring, t)
  {
    hide Ring, Parts, Flatten;
    assert ViewOf(Step(s, a)) == ViewOf(s);
  }

  /** Every action keeps the invariant. */
  lemma StepGood<T>(s: State<T>, ring: seq<nat>, t: nat, a: Action<T>) returns (ring': seq<nat>, t': nat)
    requires Good(s, ring, t)
    ensures Good(Step(s, a), ring', t')
  {
    hide Good, Consume, Produce;
    match a
    case ProducerStep => ring', t' := ProducerStepGood(s, ring, t);
    case ConsumerStep => ring', t' := ConsumerStepGood(s, ring, t);
    case _ =>
      CallGood(s, ring, t, a);
      ring', t' := ring, t;
  }
}
