/** What every step of the queue keeps: the blocks form a ring, the elements sit between frontBlock and tailBlock in the
    order they were published, and what either thread has read so far stays good enough for its next step. */
module QueueInvariant {
  import opened Blocks
  import opened ReaderWriterQueue

  // ---- sequences of sequences ----

  function Flatten<T>(parts: seq<seq<T>>): seq<T> {
    if parts == [] then [] else Flatten(parts[..|parts| - 1]) + parts[|parts| - 1]
  }

  lemma FlattenAppend<T>(parts: seq<seq<T>>, part: seq<T>)
    ensures Flatten(parts + [part]) == Flatten(parts) + part
  {
    assert (parts + [part])[..|parts|] == parts;
  }

  lemma FlattenLast<T>(parts: seq<seq<T>>)
    requires |parts| >= 1
    ensures Flatten(parts) == Flatten(parts[..|parts| - 1]) + parts[|parts| - 1]
  {}

  lemma {:induction false} FlattenFront<T>(part: seq<T>, parts: seq<seq<T>>)
    ensures Flatten([part] + parts) == part + Flatten(parts)
    decreases |parts|
  {
    if parts == [] {
      FlattenAppend([], part);
      assert [part] + parts == [] + [part];
    } else {
      hide Flatten;
      var n := |parts| - 1;
      FlattenFront(part, parts[..n]);
      FlattenLast(parts);
      FlattenLast([part] + parts);
      assert ([part] + parts)[..n + 1] == [part] + parts[..n];
    }
  }

  lemma FlattenHead<T>(parts: seq<seq<T>>)
    requires |parts| >= 1
    ensures Flatten(parts) == parts[0] + Flatten(parts[1..])
  {
    hide Flatten;
    assert parts == [parts[0]] + parts[1..];
    FlattenFront(parts[0], parts[1..]);
  }

  // ---- the ring ----

  /** An index that a thread has already moved past in the slots but not yet stored. */
  datatype Mark = None | Mark(block: nat, index: nat)

  function Taking(c: Consumer): Mark {
    if c.CStoreFront? then Mark(c.fb, c.newFront) else None
  }

  function Filling<T>(p: Producer<T>): Mark {
    match p
    case PStoreTail(_, tb, nextBlockTail) => Mark(tb, nextBlockTail)
    case PNextStoreTail(_, nb, nextBlockTail) => Mark(nb, nextBlockTail)
    case _ => None
  }

  function Marked(m: Mark, id: nat, other: nat): nat {
    if m.Mark? && m.block == id then m.index else other
  }

  /** The part of the state that the invariant of the memory depends on. */
  datatype View<T> = View(blocks: seq<Block<T>>, frontBlock: nat, tailBlock: nat, taking: Mark, filling: Mark, ready: bool)

  function ViewOf<T>(s: State<T>): View<T> {
    View(s.blocks, s.frontBlock, s.tailBlock, Taking(s.c), Filling(s.p), s.p.PStoreTailBlock?)
  }

  function At<T>(v: View<T>, id: nat): Block<T> {
    if id < |v.blocks| then v.blocks[id] else NullBlock()
  }

  function Lo<T>(v: View<T>, id: nat): nat {
    Marked(v.taking, id, At(v, id).front)
  }

  function Hi<T>(v: View<T>, id: nat): nat {
    Marked(v.filling, id, At(v, id).tail)
  }

  /** The published elements of a block. */
  function Contents<T>(v: View<T>, id: nat): seq<T> {
    var b := At(v, id);
    Items(b.data, Lo(v, id), Gap(Lo(v, id), b.tail, |b.data|))
  }

  predicate Distinct(ring: seq<nat>) {
    forall i, j :: 0 <= i < j < |ring| ==> ring[i] != ring[j]
  }

  function Succ(i: nat, n: nat): nat {
    if i + 1 == n then 0 else i + 1
  }

  ghost predicate BlockOk<T>(v: View<T>, id: nat) {
    id < |v.blocks| && Shape(At(v, id)) && Window(At(v, id).data, Lo(v, id), Hi(v, id))
  }

  /** No element that a reader could see: front and tail meet. */
  predicate Drained<T>(v: View<T>, id: nat) {
    At(v, id).front == At(v, id).tail
  }

  /** The i-th block of the ring: it links to the one after it; blocks after frontBlock up to tailBlock, which is the
      t-th, are not empty; blocks beyond it are, except the one being prepared. */
  ghost predicate Stop<T>(v: View<T>, ring: seq<nat>, t: nat, i: nat)
    requires i < |ring|
  {
    && BlockOk(v, ring[i])
    && At(v, ring[i]).next == ring[Succ(i, |ring|)]
    && (1 <= i <= t ==> !Drained(v, ring[i]))
    && (t < i && (i == t + 1 ==> !v.ready) ==> Drained(v, ring[i]))
  }

  /** ring lists the blocks along next from frontBlock; ring[t] is tailBlock. */
  ghost predicate Ring<T>(v: View<T>, ring: seq<nat>, t: nat): (r: bool)
    ensures r ==> t < |ring|
  {
    && t < |ring| && Distinct(ring) && ring[0] == v.frontBlock && ring[t] == v.tailBlock
    && forall i :: 0 <= i < |ring| ==> Stop(v, ring, t, i)
  }

  function Parts<T>(v: View<T>, ring: seq<nat>, t: nat): (parts: seq<seq<T>>)
    requires t < |ring|
    ensures |parts| == t + 1
  {
    seq(t + 1, i requires 0 <= i <= t => Contents(v, ring[i]))
  }

  /** A block that only the producer knows, holding one element. */
  ghost predicate Private<T>(v: View<T>, ring: seq<nat>, nb: nat, x: T, tail: nat) {
    && nb !in ring && nb < |v.blocks| && Shape(At(v, nb)) && At(v, nb).front == 0 && At(v, nb).tail == tail
    && Window(At(v, nb).data, 0, 1) && At(v, nb).data[0] == Full(x)
  }

  /** mid lies on the way from lo to hi around the ring. */
  predicate Between(lo: int, mid: int, hi: int, size: int) {
    Gap(lo, hi, size) == Gap(lo, mid, size) + Gap(mid, hi, size)
  }

  /** One more element fits without tail reaching front. */
  predicate Room<T>(v: View<T>, id: nat) {
    var b := At(v, id);
    Bump(b.tail, b.size) != Lo(v, id) && Bump(b.tail, b.size) != b.front
  }

  /** What the producer knows at each step. */
  ghost predicate ProducerKnows<T>(p: Producer<T>, v: View<T>, ring: seq<nat>, t: nat) {
    match p
    case PFront(_, _, tb) => tb == v.tailBlock
    case PTail(_, _, tb, blockFront) =>
      var b := At(v, tb);
      && tb == v.tailBlock && blockFront < b.size
      && Between(blockFront, b.front, b.tail, b.size) && Between(blockFront, Lo(v, tb), b.tail, b.size)
    case PWrite(_, tb, blockTail) => tb == v.tailBlock && blockTail == At(v, tb).tail && Room(v, tb)
    case PStoreTail(x, tb, nextBlockTail) =>
      var b := At(v, tb);
      tb == v.tailBlock && nextBlockTail == Bump(b.tail, b.size) && Room(v, tb) && Read(b, b.tail) == Full(x)
    case PNext(_, _, tb) => tb == v.tailBlock
    case PFrontBlock(_, _, tb, nb) => tb == v.tailBlock && nb == At(v, tb).next
    case PNew(_, tb) => tb == v.tailBlock
    case PNextAgain(_, tb) => tb == v.tailBlock && t + 1 < |ring|
    case PNextFront(_, nb) => t + 1 < |ring| && nb == ring[t + 1]
    case PNextTail(_, nb, nextBlockFront) => t + 1 < |ring| && nb == ring[t + 1] && nextBlockFront == At(v, nb).front
    case PNextWrite(_, nb, nextBlockTail) => t + 1 < |ring| && nb == ring[t + 1] && nextBlockTail == At(v, nb).tail
    case PNextStoreTail(x, nb, nextBlockTail) =>
      var b := At(v, nb);
      t + 1 < |ring| && nb == ring[t + 1] && nextBlockTail == Bump(b.tail, b.size) && Read(b, b.tail) == Full(x)
    case PStoreTailBlock(x, nb) =>
      t + 1 < |ring| && nb == ring[t + 1] && !Drained(v, nb) && Contents(v, nb) == [x]
    case PNewTail(x, tb, nb) => tb == v.tailBlock && Private(v, ring, nb, x, 0)
    case PNewNext(x, tb, nb) => tb == v.tailBlock && Private(v, ring, nb, x, 1)
    case PNewStoreNext(x, tb, nb, nx) => tb == v.tailBlock && Private(v, ring, nb, x, 1) && nx == At(v, tb).next
    case PLink(x, tb, nb) => tb == v.tailBlock && Private(v, ring, nb, x, 1) && At(v, nb).next == At(v, tb).next
    case PFault => false
    case _ => true
  }

  /** What the consumer knows at each step. */
  predicate ConsumerKnows<T>(c: Consumer, v: View<T>, ring: seq<nat>, t: nat) {
    var b := At(v, v.frontBlock);
    match c
    case CFrontBlock(_, ta) => ta != v.frontBlock ==> t >= 1
    case CTail(_, ta, fb) => fb == v.frontBlock && (ta != fb ==> t >= 1)
    case CFront(_, ta, fb, blockTail) =>
      && fb == v.frontBlock && (blockTail != b.front ==> b.tail != b.front)
      && (ta != fb ==> t >= 1 && blockTail == b.tail)
    case CNext(_, fb) => fb == v.frontBlock && t >= 1 && Drained(v, fb)
    case CNextFront(_, nb) => t >= 1 && Drained(v, v.frontBlock) && nb == Second(ring)
    case CNextTail(_, nb, nextBlockFront) =>
      t >= 1 && Drained(v, v.frontBlock) && nb == Second(ring) && nextBlockFront == At(v, nb).front
    case CAdvance(nb, nextBlockFront) =>
      t >= 1 && Drained(v, v.frontBlock) && nb == Second(ring) && nextBlockFront == At(v, nb).front
    case CRead(fb, blockFront) => fb == v.frontBlock && blockFront == b.front != b.tail
    case CStoreFront(fb, newFront) => fb == v.frontBlock && newFront == Bump(b.front, b.size) && b.front != b.tail
    case CPeeked(block, index) =>
      && index == At(v, block).front
      && (if Drained(v, v.frontBlock) then t >= 1 && block == Second(ring) else block == v.frontBlock)
    case CFault => false
    case _ => true
  }

  function Second(ring: seq<nat>): nat {
    if |ring| >= 2 then ring[1] else 0
  }

  /** The invariant: the ring, both threads, and first in, first out. */
  ghost predicate Good<T>(s: State<T>, ring: seq<nat>, t: nat) {
    && Ring(ViewOf(s), ring, t)
    && s.largest >= 2 && PowerOfTwo(s.largest)
    && ProducerKnows(s.p, ViewOf(s), ring, t)
    && ConsumerKnows(s.c, ViewOf(s), ring, t)
    && s.sent == s.got + Flatten(Parts(ViewOf(s), ring, t))
  }

  // ---- frames ----

  predicate SameBlock<T(==)>(v: View<T>, w: View<T>, id: nat) {
    |v.blocks| <= |w.blocks| && At(w, id) == At(v, id) && Lo(w, id) == Lo(v, id) && Hi(w, id) == Hi(v, id)
  }

  predicate SameElsewhere<T(==)>(v: View<T>, w: View<T>, ring: seq<nat>, i: nat) {
    forall j :: 0 <= j < |ring| && j != i ==> SameBlock(v, w, ring[j])
  }

  predicate MarkWithin(m: Mark, id: nat) {
    m.Mark? ==> m.block == id
  }

  /** A write to block ring[i], with marks moving only there. */
  lemma SetElsewhere<T>(v: View<T>, w: View<T>, ring: seq<nat>, i: nat, b: Block<T>)
    requires Distinct(ring) && i < |ring| && w.blocks == Set(v.blocks, ring[i], b)
    requires w.taking == v.taking || (MarkWithin(w.taking, ring[i]) && MarkWithin(v.taking, ring[i]))
    requires w.filling == v.filling || (MarkWithin(w.filling, ring[i]) && MarkWithin(v.filling, ring[i]))
    ensures SameElsewhere(v, w, ring, i)
  {
    forall j | 0 <= j < |ring| && j != i
      ensures SameBlock(v, w, ring[j])
    {
      assert ring[j] != ring[i];
    }
  }

  lemma SameKeeps<T>(v: View<T>, w: View<T>, id: nat)
    requires SameBlock(v, w, id)
    ensures BlockOk(v, id) ==> BlockOk(w, id)
    ensures Drained(w, id) == Drained(v, id) && Contents(w, id) == Contents(v, id)
    ensures At(w, id).next == At(v, id).next
  {}

  /** Changing one block of the ring. */
  lemma RingUpdate<T>(v: View<T>, w: View<T>, ring: seq<nat>, t: nat, i: nat)
    requires Ring(v, ring, t) && i < |ring| && SameElsewhere(v, w, ring, i)
    requires w.frontBlock == v.frontBlock && w.tailBlock == v.tailBlock
    requires BlockOk(w, ring[i]) && At(w, ring[i]).next == At(v, ring[i]).next
    requires 1 <= i <= t ==> !Drained(w, ring[i])
    requires t < i && !(i == t + 1 && w.ready) ==> Drained(w, ring[i])
    requires v.ready ==> w.ready
    ensures Ring(w, ring, t)
  {
    assert Stop(v, ring, t, i) && Stop(w, ring, t, i);
    hide Distinct, SameBlock, Stop;
    forall j | 0 <= j < |ring|
      ensures Stop(w, ring, t, j)
    {
      if j != i {
        StopKept(v, w, ring, t, j);
      }
    }
  }

  lemma StopKept<T>(v: View<T>, w: View<T>, ring: seq<nat>, t: nat, j: nat)
    requires j < |ring| && Stop(v, ring, t, j) && SameBlock(v, w, ring[j]) && (v.ready ==> w.ready)
    ensures Stop(w, ring, t, j)
  {
    SameKeeps(v, w, ring[j]);
    hide BlockOk, Drained, At;
  }

  lemma PartsUpdate<T>(v: View<T>, w: View<T>, ring: seq<nat>, t: nat, i: nat)
    requires t < |ring| && i < |ring| && SameElsewhere(v, w, ring, i)
    ensures Parts(w, ring, t) == if i <= t then Parts(v, ring, t)[i := Contents(w, ring[i])] else Parts(v, ring, t)
  {
    hide Contents, SameBlock;
    forall j | 0 <= j < |ring| && j != i
      ensures Contents(w, ring[j]) == Contents(v, ring[j])
    {
      SameKeeps(v, w, ring[j]);
    }
  }
}
