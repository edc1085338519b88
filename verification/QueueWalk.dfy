/** The two walks around the ring of blocks: the destructor and size_approx. */
module QueueWalk {
  import opened Blocks
  import opened ReaderWriterQueue
  import opened QueueInvariant
  import opened QueueSteps
  import opened QueueTheorems

  /** Nobody is inside a call. */
  predicate Quiet<T>(s: State<T>) {
    ProducerIdle(s.p) && ConsumerIdle(s.c)
  }

  /** The destructor's inner loop: destroys what lies from front to tail. */
  method DestroyBlock<T>(b: Block<T>) returns (destroyed: seq<T>, data: seq<Slot<T>>)
    requires Shape(b) && Window(b.data, b.front, b.tail)
    ensures destroyed == Items(b.data, b.front, Gap(b.front, b.tail, b.size))
    ensures forall j :: 0 <= j < |data| ==> data[j].Empty?
    ensures |data| == |b.data|
  {
    hide PowerOfTwo, Items;
    destroyed, data := [], b.data;
    var i := b.front;
    DoneWindow(b.data, b.tail, b.tail);
    while i != b.tail
      invariant |data| == b.size && i < b.size && Window(data, i, b.tail)
      invariant destroyed + Items(data, i, Gap(i, b.tail, b.size)) == Items(b.data, b.front, Gap(b.front, b.tail, b.size))
      decreases Gap(i, b.tail, b.size)
    {
      WindowTake(data, i, b.tail);
      ItemsTake(data, i, b.tail, data[i].value);
      destroyed := destroyed + [data[i].value];
      data := data[i := Empty];
      i := Bump(i, b.size);
    }
    NoItems(data, i);
    DoneWindow(data, i, b.tail);
  }

  lemma DoneWindow<T>(data: seq<Slot<T>>, lo: int, hi: int)
    requires lo == hi && 0 <= lo < |data|
    ensures Window(data, lo, hi) <==> forall j :: 0 <= j < |data| ==> data[j].Empty?
  {}

  lemma NoItems<T>(data: seq<Slot<T>>, i: int)
    ensures Items(data, i, Gap(i, i, |data|)) == []
  {}

  function Min(a: int, b: int): int {
    if a < b then a else b
  }

  /** What a walk of i blocks along the ring has passed. */
  function Passed<T>(v: View<T>, ring: seq<nat>, t: nat, i: nat): seq<T>
    requires t < |ring|
  {
    if i == 0 then [] else Flatten(Parts(v, ring, Min(i - 1, t)))
  }

  /** One more block: its contents up to tailBlock, and nothing beyond it. */
  lemma PassBlock<T>(s: State<T>, ring: seq<nat>, t: nat, i: nat)
    requires Good(s, ring, t) && Quiet(s) && i < |ring|
    ensures var v, b := ViewOf(s), Get(s, ring[i]);
            && t < |ring| && Shape(b) && Window(b.data, b.front, b.tail)
            && b.next == ring[Succ(i, |ring|)]
            && Passed(v, ring, t, i + 1) == Passed(v, ring, t, i) + Items(b.data, b.front, Gap(b.front, b.tail, b.size))
  {
    var v := ViewOf(s);
    assert Stop(v, ring, t, i);
    hide Window, PowerOfTwo, Items, Gap, Distinct, ProducerKnows, ConsumerKnows;
    if i == 0 {
      assert Parts(v, ring, 0) == [Contents(v, ring[0])];
      OnePart(Contents(v, ring[0]));
    } else if i <= t {
      assert Parts(v, ring, i) == Parts(v, ring, i - 1) + [Contents(v, ring[i])];
      FlattenAppend(Parts(v, ring, i - 1), Contents(v, ring[i]));
    } else {
      NothingWithin(Get(s, ring[i]));
    }
  }

  lemma OnePart<T>(part: seq<T>)
    ensures Flatten([part]) == part
  {
    FlattenAppend([], part);
    assert [part] == [] + [part];
  }

  lemma NothingWithin<T>(b: Block<T>)
    ensures b.front == b.tail ==> Items(b.data, b.front, Gap(b.front, b.tail, b.size)) == []
  {}

  lemma RingStart<T>(s: State<T>, ring: seq<nat>, t: nat)
    requires Good(s, ring, t)
    ensures t < |ring| && ring[0] == s.frontBlock && Distinct(ring)
    ensures Passed(ViewOf(s), ring, t, |ring|) == Flatten(Parts(ViewOf(s), ring, t))
    ensures s.sent == s.got + Passed(ViewOf(s), ring, t, |ring|)
  {
    hide Flatten, Parts, ProducerKnows, ConsumerKnows, Stop, Distinct;
  }

  /** ~ReaderWriterQueue: once around the ring, destroying what is left. Every element that was enqueued is moved out
      by the consumer or destroyed here, once; every block is freed once. */
  method Destroy<T>(s: State<T>, ghost ring: seq<nat>, ghost t: nat) returns (destroyed: seq<T>, freed: seq<nat>)
    requires Good(s, ring, t) && Quiet(s)
    ensures s.sent == s.got + destroyed
    ensures freed == ring && Distinct(freed)
  {
    hide Good, Quiet, Passed, Distinct, Shape, Window, Items, Gap;
    RingStart(s, ring, t);
    destroyed, freed := [], [];
    ghost var v := ViewOf(s);
    var block := s.frontBlock;
    var again := true;
    assert Passed(v, ring, t, 0) == [] by {
      NothingPassed(v, ring, t);
    }
    while again
      invariant |freed| <= |ring| && freed == ring[..|freed|]
      invariant again <==> |freed| < |ring|
      invariant again ==> block == ring[|freed|]
      invariant destroyed == Passed(v, ring, t, |freed|)
      decreases |ring| - |freed|
    {
      PassBlock(s, ring, t, |freed|);
      var nextBlock := Get(s, block).next;
      var out, _ := DestroyBlock(Get(s, block));
      destroyed := destroyed + out;
      freed := freed + [block];
      block := nextBlock;
      again := block != s.frontBlock;
      BackAtFront(ring, |freed| - 1);
    }
    assert ring[..|ring|] == ring;
  }

  lemma NothingPassed<T>(v: View<T>, ring: seq<nat>, t: nat)
    requires t < |ring|
    ensures Passed(v, ring, t, 0) == []
  {}

  lemma BackAtFront(ring: seq<nat>, i: nat)
    requires i < |ring| && Distinct(ring)
    ensures ring[Succ(i, |ring|)] == ring[0] <==> i + 1 == |ring|
  {}

  /** size_approx while nobody is inside a call: exactly the number of elements in the queue. */
  method SizeApprox<T>(s: State<T>, ghost ring: seq<nat>, ghost t: nat) returns (result: nat)
    requires Good(s, ring, t) && Quiet(s)
    ensures result == |AbsQueue(s)|
  {
    hide Good, Quiet, Passed, Distinct, Shape, Items, AbsQueue, PowerOfTwo;
    RingStart(s, ring, t);
    AbsQueueIsRing(s, ring, t);
    result := 0;
    ghost var v := ViewOf(s);
    ghost var i: nat := 0;
    var block := s.frontBlock;
    var again := true;
    NothingPassed(v, ring, t);
    while again
      invariant i <= |ring| && (again <==> i < |ring|)
      invariant again ==> block == ring[i]
      invariant result == |Passed(v, ring, t, i)|
      decreases |ring| - i
    {
      PassBlock(s, ring, t, i);
      var b := Get(s, block);
      BlockSize(b);
      ItemsCount(b.data, b.front, b.tail, Gap(b.front, b.tail, b.size));
      result := result + Gap(b.front, b.tail, b.size);
      block := b.next;
      BackAtFront(ring, i);
      again := block != s.frontBlock;
      i := i + 1;
    }
  }

  lemma BlockSize<T>(b: Block<T>)
    requires Shape(b)
    ensures |b.data| == b.size && 0 <= Gap(b.front, b.tail, b.size)
  {}
}
