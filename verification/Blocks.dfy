/** Block of readerwriterqueue.h: a ring buffer of a power-of-two size whose elements lie from front up to tail. */
module Blocks {
  /** Raw storage: constructed elements and the holes between them. */
  datatype Slot<T> = Empty | Full(value: T)

  /** next is the number of another block. */
  datatype Block<T> = Block(front: nat, tail: nat, next: nat, size: nat, data: seq<Slot<T>>)

  predicate PowerOfTwo(n: nat) {
    n == 1 || (n >= 2 && n % 2 == 0 && PowerOfTwo(n / 2))
  }

  /** (i + 1) & sizeMask() for an index i below a power of two. */
  function Bump(i: nat, size: nat): nat {
    if i + 1 == size then 0 else i + 1
  }

  /** Bitwise and. */
  function And(a: nat, b: nat): nat {
    if a == 0 || b == 0 then 0 else 2 * And(a / 2, b / 2) + if a % 2 == 1 && b % 2 == 1 then 1 else 0
  }

  /** size - 1 has all bits below that of size. */
  lemma {:induction false} Masked(x: nat, size: nat)
    requires PowerOfTwo(size) && x <= size
    ensures And(x, size - 1) == if x == size then 0 else x
  {
    if size > 1 && x > 0 {
      Masked(x / 2, size / 2);
      assert (size - 1) / 2 == size / 2 - 1 && (size - 1) % 2 == 1;
    }
  }

  /** Masking with size - 1 moves an index on around a block. */
  lemma MaskIsBump(i: nat, size: nat)
    requires PowerOfTwo(size) && i < size
    ensures And(i + 1, size - 1) == Bump(i, size) < size
  {
    Masked(i + 1, size);
  }

  /** How many steps lead from lo to hi around the ring. */
  function Gap(lo: int, hi: int, size: int): int {
    if lo <= hi then hi - lo else hi - lo + size
  }

  function Slide(lo: int, k: int, size: int): int {
    if lo + k < size then lo + k else lo + k - size
  }

  predicate Shape<T>(b: Block<T>) {
    b.size >= 2 && PowerOfTwo(b.size) && |b.data| == b.size && b.front < b.size && b.tail < b.size
  }

  /** The constructed elements are those from lo up to hi. */
  predicate Window<T>(data: seq<Slot<T>>, lo: int, hi: int): (r: bool)
    ensures r ==> 0 <= lo < |data| && 0 <= hi < |data|
  {
    var n := |data|;
    && 0 <= lo < n && 0 <= hi < n
    && forall j :: 0 <= j < n ==> (data[j].Full? <==> Gap(lo, j, n) < Gap(lo, hi, n))
  }

  function One<T>(data: seq<Slot<T>>, i: int): seq<T> {
    if 0 <= i < |data| && data[i].Full? then [data[i].value] else []
  }

  /** The elements in n slots from lo on. */
  function Items<T>(data: seq<Slot<T>>, lo: int, n: int): seq<T>
    decreases n
  {
    if n <= 0 then [] else Items(data, lo, n - 1) + One(data, Slide(lo, n - 1, |data|))
  }

  /** Writing a slot outside the range leaves the items as they are. */
  lemma {:induction false} ItemsOutside<T>(data: seq<Slot<T>>, lo: int, n: int, j: int, x: Slot<T>)
    requires 0 <= lo < |data| && 0 <= j < |data| && n <= Gap(lo, j, |data|)
    ensures Items(data[j := x], lo, n) == Items(data, lo, n)
    decreases n
  {
    if n <= 0 {
    } else {
      ItemsOutside(data, lo, n - 1, j, x);
    }
  }

  /** Taking the first item. */
  lemma {:induction false} ItemsFirst<T>(data: seq<Slot<T>>, lo: int, n: int)
    requires 0 <= lo < |data| && 1 <= n <= |data|
    ensures Items(data, lo, n) == One(data, lo) + Items(data, Bump(lo, |data|), n - 1)
    decreases n
  {
    hide One;
    if n == 1 {
      assert Items(data, lo, 0) == [];
    } else {
      ItemsFirst(data, lo, n - 1);
      assert Slide(lo, n - 1, |data|) == Slide(Bump(lo, |data|), n - 2, |data|);
      hide Bump, Slide;
    }
  }

  lemma {:induction false} ItemsCount<T>(data: seq<Slot<T>>, lo: int, hi: int, n: int)
    requires Window(data, lo, hi) && 0 <= n <= Gap(lo, hi, |data|)
    ensures |Items(data, lo, n)| == n
    decreases n
  {
    if n > 0 {
      ItemsCount(data, lo, hi, n - 1);
    }
  }

  /** Constructing an element at hi. */
  lemma WindowFill<T>(data: seq<Slot<T>>, lo: int, hi: int, x: T)
    requires Window(data, lo, hi) && Bump(hi, |data|) != lo
    ensures data[hi].Empty? && Window(data[hi := Full(x)], lo, Bump(hi, |data|))
    ensures Gap(lo, Bump(hi, |data|), |data|) == Gap(lo, hi, |data|) + 1
  {}

  /** Destroying the element at lo. */
  lemma WindowTake<T>(data: seq<Slot<T>>, lo: int, hi: int)
    requires Window(data, lo, hi) && lo != hi
    ensures data[lo].Full? && Window(data[lo := Empty], Bump(lo, |data|), hi)
    ensures Gap(Bump(lo, |data|), hi, |data|) == Gap(lo, hi, |data|) - 1
  {}

  /** The items after the element at hi has been published. */
  lemma ItemsFill<T>(data: seq<Slot<T>>, lo: int, hi: int, x: T)
    requires 0 <= lo < |data| && 0 <= hi < |data| && Bump(hi, |data|) != lo && data[hi] == Full(x)
    ensures Items(data, lo, Gap(lo, Bump(hi, |data|), |data|)) == Items(data, lo, Gap(lo, hi, |data|)) + [x]
  {}

  /** The items before and after the element at lo is destroyed. */
  lemma ItemsTake<T>(data: seq<Slot<T>>, lo: int, hi: int, x: T)
    requires 0 <= lo < |data| && 0 <= hi < |data| && lo != hi && data[lo] == Full(x)
    ensures Items(data, lo, Gap(lo, hi, |data|))
         == [x] + Items(data[lo := Empty], Bump(lo, |data|), Gap(Bump(lo, |data|), hi, |data|))
  {
    var n := |data|;
    ItemsFirst(data, lo, Gap(lo, hi, n));
    ItemsOutside(data, Bump(lo, n), Gap(Bump(lo, n), hi, n), lo, Empty);
  }

  /** What ceilToPow2 is for: the least power of two that is not below x. */
  function CeilToPow2(x: nat): (p: nat)
    requires x >= 1
    ensures PowerOfTwo(p) && p >= x && (p == 1 || p / 2 < x)
  {
    if x == 1 then 1 else 2 * CeilToPow2((x + 1) / 2)
  }
}
