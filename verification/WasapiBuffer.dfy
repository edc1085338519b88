/** WasapiBuffer of RtAudio.cpp: a ring buffer in which equal indices mean full, so that it is never empty. */
module WasapiBuffer {
  import opened Arith

  /** The whole ring seen from the out index, of which the first held samples wait to be pulled. */
  datatype Ring<T> = Ring(samples: seq<T>, held: nat)

  predicate Holds<T>(r: Ring<T>) {
    r.held <= |r.samples| && (|r.samples| > 0 ==> r.held > 0)
  }

  function Waiting<T>(r: Ring<T>): seq<T>
    requires Holds(r)
  {
    r.samples[..r.held]
  }

  /** A push is taken if its samples fit beside the waiting ones. */
  predicate Fits<T>(r: Ring<T>, n: nat) {
    1 <= n && r.held + n <= |r.samples|
  }

  function Pushed<T>(r: Ring<T>, xs: seq<T>): (r': Ring<T>)
    requires Holds(r) && Fits(r, |xs|)
    ensures Holds(r') && |r'.samples| == |r.samples|
    ensures Waiting(r') == Waiting(r) + xs
  {
    Ring(r.samples[..r.held] + xs + r.samples[r.held + |xs|..], r.held + |xs|)
  }

  /** Pulling everything leaves the indices equal, which means full: the old samples come round again. */
  function Pulled<T>(r: Ring<T>, n: nat): (r': Ring<T>)
    requires Holds(r) && 1 <= n <= r.held
    ensures Holds(r') && |r'.samples| == |r.samples|
    ensures n < r.held ==> Waiting(r') == Waiting(r)[n..]
    ensures n == r.held ==> Waiting(r') == r.samples[n..] + r.samples[..n]
  {
    Ring(r.samples[n..] + r.samples[..n], if n < r.held then r.held - n else |r.samples|)
  }

  /** The position k steps after the out index. */
  function Wrap(out: nat, k: nat, size: nat): int {
    if out + k < size then out + k else out + k - size
  }

  function Turned<T>(data: seq<T>, out: nat): (r: seq<T>)
    requires out <= |data|
    ensures |r| == |data|
    ensures forall k {:trigger r[k]} :: 0 <= k < |r| ==> r[k] == data[Wrap(out, k, |data|)]
  {
    data[out..] + data[..out]
  }

  /** How many samples wait when the indices are at and out: size of them when the two are equal. */
  function Between(at: nat, out: nat, size: nat): (r: nat)
    requires at <= size && out <= size
    ensures at < size && out < size ==> 1 <= r <= size
  {
    if at > out then at - out else at + size - out
  }

  /** The test of pushBuffer: the end of the new samples may reach the out index, their beginning may not be it. */
  lemma PushTest(at: nat, out: nat, size: nat, n: nat, relOut: nat)
    requires at < size && out < size && 1 <= n <= size && relOut == if out < at && at + n >= size then out + size else out
    ensures at <= relOut && at + n > relOut <==> Between(at, out, size) + n > size
  {}

  /** The test of pullBuffer: equal indices stand for a full ring. */
  lemma PullTest(at: nat, out: nat, size: nat, n: nat, relIn: nat)
    requires at < size && out < size && 1 <= n <= size && relIn == if at < out && out + n >= size then at + size else at
    ensures out < relIn && out + n > relIn <==> n > Between(at, out, size)
  {}

  lemma IndexMoves(at: nat, out: nat, size: nat, n: nat)
    requires at < size && out < size && n <= size
    ensures (at + n) % size == Wrap(at, n, size) < size
    ensures at == Wrap(out, Between(at, out, size), size)
  {
    ProdSmall(size);
    hide Prod;
    ModUnique(at + n, if at + n < size then 0 else 1, Wrap(at, n, size), size);
  }

  /** xs copied into the ring at first, wrapping at its end. */
  predicate CopiedIn<T(==)>(before: seq<T>, after: seq<T>, first: nat, xs: seq<T>) {
    && |before| == |after| && first < |before| && |xs| <= |before|
    && forall k :: 0 <= k < |before| ==>
        after[k] == if first <= k < first + |xs| then xs[k - first]
                    else if k < first + |xs| - |before| then xs[k + |before| - first] else before[k]
  }

  /** The ring after a push, position by position. */
  lemma PushedRing<T>(before: seq<T>, after: seq<T>, out: nat, held: nat, first: nat, xs: seq<T>)
    requires CopiedIn(before, after, first, xs) && out < |before| && held + |xs| <= |before| && first == Wrap(out, held, |before|)
    ensures Turned(after, out) == Turned(before, out)[..held] + xs + Turned(before, out)[held + |xs|..]
  {}

  lemma PulledRing<T>(data: seq<T>, out: nat, n: nat)
    requires out < |data| && n <= |data|
    ensures Wrap(out, n, |data|) <= |data|
    ensures Turned(data, Wrap(out, n, |data|)) == Turned(data, out)[n..] + Turned(data, out)[..n]
  {}

  /** What memcpy leaves in a destination. */
  function Overlaid<T>(dst: seq<T>, at: nat, src: seq<T>): (r: seq<T>)
    requires at + |src| <= |dst|
    ensures |r| == |dst|
  {
    dst[..at] + src + dst[at + |src|..]
  }

  method Memcpy<T>(dst: array<T>, at: nat, src: array<T>, from: nat, n: nat)
    requires dst != src && at + n <= dst.Length && from + n <= src.Length
    modifies dst
    ensures dst[..] == Overlaid(old(dst[..]), at, src[from..from + n])
  {
    forall i | 0 <= i < n {
      dst[at + i] := src[from + i];
    }
  }

  lemma CopiedTwice<T>(before: seq<T>, first: nat, xs: seq<T>, head: nat)
    requires first < |before| && |xs| <= |before|
    requires head == if first + |xs| <= |before| then |xs| else |before| - first
    ensures head <= |xs| && first + head <= |before| && |xs| - head <= |before|
    ensures CopiedIn(before, Overlaid(Overlaid(before, first, xs[..head]), 0, xs[head..]), first, xs)
  {}

  lemma PulledTwice<T>(data: seq<T>, out: nat, n: nat, head: nat)
    requires out < |data| && n <= |data| && head == if out + n <= |data| then n else |data| - out
    ensures head <= n && out + head <= |data| && n - head <= |data|
    ensures data[out..out + head] + data[..n - head] == Turned(data, out)[..n]
  {}

  lemma OverlaidTwice<T>(dst: seq<T>, a: seq<T>, b: seq<T>)
    requires |a| + |b| <= |dst|
    ensures Overlaid(Overlaid(dst, 0, a), |a|, b) == a + b + dst[|a| + |b|..]
  {}

  lemma PushedCount(at: nat, out: nat, size: nat, n: nat)
    requires at < size && out < size && 1 <= n && Between(at, out, size) + n <= size
    ensures Wrap(at, n, size) < size && Between(Wrap(at, n, size), out, size) == Between(at, out, size) + n
  {}

  lemma PulledCount(at: nat, out: nat, size: nat, n: nat)
    requires at < size && out < size && 1 <= n <= Between(at, out, size)
    ensures Wrap(out, n, size) < size
    ensures Between(at, Wrap(out, n, size), size) == if n < Between(at, out, size) then Between(at, out, size) - n else size
  {}

  /** What pushBuffer leaves is the push on the abstract ring. */
  lemma PushRefines<T>(before: seq<T>, at: nat, out: nat, xs: seq<T>, head: nat)
    requires at < |before| && out < |before| && 1 <= |xs| && Between(at, out, |before|) + |xs| <= |before|
    requires head == if at + |xs| <= |before| then |xs| else |before| - at
    ensures head <= |xs| && at + head <= |before| && |xs| - head <= |before|
    ensures var after := Overlaid(Overlaid(before, at, xs[..head]), 0, xs[head..]);
            var r, at' := Ring(Turned(before, out), Between(at, out, |before|)), (at + |xs|) % |before|;
            && Holds(r) && Fits(r, |xs|) && at' < |before|
            && Ring(Turned(after, out), Between(at', out, |before|)) == Pushed(r, xs)
  {
    hide Turned, Wrap, CopiedIn, Between, Overlaid;
    IndexMoves(at, out, |before|, |xs|);
    CopiedTwice(before, at, xs, head);
    var after := Overlaid(Overlaid(before, at, xs[..head]), 0, xs[head..]);
    PushedRing(before, after, out, Between(at, out, |before|), at, xs);
    PushedCount(at, out, |before|, |xs|);
  }

  /** What pullBuffer leaves is the pull on the abstract ring. */
  lemma PullRefines<T>(data: seq<T>, at: nat, out: nat, n: nat, head: nat, dst: seq<T>)
    requires at < |data| && out < |data| && 1 <= n <= Between(at, out, |data|) <= |data| && n <= |dst|
    requires head == if out + n <= |data| then n else |data| - out
    ensures head <= n && out + head <= |data| && n - head <= |data|
    ensures var r, out' := Ring(Turned(data, out), Between(at, out, |data|)), (out + n) % |data|;
            && Holds(r) && out' < |data|
            && Ring(Turned(data, out'), Between(at, out', |data|)) == Pulled(r, n)
            && Overlaid(Overlaid(dst, 0, data[out..out + head]), head, data[..n - head]) == Waiting(r)[..n] + dst[n..]
  {
    hide Turned, Wrap, Between, Overlaid;
    IndexMoves(out, at, |data|, n);
    PulledTwice(data, out, n, head);
    OverlaidTwice(dst, data[out..out + head], data[..n - head]);
    assert Turned(data, out)[..Between(at, out, |data|)][..n] == Turned(data, out)[..n];
    PulledRing(data, out, n);
    PulledCount(at, out, |data|, n);
  }

  class Buffer<T(0)> {
    var buffer: array<T>
    var inIndex: nat
    var outIndex: nat

    predicate Valid()
      reads this
    {
      if buffer.Length == 0 then inIndex == 0 == outIndex else inIndex < buffer.Length && outIndex < buffer.Length
    }

    function Abstract(): (r: Ring<T>)
      reads this, buffer
      requires Valid()
      ensures Holds(r) && |r.samples| == buffer.Length && r.held == Between(inIndex, outIndex, buffer.Length)
    {
      Ring(Turned(buffer[..], outIndex), Between(inIndex, outIndex, buffer.Length))
    }

    /** The buffer before any size is set: it takes and gives nothing. */
    constructor ()
      ensures Valid() && fresh(buffer) && Abstract() == Ring([], 0)
    {
      buffer, inIndex, outIndex := new T[0], 0, 0;
      new;
      assert buffer[..] == [];
    }

    /** setBufferSize; zero is the sample that calloc leaves. */
    method SetBufferSize(bufferSize: nat, zero: T)
      modifies this
      ensures Valid() && fresh(buffer) && Abstract() == Ring(seq(bufferSize, i => zero), bufferSize)
    {
      buffer := new T[bufferSize](i => zero);
      inIndex := 0;
      outIndex := 0;
    }

    /** pushBuffer. Exactly the pushes that fit are taken, and they go behind the samples that wait. */
    method PushBuffer(samples: array?<T>, bufferSize: nat) returns (ok: bool)
      requires Valid() && samples != buffer && (samples != null ==> bufferSize <= samples.Length)
      modifies this`inIndex, buffer
      ensures Valid()
      ensures ok <==> samples != null && 1 <= bufferSize && old(Abstract()).held + bufferSize <= buffer.Length
      ensures Abstract() == if ok then Pushed(old(Abstract()), samples[..bufferSize]) else old(Abstract())
    {
      hide Turned, Between, Overlaid, Pushed, Wrap;
      if samples == null || bufferSize == 0 || bufferSize > buffer.Length {
        return false;
      }
      var relOutIndex := outIndex;
      var inIndexEnd := inIndex + bufferSize;
      if relOutIndex < inIndex && inIndexEnd >= buffer.Length {
        relOutIndex := relOutIndex + buffer.Length;
      }
      PushTest(inIndex, outIndex, buffer.Length, bufferSize, relOutIndex);
      if inIndex <= relOutIndex && inIndexEnd > relOutIndex {
        return false;
      }
      var fromZeroSize: int := inIndex + bufferSize - buffer.Length;
      fromZeroSize := if fromZeroSize < 0 then 0 else fromZeroSize;
      var fromInSize := bufferSize - fromZeroSize;
      ghost var before, xs := buffer[..], samples[..bufferSize];
      PushRefines(before, inIndex, outIndex, xs, fromInSize);
      Memcpy(buffer, inIndex, samples, 0, fromInSize);
      Memcpy(buffer, 0, samples, fromInSize, fromZeroSize);
      assert samples[0..fromInSize] == xs[..fromInSize] && samples[fromInSize..fromInSize + fromZeroSize] == xs[fromInSize..];
      inIndex := (inIndex + bufferSize) % buffer.Length;
      return true;
    }

    /** pullBuffer. Exactly the pulls of waiting samples succeed, and they get the oldest ones in order. */
    method PullBuffer(samples: array?<T>, bufferSize: nat) returns (ok: bool)
      requires Valid() && samples != buffer && (samples != null ==> bufferSize <= samples.Length)
      modifies this`outIndex, samples
      ensures Valid()
      ensures ok <==> samples != null && 1 <= bufferSize <= old(Abstract()).held
      ensures ok ==> samples[..] == Waiting(old(Abstract()))[..bufferSize] + old(samples[..])[bufferSize..]
      ensures !ok && samples != null ==> samples[..] == old(samples[..])
      ensures Abstract() == if ok then Pulled(old(Abstract()), bufferSize) else old(Abstract())
    {
      hide Turned, Between, Overlaid, Pulled, Waiting, Wrap;
      if samples == null || bufferSize == 0 || bufferSize > buffer.Length {
        return false;
      }
      var relInIndex := inIndex;
      var outIndexEnd := outIndex + bufferSize;
      if relInIndex < outIndex && outIndexEnd >= buffer.Length {
        relInIndex := relInIndex + buffer.Length;
      }
      PullTest(inIndex, outIndex, buffer.Length, bufferSize, relInIndex);
      if outIndex < relInIndex && outIndexEnd > relInIndex {
        return false;
      }
      var fromZeroSize: int := outIndex + bufferSize - buffer.Length;
      fromZeroSize := if fromZeroSize < 0 then 0 else fromZeroSize;
      var fromOutSize := bufferSize - fromZeroSize;
      ghost var before, data := samples[..], buffer[..];
      PullRefines(data, inIndex, outIndex, bufferSize, fromOutSize, before);
      assert buffer[outIndex..outIndex + fromOutSize] == data[outIndex..outIndex + fromOutSize];
      assert buffer[0..fromZeroSize] == data[..fromZeroSize];
      Memcpy(samples, 0, buffer, outIndex, fromOutSize);
      Memcpy(samples, fromOutSize, buffer, 0, fromZeroSize);
      assert buffer[..] == data;
      outIndex := (outIndex + bufferSize) % buffer.Length;
      return true;
    }
  }

  // ---- whole runs ----

  datatype Op<T> = Push(xs: seq<T>) | Pull(n: nat)

  function After<T>(r: Ring<T>, op: Op<T>): (r': Ring<T>)
    requires Holds(r)
    ensures Holds(r') && |r'.samples| == |r.samples|
  {
    match op
    case Push(xs) => if Fits(r, |xs|) then Pushed(r, xs) else r
    case Pull(n) => if 1 <= n <= r.held then Pulled(r, n) else r
  }

  /** What a push that is taken puts in, and what a pull that succeeds takes out. */
  function In<T>(r: Ring<T>, op: Op<T>): seq<T> {
    if op.Push? && Fits(r, |op.xs|) then op.xs else []
  }

  function Out<T>(r: Ring<T>, op: Op<T>): seq<T>
    requires Holds(r)
  {
    if op.Pull? && 1 <= op.n <= r.held then Waiting(r)[..op.n] else []
  }

  function AfterAll<T>(r: Ring<T>, ops: seq<Op<T>>): (r': Ring<T>)
    requires Holds(r)
    ensures Holds(r') && |r'.samples| == |r.samples|
    decreases |ops|
  {
    if ops == [] then r else AfterAll(After(r, ops[0]), ops[1..])
  }

  function AllIn<T>(r: Ring<T>, ops: seq<Op<T>>): seq<T>
    requires Holds(r)
    decreases |ops|
  {
    if ops == [] then [] else In(r, ops[0]) + AllIn(After(r, ops[0]), ops[1..])
  }

  function AllOut<T>(r: Ring<T>, ops: seq<Op<T>>): seq<T>
    requires Holds(r)
    decreases |ops|
  {
    if ops == [] then [] else Out(r, ops[0]) + AllOut(After(r, ops[0]), ops[1..])
  }

  /** No pull takes everything that waits. */
  predicate NeverEmptied<T>(r: Ring<T>, ops: seq<Op<T>>)
    requires Holds(r)
    decreases |ops|
  {
    ops == [] || ((ops[0] == Pull(r.held) ==> r.held == 0) && NeverEmptied(After(r, ops[0]), ops[1..]))
  }

  /** What has come out and what waits are what waited at first and what has gone in, in order. */
  predicate InOrder<T(==)>(r: Ring<T>, ops: seq<Op<T>>)
    requires Holds(r)
  {
    AllOut(r, ops) + Waiting(AfterAll(r, ops)) == Waiting(r) + AllIn(r, ops)
  }

  /** The buffer is a queue over a run exactly if no pull of the run takes everything that waits. */
  lemma RunsInOrder<T>(r: Ring<T>, ops: seq<Op<T>>)
    requires Holds(r)
    ensures InOrder(r, ops) <==> NeverEmptied(r, ops)
  {
    hide Waiting, AllOut, AllIn, AfterAll;
    if NeverEmptied(r, ops) {
      QueueUnlessEmptied(r, ops);
    } else {
      EmptiedAdds(r, ops);
      assert |AllOut(r, ops) + Waiting(AfterAll(r, ops))| > |Waiting(r) + AllIn(r, ops)| by {
        WaitingLength(r);
        WaitingLength(AfterAll(r, ops));
      }
    }
  }

  lemma WaitingLength<T>(r: Ring<T>)
    requires Holds(r)
    ensures |Waiting(r)| == r.held
  {}

  /** Each pull that empties the buffer puts all its samples there once more: never less comes out and waits than has
      waited and gone in, and more if the buffer was emptied. */
  lemma {:induction false} EmptiedAdds<T>(r: Ring<T>, ops: seq<Op<T>>)
    requires Holds(r)
    ensures |AllOut(r, ops)| + AfterAll(r, ops).held >= r.held + |AllIn(r, ops)|
    ensures !NeverEmptied(r, ops) ==> |AllOut(r, ops)| + AfterAll(r, ops).held >= r.held + |AllIn(r, ops)| + |r.samples|
    ensures !NeverEmptied(r, ops) ==> |r.samples| > 0
    decreases |ops|
  {
    if ops != [] {
      EmptiedAdds(After(r, ops[0]), ops[1..]);
      OneAdds(r, ops[0]);
      hide Pushed, Pulled, Waiting, After, In, Out;
    }
  }

  lemma OneAdds<T>(r: Ring<T>, op: Op<T>)
    requires Holds(r)
    ensures |Out(r, op)| + After(r, op).held
         == r.held + |In(r, op)| + if op == Pull(r.held) && r.held > 0 then |r.samples| else 0
  {}

  lemma {:induction false} QueueUnlessEmptied<T>(r: Ring<T>, ops: seq<Op<T>>)
    requires Holds(r) && NeverEmptied(r, ops)
    ensures InOrder(r, ops)
    decreases |ops|
  {
    hide Pushed, Pulled, Waiting;
    if ops != [] {
      var r' := After(r, ops[0]);
      QueueUnlessEmptied(r', ops[1..]);
      assert Out(r, ops[0]) + Waiting(r') == Waiting(r) + In(r, ops[0]) by {
        OneInOrder(r, ops[0]);
      }
      hide In, Out, After;
      InOrderJoin(Out(r, ops[0]), AllOut(r', ops[1..]), Waiting(AfterAll(r', ops[1..])), Waiting(r'), Waiting(r),
                  In(r, ops[0]), AllIn(r', ops[1..]));
    }
  }

  lemma OneInOrder<T>(r: Ring<T>, op: Op<T>)
    requires Holds(r) && (op == Pull(r.held) ==> r.held == 0)
    ensures Out(r, op) + Waiting(After(r, op)) == Waiting(r) + In(r, op)
  {
    hide Pushed, Pulled;
  }

  lemma InOrderJoin<T>(out1: seq<T>, out2: seq<T>, end: seq<T>, mid: seq<T>, start: seq<T>, in1: seq<T>, in2: seq<T>)
    requires out2 + end == mid + in2 && out1 + mid == start + in1
    ensures (out1 + out2) + end == start + (in1 + in2)
  {
    assert (out1 + out2) + end == out1 + (out2 + end) == (out1 + mid) + in2 == (start + in1) + in2;
  }

  /** A pull of everything that waits makes the buffer full again: it refuses every push, and gives the same ring of
      old samples, oldest first, to whoever pulls next. */
  lemma EmptiedIsFull<T>(r: Ring<T>, xs: seq<T>)
    requires Holds(r) && r.held >= 1
    ensures var r' := After(r, Pull(r.held));
            && !Fits(r', |xs|)
            && Out(r', Pull(|r.samples|)) == r.samples[r.held..] + Waiting(r)
  {
    hide Pulled;
    var r' := After(r, Pull(r.held));
    assert r'.held == |r.samples| by {
      assert r' == Pulled(r, r.held);
      EmptiedHeld(r);
    }
    assert Waiting(r')[..|r.samples|] == Waiting(r');
  }

  lemma EmptiedHeld<T>(r: Ring<T>)
    requires Holds(r) && r.held >= 1
    ensures Pulled(r, r.held).held == |r.samples|
  {}
}
