/** RtApi::byteSwapBuffer: the bytes of each sample in the opposite order. */
module ByteSwap {
  import opened Arith

  datatype Format = SINT16 | SINT24 | SINT32 | FLOAT32 | FLOAT64 | OTHER

  /** Bytes of a sample; other formats are left alone. */
  function Width(f: Format): nat {
    match f
    case SINT16 => 2
    case SINT24 => 3
    case SINT32 => 4
    case FLOAT32 => 4
    case FLOAT64 => 8
    case OTHER => 0
  }

  /** w bytes from at on in the opposite order. */
  function Swapped(d: seq<int>, at: nat, w: nat): (r: seq<int>)
    requires at + w <= |d|
    ensures |r| == |d|
  {
    seq(|d|, p requires 0 <= p < |d| => if at <= p < at + w then d[at + w - 1 - (p - at)] else d[p])
  }

  /** n samples of w bytes, one behind the other, each in the opposite order. */
  function AllSwapped(d: seq<int>, w: nat, n: nat): (r: seq<int>)
    requires Prod(n, w) <= |d|
    ensures |r| == |d|
    decreases n
  {
    if n == 0 then d
    else
      ProdSucc(n - 1, w);
      Swapped(AllSwapped(d, w, n - 1), Prod(n - 1, w), w)
  }

  /** What the loop for 24 bits does: three bytes are swapped at every second place. */
  function Strided(d: seq<int>, n: nat): (r: seq<int>)
    requires 3 * n <= |d|
    ensures |r| == |d|
    decreases n
  {
    if n == 0 then d else Swapped(Strided(d, n - 1), 2 * (n - 1), 3)
  }

  /** byteSwapBuffer */
  method ByteSwapBuffer(buffer: array<int>, samples: nat, format: Format)
    requires Prod(samples, Width(format)) <= buffer.Length
    modifies buffer
    ensures Prod(samples, 3) == 3 * samples
    ensures buffer[..] == if format.SINT24? then Strided(old(buffer[..]), samples) else AllSwapped(old(buffer[..]), Width(format), samples)
  {
    hide Prod, Swapped;
    ghost var d, w := buffer[..], Width(format);
    ProdComm(samples, w);
    ProdComm(samples, 3);
    ProdSmall(samples);
    ProdSmall(w);
    ProdSmall(3);
    if format.OTHER? {
      NoWidth(d, samples);
      return;
    }
    var ptr := 0;
    for i := 0 to samples
      invariant ptr == if format.SINT24? then 2 * i else Prod(i, w)
      invariant Prod(i, w) <= |d| && 3 * i == Prod(i, 3)
      invariant buffer[..] == if format.SINT24? then Strided(d, i) else AllSwapped(d, w, i)
    {
      ProdSucc(i, w);
      ProdSucc(i, 3);
      ProdMono(i + 1, samples, w);
      ghost var was := buffer[..];
      if format.SINT16? {
        Swap(buffer, ptr, 1);
        Reversed2(was, buffer[..], ptr);
        ptr := ptr + 2;
      } else if format.SINT32? || format.FLOAT32? {
        Swap(buffer, ptr, 3);
        Swap(buffer, ptr + 1, 1);
        Reversed4(was, buffer[..], ptr);
        ptr := ptr + 4;
      } else if format.SINT24? {
        Swap(buffer, ptr, 2);
        Reversed3(was, buffer[..], ptr);
        ptr := ptr + 2;
      } else {
        Swap(buffer, ptr, 7);
        Swap(buffer, ptr + 1, 5);
        Swap(buffer, ptr + 2, 3);
        Swap(buffer, ptr + 3, 1);
        Reversed8(was, buffer[..], ptr);
        ptr := ptr + 8;
      }
    }
  }

  /** Two bytes change places. */
  function Exchanged(d: seq<int>, p: nat, k: nat): (r: seq<int>)
    requires p + k < |d|
    ensures |r| == |d|
  {
    d[p := d[p + k]][p + k := d[p]]
  }

  method Swap(buffer: array<int>, ptr: nat, k: nat)
    requires ptr + k < buffer.Length
    modifies buffer
    ensures buffer[..] == Exchanged(old(buffer[..]), ptr, k)
  {
    var val := buffer[ptr];
    buffer[ptr] := buffer[ptr + k];
    buffer[ptr + k] := val;
  }

  lemma Reversed2(d: seq<int>, e: seq<int>, p: nat)
    requires p + 2 <= |d| && e == Exchanged(d, p, 1)
    ensures e == Swapped(d, p, 2)
  {}

  lemma Reversed3(d: seq<int>, e: seq<int>, p: nat)
    requires p + 3 <= |d| && e == Exchanged(d, p, 2)
    ensures e == Swapped(d, p, 3)
  {}

  lemma Reversed4(d: seq<int>, e: seq<int>, p: nat)
    requires p + 4 <= |d| && e == Exchanged(Exchanged(d, p, 3), p + 1, 1)
    ensures e == Swapped(d, p, 4)
  {}

  lemma Reversed8(d: seq<int>, e: seq<int>, p: nat)
    requires p + 8 <= |d| && e == Exchanged(Exchanged(Exchanged(Exchanged(d, p, 7), p + 1, 5), p + 2, 3), p + 3, 1)
    ensures e == Swapped(d, p, 8)
  {}

  lemma {:induction false} NoWidth(d: seq<int>, n: nat)
    requires Prod(n, 0) <= |d|
    ensures AllSwapped(d, 0, n) == d
  {
    if n > 0 {
      ProdSucc(n - 1, 0);
      NoWidth(d, n - 1);
    }
  }

  lemma SwappedAt(d: seq<int>, at: nat, w: nat, p: nat)
    requires at + w <= |d| && p < |d|
    ensures Swapped(d, at, w)[p] == if at <= p < at + w then d[at + w - 1 - (p - at)] else d[p]
  {}

  lemma LastSwap(d: seq<int>, w: nat, n: nat)
    requires n >= 1 && Prod(n, w) <= |d|
    ensures Prod(n, w) == Prod(n - 1, w) + w
    ensures AllSwapped(d, w, n) == Swapped(AllSwapped(d, w, n - 1), Prod(n - 1, w), w)
  {
    ProdSucc(n - 1, w);
    hide Prod;
  }

  /** Byte b of sample s is byte w - 1 - b of the same sample before; bytes behind the samples stay. */
  lemma {:induction false} SampleBytes(d: seq<int>, w: nat, n: nat, s: nat, b: nat)
    requires Prod(n, w) <= |d| && b < w
    ensures s < n ==> Prod(s, w) + w <= |d| && AllSwapped(d, w, n)[Prod(s, w) + b] == d[Prod(s, w) + (w - 1 - b)]
    ensures n <= s && Prod(s, w) + w <= |d| ==> AllSwapped(d, w, n)[Prod(s, w) + b] == d[Prod(s, w) + b]
    decreases n
  {
    if n > 0 {
      hide Prod, Swapped, AllSwapped;
      LastSwap(d, w, n);
      SampleBytes(d, w, n - 1, s, b);
      SampleBytes(d, w, n - 1, s, w - 1 - b);
      if Prod(s, w) + w <= |d| {
        SwappedAt(AllSwapped(d, w, n - 1), Prod(n - 1, w), w, Prod(s, w) + b);
      }
      SamplesApart(s, n, w);
    }
  }

  /** byteSwapBuffer by format: the bytes of sample s for 16, 32 and 64 bits. */
  lemma FormatBytes(d: seq<int>, format: Format, n: nat, s: nat, b: nat, w: nat)
    requires w == match format case SINT16 => 2 case SINT24 => 3 case SINT32 => 4 case FLOAT32 => 4 case FLOAT64 => 8 case OTHER => 0
    requires Prod(n, w) <= |d| && s < n
    ensures Width(format) == w && Prod(s, w) + w <= |d|
    ensures b < w ==> AllSwapped(d, Width(format), n)[Prod(s, w) + b] == d[Prod(s, w) + (w - 1 - b)]
    ensures format.OTHER? ==> AllSwapped(d, Width(format), n) == d
  {
    hide Prod, AllSwapped;
    SamplesApart(s, n, w);
    if b < w {
      SampleBytes(d, w, n, s, b);
    }
    if format.OTHER? {
      NoWidth(d, n);
    }
  }

  lemma SamplesApart(s: nat, n: nat, w: nat)
    requires n >= 1
    ensures s < n - 1 ==> Prod(s, w) + w <= Prod(n - 1, w)
    ensures s >= n ==> Prod(s, w) >= Prod(n - 1, w) + w
    ensures s < n ==> Prod(s, w) + w <= Prod(n, w)
  {
    hide Prod;
    ProdSucc(s, w);
    ProdSucc(n - 1, w);
    if s < n - 1 {
      ProdMono(s + 1, n - 1, w);
    }
    if s >= n {
      ProdMono(n, s, w);
    } else {
      ProdMono(s + 1, n, w);
    }
  }

  /** The 24-bit loop steps by two bytes instead of three: the samples come out right, whatever they are, exactly if
      there is at most one of them. */
  lemma StridedIsRight(n: nat)
    ensures (forall d: seq<int> :: 3 * n <= |d| && Prod(n, 3) <= |d| ==> Strided(d, n) == AllSwapped(d, 3, n)) <==> n <= 1
  {
    hide Prod, Strided, AllSwapped;
    if n <= 1 {
      forall d: seq<int> | 3 * n <= |d| && Prod(n, 3) <= |d|
        ensures Strided(d, n) == AllSwapped(d, 3, n)
      {
        AtMostOne(d, n);
      }
    } else {
      var d := StridedWrong(n);
    }
  }

  lemma StridedWrong(n: nat) returns (d: seq<int>)
    requires n >= 2
    ensures 3 * n <= |d| && Prod(n, 3) <= |d| && Strided(d, n) != AllSwapped(d, 3, n)
  {
    hide Prod, Strided, AllSwapped;
    d := seq(3 * n, p => if p == 0 then 1 else 0);
    ProdComm(n, 3);
    ProdSmall(n);
    ProdSmall(3);
    Carried(d, n);
    SampleBytes(d, 3, n, 0, 2);
    assert AllSwapped(d, 3, n)[2] == 1;
    assert Strided(d, n)[2] == 0;
  }

  lemma AtMostOne(d: seq<int>, n: nat)
    requires n <= 1 && 3 * n <= |d| && Prod(n, 3) <= |d|
    ensures Strided(d, n) == AllSwapped(d, 3, n)
  {
    ProdSmall(3);
    if n == 1 {
      assert Strided(d, 0) == d && AllSwapped(d, 3, 0) == d;
    }
  }

  /** A first byte of 1 among zeros is carried along by every swap. */
  lemma {:induction false} Carried(d: seq<int>, n: nat)
    requires 3 * n <= |d| && |d| >= 1 && forall p :: 0 <= p < |d| ==> d[p] == if p == 0 then 1 else 0
    ensures forall p :: 0 <= p < |d| ==> Strided(d, n)[p] == if p == 2 * n then 1 else 0
    decreases n
  {
    if n > 0 {
      Carried(d, n - 1);
    }
  }
}
