/** What overlap-save filtering computes: the direct sum over the taps, as a window of a circular convolution with
    the impulse response rotated left by its length less one. */
module Fir {
  import opened Arith
  import opened Complex
  import opened Twiddles
  import opened Stage
  import opened Inversion

  /** l -> x[t + l] * h[nh - 1 - l]: the products of the direct filter, oldest sample first */
  ghost function FirTerm(h: seq<Cpx>, x: seq<Cpx>, t: int): nat -> Cpx {
    (l: nat) => Mul(Get(x, t + l), Get(h, |h| - 1 - l))
  }

  /** Output t of the direct filter over the samples x. */
  ghost function Filtered(h: seq<Cpx>, x: seq<Cpx>, t: int): Cpx {
    Sum(FirTerm(h, x, t), |h|)
  }

  /** The whole output of the direct filter: one sample for each full window. */
  ghost function FilterAll(h: seq<Cpx>, x: seq<Cpx>): (y: seq<Cpx>)
    requires 1 <= |h| <= |x| + 1
    ensures |y| == |x| - |h| + 1
  {
    seq(|x| - |h| + 1, t => Filtered(h, x, t))
  }

  // ---- the reference: the direct filter with its circular buffer of past samples ----

  /** Before sample k, the buffer holds the samples before it, the oldest at oldestlag. */
  predicate Lagging(circbuf: seq<Cpx>, oldestlag: nat, x: seq<Cpx>, k: nat) {
    && |circbuf| <= k <= |x| && oldestlag < |circbuf|
    && forall tap :: 0 <= tap < |circbuf| ==>
        circbuf[tap] == x[k - |circbuf| + if tap >= oldestlag then tap - oldestlag else tap + |circbuf| - oldestlag]
  }

  lemma LagNext(circbuf: seq<Cpx>, oldestlag: nat, x: seq<Cpx>, k: nat)
    requires Lagging(circbuf, oldestlag, x, k) && k < |x|
    ensures Lagging(circbuf[oldestlag := x[k]], if oldestlag + 1 == |circbuf| then 0 else oldestlag + 1, x, k + 1)
  {}

  lemma LagTerm(h: seq<Cpx>, circbuf: seq<Cpx>, oldestlag: nat, x: seq<Cpx>, k: nat, tap: nat)
    requires |circbuf| == |h| - 1 && Lagging(circbuf, oldestlag, x, k) && tap < |circbuf|
    ensures var l := if tap >= oldestlag then tap - oldestlag else tap + |circbuf| - oldestlag;
            FirTerm(h, x, k - |circbuf|)(l) == Mul(circbuf[tap], h[|circbuf| - l])
  {
    hide Mul;
    var l := if tap >= oldestlag then tap - oldestlag else tap + |circbuf| - oldestlag;
    assert Get(x, k - |circbuf| + l) == circbuf[tap] && Get(h, |h| - 1 - l) == h[|circbuf| - l];
  }

  /** The products of one output, taken from the two parts of the circular buffer and then from the new sample. */
  method DirectOutput(h: seq<Cpx>, circbuf: array<Cpx>, oldestlag: nat, sample: Cpx, ghost x: seq<Cpx>, ghost k: nat)
    returns (outval: Cpx)
    requires circbuf.Length == |h| - 1 && k < |x| && x[k] == sample && Lagging(circbuf[..], oldestlag, x, k)
    ensures outval == Filtered(h, x, k - circbuf.Length)
  {
    hide Mul;
    var nlag := circbuf.Length;
    ghost var f := FirTerm(h, x, k - nlag);
    var tmph := nlag;
    outval := ZERO;
    assert Sum(f, 0) == ZERO;
    for tap := oldestlag to nlag
      invariant tmph == nlag - (tap - oldestlag) && outval == Sum(f, tap - oldestlag)
    {
      var tmp := Mul(circbuf[tap], h[tmph]);
      LagTerm(h, circbuf[..], oldestlag, x, k, tap);
      tmph := tmph - 1;
      outval := Add(outval, tmp);
    }
    for tap := 0 to oldestlag
      invariant tmph == oldestlag - tap && outval == Sum(f, nlag - oldestlag + tap)
    {
      var tmp := Mul(circbuf[tap], h[tmph]);
      LagTerm(h, circbuf[..], oldestlag, x, k, tap);
      tmph := tmph - 1;
      outval := Add(outval, tmp);
    }
    var tmp := Mul(sample, h[tmph]);
    assert tmp == f(nlag) by {
      assert Get(x, k - nlag + nlag) == sample && Get(h, |h| - 1 - nlag) == h[0];
    }
    outval := Add(outval, tmp);
  }

  /** direct_file_filter on a whole stream, for at least two taps: the sum over each full window. */
  method DirectFileFilter(h: seq<Cpx>, x: seq<Cpx>) returns (out: seq<Cpx>)
    requires |h| >= 2 && |x| >= |h| - 1
    ensures out == FilterAll(h, x)
  {
    hide Filtered;
    var nlag := |h| - 1;
    var circbuf := new Cpx[nlag](i requires 0 <= i < nlag => x[i]);
    var oldestlag := 0;
    out := [];
    for k := nlag to |x|
      invariant Lagging(circbuf[..], oldestlag, x, k)
      invariant |out| == k - nlag && forall t :: 0 <= t < |out| ==> out[t] == Filtered(h, x, t)
    {
      var outval := DirectOutput(h, circbuf, oldestlag, x[k], x, k);
      LagNext(circbuf[..], oldestlag, x, k);
      ghost var was := circbuf[..];
      circbuf[oldestlag] := x[k];
      assert circbuf[..] == was[oldestlag := x[k]];
      oldestlag := oldestlag + 1;
      out := out + [outval];
      if oldestlag == nlag {
        oldestlag := 0;
      }
    }
  }

  /** kiss_fastfir_alloc's buffer: the last tap first, zeros in the middle, the other taps at the end. */
  ghost function LeftRotated(h: seq<Cpx>, n: nat, i: int): Cpx
    requires 1 <= |h| <= n
  {
    if i == 0 then h[|h| - 1] else if n - |h| + 1 <= i < n then h[i - (n - |h| + 1)] else ZERO
  }

  ghost function Response(h: seq<Cpx>, n: nat): nat -> Cpx
    requires 1 <= |h| <= n
  {
    (i: nat) => LeftRotated(h, n, i)
  }

  /** Terms before, in and after a window. */
  lemma SumWindow(f: nat -> Cpx, n: nat, lo: nat, g: nat -> Cpx, m: nat)
    requires lo + m <= n
    requires forall k: nat :: k < lo ==> f(k) == ZERO
    requires forall k: nat :: k < m ==> g(k) == f(lo + k)
    requires forall k: nat :: lo + m <= k < n ==> f(k) == ZERO
    ensures Sum(f, n) == Sum(g, m)
  {
    hide Sum;
    SumZero(f, lo);
    SumSplit(f, lo, g, m);
    TrailingZeros(f, lo + m, n);
  }

  lemma {:induction false} TrailingZeros(f: nat -> Cpx, m: nat, n: nat)
    requires m <= n && forall k: nat :: m <= k < n ==> f(k) == ZERO
    ensures Sum(f, n) == Sum(f, m)
  {
    if m < n { TrailingZeros(f, m, n - 1); }
  }

  /** Tap index of the circular product at output t and input j. */
  lemma TapAt(h: seq<Cpx>, n: nat, t: int, j: int)
    requires 1 <= |h| <= n && 0 <= t <= n - |h| && 0 <= j < n
    ensures LeftRotated(h, n, (t - j) % n) == if t <= j < t + |h| then h[|h| - 1 - (j - t)] else ZERO
  {
    hide Prod;
    ProdSmall(n);
    ProdAdd(1, -1, n);
    if j <= t {
      ModUnique(t - j, 0, t - j, n);
    } else {
      ModUnique(t - j, -1, t - j + n, n);
    }
  }

  /** The first n - nh + 1 outputs of the circular convolution are outputs of the direct filter. */
  lemma CircularWindow(h: seq<Cpx>, n: nat, x: nat -> Cpx, y: seq<Cpx>, io: nat, t: nat)
    requires 1 <= |h| <= n && t <= n - |h|
    requires forall j: nat :: j < n ==> x(j) == Get(y, io + j)
    ensures Circular(x, Response(h, n), n)(t) == Filtered(h, y, io + t)
  {
    hide Mul, LeftRotated, Get;
    var f, g := CircularTerm(x, Response(h, n), n, t), FirTerm(h, y, io + t);
    forall j: nat | j < n
      ensures f(j) == Mul(x(j), if t <= j < t + |h| then h[|h| - 1 - (j - t)] else ZERO)
    {
      TapAt(h, n, t, j);
    }
    forall j: nat | j < n && !(t <= j < t + |h|)
      ensures f(j) == ZERO
    {
      MulZero(x(j));
    }
    forall l: nat | l < |h|
      ensures g(l) == f(t + l)
    {
      TapGet(h, l);
      assert x(t + l) == Get(y, io + (t + l));
    }
    SumWindow(f, n, t, g, |h|);
  }

  lemma TapGet(h: seq<Cpx>, l: nat)
    requires l < |h|
    ensures Get(h, |h| - 1 - l) == h[|h| - 1 - l]
  {}

  /** k -> bin k of x times the scaled bin k of h, as the frequency buffer holds it */
  ghost function ScaledProduct(x: nat -> Cpx, h: nat -> Cpx, tw: seq<Cpx>, scale: real): nat -> Cpx
    requires |tw| >= 1
  {
    (k: nat) => Mul(Dft(x, tw, 1, |tw|, k), Scale(Dft(h, tw, 1, |tw|, k), scale))
  }

  /** Transform, multiply by the response scaled by 1/n, transform back: the circular convolution. */
  lemma FastConvolution(x: nat -> Cpx, h: nat -> Cpx, tw: seq<Cpx>, back: seq<Cpx>, t: nat)
    requires IsTwiddleTable(tw) && Opposite(tw, back) && t < |tw|
    ensures Dft(ScaledProduct(x, h, tw, 1.0 / |tw| as real), back, 1, |tw|, t) == Circular(x, h, |tw|)(t)
  {
    hide Mul, Scale, SMul, Circular, IsTwiddleTable, Opposite, DftTerm;
    var n, c := |tw|, 1.0 / |tw| as real;
    var y := Circular(x, h, n);
    var product, spectrum := ScaledProduct(x, h, tw, c), Spectrum(y, tw);
    var terms, whole := DftTerm(product, back, 1, t), DftTerm(spectrum, back, 1, t);
    forall k: nat | k < n
      ensures terms(k) == Mul(whole(k), Cpx(c, 0.0))
    {
      ConvolutionTheorem(x, h, tw, k);
      ScaledTerm(product, spectrum, back, t, k, Dft(x, tw, 1, n, k), Dft(h, tw, 1, n, k), c);
    }
    SumMul(whole, Cpx(c, 0.0), terms, n);
    Inverse(y, tw, back, t);
    Unscale(y(t), n as real, c);
  }

  lemma ScaledTerm(product: nat -> Cpx, spectrum: nat -> Cpx, back: seq<Cpx>, t: int, k: nat, a: Cpx, b: Cpx, c: real)
    requires |back| >= 1 && product(k) == Mul(a, Scale(b, c)) && spectrum(k) == Mul(a, b)
    ensures DftTerm(product, back, 1, t)(k) == Mul(DftTerm(spectrum, back, 1, t)(k), Cpx(c, 0.0))
  {
    hide Mul, Scale, W, Prod3;
    var w, s := W(back, Prod3(k, t, 1)), Cpx(c, 0.0);
    ScaleIsMul(b, c);
    MulAssoc(a, b, s);
    MulAssoc(Mul(a, b), s, w);
    MulComm(s, w);
    MulAssoc(Mul(a, b), w, s);
  }

  lemma ScaleIsMul(b: Cpx, c: real)
    ensures Scale(b, c) == Mul(b, Cpx(c, 0.0))
  {
    hide SMul;
    SMulConst(b.r);
    SMulConst(b.i);
  }

  lemma Unscale(y: Cpx, n: real, c: real)
    requires n != 0.0 && c == 1.0 / n
    ensures Mul(Scale(y, n), Cpx(c, 0.0)) == y
  {
    hide SMul;
    ScaleIsMul(Scale(y, n), c);
    Cancel(y.r, n, c);
    Cancel(y.i, n, c);
  }

  lemma Cancel(a: real, n: real, c: real)
    requires n != 0.0 && c == 1.0 / n
    ensures SMul(SMul(a, n), c) == a
  {
    assert n * c == 1.0;
    assert a * n * c == a * (n * c);
  }
}
