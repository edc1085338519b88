/** kiss_fftr.c: the transform of 2 * ncfft real samples through a complex transform of half the length, and back. */
module Fftr {
  import opened Arith
  import opened Complex
  import opened Twiddles
  import opened Stage
  import opened Inversion
  import Roots
  import K = KissFft

  const I := Cpx(0.0, 1.0)

  // ---- conjugation ----

  lemma ConjMul(a: Cpx, b: Cpx)
    ensures Conj(Mul(a, b)) == Mul(Conj(a), Conj(b))
  {
    hide SMul;
    SMulNeg(a.r, b.i);
    SMulNeg(a.i, b.r);
    SMulNeg(a.i, b.i);
    SMulNeg(a.i, -b.i);
  }

  lemma {:induction false} ConjSum(f: nat -> Cpx, g: nat -> Cpx, n: nat)
    requires forall k: nat :: k < n ==> g(k) == Conj(f(k))
    ensures Sum(g, n) == Conj(Sum(f, n))
  {
    if n > 0 { ConjSum(f, g, n - 1); }
  }

  ghost predicate IsReal(x: nat -> Cpx) {
    forall j: nat :: x(j).i == 0.0
  }

  /** Real input: opposite bins are conjugate. */
  lemma RealSymmetry(x: nat -> Cpx, tw: seq<Cpx>, k: int)
    requires IsTwiddleTable(tw) && IsReal(x)
    ensures Dft(x, tw, 1, |tw|, |tw| - k) == Conj(Dft(x, tw, 1, |tw|, k))
    ensures Dft(x, tw, 1, |tw|, -k) == Conj(Dft(x, tw, 1, |tw|, k))
  {
    hide Mul, W, Prod, Prod3, IsTwiddleTable, Conj;
    var n := |tw|;
    var f, g, h := DftTerm(x, tw, 1, k), DftTerm(x, tw, 1, n - k), DftTerm(x, tw, 1, -k);
    forall j: nat | j < n
      ensures g(j) == Conj(f(j)) && h(j) == Conj(f(j))
    {
      OppositePhase(tw, j, k);
      ConjMul(x(j), W(tw, Prod3(j, k, 1)));
      RealConj(x(j));
    }
    ConjSum(f, g, n);
    ConjSum(f, h, n);
  }

  lemma RealConj(a: Cpx)
    requires a.i == 0.0
    ensures Conj(a) == a
  {}

  lemma OppositePhase(tw: seq<Cpx>, j: nat, k: int)
    requires IsTwiddleTable(tw)
    ensures W(tw, Prod3(j, |tw| - k, 1)) == Conj(W(tw, Prod3(j, k, 1)))
    ensures W(tw, Prod3(j, -k, 1)) == Conj(W(tw, Prod3(j, k, 1)))
  {
    hide W, Prod, Prod3, IsTwiddleTable, Conj;
    var n := |tw|;
    ProdAssoc(j, n - k, 1);
    ProdAssoc(j, -k, 1);
    ProdAssoc(j, k, 1);
    ProdSmall(Prod(j, n - k));
    ProdSmall(Prod(j, -k));
    ProdSmall(Prod(j, k));
    ProdComm(j, n - k);
    ProdComm(j, -k);
    ProdComm(j, k);
    ProdAdd(n, -k, j);
    ProdAdd(k, -k, j);
    ProdSmall(j);
    ProdComm(n, j);
    WConj(tw, Prod(j, k));
    WPeriod(tw, -Prod(j, k), j);
  }

  // ---- two half-length transforms ----

  /** j -> x[j] as a complex sample */
  ghost function Real(x: seq<real>): nat -> Cpx {
    (j: nat) => RealAt(x, j)
  }

  ghost function RealAt(x: seq<real>, j: int): Cpx {
    Cpx(if 0 <= j < |x| then x[j] else 0.0, 0.0)
  }

  /** j -> x[2 j + q] */
  ghost function Half(x: seq<real>, q: nat): nat -> Cpx {
    (j: nat) => RealAt(x, q + 2 * j)
  }

  /** The sample pairs read as complex numbers, as the cast of timedata does. */
  ghost function Packed(x: seq<real>): nat -> Cpx {
    (j: nat) => Cpx(RealAt(x, 2 * j).r, RealAt(x, 1 + 2 * j).r)
  }

  /** tw holds every other root of wn. */
  ghost predicate Doubled(tw: seq<Cpx>, wn: seq<Cpx>)
    ensures Doubled(tw, wn) ==> |wn| == 2 * |tw|
  {
    |wn| == 2 * |tw| && forall i :: 0 <= i < |tw| ==> tw[i] == wn[2 * i]
  }

  lemma WDoubled(tw: seq<Cpx>, wn: seq<Cpx>, e: int)
    requires |tw| >= 1 && Doubled(tw, wn)
    ensures W(tw, e) == W(wn, 2 * e)
  {
    hide Prod;
    var n := |tw|;
    DivMod(e, n);
    ProdComm(e / n, n);
    ProdComm(e / n, 2 * n);
    ProdAdd(n, n, e / n);
    ModUnique(2 * e, e / n, 2 * (e % n), 2 * n);
  }

  lemma DftDoubled(x: nat -> Cpx, tw: seq<Cpx>, wn: seq<Cpx>, len: nat, k: int)
    requires |tw| >= 1 && Doubled(tw, wn)
    ensures Dft(x, wn, 2, len, k) == Dft(x, tw, 1, len, k)
  {
    hide Mul, W, Prod, Prod3, Doubled;
    forall j: nat | j < len
      ensures DftTerm(x, wn, 2, k)(j) == DftTerm(x, tw, 1, k)(j)
    {
      ProdAssoc(j, k, 2);
      ProdAssoc(j, k, 1);
      ProdSmall(Prod(j, k));
      ProdComm(Prod(j, k), 2);
      WDoubled(tw, wn, Prod(j, k));
    }
    SumExt(DftTerm(x, wn, 2, k), DftTerm(x, tw, 1, k), len);
  }

  /** Bin t of the whole from bins t mod nc of the even and odd samples. */
  lemma EvenOdd(x: seq<real>, tw: seq<Cpx>, wn: seq<Cpx>, t: nat)
    requires IsTwiddleTable(wn) && |tw| >= 1 && Doubled(tw, wn)
    ensures Dft(Real(x), wn, 1, |wn|, t)
         == Add(Dft(Half(x, 0), tw, 1, |tw|, t % |tw|), Mul(Dft(Half(x, 1), tw, 1, |tw|, t % |tw|), W(wn, t)))
  {
    hide Mul, W, Prod, Prod3, Doubled, IsTwiddleTable, Dft;
    var nc := |tw|;
    var f := ShortTerms(Real(x), wn, 1, 2, t);
    WholeDft(Real(x), wn, 1, |wn|, t);
    SumDecimate(DftTerm(Real(x), wn, 1, t), f, 2, nc);
    ProdComm(nc, 2);
    ProdSmall(nc);
    SumUnrolled(RowSums(f, nc));
    HalfBin(x, tw, wn, t, 0);
    HalfBin(x, tw, wn, t, 1);
    ProdAssoc(0, t, 1);
    ProdAssoc(1, t, 1);
    ProdSmall(t);
    ProdSmall(1);
    WZero(wn);
    MulOne(Dft(Half(x, 0), tw, 1, nc, t % nc));
  }

  lemma HalfBin(x: seq<real>, tw: seq<Cpx>, wn: seq<Cpx>, t: nat, q: nat)
    requires IsTwiddleTable(wn) && |tw| >= 1 && Doubled(tw, wn) && q < 2
    ensures RowSums(ShortTerms(Real(x), wn, 1, 2, t), |tw|)(q)
         == Mul(Dft(Half(x, q), tw, 1, |tw|, t % |tw|), W(wn, Prod3(q, t, 1)))
  {
    hide Mul, W, Prod, Prod3, Doubled, IsTwiddleTable, Dft, ShortTerms;
    var nc := |tw|;
    ProdAssoc(2, nc, 1);
    ProdSmall(nc);
    ProdSmall(2 * nc);
    ProdSmall(2);
    ProdComm(2 * nc, 1);
    ShortTransform(Real(x), wn, 1, 2, nc, q, t);
    forall j: nat | j < nc
      ensures Decimated(Real(x), 2, q)(j) == Half(x, q)(j)
    {
      ProdComm(j, 2);
      ProdSmall(j);
    }
    DftExt(Decimated(Real(x), 2, q), Half(x, q), wn, 2, nc, t % nc);
    DftDoubled(Half(x, q), tw, wn, nc, t % nc);
  }

  /** The transform of the packed samples is even + i * odd. */
  lemma PackedBin(x: seq<real>, tw: seq<Cpx>, k: int)
    requires |tw| >= 1
    ensures Dft(Packed(x), tw, 1, |tw|, k) == Add(Dft(Half(x, 0), tw, 1, |tw|, k), Mul(Dft(Half(x, 1), tw, 1, |tw|, k), I))
  {
    hide Mul, W, Prod3;
    var z, e, o := DftTerm(Packed(x), tw, 1, k), DftTerm(Half(x, 0), tw, 1, k), DftTerm(Half(x, 1), tw, 1, k);
    var io := (j: nat) => Mul(o(j), I);
    forall j: nat | j < |tw|
      ensures z(j) == Add(e(j), io(j))
    {
      PackedTerm(RealAt(x, 2 * j), RealAt(x, 1 + 2 * j), W(tw, Prod3(j, k, 1)));
    }
    SumAdd(e, io, z, |tw|);
    SumMul(o, I, io, |tw|);
  }

  lemma PackedTerm(a: Cpx, b: Cpx, w: Cpx)
    requires a.i == 0.0 && b.i == 0.0
    ensures Mul(Cpx(a.r, b.r), w) == Add(Mul(a, w), Mul(Mul(b, w), I))
  {
    hide Mul;
    MulOne(b);
    assert Cpx(a.r, b.r) == Add(a, Mul(b, I));
    MulAdd(a, Mul(b, I), w);
    MulAssoc(b, I, w);
    MulComm(I, w);
    MulAssoc(b, w, I);
  }

  // ---- what the loops compute ----

  /** The bin of kiss_fftr from a bin of the packed transform, its opposite, and the super twiddle. */
  ghost function Forward(zk: Cpx, znk: Cpx, super: Cpx): Cpx {
    var f1, f2 := Add(zk, Conj(znk)), Sub(zk, Conj(znk));
    var t := Mul(f2, super);
    Cpx((f1.r + t.r) / 2.0, (f1.i + t.i) / 2.0)
  }

  ghost function ForwardOpposite(zk: Cpx, znk: Cpx, super: Cpx): Cpx {
    var f1, f2 := Add(zk, Conj(znk)), Sub(zk, Conj(znk));
    var t := Mul(f2, super);
    Cpx((f1.r - t.r) / 2.0, (t.i - f1.i) / 2.0)
  }

  /** Both writes of an iteration, over the even part e, the odd part o and the root w. */
  lemma ForwardParts(e: Cpx, o: Cpx, w: Cpx)
    ensures var zk, znk := Add(e, Mul(o, I)), Conj(Sub(e, Mul(o, I)));
      var super := Mul(Cpx(0.0, -1.0), w);
      && Forward(zk, znk, super) == Add(e, Mul(o, w))
      && ForwardOpposite(zk, znk, super) == Conj(Sub(e, Mul(o, w)))
  {
    hide Mul;
    MulOne(o);
    var io := Mul(o, I);
    var twice := Add(io, io);
    assert twice == Cpx(-2.0 * o.i, 2.0 * o.r);
    MulAssoc(twice, Cpx(0.0, -1.0), w);
    MulOne(twice);
    assert Mul(twice, Cpx(0.0, -1.0)) == Add(o, o);
    MulAdd(o, o, w);
  }

  /** For an even half length both writes of the last iteration go to the same bin, a quarter turn w on. They agree there:
      on the conjugate of the packed bin for the forward table. */
  lemma WritesAgree(wn: seq<Cpx>, k: nat, z: Cpx)
    requires IsTwiddleTable(wn) && k >= 1 && |wn| == 4 * k
    ensures var w := W(wn, k); var super := Mul(Cpx(0.0, -1.0), w);
      && (w == I || w == Conj(I))
      && Forward(z, z, super) == ForwardOpposite(z, z, super) == if w == I then z else Conj(z)
  {
    hide IsTwiddleTable, Mul, Forward, ForwardOpposite;
    var w := W(wn, k);
    HalfTurn(wn, 2 * k, 0);
    WMul(wn, k, k);
    hide W;
    SquareRoots(w);
    assert Mul(Cpx(0.0, -1.0), w) == if w == I then ONE else Cpx(-1.0, 0.0) by {
      MulOne(Cpx(0.0, -1.0));
    }
    RealSuper(z);
  }

  lemma RealSuper(z: Cpx)
    ensures Forward(z, z, ONE) == ForwardOpposite(z, z, ONE) == z
    ensures Forward(z, z, Cpx(-1.0, 0.0)) == ForwardOpposite(z, z, Cpx(-1.0, 0.0)) == Conj(z)
  {
    hide Mul;
    MulOne(Sub(z, Conj(z)));
  }

  /** The square roots of -1. */
  lemma SquareRoots(w: Cpx)
    requires Mul(w, w) == Cpx(-1.0, 0.0)
    ensures w == I || w == Conj(I)
  {
    hide Mul;
    var s := Add(w, I);
    MulAdd(w, I, s);
    MulAdd(w, I, w);
    MulAdd(w, I, I);
    MulComm(w, s);
    MulComm(I, s);
    MulOne(w);
    MulOne(I);
    MulComm(w, I);
    NoZeroDivisors(Sub(w, I), s);
  }

  /** The repacking of kiss_fftri undoes it, up to a factor of two. */
  ghost function Backward(fk: Cpx, fnk: Cpx, super: Cpx): Cpx {
    Add(Add(fk, Conj(fnk)), Mul(Sub(fk, Conj(fnk)), super))
  }

  ghost function BackwardOpposite(fk: Cpx, fnk: Cpx, super: Cpx): Cpx {
    Conj(Sub(Add(fk, Conj(fnk)), Mul(Sub(fk, Conj(fnk)), super)))
  }

  lemma BackwardParts(e: Cpx, o: Cpx, w: Cpx)
    requires Mul(w, Conj(w)) == ONE
    ensures var fk, fnk := Add(e, Mul(o, w)), Conj(Sub(e, Mul(o, w)));
      var super := Mul(I, Conj(w));
      var zk, znk := Add(e, Mul(o, I)), Conj(Sub(e, Mul(o, I)));
      Backward(fk, fnk, super) == Add(zk, zk) && BackwardOpposite(fk, fnk, super) == Add(znk, znk)
  {
    hide Mul;
    var ow := Mul(o, w);
    var twice := Add(ow, ow);
    MulAdd(o, o, w);
    MulComm(I, Conj(w));
    MulAssoc(Add(o, o), w, Mul(Conj(w), I));
    MulAssoc(w, Conj(w), I);
    MulOne(I);
    MulAdd(o, o, I);
  }

  // ---- the spectrum of the real samples ----

  ghost function Bin(x: seq<real>, wn: seq<Cpx>, k: int): Cpx
    requires |wn| >= 1
  {
    Dft(Real(x), wn, 1, |wn|, k)
  }

  ghost function PackedBinOf(x: seq<real>, tw: seq<Cpx>, k: int): Cpx
    requires |tw| >= 1
  {
    Dft(Packed(x), tw, 1, |tw|, k)
  }

  /** Everything in terms of the even part e, the odd part o and the root w of bin k. */
  lemma Parts(x: seq<real>, tw: seq<Cpx>, wn: seq<Cpx>, k: nat) returns (e: Cpx, o: Cpx, w: Cpx)
    requires IsTwiddleTable(tw) && IsTwiddleTable(wn) && Doubled(tw, wn) && 1 <= k < |tw|
    ensures w == W(wn, k) && Mul(w, Conj(w)) == ONE
    ensures PackedBinOf(x, tw, k) == Add(e, Mul(o, I)) && PackedBinOf(x, tw, |tw| - k) == Conj(Sub(e, Mul(o, I)))
    ensures Bin(x, wn, k) == Add(e, Mul(o, w)) && Bin(x, wn, |tw| - k) == Conj(Sub(e, Mul(o, w)))
  {
    hide Mul, W, Doubled, IsTwiddleTable, Dft, Conj, Add, Sub, Half, Real, Packed;
    var nc := |tw|;
    e, o, w := Dft(Half(x, 0), tw, 1, nc, k), Dft(Half(x, 1), tw, 1, nc, k), W(wn, k);
    WConj(wn, k);
    WMul(wn, k, 0 - k);
    WZero(wn);
    PackedBin(x, tw, k);
    PackedBin(x, tw, nc - k);
    RealHalves(x);
    RealSymmetry(Half(x, 0), tw, k);
    RealSymmetry(Half(x, 1), tw, k);
    OppositePacked(e, o);
    EvenOdd(x, tw, wn, k);
    EvenOdd(x, tw, wn, k + nc);
    Reduced(k, nc);
    HalfTurn(wn, nc, k);
    Negated(e, o, w);
    RealSymmetry(Real(x), wn, k + nc);
  }

  lemma RealHalves(x: seq<real>)
    ensures IsReal(Real(x)) && IsReal(Half(x, 0)) && IsReal(Half(x, 1))
  {}

  lemma OppositePacked(e: Cpx, o: Cpx)
    ensures Add(Conj(e), Mul(Conj(o), I)) == Conj(Sub(e, Mul(o, I)))
  {
    hide Mul;
    MulOne(o);
    MulOne(Conj(o));
  }

  lemma Reduced(k: nat, nc: nat)
    requires k < nc
    ensures k % nc == k && (k + nc) % nc == k
  {
    hide Prod;
    ProdSmall(nc);
    ModUnique(k, 0, k, nc);
    ModUnique(k + nc, 1, k, nc);
  }

  lemma Negated(e: Cpx, o: Cpx, w: Cpx)
    ensures Add(e, Mul(o, Mul(w, Cpx(-1.0, 0.0)))) == Sub(e, Mul(o, w))
  {
    hide Mul;
    MulAssoc(o, w, Cpx(-1.0, 0.0));
    MulOne(Mul(o, w));
  }

  lemma HalfTurn(wn: seq<Cpx>, nc: nat, k: int)
    requires IsTwiddleTable(wn) && |wn| == 2 * nc
    ensures W(wn, k + nc) == Mul(W(wn, k), Cpx(-1.0, 0.0))
    ensures W(wn, nc) == Cpx(-1.0, 0.0)
  {
    hide Mul, W, Prod, IsTwiddleTable;
    ProdSmall(nc);
    Roots.Root2(wn, nc);
    WMul(wn, k, nc);
  }

  /** Bins 0 and nc are the sum and the difference of the two real parts. */
  lemma Ends(x: seq<real>, tw: seq<Cpx>, wn: seq<Cpx>)
    requires IsTwiddleTable(tw) && IsTwiddleTable(wn) && Doubled(tw, wn)
    ensures var z := PackedBinOf(x, tw, 0);
      Bin(x, wn, 0) == Cpx(z.r + z.i, 0.0) && Bin(x, wn, |tw|) == Cpx(z.r - z.i, 0.0)
  {
    hide Mul, W, Doubled, IsTwiddleTable, Dft;
    var nc := |tw|;
    var e, o := Dft(Half(x, 0), tw, 1, nc, 0), Dft(Half(x, 1), tw, 1, nc, 0);
    PackedBin(x, tw, 0);
    RealSymmetry(Half(x, 0), tw, 0);
    RealSymmetry(Half(x, 1), tw, 0);
    EvenOdd(x, tw, wn, 0);
    EvenOdd(x, tw, wn, nc);
    HalfTurn(wn, nc, 0);
    WZero(wn);
    MulOne(o);
  }

  // ---- kiss_fftr and kiss_fftri ----

  /** struct kiss_fftr_state; wn is the table of all 2 * ncfft roots that the super twiddles are taken from. */
  class RealState {
    const substate: K.Cfg
    const superTwiddles: seq<Cpx>
    const tmpbuf: array<Cpx>
    ghost const wn: seq<Cpx>

    ghost predicate Valid()
      ensures Valid() ==> substate.nfft >= 1 && K.Valid(substate) && IsTwiddleTable(wn) && Doubled(substate.twiddles, wn)
      ensures Valid() ==> tmpbuf.Length == substate.nfft && |superTwiddles| == substate.nfft / 2
      ensures Valid() ==> forall i :: 0 <= i < |superTwiddles| ==>
        superTwiddles[i] == Mul(if substate.inverse then I else Cpx(0.0, -1.0), W(wn, i + 1))
    {
      && K.Valid(substate) && IsTwiddleTable(wn) && Doubled(substate.twiddles, wn)
      && tmpbuf.Length == substate.nfft && |superTwiddles| == substate.nfft / 2
      && forall i :: 0 <= i < |superTwiddles| ==>
           superTwiddles[i] == Mul(if substate.inverse then I else Cpx(0.0, -1.0), W(wn, i + 1))
    }

    /** kiss_fftr_alloc: the phase -pi * ((i + 1) / nfft + 1/2) is a quarter turn past the root i + 1. */
    constructor (sub: K.Cfg, table: seq<Cpx>)
      requires K.Valid(sub) && IsTwiddleTable(table) && Doubled(sub.twiddles, table)
      ensures Valid() && substate == sub && wn == table && fresh(tmpbuf)
    {
      hide K.Valid, IsTwiddleTable, Doubled, Mul;
      substate := sub;
      superTwiddles := seq(sub.nfft / 2, i requires 0 <= i < sub.nfft / 2 =>
        Mul(if sub.inverse then I else Cpx(0.0, -1.0), table[i + 1]));
      tmpbuf := new Cpx[sub.nfft](i => ZERO);
      wn := table;
      new;
      forall i | 0 <= i < sub.nfft / 2
        ensures superTwiddles[i] == Mul(if sub.inverse then I else Cpx(0.0, -1.0), W(table, i + 1))
      {
        WIndex(table, i + 1);
      }
    }

    /** Which bins the loop of kiss_fftr has stored before iteration k. */
    ghost predicate Stored(i: int, k: int) {
      i == 0 || i == substate.nfft || 1 <= i < k || substate.nfft - k < i < substate.nfft
    }

    /** kiss_fftr: bins 0..ncfft of the transform of the 2 * ncfft real samples. */
    method KissFftr(timedata: array<real>, freqdata: array<Cpx>)
      requires Valid() && !substate.inverse && freqdata != tmpbuf
      requires timedata.Length == 2 * substate.nfft && freqdata.Length == substate.nfft + 1
      modifies freqdata, tmpbuf
      ensures forall k :: 0 <= k <= substate.nfft ==> freqdata[k] == Bin(timedata[..], wn, k)
    {
      hide Valid, K.Valid, IsTwiddleTable, Doubled, Mul, Dft, W, Bin, PackedBinOf, K.Samples;
      var ncfft := substate.nfft;
      ghost var x, tw := timedata[..], substate.twiddles;
      var pairs := new Cpx[ncfft](j requires 0 <= j < ncfft reads timedata => Cpx(timedata[2 * j], timedata[2 * j + 1]));
      K.KissFft(substate, pairs, tmpbuf);
      forall k | 0 <= k < ncfft
        ensures tmpbuf[k] == PackedBinOf(x, tw, k)
      {
        PackedInput(pairs[..], x, tw, k);
      }
      Ends(x, tw, wn);
      var tdc := tmpbuf[0];
      freqdata[0] := Cpx(tdc.r + tdc.i, 0.0);
      freqdata[ncfft] := Cpx(tdc.r - tdc.i, 0.0);
      for k := 1 to ncfft / 2 + 1
        invariant timedata[..] == x
        invariant forall i :: 0 <= i < ncfft ==> tmpbuf[i] == PackedBinOf(x, tw, i)
        invariant forall i :: 0 <= i <= ncfft && Stored(i, k) ==> freqdata[i] == Bin(x, wn, i)
      {
        var fpk := tmpbuf[k];
        var fpnk := Cpx(tmpbuf[ncfft - k].r, -tmpbuf[ncfft - k].i);
        ghost var e, o, w := Parts(x, tw, wn, k);
        ForwardParts(e, o, w);
        var f1k := Add(fpk, fpnk);
        var f2k := Sub(fpk, fpnk);
        var t := Mul(f2k, superTwiddles[k - 1]);
        freqdata[k] := Cpx((f1k.r + t.r) / 2.0, (f1k.i + t.i) / 2.0);
        freqdata[ncfft - k] := Cpx((f1k.r - t.r) / 2.0, (t.i - f1k.i) / 2.0);
      }
    }

    lemma PackedInput(pairs: seq<Cpx>, x: seq<real>, tw: seq<Cpx>, k: int)
      requires |tw| >= 1 && |pairs| == |tw| && |x| == 2 * |tw|
      requires forall j :: 0 <= j < |pairs| ==> pairs[j] == Cpx(x[2 * j], x[2 * j + 1])
      ensures Dft(K.Samples(pairs), tw, 1, |tw|, k) == PackedBinOf(x, tw, k)
    {
      hide Dft;
      DftExt(K.Samples(pairs), Packed(x), tw, 1, |tw|, k);
    }

    /** The half-length spectrum that kiss_fftri packs from nc + 1 bins. */
    ghost function Repacked(f: seq<Cpx>): nat -> Cpx
      requires Valid() && |f| == substate.nfft + 1
    {
      (k: nat) => RepackedAt(f, k)
    }

    ghost function RepackedAt(f: seq<Cpx>, i: nat): Cpx
      requires Valid() && |f| == substate.nfft + 1
    {
      var nc := substate.nfft;
      if i == 0 then Cpx(f[0].r + f[nc].r, f[0].r - f[nc].r)
      else if i >= nc then ZERO
      else if i < nc - i then Backward(f[i], f[nc - i], superTwiddles[i - 1])
      else BackwardOpposite(f[nc - i], f[i], superTwiddles[nc - i - 1])
    }

    /** The bins of kiss_fftri packed for a transform of half the length. */
    method Repack(freqdata: array<Cpx>)
      requires Valid() && freqdata != tmpbuf && freqdata.Length == substate.nfft + 1
      modifies tmpbuf
      ensures forall i :: 0 <= i < substate.nfft ==> tmpbuf[i] == RepackedAt(freqdata[..], i)
    {
      hide Valid, K.Valid, IsTwiddleTable, Doubled, Mul, Dft, W, K.Samples;
      var ncfft := substate.nfft;
      ghost var f := freqdata[..];
      tmpbuf[0] := Cpx(freqdata[0].r + freqdata[ncfft].r, freqdata[0].r - freqdata[ncfft].r);
      for k := 1 to ncfft / 2 + 1
        invariant freqdata[..] == f
        invariant forall i :: 0 <= i < ncfft && Stored(i, k) ==> tmpbuf[i] == RepackedAt(f, i)
      {
        var fk := freqdata[k];
        var fnkc := Cpx(freqdata[ncfft - k].r, -freqdata[ncfft - k].i);
        var fek := Add(fk, fnkc);
        var tmp := Sub(fk, fnkc);
        var fok := Mul(tmp, superTwiddles[k - 1]);
        tmpbuf[k] := Add(fek, fok);
        tmpbuf[ncfft - k] := Sub(fek, fok);
        tmpbuf[ncfft - k] := Cpx(tmpbuf[ncfft - k].r, tmpbuf[ncfft - k].i * -1.0);
      }
    }

    /** kiss_fftri: the inverse half-length transform of the repacked bins, its pairs laid out as real samples. */
    method KissFftri(freqdata: array<Cpx>, timedata: array<real>)
      requires Valid() && substate.inverse && freqdata != tmpbuf
      requires timedata.Length == 2 * substate.nfft && freqdata.Length == substate.nfft + 1
      modifies timedata, tmpbuf
      ensures forall j :: 0 <= j < substate.nfft ==>
        Cpx(timedata[2 * j], timedata[2 * j + 1]) == Dft(Repacked(freqdata[..]), substate.twiddles, 1, substate.nfft, j)
    {
      hide Valid, K.Valid, IsTwiddleTable, Dft, K.Samples, RepackedAt;
      var ncfft := substate.nfft;
      ghost var f := freqdata[..];
      Repack(freqdata);
      var pairs := new Cpx[ncfft](i => ZERO);
      ghost var packed := tmpbuf[..];
      K.KissFft(substate, tmpbuf, pairs);
      for j := 0 to ncfft
        invariant forall i :: 0 <= i < j ==> pairs[i] == Cpx(timedata[2 * i], timedata[2 * i + 1])
        invariant forall i :: 0 <= i < ncfft ==> pairs[i] == Dft(K.Samples(packed), substate.twiddles, 1, ncfft, i)
      {
        timedata[2 * j] := pairs[j].r;
        timedata[2 * j + 1] := pairs[j].i;
      }
      forall j | 0 <= j < ncfft
        ensures Cpx(timedata[2 * j], timedata[2 * j + 1]) == Dft(Repacked(f), substate.twiddles, 1, ncfft, j)
      {
        RepackedInput(packed, f, j);
      }
    }

    lemma RepackedInput(packed: seq<Cpx>, f: seq<Cpx>, j: nat)
      requires Valid() && |f| == substate.nfft + 1 && |packed| == substate.nfft
      requires forall i :: 0 <= i < |packed| ==> packed[i] == RepackedAt(f, i)
      ensures Dft(K.Samples(packed), substate.twiddles, 1, substate.nfft, j)
           == Dft(Repacked(f), substate.twiddles, 1, substate.nfft, j)
    {
      hide Dft, RepackedAt, Valid, K.Valid;
      DftExt(K.Samples(packed), Repacked(f), substate.twiddles, 1, substate.nfft, j);
    }

    /** Back from the bins of x: kiss_fftri's transform gives every sample of x times 2 * ncfft. */
    lemma RoundTrip(x: seq<real>, tw: seq<Cpx>, table: seq<Cpx>, f: seq<Cpx>, j: nat)
      requires Valid() && substate.inverse && j < substate.nfft == |tw| && |f| == |tw| + 1 && |x| == 2 * |tw|
      requires IsTwiddleTable(tw) && IsTwiddleTable(table) && Doubled(tw, table)
      requires Opposite(tw, substate.twiddles) && Opposite(table, wn)
      requires forall k :: 0 <= k <= |tw| ==> f[k] == Bin(x, table, k)
      ensures Dft(Repacked(f), substate.twiddles, 1, |tw|, j) == Scale(Cpx(x[2 * j], x[2 * j + 1]), |x| as real)
    {
      hide Dft, K.Valid, IsTwiddleTable, Doubled, Opposite, Valid, RepackedAt, SMul, W;
      var nc := |tw|;
      var z := Spectrum(Packed(x), tw);
      var doubledTerms, terms := DftTerm(Repacked(f), substate.twiddles, 1, j), DftTerm(z, substate.twiddles, 1, j);
      var two := Cpx(2.0, 0.0);
      forall k: nat | k < nc
        ensures doubledTerms(k) == Mul(terms(k), two)
      {
        RepackedBin(x, tw, table, f, k);
        TwiceTerm(z(k), W(substate.twiddles, Prod3(k, j, 1)));
      }
      SumMul(terms, two, doubledTerms, nc);
      WholeDft(Repacked(f), substate.twiddles, 1, nc, j);
      WholeDft(z, substate.twiddles, 1, nc, j);
      Inverse(Packed(x), tw, substate.twiddles, j);
      Twice(Packed(x)(j), nc as real);
      assert 2.0 * nc as real == |x| as real;
    }

    /** The repacked bin is twice the packed one. */
    lemma RepackedBin(x: seq<real>, tw: seq<Cpx>, table: seq<Cpx>, f: seq<Cpx>, k: nat)
      requires Valid() && substate.inverse && k < substate.nfft == |tw| && |f| == |tw| + 1
      requires IsTwiddleTable(tw) && IsTwiddleTable(table) && Doubled(tw, table) && Opposite(table, wn)
      requires forall i :: 0 <= i <= |tw| ==> f[i] == Bin(x, table, i)
      ensures Repacked(f)(k) == Add(Spectrum(Packed(x), tw)(k), Spectrum(Packed(x), tw)(k))
    {
      hide Dft, K.Valid, IsTwiddleTable, Doubled, Opposite, Valid, Mul, W, Bin, Backward, BackwardOpposite;
      var nc := |tw|;
      if k == 0 {
        Ends(x, tw, table);
      } else {
        var i := if k < nc - k then k else nc - k;
        var e, o, w := Parts(x, tw, table, i);
        WBack(table, wn, i);
        WConj(table, i);
        BackwardParts(e, o, w);
      }
    }
  }

  /** kiss_fftr and then kiss_fftri, also into the buffer of the input: every sample times the number of samples. */
  method ThereAndBack(ahead: RealState, back: RealState, timedata: array<real>, freqdata: array<Cpx>, result: array<real>)
    requires ahead.Valid() && back.Valid() && !ahead.substate.inverse && back.substate.inverse
    requires Opposite(ahead.substate.twiddles, back.substate.twiddles) && Opposite(ahead.wn, back.wn)
    requires freqdata != ahead.tmpbuf && freqdata != back.tmpbuf && freqdata.Length == ahead.substate.nfft + 1
    requires timedata.Length == 2 * ahead.substate.nfft == result.Length
    modifies freqdata, result, ahead.tmpbuf, back.tmpbuf
    ensures forall j :: 0 <= j < result.Length ==> result[j] == SMul(old(timedata[j]), result.Length as real)
  {
    hide K.Valid, IsTwiddleTable, Doubled, Opposite, Dft, Bin, SMul;
    ghost var x, tw, nc := timedata[..], ahead.substate.twiddles, ahead.substate.nfft;
    SameSize(ahead, back);
    ahead.KissFftr(timedata, freqdata);
    ghost var f := freqdata[..];
    back.KissFftri(freqdata, result);
    forall j | 0 <= j < nc
      ensures result[2 * j] == SMul(x[2 * j], |x| as real) && result[2 * j + 1] == SMul(x[2 * j + 1], |x| as real)
    {
      back.RoundTrip(x, tw, ahead.wn, f, j);
    }
    forall j | 0 <= j < result.Length ensures result[j] == SMul(x[j], |x| as real) {
      assert result[2 * (j / 2)] == SMul(x[2 * (j / 2)], |x| as real);
    }
  }

  lemma SameSize(ahead: RealState, back: RealState)
    requires ahead.Valid() && back.Valid() && Opposite(ahead.substate.twiddles, back.substate.twiddles)
    ensures |ahead.substate.twiddles| == ahead.substate.nfft == back.substate.nfft
    ensures IsTwiddleTable(ahead.substate.twiddles) && K.Valid(ahead.substate)
  {}

  lemma TwiceTerm(z: Cpx, w: Cpx)
    ensures Mul(Add(z, z), w) == Mul(Mul(z, w), Cpx(2.0, 0.0))
  {
    hide Mul;
    MulAdd(z, z, w);
    Double(Mul(z, w));
  }

  lemma Double(a: Cpx)
    ensures Mul(a, Cpx(2.0, 0.0)) == Add(a, a)
  {}

  lemma Twice(z: Cpx, n: real)
    ensures Mul(Scale(z, n), Cpx(2.0, 0.0)) == Scale(z, 2.0 * n)
  {
    hide Mul;
    Double(Scale(z, n));
  }
}
