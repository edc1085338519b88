/** kiss_fft.c: the recursive mixed-radix transform and its entry points, proved to compute the discrete
    Fourier sum for every length and every factor list that the factoriser yields. */
module KissFft {
  import opened Arith
  import opened Complex
  import opened Twiddles
  import opened Stage
  import opened Butterflies
  import Factor

  /** struct kiss_fft_state */
  datatype Cfg = Cfg(nfft: nat, inverse: bool, factors: seq<int>, twiddles: seq<Cpx>)

  /** From position at, the list holds p, m with p * m = len, then the factors of m until m = 1. */
  ghost predicate FactorsAt(factors: seq<int>, at: nat, len: int)
    decreases |factors| - at
  {
    && at + 1 < |factors|
    && factors[at] >= 1 && factors[at + 1] >= 1
    && Prod(factors[at], factors[at + 1]) == len
    && (factors[at + 1] == 1 || FactorsAt(factors, at + 2, factors[at + 1]))
  }

  ghost predicate Valid(st: Cfg)
    ensures Valid(st) ==> st.nfft >= 1 && |st.twiddles| == st.nfft && IsTwiddleTable(st.twiddles)
  {
    && st.nfft >= 1
    && |st.twiddles| == st.nfft
    && IsTwiddleTable(st.twiddles)
    && HasDirection(st.twiddles, st.inverse)
    && FactorsAt(st.factors, 0, st.nfft)
  }

  /** The array with the transform of x written from off on. */
  ghost function Written(a: seq<Cpx>, off: int, len: nat, x: nat -> Cpx, tw: seq<Cpx>, s: int): (b: seq<Cpx>)
    requires |tw| >= 1
    ensures |b| == |a|
  {
    seq(|a|, i requires 0 <= i < |a| => if off <= i < off + len then Dft(x, tw, s, len, i - off) else a[i])
  }

  /** Element t of the p decimated transforms laid end to end. */
  ghost function BlockValue(x: nat -> Cpx, tw: seq<Cpx>, s: nat, p: nat, m: nat, t: nat): Cpx
    requires |tw| >= 1 && m >= 1
  {
    Dft(Decimated(x, p, t / m), tw, Prod(s, p), m, t % m)
  }

  /** The first q of the p decimated transforms are in place. */
  ghost predicate Blocks(a0: seq<Cpx>, a: seq<Cpx>, off: nat, x: nat -> Cpx, tw: seq<Cpx>, s: nat, p: nat, m: nat, q: nat)
    requires |tw| >= 1 && m >= 1
  {
    && |a| == |a0|
    && forall i :: 0 <= i < |a| ==> a[i] == if off <= i < off + Prod(q, m) then BlockValue(x, tw, s, p, m, i - off) else a0[i]
  }

  lemma BlocksStart(a0: seq<Cpx>, off: nat, x: nat -> Cpx, tw: seq<Cpx>, s: nat, p: nat, m: nat)
    requires |tw| >= 1 && m >= 1
    ensures Blocks(a0, a0, off, x, tw, s, p, m, 0)
  {
    ProdSmall(m);
  }

  lemma BlockStep(a0: seq<Cpx>, a: seq<Cpx>, b: seq<Cpx>, off: nat, x: nat -> Cpx, y: nat -> Cpx, tw: seq<Cpx>,
                  s: nat, p: nat, m: nat, q: nat)
    requires |tw| >= 1 && m >= 1 && q < p && Blocks(a0, a, off, x, tw, s, p, m, q)
    requires b == Written(a, off + Prod(q, m), m, y, tw, Prod(s, p))
    requires forall j: nat :: j < m ==> y(j) == Decimated(x, p, q)(j)
    ensures Blocks(a0, b, off, x, tw, s, p, m, q + 1)
  {
    hide Dft, Decimated, Prod;
    ProdSucc(q, m);
    forall i | 0 <= i < |b|
      ensures b[i] == if off <= i < off + Prod(q + 1, m) then BlockValue(x, tw, s, p, m, i - off) else a0[i]
    {
      var lo := off + Prod(q, m);
      if lo <= i < lo + m {
        ModUnique(i - off, q, i - lo, m);
        DftExt(y, Decimated(x, p, q), tw, Prod(s, p), m, i - lo);
      }
    }
  }

  /** Combining the p decimated transforms gives the whole one. */
  lemma Recombined(a0: seq<Cpx>, a: seq<Cpx>, off: nat, x: nat -> Cpx, tw: seq<Cpx>, s: nat, p: nat, m: nat)
    requires IsTwiddleTable(tw) && m >= 1 && off + Prod(p, m) <= |a0| && |tw| == Prod3(p, m, s)
    requires Blocks(a0, a, off, x, tw, s, p, m, p)
    ensures Combine(a, off, tw, s, p, m) == Written(a0, off, Prod(p, m), x, tw, s)
  {
    hide Dft, Decimated, Prod, Prod3, Radix, IsTwiddleTable;
    var b, c := Combine(a, off, tw, s, p, m), Written(a0, off, Prod(p, m), x, tw, s);
    forall i | 0 <= i < |a|
      ensures b[i] == c[i]
    {
      if InRange(i, off, p, m) {
        var t := i - off;
        Coordinates(t, p, m);
        forall q: nat | q < p
          ensures At(a, off + t % m, m)(q) == Dft(Decimated(x, p, q), tw, Prod(s, p), m, t % m)
        {
          Index(t % m, q, p, m);
        }
        MixedRadix(a, off, x, tw, s, p, m, t);
        ProdComm(p, m);
      }
    }
  }

  /** Sample j of the q-th decimated input is where the recursive call reads it. */
  lemma DecimatedInput(f: seq<Cpx>, fo: int, s: nat, inStride: nat, p: nat, q: nat, j: nat)
    ensures At(f, fo + Prod(q, Prod(s, inStride)), Prod(Prod(s, p), inStride))(j)
         == Decimated(At(f, fo, Prod(s, inStride)), p, q)(j)
  {
    hide Prod, Get;
    ProdAdd(q, Prod(j, p), Prod(s, inStride));
    ProdAssoc(j, p, Prod(s, inStride));
    ProdAssoc(p, s, inStride);
    ProdComm(s, p);
  }

  /** A transform of length one copies its sample. */
  lemma DftOne(x: nat -> Cpx, tw: seq<Cpx>, s: int)
    requires IsTwiddleTable(tw)
    ensures Dft(x, tw, s, 1, 0) == x(0)
  {
    hide Mul, W, Prod, Prod3, IsTwiddleTable;
    ProdSmall(0);
    ProdSmall(s);
    ProdAssoc(0, 0, s);
    WZero(tw);
    MulOne(x(0));
    var f := DftTerm(x, tw, s, 0);
    assert Sum(f, 1) == Add(Sum(f, 0), f(0)) == f(0);
  }

  /** The reads of the recursive call stay inside the input. */
  lemma InputBound(fo: int, step: nat, p: nat, m: nat, q: nat, j: nat, size: int)
    requires fo >= 0 && q < p && j < m && fo + Prod(Prod(p, m) - 1, step) < size
    ensures 0 <= fo + Prod(q, step) && fo + Prod(q, step) + Prod(j, Prod(p, step)) < size
  {
    hide Prod;
    ProdAssoc(j, p, step);
    ProdAdd(q, Prod(j, p), step);
    ProdComm(j, p);
    ProdComm(m, p);
    ProdMono(j + 1, m, p);
    ProdSucc(j, p);
    ProdMono(q + Prod(j, p), Prod(p, m) - 1, step);
    ProdMono(0, q, step);
    ProdSmall(step);
  }

  /** One sample, as the transform of length one that the m = 1 branch replaces. */
  lemma CopiedBlock(a: seq<Cpx>, b: seq<Cpx>, at: int, y: nat -> Cpx, tw: seq<Cpx>, s: int)
    requires IsTwiddleTable(tw) && 0 <= at < |a| && b == a[at := y(0)]
    ensures b == Written(a, at, 1, y, tw, s)
  {
    hide Dft, IsTwiddleTable;
    DftOne(y, tw, s);
  }

  lemma StageLengths(len: nat, p: nat, m: nat, s: nat)
    requires Prod(p, m) == len
    ensures Prod3(p, m, s) == Prod(len, s) == Prod(m, Prod(s, p)) == Prod3(m, s, p)
  {
    hide Prod, Prod3;
    ProdAssoc(p, m, s);
    ProdAssoc(m, s, p);
    ProdComm(p, Prod(m, s));
  }

  method KfBfly(Fout: array<Cpx>, off: nat, fstride: nat, st: Cfg, m: nat, p: nat)
    requires m >= 1 && p >= 1 && off + Prod(p, m) <= Fout.Length
    requires IsTwiddleTable(st.twiddles) && HasDirection(st.twiddles, st.inverse) && |st.twiddles| == Prod3(p, m, fstride)
    modifies Fout
    ensures Fout[..] == Combine(old(Fout[..]), off, st.twiddles, fstride, p, m)
  {
    hide Prod, Prod3, IsTwiddleTable, HasDirection, Combine;
    ProdSmall(m);
    if p == 2 {
      Bfly2(Fout, off, fstride, st.twiddles, m);
    } else if p == 3 {
      Bfly3(Fout, off, fstride, st.twiddles, m);
    } else if p == 4 {
      Bfly4(Fout, off, fstride, st.twiddles, st.inverse, m);
    } else if p == 5 {
      Bfly5(Fout, off, fstride, st.twiddles, m);
    } else {
      BflyGeneric(Fout, off, fstride, st.twiddles, m, p);
    }
  }

  /** The transform of len samples of f, read every fstride * inStride from fo, into Fout from off. */
  method KfWork(Fout: array<Cpx>, off: nat, f: array<Cpx>, fo: nat, fstride: nat, inStride: nat,
                factors: seq<int>, at: nat, st: Cfg, ghost len: nat)
    requires f != Fout && len >= 1 && FactorsAt(factors, at, len)
    requires IsTwiddleTable(st.twiddles) && HasDirection(st.twiddles, st.inverse) && |st.twiddles| == Prod(len, fstride)
    requires off + len <= Fout.Length && fo + Prod(len - 1, Prod(fstride, inStride)) < f.Length
    modifies Fout
    ensures Fout[..] == Written(old(Fout[..]), off, len, At(f[..], fo, Prod(fstride, inStride)), st.twiddles, fstride)
    decreases |factors| - at
  {
    hide Prod, Prod3, IsTwiddleTable, HasDirection, Written, Blocks, Decimated, At, Combine;
    var p, m := factors[at], factors[at + 1];
    var step := Prod(fstride, inStride);
    ghost var a0 := Fout[..];
    ghost var x, tw := At(f[..], fo, step), st.twiddles;
    StageLengths(len, p, m, fstride);
    BlocksStart(a0, off, x, tw, fstride, p, m);
    ProdSmall(p);
    ProdSmall(m);
    ProdSmall(step);
    if m == 1 {
      for q := 0 to p
        invariant Blocks(a0, Fout[..], off, x, tw, fstride, p, m, q)
      {
        ghost var a := Fout[..];
        ProdSmall(q);
        ProdMono(q, p - 1, step);
        Fout[off + q] := f[fo + Prod(q, step)];
        ReadSample(f[..], fo, step, p, q);
        CopiedBlock(a, Fout[..], off + q, Decimated(x, p, q), tw, Prod(fstride, p));
        BlockStep(a0, a, Fout[..], off, x, Decimated(x, p, q), tw, fstride, p, m, q);
      }
    } else {
      for q := 0 to p
        invariant Blocks(a0, Fout[..], off, x, tw, fstride, p, m, q)
      {
        ghost var a := Fout[..];
        ProdMono(q + 1, p, m);
        ProdSucc(q, m);
        InputBound(fo, step, p, m, q, m - 1, f.Length);
        ProdAssoc(p, fstride, inStride);
        ProdComm(p, fstride);
        KfWork(Fout, off + Prod(q, m), f, fo + Prod(q, step), Prod(fstride, p), inStride, factors, at + 2, st, m);
        ghost var y := At(f[..], fo + Prod(q, step), Prod(Prod(fstride, p), inStride));
        forall j: nat | j < m
          ensures y(j) == Decimated(x, p, q)(j)
        {
          DecimatedInput(f[..], fo, fstride, inStride, p, q, j);
        }
        BlockStep(a0, a, Fout[..], off, x, y, tw, fstride, p, m, q);
      }
    }
    ghost var blocks := Fout[..];
    KfBfly(Fout, off, fstride, st, m, p);
    Recombined(a0, blocks, off, x, tw, fstride, p, m);
  }

  lemma ReadSample(f: seq<Cpx>, fo: nat, step: nat, p: nat, q: nat)
    requires 0 <= fo + Prod(q, step) < |f|
    ensures Decimated(At(f, fo, step), p, q)(0) == f[fo + Prod(q, step)]
  {
    hide Prod;
    ProdSmall(p);
  }

  /** kiss_fft_stride: bin k of the transform of every in_stride-th input lands at fout[oo + k], also when
      the input and output are one buffer. */
  method KissFftStride(st: Cfg, fin: array<Cpx>, fi: nat, fout: array<Cpx>, oo: nat, inStride: nat)
    requires Valid(st)
    requires fi + Prod(st.nfft - 1, inStride) < fin.Length && oo + st.nfft <= fout.Length
    requires fin == fout ==> fi == oo
    modifies fout
    ensures fout[..] == Written(old(fout[..]), oo, st.nfft, At(old(fin[..]), fi, inStride), st.twiddles, 1)
  {
    hide Prod, Prod3, IsTwiddleTable, HasDirection, FactorsAt, At, Dft;
    ProdSmall(inStride);
    ProdSmall(st.nfft);
    if fin == fout {
      ghost var was := fout[..];
      var tmpbuf := new Cpx[st.nfft](i => ZERO);
      KfWork(tmpbuf, 0, fin, fi, 1, inStride, st.factors, 0, st, st.nfft);
      forall i | 0 <= i < st.nfft {
        fout[oo + i] := tmpbuf[i];
      }
      var x := At(was, fi, inStride);
      forall i | 0 <= i < |was|
        ensures fout[..][i] == Written(was, oo, st.nfft, x, st.twiddles, 1)[i]
      {
        if oo <= i < oo + st.nfft {
          assert tmpbuf[..][i - oo] == Dft(x, st.twiddles, 1, st.nfft, i - oo);
        }
      }
    } else {
      KfWork(fout, oo, fin, fi, 1, inStride, st.factors, 0, st, st.nfft);
    }
  }

  /** kiss_fft: the plain discrete Fourier transform of the nfft samples of fin. */
  method KissFft(cfg: Cfg, fin: array<Cpx>, fout: array<Cpx>)
    requires Valid(cfg) && fin.Length >= cfg.nfft && fout.Length >= cfg.nfft
    modifies fout
    ensures forall k :: 0 <= k < cfg.nfft ==> fout[k] == Dft(Samples(old(fin[..])), cfg.twiddles, 1, cfg.nfft, k)
    ensures forall k :: cfg.nfft <= k < fout.Length ==> fout[k] == old(fout[k])
  {
    hide Prod, Dft, IsTwiddleTable, HasDirection, FactorsAt;
    ProdSmall(cfg.nfft - 1);
    ghost var x := At(fin[..], 0, 1);
    ghost var y := Samples(fin[..]);
    forall k: nat | k < cfg.nfft
      ensures Dft(x, cfg.twiddles, 1, cfg.nfft, k) == Dft(y, cfg.twiddles, 1, cfg.nfft, k)
    {
      forall j: nat | j < cfg.nfft
        ensures x(j) == y(j)
      {
        ProdSmall(j);
      }
      DftExt(x, y, cfg.twiddles, 1, cfg.nfft, k);
    }
    KissFftStride(cfg, fin, 0, fout, 0, 1);
    assert forall k :: 0 <= k < fout.Length ==> fout[k] == fout[..][k];
  }

  /** j -> f[j] */
  ghost function Samples(f: seq<Cpx>): nat -> Cpx {
    (j: nat) => Get(f, j)
  }

  lemma AtUnit(f: seq<Cpx>, base: int, j: nat)
    ensures At(f, base, 1)(j) == Get(f, base + j)
  {
    ProdSmall(j);
  }

  // ---- allocation ----

  lemma {:induction false} ChainFactors(s: seq<Factor.Radix>, n: nat, factors: seq<int>, at: nat)
    requires s != [] && Factor.Chain(s, n) && n >= 1
    requires at + 2 * |s| <= |factors| && factors[at..at + 2 * |s|] == Factor.Flat(s)
    ensures FactorsAt(factors, at, n)
    decreases |s|
  {
    hide Prod;
    var p, m, rest := s[0].p, s[0].m, s[1..];
    ProdSmall(m);
    ProdSmall(p);
    assert factors[at] == factors[at..at + 2 * |s|][0] == p;
    assert factors[at + 1] == factors[at..at + 2 * |s|][1] == m;
    if m != 1 {
      assert factors[at + 2..at + 2 + 2 * |rest|] == factors[at..at + 2 * |s|][2..] == Factor.Flat(rest);
      ChainFactors(rest, m, factors, at + 2);
    }
  }

  /** kiss_fft_alloc, given the table of roots and the floor of the square root of nfft. */
  method KissFftAlloc(nfft: nat, inverse: bool, twiddles: seq<Cpx>, floorSqrt: nat) returns (st: Cfg)
    requires 1 <= nfft < 0x8000_0000 && Prod(floorSqrt, floorSqrt) <= nfft < Prod(floorSqrt + 1, floorSqrt + 1)
    requires |twiddles| == nfft && IsTwiddleTable(twiddles) && HasDirection(twiddles, inverse)
    ensures Valid(st) && st.nfft == nfft && st.inverse == inverse && st.twiddles == twiddles
  {
    hide Prod, IsTwiddleTable, HasDirection, FactorsAt, Factor.Factors, Factor.Flat, Factor.Chain;
    var factors := new int[2 * Factor.MAX_FACTORS](i => 0);
    Factor.KfFactor(nfft, floorSqrt, factors);
    Factor.FactorsChain(nfft);
    Factor.FactorsFit(nfft);
    ChainFactors(Factor.Factors(nfft), nfft, factors[..], 0);
    st := Cfg(nfft, inverse, factors[..], twiddles);
  }
}
