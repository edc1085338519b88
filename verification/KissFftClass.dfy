/** The class kissfft of kissfft.hh: the same transform, over the two stage lists that its factoriser fills. */
module KissFftClass {
  import opened Arith
  import opened Complex
  import opened Twiddles
  import opened Stage
  import opened Butterflies
  import Factor
  import K = KissFft

  /** From entry at on, radix and remainder multiply to len, and the rest does so for the remainder until it is 1. */
  ghost predicate Stages(radix: seq<nat>, remainder: seq<nat>, at: nat, len: int)
    decreases |radix| - at
  {
    && at < |radix| == |remainder|
    && radix[at] >= 1 && remainder[at] >= 1
    && Prod(radix[at], remainder[at]) == len
    && (remainder[at] == 1 || Stages(radix, remainder, at + 1, remainder[at]))
  }

  lemma {:induction false} ChainStages(s: seq<Factor.Radix>, n: nat, radix: seq<nat>, remainder: seq<nat>, at: nat)
    requires s != [] && Factor.Chain(s, n) && n >= 1
    requires at + |s| == |radix| == |remainder| && radix[at..] == Factor.Ps(s) && remainder[at..] == Factor.Ms(s)
    ensures Stages(radix, remainder, at, n)
    decreases |s|
  {
    hide Prod;
    var p, m, rest := s[0].p, s[0].m, s[1..];
    ProdSmall(m);
    ProdSmall(p);
    assert radix[at] == radix[at..][0] == p && remainder[at] == remainder[at..][0] == m;
    if m != 1 {
      assert radix[at + 1..] == radix[at..][1..] == Factor.Ps(rest);
      assert remainder[at + 1..] == remainder[at..][1..] == Factor.Ms(rest);
      ChainStages(rest, m, radix, remainder, at + 1);
    }
  }

  class Kissfft {
    const nfft: nat
    const inverse: bool
    const twiddles: seq<Cpx>
    const stageRadix: seq<nat>
    const stageRemainder: seq<nat>

    ghost predicate Valid() {
      && nfft >= 1 && |twiddles| == nfft && IsTwiddleTable(twiddles) && HasDirection(twiddles, inverse)
      && Stages(stageRadix, stageRemainder, 0, nfft)
    }

    /** The table of roots is what fill_twiddles computes. */
    constructor (nfft: nat, inverse: bool, twiddles: seq<Cpx>)
      requires nfft >= 1 && |twiddles| == nfft && IsTwiddleTable(twiddles) && HasDirection(twiddles, inverse)
      ensures Valid() && this.nfft == nfft && this.inverse == inverse && this.twiddles == twiddles
    {
      hide Prod, IsTwiddleTable, HasDirection, Stages, Factor.Factors, Factor.Ps, Factor.Ms;
      var radix, remainder := Factor.Prepare(nfft);
      this.nfft, this.inverse, this.twiddles := nfft, inverse, twiddles;
      stageRadix, stageRemainder := radix, remainder;
      new;
      Factor.FactorsChain(nfft);
      SomeFactor(nfft);
      assert radix[0..] == radix && remainder[0..] == remainder;
      ChainStages(Factor.Factors(nfft), nfft, radix, remainder, 0);
    }

    /** kf_work: the transform of len samples of f, read every fstride * inStride from fo, into Fout from off. */
    method KfWork(stage: nat, Fout: array<Cpx>, off: nat, f: array<Cpx>, fo: nat, fstride: nat, inStride: nat, ghost len: nat)
      requires f != Fout && len >= 1 && Stages(stageRadix, stageRemainder, stage, len)
      requires IsTwiddleTable(twiddles) && HasDirection(twiddles, inverse) && |twiddles| == Prod(len, fstride)
      requires off + len <= Fout.Length && fo + Prod(len - 1, Prod(fstride, inStride)) < f.Length
      modifies Fout
      ensures Fout[..] == K.Written(old(Fout[..]), off, len, At(f[..], fo, Prod(fstride, inStride)), twiddles, fstride)
      decreases |stageRadix| - stage
    {
      hide Prod, Prod3, IsTwiddleTable, HasDirection, K.Written, K.Blocks, Decimated, At, Combine;
      var p, m := stageRadix[stage], stageRemainder[stage];
      var step := Prod(fstride, inStride);
      ghost var a0 := Fout[..];
      ghost var x, tw := At(f[..], fo, step), twiddles;
      K.StageLengths(len, p, m, fstride);
      K.BlocksStart(a0, off, x, tw, fstride, p, m);
      ProdSmall(p);
      ProdSmall(m);
      ProdSmall(step);
      if m == 1 {
        for q := 0 to p
          invariant K.Blocks(a0, Fout[..], off, x, tw, fstride, p, m, q)
        {
          ghost var a := Fout[..];
          ProdSmall(q);
          ProdMono(q, p - 1, step);
          Fout[off + q] := f[fo + Prod(q, step)];
          K.ReadSample(f[..], fo, step, p, q);
          K.CopiedBlock(a, Fout[..], off + q, Decimated(x, p, q), tw, Prod(fstride, p));
          K.BlockStep(a0, a, Fout[..], off, x, Decimated(x, p, q), tw, fstride, p, m, q);
        }
      } else {
        for q := 0 to p
          invariant K.Blocks(a0, Fout[..], off, x, tw, fstride, p, m, q)
        {
          ghost var a := Fout[..];
          ProdMono(q + 1, p, m);
          ProdSucc(q, m);
          K.InputBound(fo, step, p, m, q, m - 1, f.Length);
          ProdAssoc(p, fstride, inStride);
          ProdComm(p, fstride);
          KfWork(stage + 1, Fout, off + Prod(q, m), f, fo + Prod(q, step), Prod(fstride, p), inStride, m);
          ghost var y := At(f[..], fo + Prod(q, step), Prod(Prod(fstride, p), inStride));
          forall j: nat | j < m
            ensures y(j) == Decimated(x, p, q)(j)
          {
            K.DecimatedInput(f[..], fo, fstride, inStride, p, q, j);
          }
          K.BlockStep(a0, a, Fout[..], off, x, y, tw, fstride, p, m, q);
        }
      }
      ghost var blocks := Fout[..];
      KfButterfly(Fout, off, fstride, m, p);
      K.Recombined(a0, blocks, off, x, tw, fstride, p, m);
    }

    /** The switch on the radix; kf_bfly4 picks its quarter turn by the direction. */
    method KfButterfly(Fout: array<Cpx>, off: nat, fstride: nat, m: nat, p: nat)
      requires m >= 1 && p >= 1 && off + Prod(p, m) <= Fout.Length
      requires IsTwiddleTable(twiddles) && HasDirection(twiddles, inverse) && |twiddles| == Prod3(p, m, fstride)
      modifies Fout
      ensures Fout[..] == Combine(old(Fout[..]), off, twiddles, fstride, p, m)
    {
      hide Prod, Prod3, IsTwiddleTable, HasDirection, Combine;
      ProdSmall(m);
      if p == 2 {
        Bfly2(Fout, off, fstride, twiddles, m);
      } else if p == 3 {
        Bfly3(Fout, off, fstride, twiddles, m);
      } else if p == 4 {
        Bfly4(Fout, off, fstride, twiddles, inverse, m);
      } else if p == 5 {
        Bfly5(Fout, off, fstride, twiddles, m);
      } else {
        BflyGeneric(Fout, off, fstride, twiddles, m, p);
      }
    }

    /** transform: bin k of the discrete Fourier transform of src in dst[k]; the two must be different buffers. */
    method Transform(src: array<Cpx>, dst: array<Cpx>)
      requires Valid() && src != dst && src.Length >= nfft && dst.Length >= nfft
      modifies dst
      ensures forall k :: 0 <= k < nfft ==> dst[k] == Dft(K.Samples(src[..]), twiddles, 1, nfft, k)
      ensures forall k :: nfft <= k < dst.Length ==> dst[k] == old(dst[k])
    {
      hide Prod, Dft, IsTwiddleTable, HasDirection, Stages;
      ProdSmall(nfft);
      ProdSmall(nfft - 1);
      ProdSmall(1);
      KfWork(0, dst, 0, src, 0, 1, 1, nfft);
      ghost var x, y := At(src[..], 0, 1), K.Samples(src[..]);
      forall k: nat | k < nfft
        ensures Dft(x, twiddles, 1, nfft, k) == Dft(y, twiddles, 1, nfft, k)
      {
        forall j: nat | j < nfft
          ensures x(j) == y(j)
        {
          ProdSmall(j);
        }
        DftExt(x, y, twiddles, 1, nfft, k);
      }
      assert forall k :: 0 <= k < dst.Length ==> dst[k] == dst[..][k];
    }
  }

  lemma SomeFactor(n: nat)
    requires n >= 1 && Factor.Chain(Factor.Factors(n), n)
    ensures Factor.Factors(n) != [] && |Factor.Ps(Factor.Factors(n))| == |Factor.Factors(n)| == |Factor.Ms(Factor.Factors(n))|
  {}
}
