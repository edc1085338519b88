/** kiss_fastfir.c: streaming overlap-save filtering of complex samples. */
module FastFir {
  import opened Complex
  import opened Twiddles
  import opened Stage
  import opened Inversion
  import opened Fir
  import K = KissFft
  import A = Arith

  /** MIN_FFT_LEN for complex samples */
  const MIN_FFT_LEN := 1024

  ghost predicate IsPow2(n: nat) {
    n == 1 || (n % 2 == 0 && n > 0 && IsPow2(n / 2))
  }

  /** The length kiss_fastfir_alloc picks when the caller gives none: the least power of two that is at least twice the
      impulse response and at least MIN_FFT_LEN. */
  method ChooseLength(nImpResp: nat) returns (nfft: nat)
    requires nImpResp >= 1
    ensures nfft >= 2 * nImpResp && nfft >= MIN_FFT_LEN && IsPow2(nfft)
    ensures nfft == MIN_FFT_LEN || nfft / 2 < 2 * nImpResp
  {
    hide A.Prod;
    var i: nat := nImpResp - 1;
    A.ProdSmall(nImpResp);
    A.ProdSmall(nImpResp - 1);
    nfft := 2;
    var more := true;
    ghost var scale: nat := 1;
    while more
      invariant IsPow2(nfft) && nfft == 2 * scale && scale >= 1
      invariant more ==> nImpResp - 1 < A.Prod(i + 1, scale)
      invariant more ==> A.Prod(i, scale) < nImpResp && (i >= 1 || scale == 1)
      invariant !more ==> nImpResp <= scale && (nfft <= 4 || nfft < 4 * nImpResp)
      decreases more, i
    {
      nfft := nfft * 2;
      Halve(i, scale, nImpResp);
      i := i / 2;
      scale := scale * 2;
      A.ProdSmall(scale);
      more := i != 0;
    }
    if nfft < MIN_FFT_LEN {
      nfft := MIN_FFT_LEN;
      assert IsPow2(1024) by {
        assert IsPow2(4);
        assert IsPow2(16);
        assert IsPow2(64);
        assert IsPow2(256);
      }
    }
  }

  lemma Halve(i: nat, scale: nat, n: nat)
    requires n >= 1 && n - 1 < A.Prod(i + 1, scale)
    ensures n - 1 < A.Prod(i / 2 + 1, scale * 2)
    ensures A.Prod(i, scale) < n ==> A.Prod(i / 2, scale * 2) < n && (i >= 1 ==> scale < n)
  {
    hide A.Prod;
    A.ProdSmall(scale);
    if i >= 1 {
      A.ProdMono(1, i, scale);
    }
    A.ProdMono(2 * (i / 2), i, scale);
    A.ProdAdd(i / 2, i / 2, scale);
    A.ProdComm(i / 2, scale);
    A.ProdAdd(scale, scale, i / 2);
    A.ProdComm(scale * 2, i / 2);
    A.ProdMono(i + 1, 2 * (i / 2 + 1), scale);
    A.ProdAdd(i / 2 + 1, i / 2 + 1, scale);
    A.ProdComm(i / 2 + 1, scale);
    A.ProdAdd(scale, scale, i / 2 + 1);
    A.ProdComm(scale * 2, i / 2 + 1);
  }

  /** l -> x[i + l] */
  ghost function Window(x: seq<Cpx>, i: int): nat -> Cpx {
    (l: nat) => Get(x, i + l)
  }

  /** Two streams with the same window filter to the same output. */
  lemma SameWindow(h: seq<Cpx>, x: seq<Cpx>, i: int, y: seq<Cpx>, j: int)
    requires var f, g := Window(x, i), Window(y, j); forall l: nat :: l < |h| ==> f(l) == g(l)
    ensures Filtered(h, x, i) == Filtered(h, y, j)
  {
    hide Mul, Get;
    forall l: nat | l < |h|
      ensures FirTerm(h, x, i)(l) == FirTerm(h, y, j)(l)
    {
      assert Window(x, i)(l) == Window(y, j)(l);
    }
    SumExt(FirTerm(h, x, i), FirTerm(h, y, j), |h|);
  }

  /** A stretch of the stream filters as it does inside the whole. */
  lemma Stretch(h: seq<Cpx>, x: seq<Cpx>, i: nat, y: seq<Cpx>, j: nat, n: nat)
    requires i + n <= |x| && j + n <= |y| && x[i..i + n] == y[j..j + n] && |h| <= n
    ensures Filtered(h, x, i) == Filtered(h, y, j)
  {
    hide Filtered;
    forall l: nat | l < |h|
      ensures Window(x, i)(l) == Window(y, j)(l)
    {
      assert Get(x, i + l) == x[i..i + n][l] == y[j..j + n][l] == Get(y, j + l);
    }
    SameWindow(h, x, i, y, j);
  }

  /** struct kiss_fastfir_state */
  class State {
    const nfft: nat
    const ngood: nat
    const fftcfg: K.Cfg
    const ifftcfg: K.Cfg
    const firFreqResp: array<Cpx>
    const freqbuf: array<Cpx>
    const tmpbuf: array<Cpx>
    ghost const h: seq<Cpx>

    ghost predicate Valid()
      reads firFreqResp
      ensures Valid() ==> 1 <= |h| <= nfft && ngood == nfft - |h| + 1
    {
      && 1 <= |h| <= nfft && ngood == nfft - |h| + 1
      && K.Valid(fftcfg) && K.Valid(ifftcfg) && fftcfg.nfft == nfft && Opposite(fftcfg.twiddles, ifftcfg.twiddles)
      && firFreqResp.Length == nfft && freqbuf.Length == nfft && tmpbuf.Length == nfft
      && firFreqResp != freqbuf && firFreqResp != tmpbuf && freqbuf != tmpbuf
      && forall k :: 0 <= k < nfft ==>
           firFreqResp[k] == Scale(Dft(Response(h, nfft), fftcfg.twiddles, 1, nfft, k), 1.0 / nfft as real)
    }

    /** kiss_fastfir_alloc, given the two configurations. */
    constructor (impResp: seq<Cpx>, n: nat, fwd: K.Cfg, inv: K.Cfg)
      requires 1 <= |impResp| <= n && K.Valid(fwd) && K.Valid(inv) && fwd.nfft == n && Opposite(fwd.twiddles, inv.twiddles)
      ensures Valid() && h == impResp && nfft == n
      ensures fresh(firFreqResp) && fresh(freqbuf) && fresh(tmpbuf)
    {
      hide K.Valid, Opposite, SMul;
      nfft, ngood := n, n - |impResp| + 1;
      fftcfg, ifftcfg := fwd, inv;
      firFreqResp := new Cpx[n](i => ZERO);
      freqbuf := new Cpx[n](i => ZERO);
      tmpbuf := new Cpx[n](i => ZERO);
      h := impResp;
      new;
      tmpbuf[0] := impResp[|impResp| - 1];
      for i := 0 to |impResp| - 1
        invariant forall k :: 0 <= k < n - |impResp| + 1 + i ==> tmpbuf[k] == LeftRotated(impResp, n, k)
      {
        tmpbuf[n - |impResp| + 1 + i] := impResp[i];
      }
      K.KissFft(fwd, tmpbuf, firFreqResp);
      forall k | 0 <= k < n
        ensures firFreqResp[k] == Dft(Response(impResp, n), fwd.twiddles, 1, n, k)
      {
        DftExt(K.Samples(tmpbuf[..]), Response(impResp, n), fwd.twiddles, 1, n, k);
      }
      var scale := 1.0 / n as real;
      for i := 0 to n
        invariant forall k :: 0 <= k < n ==>
          firFreqResp[k] == var bin := Dft(Response(impResp, n), fwd.twiddles, 1, n, k); if k < i then Scale(bin, scale) else bin
      {
        firFreqResp[i] := Scale(firFreqResp[i], scale);
      }
    }

    /** Output i after one block has been filtered to oo. */
    ghost function Block(x: nat -> Cpx, oo: int, was: seq<Cpx>, i: int): Cpx
      requires 1 <= |h| <= nfft && 0 <= i < |was|
    {
      if oo <= i < oo + nfft then Circular(x, Response(h, nfft), nfft)(i - oo) else was[i]
    }

    /** fastconv1buf: nfft samples from inb through the filter; out may be the input itself. */
    method Fastconv1buf(inb: array<Cpx>, io: nat, out: array<Cpx>, oo: nat)
      requires Valid()
      requires io + nfft <= inb.Length && oo + nfft <= out.Length
      requires inb != freqbuf && out != freqbuf && inb != firFreqResp && out != firFreqResp
      modifies freqbuf, out
      ensures Valid()
      ensures forall i :: 0 <= i < out.Length ==> out[i] == Block(At(old(inb[..]), io, 1), oo, old(out[..]), i)
    {
      hide K.Valid, Opposite, Dft, Circular, At, A.Prod, Mul, Scale;
      ghost var x, was := At(inb[..], io, 1), out[..];
      ghost var tw := fftcfg.twiddles;
      A.ProdSmall(nfft - 1);
      K.KissFftStride(fftcfg, inb, io, freqbuf, 0, 1);
      assert forall k :: 0 <= k < nfft ==> freqbuf[k] == freqbuf[..][k];
      var product := ScaledProduct(x, Response(h, nfft), tw, 1.0 / nfft as real);
      for i := 0 to nfft
        invariant out[..] == was && Valid()
        invariant forall k :: 0 <= k < nfft ==> freqbuf[k] == if k < i then product(k) else Dft(x, tw, 1, nfft, k)
      {
        var tmpsamp := Mul(freqbuf[i], firFreqResp[i]);
        freqbuf[i] := tmpsamp;
      }
      ghost var y := At(freqbuf[..], 0, 1);
      K.KissFftStride(ifftcfg, freqbuf, 0, out, oo, 1);
      forall i | 0 <= i < out.Length
        ensures out[i] == Block(x, oo, was, i)
      {
        assert out[i] == out[..][i];
        if oo <= i < oo + nfft {
          forall k: nat | k < nfft
            ensures y(k) == product(k)
          {
            K.AtUnit(freqbuf[..], 0, k);
          }
          DftExt(y, product, ifftcfg.twiddles, 1, nfft, i - oo);
          FastConvolution(x, Response(h, nfft), tw, ifftcfg.twiddles, i - oo);
        }
      }
    }

    /** The first ngood outputs of a block are outputs of the direct filter. */
    lemma BlockFilters(x: seq<Cpx>, io: nat, oo: nat, was: seq<Cpx>, i: nat)
      requires 1 <= |h| <= nfft && ngood == nfft - |h| + 1 && oo <= i < oo + ngood && i < |was|
      ensures Block(At(x, io, 1), oo, was, i) == Filtered(h, x, io + (i - oo))
    {
      hide Filtered, Circular, At, Get;
      forall j: nat | j < nfft
        ensures At(x, io, 1)(j) == Get(x, io + j)
      {
        K.AtUnit(x, io, j);
      }
      CircularWindow(h, nfft, At(x, io, 1), x, io, i - oo);
    }

    /** done is as many whole steps of ngood as blocks of nfft fit into n samples. */
    ghost predicate WholeBlocks(n: nat, done: nat) {
      && (exists steps: nat :: done == A.Prod(steps, ngood))
      && n < done + nfft && (done > 0 ==> done - ngood + nfft <= n)
    }

    /** kff_nocopy: as many whole blocks as the n samples hold. */
    method KffNocopy(inbuf: array<Cpx>, outbuf: array<Cpx>, n: nat) returns (done: nat)
      requires Valid() && n <= inbuf.Length && n <= outbuf.Length && inbuf != outbuf
      requires inbuf != freqbuf && outbuf != freqbuf && inbuf != firFreqResp && outbuf != firFreqResp
      modifies freqbuf, outbuf
      ensures Valid() && done <= n < done + nfft && WholeBlocks(n, done)
      ensures n >= |h| - 1 ==> n - done >= |h| - 1
      ensures n < |h| - 1 ==> done == 0
      ensures forall i :: 0 <= i < done ==> outbuf[i] == Filtered(h, inbuf[..], i)
    {
      hide K.Valid, Opposite, Filtered, Block, At, A.Prod;
      done := 0;
      ghost var x, steps: nat := inbuf[..], 0;
      A.ProdSmall(ngood);
      while n - done >= nfft
        invariant Valid() && done <= n && inbuf[..] == x
        invariant done == A.Prod(steps, ngood) && (done > 0 ==> done - ngood + nfft <= n)
        invariant n >= |h| - 1 ==> n - done >= |h| - 1
        invariant n < |h| - 1 ==> done == 0
        invariant forall i :: 0 <= i < done ==> outbuf[i] == Filtered(h, x, i)
        decreases n - done
      {
        ghost var was := outbuf[..];
        Fastconv1buf(inbuf, done, outbuf, done);
        forall i | 0 <= i < done + ngood
          ensures outbuf[i] == Filtered(h, x, i)
        {
          if i < done {
            BlockOutside(At(x, done, 1), done, was, i);
          } else {
            BlockFilters(x, done, done, was, i);
          }
        }
        A.ProdSucc(steps, ngood);
        done, steps := done + ngood, steps + 1;
      }
    }

    lemma BlockOutside(x: nat -> Cpx, oo: int, was: seq<Cpx>, i: int)
      requires 1 <= |h| <= nfft && 0 <= i < |was| && !(oo <= i < oo + nfft)
      ensures Block(x, oo, was, i) == was[i]
    {}

    /** kff_flush: whole blocks, then the rest padded with zeros up to one block. */
    method KffFlush(inbuf: array<Cpx>, outbuf: array<Cpx>, n: nat) returns (written: nat)
      requires Valid() && n <= inbuf.Length && n <= outbuf.Length && inbuf != outbuf
      requires inbuf !in {freqbuf, firFreqResp, tmpbuf} && outbuf !in {freqbuf, firFreqResp, tmpbuf}
      requires n >= |h| - 1
      modifies freqbuf, outbuf, tmpbuf
      ensures Valid() && written == n - |h| + 1
      ensures forall i :: 0 <= i < written ==> outbuf[i] == Filtered(h, inbuf[..], i)
    {
      hide K.Valid, Opposite, Filtered, Block, At, A.Prod, WholeBlocks;
      var ntmp := KffNocopy(inbuf, outbuf, n);
      var left := n - ntmp;
      var zpad := nfft - left;
      ghost var x := inbuf[..];
      forall i | 0 <= i < nfft { tmpbuf[i] := if i < left then inbuf[ntmp + i] else ZERO; }
      ghost var padded := tmpbuf[..];
      Fastconv1buf(tmpbuf, 0, tmpbuf, 0);
      ghost var filtered := tmpbuf[..];
      ghost var before := outbuf[..];
      forall i | 0 <= i < ngood - zpad { outbuf[ntmp + i] := tmpbuf[i]; }
      written := ntmp + ngood - zpad;
      assert inbuf[..] == x;
      forall i | 0 <= i < written
        ensures outbuf[i] == Filtered(h, x, i)
      {
        if i < ntmp {
          assert outbuf[i] == before[i];
        } else {
          assert outbuf[i] == filtered[i - ntmp];
          BlockFilters(padded, 0, 0, padded, i - ntmp);
          assert padded[i - ntmp..i - ntmp + |h|] == x[i..i + |h|];
          Stretch(h, padded, i - ntmp, x, i, |h|);
        }
      }
    }

    /** kiss_fastfir: nNew samples have been put behind the offset samples kept from before; none means flush. */
    method KissFastfir(inbuf: array<Cpx>, outbuf: array<Cpx>, nNew: nat, offset: nat) returns (nwritten: nat, kept: nat)
      requires Valid() && nNew + offset <= inbuf.Length && nNew + offset <= outbuf.Length && inbuf != outbuf
      requires inbuf !in {freqbuf, firFreqResp, tmpbuf} && outbuf !in {freqbuf, firFreqResp, tmpbuf}
      requires nNew == 0 ==> offset >= |h| - 1
      modifies freqbuf, inbuf, outbuf, tmpbuf
      ensures Valid() && nwritten <= nNew + offset
      ensures forall i :: 0 <= i < nwritten ==> outbuf[i] == Filtered(h, old(inbuf[..]), i)
      ensures nNew == 0 ==> nwritten == offset - |h| + 1 && kept == offset
      ensures nNew > 0 ==> WholeBlocks(nNew + offset, nwritten)
      ensures nNew > 0 ==> kept == nNew + offset - nwritten < nfft && inbuf[..kept] == old(inbuf[nwritten..nNew + offset])
      ensures nNew > 0 ==> (nNew + offset >= |h| - 1 ==> kept >= |h| - 1) && (nNew + offset < |h| - 1 ==> nwritten == 0)
    {
      hide K.Valid, Opposite, Filtered, A.Prod, WholeBlocks;
      var ntot := nNew + offset;
      kept := offset;
      if nNew == 0 {
        nwritten := KffFlush(inbuf, outbuf, ntot);
      } else {
        nwritten := KffNocopy(inbuf, outbuf, ntot);
        kept := ntot - nwritten;
        forall i | 0 <= i < kept { inbuf[i] := inbuf[i + nwritten]; }
      }
    }

    /** out is what the direct filter gives so far on the stream s; the last idx samples wait in the buffer. */
    ghost predicate Streaming(s: seq<Cpx>, out: seq<Cpx>, buffer: seq<Cpx>, idx: nat) {
      && idx < nfft && idx <= |buffer| && |s| == |out| + idx && buffer[..idx] == s[|out|..]
      && (|s| >= |h| - 1 ==> idx >= |h| - 1) && (|s| < |h| - 1 ==> out == [])
      && forall i :: 0 <= i < |out| ==> out[i] == Filtered(h, s, i)
    }

    /** One call on the chunk c, put in the buffer behind the samples that waited. */
    lemma StreamingNext(s: seq<Cpx>, c: seq<Cpx>, out: seq<Cpx>, was: seq<Cpx>, idx: nat, filled: seq<Cpx>,
                        nwrite: nat, outbuf: seq<Cpx>, after: seq<Cpx>, kept: nat)
      requires |h| >= 1 && Streaming(s, out, was, idx)
      requires idx + |c| <= |filled| && filled[..idx] == was[..idx] && filled[idx..idx + |c|] == c
      requires nwrite <= |outbuf| && forall i :: 0 <= i < nwrite ==> outbuf[i] == Filtered(h, filled, i)
      requires nwrite <= |c| + idx && kept == |c| + idx - nwrite < nfft && kept <= |after|
      requires after[..kept] == filled[nwrite..|c| + idx]
      requires (|c| + idx >= |h| - 1 ==> kept >= |h| - 1) && (|c| + idx < |h| - 1 ==> nwrite == 0)
      ensures Streaming(s + c, out + outbuf[..nwrite], after, kept)
    {
      hide Filtered;
      var s1, out1 := s + c, out + outbuf[..nwrite];
      assert filled[..idx + |c|] == s1[|out|..] by {
        assert filled[..idx + |c|] == filled[..idx] + filled[idx..idx + |c|];
      }
      assert after[..kept] == s1[|out1|..] by {
        assert filled[nwrite..|c| + idx] == filled[..idx + |c|][nwrite..];
      }
      OldOutputs(out, s, s1);
      NewOutputs(filled, s1, |out|, nwrite);
    }

    /** One round of do_file_filter's loop: c is read behind the samples kept, and what can be filtered is written. */
    method FilterChunk(inbuf: array<Cpx>, outbuf: array<Cpx>, c: seq<Cpx>, idx: nat, ghost s: seq<Cpx>, ghost out: seq<Cpx>)
      returns (piece: seq<Cpx>, kept: nat)
      requires Valid() && Streaming(s, out, inbuf[..], idx) && |c| >= 1
      requires idx + |c| <= inbuf.Length <= outbuf.Length && inbuf != outbuf
      requires inbuf !in {freqbuf, firFreqResp, tmpbuf} && outbuf !in {freqbuf, firFreqResp, tmpbuf}
      modifies freqbuf, tmpbuf, inbuf, outbuf
      ensures Valid() && Streaming(s + c, out + piece, inbuf[..], kept)
    {
      hide Valid, Filtered, Streaming;
      ghost var was := inbuf[..];
      forall i | 0 <= i < |c| { inbuf[idx + i] := c[i]; }
      ghost var filled := inbuf[..];
      var nwrite;
      nwrite, kept := KissFastfir(inbuf, outbuf, |c|, idx);
      StreamingNext(s, c, out, was, idx, filled, nwrite, outbuf[..], inbuf[..], kept);
      piece := outbuf[..nwrite];
    }

    /** The loop of do_file_filter on buffers of nbuf samples. Read k delivers request(k) samples, but at least one while
        the stream lasts, and never more than are left or fit behind the samples kept: every way to split the stream. */
    method FilterStream(stream: seq<Cpx>, nbuf: nat, request: nat -> nat) returns (out: seq<Cpx>)
      requires Valid() && nbuf >= nfft && |stream| >= |h| - 1
      modifies freqbuf, tmpbuf
      ensures Valid() && out == FilterAll(h, stream)
    {
      hide Valid, Filtered, Streaming, FilterAll;
      var inbuf := new Cpx[nbuf](i => ZERO);
      var outbuf := new Cpx[nbuf](i => ZERO);
      var idx: nat, pos: nat, k: nat := 0, 0, 0;
      out := [];
      StreamingStart(stream, inbuf[..]);
      while pos < |stream|
        invariant pos <= |stream|
        invariant Valid() && Streaming(stream[..pos], out, inbuf[..], idx)
      {
        StreamingBounds(stream[..pos], out, inbuf[..], idx);
        var room := if nbuf - idx < |stream| - pos then nbuf - idx else |stream| - pos;
        var nread := if request(k) == 0 then 1 else if request(k) < room then request(k) else room;
        var piece, kept := FilterChunk(inbuf, outbuf, stream[pos..pos + nread], idx, stream[..pos], out);
        assert stream[..pos] + stream[pos..pos + nread] == stream[..pos + nread];
        out := out + piece;
        idx, pos, k := kept, pos + nread, k + 1;
      }
      assert stream[..|stream|] == stream;
      ghost var was := inbuf[..];
      StreamingBounds(stream, out, was, idx);
      var nwrite, kept := KissFastfir(inbuf, outbuf, 0, idx);
      StreamingEnd(stream, out, was, idx, nwrite, outbuf[..]);
      out := out + outbuf[..nwrite];
    }

    lemma StreamingStart(stream: seq<Cpx>, buffer: seq<Cpx>)
      requires 1 <= |h| <= nfft
      ensures Streaming(stream[..0], [], buffer, 0)
    {}

    lemma StreamingBounds(s: seq<Cpx>, out: seq<Cpx>, buffer: seq<Cpx>, idx: nat)
      requires Streaming(s, out, buffer, idx)
      ensures idx < nfft && (|s| >= |h| - 1 ==> idx >= |h| - 1)
    {}

    lemma StreamingEnd(s: seq<Cpx>, out: seq<Cpx>, buffer: seq<Cpx>, idx: nat, nwrite: nat, outbuf: seq<Cpx>)
      requires |h| >= 1 && Streaming(s, out, buffer, idx) && |s| >= |h| - 1 && nwrite == idx - |h| + 1 <= |outbuf|
      requires forall i :: 0 <= i < nwrite ==> outbuf[i] == Filtered(h, buffer, i)
      ensures out + outbuf[..nwrite] == FilterAll(h, s)
    {
      hide Filtered;
      NewOutputs(buffer, s, |out|, nwrite);
    }

    /** Outputs already written keep their value when the stream grows. */
    lemma OldOutputs(out: seq<Cpx>, s: seq<Cpx>, s1: seq<Cpx>)
      requires |h| >= 1 && |out| <= |s| <= |s1| && s1[..|s|] == s
      requires out != [] ==> |out| + |h| - 1 <= |s|
      requires forall i :: 0 <= i < |out| ==> out[i] == Filtered(h, s, i)
      ensures forall i :: 0 <= i < |out| ==> out[i] == Filtered(h, s1, i)
    {
      hide Filtered;
      forall i | 0 <= i < |out|
        ensures out[i] == Filtered(h, s1, i)
      {
        forall l: nat | l < |h|
          ensures Window(s1, i)(l) == Window(s, i)(l)
        {
          assert Get(s1, i + l) == s1[..|s|][i + l] == Get(s, i + l);
        }
        SameWindow(h, s1, i, s, i);
      }
    }

    /** Outputs of the buffer are outputs of the stream at the buffer's place. */
    lemma NewOutputs(buffer: seq<Cpx>, s: seq<Cpx>, place: nat, nwrite: nat)
      requires |h| >= 1 && place <= |s| && |s| - place <= |buffer| && buffer[..|s| - place] == s[place..]
      requires nwrite > 0 ==> nwrite + |h| - 1 <= |s| - place
      ensures forall i :: 0 <= i < nwrite ==> Filtered(h, buffer, i) == Filtered(h, s, place + i)
    {
      hide Filtered;
      forall i | 0 <= i < nwrite
        ensures Filtered(h, buffer, i) == Filtered(h, s, place + i)
      {
        forall l: nat | l < |h|
          ensures Window(buffer, i)(l) == Window(s, place + i)(l)
        {
          assert Get(buffer, i + l) == buffer[..|s| - place][i + l] == s[place..][i + l] == Get(s, place + i + l);
        }
        SameWindow(h, buffer, i, s, place + i);
      }
    }
  }
}
