/** kiss_fftnd.c: the multi-dimensional transform, one axis a pass, rotating the axes between two buffers. */
module Fftnd {
  import opened Arith
  import opened Complex
  import opened Twiddles
  import opened Stage
  import K = KissFft

  /** Number of elements of an array of these dimensions. */
  function DimProd(dims: seq<nat>): (r: nat)
    ensures (forall i :: 0 <= i < |dims| ==> dims[i] >= 1) ==> r >= 1
  {
    if dims == [] then 1
    else
      var r := Prod(dims[0], DimProd(dims[1..]));
      assert (forall i :: 0 <= i < |dims| ==> dims[i] >= 1) ==> r >= 1 by {
        if forall i :: 0 <= i < |dims| ==> dims[i] >= 1 {
          ProdMono(1, dims[0], DimProd(dims[1..]));
          ProdSmall(DimProd(dims[1..]));
        }
      }
      r
  }

  ghost predicate Positive(dims: seq<nat>) {
    forall i :: 0 <= i < |dims| ==> dims[i] >= 1
  }

  /** A position in the array. */
  ghost predicate IsIndex(dims: seq<nat>, a: seq<nat>) {
    |a| == |dims| && forall i :: 0 <= i < |dims| ==> a[i] < dims[i]
  }

  /** Where the element at a lies when the last axis runs fastest. */
  ghost function Flat(dims: seq<nat>, a: seq<nat>): nat
    requires |a| == |dims|
  {
    if dims == [] then 0 else Prod(a[0], DimProd(dims[1..])) + Flat(dims[1..], a[1..])
  }

  lemma {:induction false} FlatBound(dims: seq<nat>, a: seq<nat>)
    requires IsIndex(dims, a)
    ensures Flat(dims, a) < DimProd(dims)
  {
    hide Prod;
    if dims != [] {
      FlatBound(dims[1..], a[1..]);
      ProdMono(a[0] + 1, dims[0], DimProd(dims[1..]));
      ProdSucc(a[0], DimProd(dims[1..]));
    }
  }

  /** Every place holds the element of some position. */
  lemma {:induction false} FlatOnto(dims: seq<nat>, i: nat) returns (a: seq<nat>)
    requires Positive(dims) && i < DimProd(dims)
    ensures IsIndex(dims, a) && Flat(dims, a) == i
  {
    hide Prod;
    if dims == [] {
      a := [];
    } else {
      var s := DimProd(dims[1..]);
      Coordinates(i, dims[0], s);
      var b := FlatOnto(dims[1..], i % s);
      a := [i / s] + b;
      assert a[1..] == b;
    }
  }

  lemma {:induction false} DimProdLast(dims: seq<nat>, d: nat)
    ensures DimProd(dims + [d]) == Prod(DimProd(dims), d)
  {
    hide Prod;
    ProdSmall(d);
    if dims == [] {
      assert dims + [d] == [d];
      assert DimProd([]) == 1;
    } else {
      assert (dims + [d])[1..] == dims[1..] + [d];
      DimProdLast(dims[1..], d);
      ProdAssoc(dims[0], DimProd(dims[1..]), d);
    }
  }

  /** Moving the first axis to the end: the last index counts within the old column. */
  lemma {:induction false} FlatLast(dims: seq<nat>, a: seq<nat>, d: nat, k: nat)
    requires |a| == |dims|
    ensures Flat(dims + [d], a + [k]) == Prod(Flat(dims, a), d) + k
  {
    hide Prod;
    ProdSmall(d);
    ProdSmall(k);
    if dims == [] {
      assert dims + [d] == [d] && a + [k] == [k];
      assert DimProd([]) == 1;
    } else {
      assert (dims + [d])[1..] == dims[1..] + [d] && (a + [k])[1..] == a[1..] + [k];
      FlatLast(dims[1..], a[1..], d, k);
      DimProdLast(dims[1..], d);
      ProdAssoc(a[0], DimProd(dims[1..]), d);
      ProdAdd(Prod(a[0], DimProd(dims[1..])), Flat(dims[1..], a[1..]), d);
    }
  }

  /** The first t axes moved to the end. */
  ghost function Rotate(s: seq<nat>, t: nat): (r: seq<nat>)
    requires t <= |s|
    ensures |r| == |s|
  {
    s[t..] + s[..t]
  }

  lemma RotateNext(s: seq<nat>, t: nat)
    requires t < |s|
    ensures Rotate(s, t)[0] == s[t]
    ensures Rotate(s, t + 1) == Rotate(s, t)[1..] + [s[t]]
    ensures Rotate(s, t) == [s[t]] + Rotate(s, t)[1..]
  {}

  lemma {:induction false} DimProdRotate(dims: seq<nat>, t: nat)
    requires t <= |dims|
    ensures DimProd(Rotate(dims, t)) == DimProd(dims)
  {
    hide Prod;
    if t == 0 {
      assert Rotate(dims, 0) == dims;
    } else {
      DimProdRotate(dims, t - 1);
      RotateNext(dims, t - 1);
      DimProdLast(Rotate(dims, t - 1)[1..], dims[t - 1]);
      ProdComm(dims[t - 1], DimProd(Rotate(dims, t - 1)[1..]));
    }
  }

  /** The array x transformed along its first t axes in turn, at position a. */
  ghost function AxisDft(x: seq<Cpx>, dims: seq<nat>, tws: seq<seq<Cpx>>, t: nat, a: seq<nat>): Cpx
    requires |a| == |dims| == |tws| && t <= |dims|
    requires forall i :: 0 <= i < |tws| ==> |tws[i]| >= 1
    decreases t
  {
    if t == 0 then Get(x, Flat(dims, a))
    else Dft((j: nat) => AxisDft(x, dims, tws, t - 1, a[t - 1 := j]), tws[t - 1], 1, dims[t - 1], a[t - 1])
  }

  /** The layout after t passes: axes rotated by t, the first t of them in frequency. */
  ghost predicate Holds(x: seq<Cpx>, dims: seq<nat>, tws: seq<seq<Cpx>>, t: nat, buf: seq<Cpx>)
    requires |dims| == |tws| && t <= |dims|
    requires forall i :: 0 <= i < |tws| ==> |tws[i]| >= 1
  {
    forall a: seq<nat> :: IsIndex(dims, a) ==> Get(buf, Flat(Rotate(dims, t), Rotate(a, t))) == AxisDft(x, dims, tws, t, a)
  }

  /** What one pass writes at place i * d + k: bin k of column i. */
  ghost predicate PassDone(was: seq<Cpx>, buf: seq<Cpx>, d: nat, stride: nat, tw: seq<Cpx>, columns: nat)
    requires |tw| >= 1 && d >= 1
  {
    forall t :: 0 <= t < Prod(columns, d) ==> Get(buf, t) == Dft(At(was, t / d, stride), tw, 1, d, t % d)
  }

  /** A pass transforms the next axis. */
  lemma PassHolds(x: seq<Cpx>, dims: seq<nat>, tws: seq<seq<Cpx>>, t: nat, was: seq<Cpx>, buf: seq<Cpx>)
    requires |dims| == |tws| && t < |dims| && Positive(dims)
    requires forall i :: 0 <= i < |tws| ==> |tws[i]| >= 1
    requires Holds(x, dims, tws, t, was)
    requires PassDone(was, buf, dims[t], DimProd(Rotate(dims, t)[1..]), tws[t], DimProd(Rotate(dims, t)[1..]))
    ensures Holds(x, dims, tws, t + 1, buf)
  {
    hide Prod, Dft, At, Flat, DimProd, Get, Rotate;
    forall a: seq<nat> | IsIndex(dims, a)
      ensures Get(buf, Flat(Rotate(dims, t + 1), Rotate(a, t + 1))) == AxisDft(x, dims, tws, t + 1, a)
    {
      PassAt(x, dims, tws, t, was, buf, a);
    }
  }

  lemma PassAt(x: seq<Cpx>, dims: seq<nat>, tws: seq<seq<Cpx>>, t: nat, was: seq<Cpx>, buf: seq<Cpx>, a: seq<nat>)
    requires |dims| == |tws| && t < |dims| && Positive(dims) && IsIndex(dims, a)
    requires forall i :: 0 <= i < |tws| ==> |tws[i]| >= 1
    requires Holds(x, dims, tws, t, was)
    requires PassDone(was, buf, dims[t], DimProd(Rotate(dims, t)[1..]), tws[t], DimProd(Rotate(dims, t)[1..]))
    ensures Get(buf, Flat(Rotate(dims, t + 1), Rotate(a, t + 1))) == AxisDft(x, dims, tws, t + 1, a)
  {
    hide Prod, Dft, Flat, DimProd, Get;
    var d, rest, b := dims[t], Rotate(dims, t)[1..], Rotate(a, t)[1..];
    RotateNext(dims, t);
    RotateNext(a, t);
    FlatLast(rest, b, d, a[t]);
    var i := Flat(rest, b);
    RestIndex(dims, a, t);
    FlatBound(rest, b);
    Index(a[t], i, DimProd(rest), d);
    var y := (j: nat) => AxisDft(x, dims, tws, t, a[t := j]);
    forall j: nat | j < d
      ensures At(was, i, DimProd(rest))(j) == y(j)
    {
      ColumnAt(dims, a, t, j);
      assert IsIndex(dims, a[t := j]);
    }
    DftExt(At(was, i, DimProd(rest)), y, tws[t], 1, d, a[t]);
  }

  lemma RestIndex(dims: seq<nat>, a: seq<nat>, t: nat)
    requires IsIndex(dims, a) && t < |dims|
    ensures IsIndex(Rotate(dims, t)[1..], Rotate(a, t)[1..])
  {}

  /** Element j of the column through a. */
  lemma ColumnAt(dims: seq<nat>, a: seq<nat>, t: nat, j: nat)
    requires |a| == |dims| && t < |dims|
    ensures var rest, b := Rotate(dims, t)[1..], Rotate(a, t)[1..];
      Flat(Rotate(dims, t), Rotate(a[t := j], t)) == Flat(rest, b) + Prod(j, DimProd(rest))
  {
    hide Prod, DimProd;
    RotateNext(dims, t);
    RotateNext(a[t := j], t);
    assert Rotate(a[t := j], t)[1..] == Rotate(a, t)[1..];
  }

  /** One more column written. */
  lemma PassStep(was: seq<Cpx>, a: seq<Cpx>, b: seq<Cpx>, d: nat, stride: nat, tw: seq<Cpx>, i: nat)
    requires |tw| >= 1 && d >= 1 && Prod(i, d) + d <= |a| && PassDone(was, a, d, stride, tw, i)
    requires b == K.Written(a, Prod(i, d), d, At(was, i, stride), tw, 1)
    ensures PassDone(was, b, d, stride, tw, i + 1)
  {
    hide Prod, Dft, At;
    ProdSucc(i, d);
    forall t | 0 <= t < Prod(i + 1, d)
      ensures Get(b, t) == Dft(At(was, t / d, stride), tw, 1, d, t % d)
    {
      if t >= Prod(i, d) {
        ModUnique(t, i, t - Prod(i, d), d);
      } else {
        assert Get(b, t) == Get(a, t);
      }
    }
  }

  /** The inner loop of kiss_fftnd. */
  method Pass(st: K.Cfg, bufin: array<Cpx>, bufout: array<Cpx>, curdim: nat, stride: nat)
    requires K.Valid(st) && st.nfft == curdim && bufin != bufout
    requires Prod(curdim, stride) <= bufin.Length && Prod(curdim, stride) <= bufout.Length
    modifies bufout
    ensures PassDone(bufin[..], bufout[..], curdim, stride, st.twiddles, stride)
  {
    hide Prod, Dft, At, K.Valid, K.Written, PassDone;
    ghost var was := bufin[..];
    PassStart(was, bufout[..], curdim, stride, st.twiddles);
    for i := 0 to stride
      invariant PassDone(was, bufout[..], curdim, stride, st.twiddles, i)
    {
      ghost var a := bufout[..];
      ColumnBounds(i, curdim, stride);
      K.KissFftStride(st, bufin, i, bufout, Prod(i, curdim), stride);
      PassStep(was, a, bufout[..], curdim, stride, st.twiddles, i);
    }
  }

  lemma PassStart(was: seq<Cpx>, a: seq<Cpx>, d: nat, stride: nat, tw: seq<Cpx>)
    requires |tw| >= 1 && d >= 1
    ensures PassDone(was, a, d, stride, tw, 0)
  {
    ProdSmall(d);
  }

  lemma ColumnBounds(i: nat, d: nat, stride: nat)
    requires i < stride && d >= 1
    ensures i + Prod(d - 1, stride) < Prod(d, stride) && Prod(i, d) + d <= Prod(d, stride)
  {
    hide Prod;
    ProdSucc(d - 1, stride);
    ProdMono(i + 1, stride, d);
    ProdSucc(i, d);
    ProdComm(d, stride);
  }

  /** struct kiss_fftnd_state */
  class NdState {
    const dims: seq<nat>
    const states: seq<K.Cfg>
    const dimprod: nat
    const tmpbuf: array<Cpx>

    ghost predicate Valid() {
      && |states| == |dims| && dimprod == DimProd(dims) && tmpbuf.Length == dimprod
      && forall i :: 0 <= i < |dims| ==> K.Valid(states[i]) && states[i].nfft == dims[i]
    }

    ghost function Tables(): (tws: seq<seq<Cpx>>)
      requires Valid()
      ensures |tws| == |dims| && forall i :: 0 <= i < |tws| ==> tws[i] == states[i].twiddles && |tws[i]| >= 1
    {
      seq(|dims|, i requires 0 <= i < |dims| => states[i].twiddles)
    }

    constructor (dims: seq<nat>, states: seq<K.Cfg>)
      requires |states| == |dims| && forall i :: 0 <= i < |dims| ==> K.Valid(states[i]) && states[i].nfft == dims[i]
      ensures Valid() && this.dims == dims && this.states == states && fresh(tmpbuf)
    {
      this.dims, this.states := dims, states;
      dimprod := DimProd(dims);
      tmpbuf := new Cpx[DimProd(dims)](i => ZERO);
    }

    /** kiss_fftnd: the transform along every axis, axes in their original order, in fout. */
    method KissFftnd(fin: array<Cpx>, fout: array<Cpx>)
      requires Valid() && fin != tmpbuf && fout != tmpbuf && fin.Length >= dimprod && fout.Length >= dimprod
      modifies fout, tmpbuf
      ensures dims != [] ==> forall a: seq<nat> :: IsIndex(dims, a) ==>
        Get(fout[..], Flat(dims, a)) == AxisDft(old(fin[..]), dims, Tables(), |dims|, a)
      ensures dims == [] ==> fout[..] == old(fout[..])
    {
      hide K.Valid, Holds, DimProd, Prod, AxisDft, Flat;
      ghost var x, tws := fin[..], Tables();
      var bufin, bufout := fin, fout;
      HoldsStart(x, dims, tws, x);
      if |dims| % 2 == 1 {
        bufout := fout;
        if fin == fout {
          forall i | 0 <= i < dimprod { tmpbuf[i] := fin[i]; }
          bufin := tmpbuf;
          HoldsCopy(x, dims, tws, tmpbuf[..]);
        }
      } else {
        bufout := tmpbuf;
      }
      for k := 0 to |dims|
        invariant bufin != bufout && bufin in {fin, fout, tmpbuf} && bufout in {fout, tmpbuf}
        invariant k < |dims| ==> (bufout == fout <==> (|dims| - k) % 2 == 1)
        invariant k == |dims| && k > 0 ==> bufin == fout
        invariant k == 0 && |dims| == 0 ==> fout[..] == old(fout[..])
        invariant Holds(x, dims, tws, k, bufin[..])
      {
        var curdim := dims[k];
        var stride := dimprod / curdim;
        PassSize(dims, k);
        ghost var was := bufin[..];
        Pass(states[k], bufin, bufout, curdim, stride);
        PassHolds(x, dims, tws, k, was, bufout[..]);
        if bufout == tmpbuf {
          bufout, bufin := fout, tmpbuf;
        } else {
          bufout, bufin := tmpbuf, fout;
        }
      }
      HoldsEnd(x, dims, tws, bufin[..]);
    }
  }

  lemma HoldsStart(x: seq<Cpx>, dims: seq<nat>, tws: seq<seq<Cpx>>, buf: seq<Cpx>)
    requires |dims| == |tws| && (forall i :: 0 <= i < |tws| ==> |tws[i]| >= 1)
    requires forall i :: 0 <= i < DimProd(dims) ==> Get(buf, i) == Get(x, i)
    ensures Holds(x, dims, tws, 0, buf)
  {
    forall a: seq<nat> | IsIndex(dims, a)
      ensures Get(buf, Flat(Rotate(dims, 0), Rotate(a, 0))) == AxisDft(x, dims, tws, 0, a)
    {
      assert Rotate(dims, 0) == dims && Rotate(a, 0) == a;
      FlatBound(dims, a);
    }
  }

  lemma HoldsCopy(x: seq<Cpx>, dims: seq<nat>, tws: seq<seq<Cpx>>, buf: seq<Cpx>)
    requires |dims| == |tws| && (forall i :: 0 <= i < |tws| ==> |tws[i]| >= 1)
    requires |buf| == DimProd(dims) <= |x| && buf == x[..DimProd(dims)]
    ensures Holds(x, dims, tws, 0, buf)
  {
    HoldsStart(x, dims, tws, buf);
  }

  lemma HoldsEnd(x: seq<Cpx>, dims: seq<nat>, tws: seq<seq<Cpx>>, buf: seq<Cpx>)
    requires |dims| == |tws| && (forall i :: 0 <= i < |tws| ==> |tws[i]| >= 1) && Holds(x, dims, tws, |dims|, buf)
    ensures forall a: seq<nat> :: IsIndex(dims, a) ==> Get(buf, Flat(dims, a)) == AxisDft(x, dims, tws, |dims|, a)
  {
    hide AxisDft, Flat;
    forall a: seq<nat> | IsIndex(dims, a)
      ensures Get(buf, Flat(dims, a)) == AxisDft(x, dims, tws, |dims|, a)
    {
      assert Rotate(dims, |dims|) == dims && Rotate(a, |dims|) == a;
    }
  }

  /** The rows of a pass: all the other axes. */
  lemma PassSize(dims: seq<nat>, t: nat)
    requires t < |dims| && Positive(dims)
    ensures DimProd(dims) / dims[t] == DimProd(Rotate(dims, t)[1..])
    ensures Prod(dims[t], DimProd(Rotate(dims, t)[1..])) == DimProd(dims)
  {
    hide Prod;
    DimProdRotate(dims, t);
    RotateNext(dims, t);
    var rest := DimProd(Rotate(dims, t)[1..]);
    ProdComm(dims[t], rest);
    ModUnique(DimProd(dims), rest, 0, dims[t]);
  }
}
