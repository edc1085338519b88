/** The butterflies of kiss_fft.c. Each walks the columns of p rows of length m and overwrites them in place;
    each is proved to leave the same array, whatever its radix: one stage of the transform. */
module Butterflies {
  import opened Arith
  import opened Complex
  import opened Twiddles
  import opened Stage
  import opened Roots

  /** Row q of column u, in an array where column u has not been reached. */
  lemma ColumnGet(a0: seq<Cpx>, a: seq<Cpx>, off: nat, tw: seq<Cpx>, s: int, p: nat, m: nat, u: nat, q: nat)
    requires |tw| >= 1 && u < m && q < p && off + Prod(p, m) <= |a0|
    requires Progress(a0, a, off, tw, s, p, m, u)
    ensures 0 <= off + u + Prod(q, m) < |a| == |a0|
    ensures a[off + u + Prod(q, m)] == Get(a0, off + u + Prod(q, m))
  {
    hide Radix, Prod;
    ColumnRead(a0, a, off, tw, s, p, m, u, q);
  }

  /** The table entry that twiddles row q of column u. */
  lemma TwiddleIndex(tw: seq<Cpx>, p: nat, m: nat, s: nat, u: nat, q: nat)
    requires |tw| >= 1 && |tw| == Prod3(p, m, s) && u < m && q < p
    ensures 0 <= Prod3(q, u, s) < |tw| && W(tw, Prod3(q, u, s)) == tw[Prod3(q, u, s)]
    ensures Prod3(q, u, s) == Prod(q, Prod(u, s))
  {
    hide Prod, Prod3, W;
    ProdAssoc(p, m, s);
    ProdAssoc(q, u, s);
    ProdSmall(Prod(p, m));
    IndexBound(q, u, p, m, s);
    WIndex(tw, Prod3(q, u, s));
  }

  /** Rows of the column get the outputs of the stage. */
  lemma Step2(a0: seq<Cpx>, a: seq<Cpx>, b: seq<Cpx>, off: nat, tw: seq<Cpx>, s: int, m: nat, u: nat)
    requires |tw| >= 1 && u < m && off + 2 * m <= |a0| == |a| && Progress(a0, a, off, tw, s, 2, m, u)
    requires var o := Outputs(a0, off, tw, s, 2, m, u); b == a[off + u := o(0)][off + u + m := o(1)]
    ensures Progress(a0, b, off, tw, s, 2, m, u + 1)
  {
    hide Prod, Outputs, Progress;
    ProdSmall(m);
    Rows(b, off + u, m);
    Index(u, 0, 2, m);
    Index(u, 1, 2, m);
    ColumnDone(a0, a, b, off, tw, s, 2, m, u);
  }

  lemma Step3(a0: seq<Cpx>, a: seq<Cpx>, b: seq<Cpx>, off: nat, tw: seq<Cpx>, s: int, m: nat, u: nat)
    requires |tw| >= 1 && u < m && off + 3 * m <= |a0| == |a| && Progress(a0, a, off, tw, s, 3, m, u)
    requires var o := Outputs(a0, off, tw, s, 3, m, u); b == a[off + u := o(0)][off + u + m := o(1)][off + u + 2 * m := o(2)]
    ensures Progress(a0, b, off, tw, s, 3, m, u + 1)
  {
    hide Prod, Outputs, Progress;
    ProdSmall(m);
    Rows(b, off + u, m);
    Index(u, 0, 3, m);
    Index(u, 1, 3, m);
    Index(u, 2, 3, m);
    ColumnDone(a0, a, b, off, tw, s, 3, m, u);
  }

  lemma Step4(a0: seq<Cpx>, a: seq<Cpx>, b: seq<Cpx>, off: nat, tw: seq<Cpx>, s: int, m: nat, u: nat)
    requires |tw| >= 1 && u < m && off + 4 * m <= |a0| == |a| && Progress(a0, a, off, tw, s, 4, m, u)
    requires var o := Outputs(a0, off, tw, s, 4, m, u);
      b == a[off + u := o(0)][off + u + m := o(1)][off + u + 2 * m := o(2)][off + u + 3 * m := o(3)]
    ensures Progress(a0, b, off, tw, s, 4, m, u + 1)
  {
    hide Prod, Outputs, Progress;
    ProdSmall(m);
    Rows(b, off + u, m);
    Index(u, 0, 4, m);
    Index(u, 1, 4, m);
    Index(u, 2, 4, m);
    Index(u, 3, 4, m);
    ColumnDone(a0, a, b, off, tw, s, 4, m, u);
  }

  lemma Step5(a0: seq<Cpx>, a: seq<Cpx>, b: seq<Cpx>, off: nat, tw: seq<Cpx>, s: int, m: nat, u: nat)
    requires |tw| >= 1 && u < m && off + 5 * m <= |a0| == |a| && Progress(a0, a, off, tw, s, 5, m, u)
    requires var o := Outputs(a0, off, tw, s, 5, m, u);
      b == a[off + u := o(0)][off + u + m := o(1)][off + u + 2 * m := o(2)][off + u + 3 * m := o(3)][off + u + 4 * m := o(4)]
    ensures Progress(a0, b, off, tw, s, 5, m, u + 1)
  {
    hide Prod, Outputs, Progress;
    ProdSmall(m);
    Rows(b, off + u, m);
    Index(u, 0, 5, m);
    Index(u, 1, 5, m);
    Index(u, 2, 5, m);
    Index(u, 3, 5, m);
    Index(u, 4, 5, m);
    ColumnDone(a0, a, b, off, tw, s, 5, m, u);
  }

  method Bfly2(Fout: array<Cpx>, off: nat, fstride: nat, tw: seq<Cpx>, m: nat)
    requires m >= 1 && off + 2 * m <= Fout.Length
    requires IsTwiddleTable(tw) && |tw| == Prod3(2, m, fstride)
    modifies Fout
    ensures Fout[..] == Combine(old(Fout[..]), off, tw, fstride, 2, m)
  {
    hide Prod, Prod3, Mul, W, Progress, Outputs, Combine;
    ghost var a0 := Fout[..];
    ProdSmall(m);
    ProdSmall(fstride);
    ProgressStart(a0, off, tw, fstride, 2, m);
    var tw1 := 0;
    for u := 0 to m
      invariant tw1 == Prod(u, fstride)
      invariant Progress(a0, Fout[..], off, tw, fstride, 2, m, u)
    {
      ghost var a := Fout[..];
      ColumnGet(a0, a, off, tw, fstride, 2, m, u, 0);
      ColumnGet(a0, a, off, tw, fstride, 2, m, u, 1);
      Rows(a0, off + u, m);
      TwiddleIndex(tw, 2, m, fstride, u, 1);
      ProdSmall(tw1);
      var t := Mul(Fout[off + u + m], tw[tw1]);
      Radix2(a0, off, tw, fstride, m, u);
      Fout[off + u + m] := Sub(Fout[off + u], t);
      Fout[off + u] := Add(Fout[off + u], t);
      ProdSucc(u, fstride);
      tw1 := tw1 + fstride;
      Step2(a0, a, Fout[..], off, tw, fstride, m, u);
    }
    AllColumns(a0, Fout[..], off, tw, fstride, 2, m);
  }

  method Bfly4(Fout: array<Cpx>, off: nat, fstride: nat, tw: seq<Cpx>, inverse: bool, m: nat)
    requires m >= 1 && off + 4 * m <= Fout.Length
    requires IsTwiddleTable(tw) && HasDirection(tw, inverse) && |tw| == Prod3(4, m, fstride)
    modifies Fout
    ensures Fout[..] == Combine(old(Fout[..]), off, tw, fstride, 4, m)
  {
    hide Prod, Prod3, Mul, W, Progress, Outputs, Combine, HasDirection, IsTwiddleTable, Add, Sub, Scratch;
    ghost var a0 := Fout[..];
    ProdSmall(m);
    ProdSmall(fstride);
    ProgressStart(a0, off, tw, fstride, 4, m);
    var tw1, tw2, tw3 := 0, 0, 0;
    for u := 0 to m
      invariant tw1 == Prod(u, fstride) && tw2 == 2 * tw1 && tw3 == 3 * tw1
      invariant Progress(a0, Fout[..], off, tw, fstride, 4, m, u)
    {
      ghost var a := Fout[..];
      Column4(a0, a, off, tw, fstride, m, u);
      var scratch0 := Mul(Fout[off + u + m], tw[tw1]);
      var scratch1 := Mul(Fout[off + u + 2 * m], tw[tw2]);
      var scratch2 := Mul(Fout[off + u + 3 * m], tw[tw3]);
      Radix4(a0, off, tw, inverse, fstride, m, u);

      var scratch5 := Sub(Fout[off + u], scratch1);
      Fout[off + u] := Add(Fout[off + u], scratch1);
      var scratch3 := Add(scratch0, scratch2);
      var scratch4 := Sub(scratch0, scratch2);
      Fout[off + u + 2 * m] := Sub(Fout[off + u], scratch3);
      ProdSucc(u, fstride);
      tw1 := tw1 + fstride;
      tw2 := tw2 + fstride * 2;
      tw3 := tw3 + fstride * 3;
      Fout[off + u] := Add(Fout[off + u], scratch3);
      if inverse {
        Fout[off + u + m] := Cpx(scratch5.r - scratch4.i, scratch5.i + scratch4.r);
        Fout[off + u + 3 * m] := Cpx(scratch5.r + scratch4.i, scratch5.i - scratch4.r);
      } else {
        Fout[off + u + m] := Cpx(scratch5.r + scratch4.i, scratch5.i - scratch4.r);
        Fout[off + u + 3 * m] := Cpx(scratch5.r - scratch4.i, scratch5.i + scratch4.r);
      }
      Step4(a0, a, Fout[..], off, tw, fstride, m, u);
    }
    AllColumns(a0, Fout[..], off, tw, fstride, 4, m);
  }

  /** The twiddled rows of a column, as the loops read them. */
  lemma Column3(a0: seq<Cpx>, a: seq<Cpx>, off: nat, tw: seq<Cpx>, s: nat, m: nat, u: nat)
    requires |tw| >= 1 && u < m && off + 3 * m <= |a0| && |tw| == Prod3(3, m, s)
    requires Progress(a0, a, off, tw, s, 3, m, u)
    ensures |a| == |a0| && 0 <= Prod(u, s) <= 2 * Prod(u, s) < |tw|
    ensures a[off + u] == Get(a0, off + u)
    ensures Mul(a[off + u + m], tw[Prod(u, s)]) == Scratch(a0, off, tw, s, m, u, 1)
    ensures Mul(a[off + u + 2 * m], tw[2 * Prod(u, s)]) == Scratch(a0, off, tw, s, m, u, 2)
  {
    hide Prod, Prod3, Mul, W, Progress;
    ProdSmall(m);
    ProdSmall(Prod(u, s));
    Rows(a0, off + u, m);
    ColumnGet(a0, a, off, tw, s, 3, m, u, 0);
    ColumnGet(a0, a, off, tw, s, 3, m, u, 1);
    ColumnGet(a0, a, off, tw, s, 3, m, u, 2);
    TwiddleIndex(tw, 3, m, s, u, 1);
    TwiddleIndex(tw, 3, m, s, u, 2);
  }

  lemma Column4(a0: seq<Cpx>, a: seq<Cpx>, off: nat, tw: seq<Cpx>, s: nat, m: nat, u: nat)
    requires |tw| >= 1 && u < m && off + 4 * m <= |a0| && |tw| == Prod3(4, m, s)
    requires Progress(a0, a, off, tw, s, 4, m, u)
    ensures |a| == |a0| && 0 <= Prod(u, s) <= 3 * Prod(u, s) < |tw|
    ensures a[off + u] == Get(a0, off + u)
    ensures Mul(a[off + u + m], tw[Prod(u, s)]) == Scratch(a0, off, tw, s, m, u, 1)
    ensures Mul(a[off + u + 2 * m], tw[2 * Prod(u, s)]) == Scratch(a0, off, tw, s, m, u, 2)
    ensures Mul(a[off + u + 3 * m], tw[3 * Prod(u, s)]) == Scratch(a0, off, tw, s, m, u, 3)
  {
    hide Prod, Prod3, Mul, W, Progress;
    ProdSmall(m);
    ProdSmall(Prod(u, s));
    Rows(a0, off + u, m);
    ColumnGet(a0, a, off, tw, s, 4, m, u, 0);
    ColumnGet(a0, a, off, tw, s, 4, m, u, 1);
    ColumnGet(a0, a, off, tw, s, 4, m, u, 2);
    ColumnGet(a0, a, off, tw, s, 4, m, u, 3);
    TwiddleIndex(tw, 4, m, s, u, 1);
    TwiddleIndex(tw, 4, m, s, u, 2);
    TwiddleIndex(tw, 4, m, s, u, 3);
  }

  lemma Column5(a0: seq<Cpx>, a: seq<Cpx>, off: nat, tw: seq<Cpx>, s: nat, m: nat, u: nat)
    requires |tw| >= 1 && u < m && off + 5 * m <= |a0| && |tw| == Prod3(5, m, s)
    requires Progress(a0, a, off, tw, s, 5, m, u)
    ensures |a| == |a0| && 0 <= Prod(u, s) <= 4 * Prod(u, s) < |tw|
    ensures a[off + u] == Get(a0, off + u)
    ensures Mul(a[off + u + m], tw[Prod(u, s)]) == Scratch(a0, off, tw, s, m, u, 1)
    ensures Mul(a[off + u + 2 * m], tw[2 * Prod(u, s)]) == Scratch(a0, off, tw, s, m, u, 2)
    ensures Mul(a[off + u + 3 * m], tw[3 * Prod(u, s)]) == Scratch(a0, off, tw, s, m, u, 3)
    ensures Mul(a[off + u + 4 * m], tw[4 * Prod(u, s)]) == Scratch(a0, off, tw, s, m, u, 4)
  {
    hide Prod, Prod3, Mul, W, Progress;
    ProdSmall(m);
    ProdSmall(Prod(u, s));
    Rows(a0, off + u, m);
    ColumnGet(a0, a, off, tw, s, 5, m, u, 0);
    ColumnGet(a0, a, off, tw, s, 5, m, u, 1);
    ColumnGet(a0, a, off, tw, s, 5, m, u, 2);
    ColumnGet(a0, a, off, tw, s, 5, m, u, 3);
    ColumnGet(a0, a, off, tw, s, 5, m, u, 4);
    TwiddleIndex(tw, 5, m, s, u, 1);
    TwiddleIndex(tw, 5, m, s, u, 2);
    TwiddleIndex(tw, 5, m, s, u, 3);
    TwiddleIndex(tw, 5, m, s, u, 4);
  }

  method Bfly3(Fout: array<Cpx>, off: nat, fstride: nat, tw: seq<Cpx>, m: nat)
    requires m >= 1 && off + 3 * m <= Fout.Length
    requires IsTwiddleTable(tw) && |tw| == Prod3(3, m, fstride)
    modifies Fout
    ensures Fout[..] == Combine(old(Fout[..]), off, tw, fstride, 3, m)
  {
    hide Prod, Prod3, Mul, SMul, W, Progress, Outputs, Combine, IsTwiddleTable;
    ghost var a0 := Fout[..];
    ProdSmall(m);
    ProdSmall(fstride);
    ProgressStart(a0, off, tw, fstride, 3, m);
    RootIndex(tw, 3, m, fstride, 1);
    ProdSmall(Prod(fstride, m));
    var epi3 := tw[Prod(fstride, m)];
    var tw1, tw2 := 0, 0;
    for u := 0 to m
      invariant tw1 == Prod(u, fstride) && tw2 == 2 * tw1
      invariant Progress(a0, Fout[..], off, tw, fstride, 3, m, u)
    {
      ghost var a := Fout[..];
      Column3(a0, a, off, tw, fstride, m, u);
      var scratch1 := Mul(Fout[off + u + m], tw[tw1]);
      var scratch2 := Mul(Fout[off + u + 2 * m], tw[tw2]);
      Radix3(a0, off, tw, fstride, m, u);

      var scratch3 := Add(scratch1, scratch2);
      var scratch0 := Sub(scratch1, scratch2);
      ProdSucc(u, fstride);
      tw1 := tw1 + fstride;
      tw2 := tw2 + fstride * 2;
      Fout[off + u + m] := Cpx(Fout[off + u].r - scratch3.r / 2.0, Fout[off + u].i - scratch3.i / 2.0);
      scratch0 := Scale(scratch0, epi3.i);
      Fout[off + u] := Add(Fout[off + u], scratch3);
      Fout[off + u + 2 * m] := Cpx(Fout[off + u + m].r + scratch0.i, Fout[off + u + m].i - scratch0.r);
      Fout[off + u + m] := Cpx(Fout[off + u + m].r - scratch0.i, Fout[off + u + m].i + scratch0.r);
      Step3(a0, a, Fout[..], off, tw, fstride, m, u);
    }
    AllColumns(a0, Fout[..], off, tw, fstride, 3, m);
  }

  /** The table entries that hold the p-th roots of unity. */
  lemma RootIndex(tw: seq<Cpx>, p: nat, m: nat, s: nat, e: nat)
    requires |tw| >= 1 && |tw| == Prod3(p, m, s) && m >= 1 && e < p
    ensures 0 <= Prod(e, Prod(s, m)) < |tw| && tw[Prod(e, Prod(s, m))] == Root(tw, Prod(m, s), e)
  {
    hide Prod, Prod3, W;
    ProdAssoc(p, m, s);
    ProdComm(s, m);
    ProdSmall(p);
    ProdSmall(Prod(m, s));
    ProdMono(e, p - 1, Prod(m, s));
    ProdSucc(p - 1, Prod(m, s));
    WIndex(tw, Prod(e, Prod(m, s)));
  }

  method Bfly5(Fout: array<Cpx>, off: nat, fstride: nat, tw: seq<Cpx>, m: nat)
    requires m >= 1 && off + 5 * m <= Fout.Length
    requires IsTwiddleTable(tw) && |tw| == Prod3(5, m, fstride)
    modifies Fout
    ensures Fout[..] == Combine(old(Fout[..]), off, tw, fstride, 5, m)
  {
    hide Prod, Prod3, Mul, SMul, W, Progress, Outputs, Combine, IsTwiddleTable, Scratch, Root;
    ghost var a0 := Fout[..];
    ProdSmall(m);
    ProgressStart(a0, off, tw, fstride, 5, m);
    RootIndex(tw, 5, m, fstride, 1);
    RootIndex(tw, 5, m, fstride, 2);
    ProdSmall(Prod(fstride, m));
    var ya, yb := tw[Prod(fstride, m)], tw[2 * Prod(fstride, m)];
    for u := 0 to m
      invariant Progress(a0, Fout[..], off, tw, fstride, 5, m, u)
    {
      ghost var a := Fout[..];
      Column5(a0, a, off, tw, fstride, m, u);
      var us := Prod(u, fstride);
      var scratch0 := Fout[off + u];
      var scratch1 := Mul(Fout[off + u + m], tw[us]);
      var scratch2 := Mul(Fout[off + u + 2 * m], tw[2 * us]);
      var scratch3 := Mul(Fout[off + u + 3 * m], tw[3 * us]);
      var scratch4 := Mul(Fout[off + u + 4 * m], tw[4 * us]);
      Radix5(a0, off, tw, fstride, m, u);

      var scratch7, scratch10 := Add(scratch1, scratch4), Sub(scratch1, scratch4);
      var scratch8, scratch9 := Add(scratch2, scratch3), Sub(scratch2, scratch3);
      Fout[off + u] := Cpx(Fout[off + u].r + (scratch7.r + scratch8.r), Fout[off + u].i + (scratch7.i + scratch8.i));
      var scratch5 := Cpx(scratch0.r + SMul(scratch7.r, ya.r) + SMul(scratch8.r, yb.r),
                          scratch0.i + SMul(scratch7.i, ya.r) + SMul(scratch8.i, yb.r));
      var scratch6 := Cpx(SMul(scratch10.i, ya.i) + SMul(scratch9.i, yb.i),
                          -SMul(scratch10.r, ya.i) - SMul(scratch9.r, yb.i));
      Fout[off + u + m] := Sub(scratch5, scratch6);
      Fout[off + u + 4 * m] := Add(scratch5, scratch6);
      var scratch11 := Cpx(scratch0.r + SMul(scratch7.r, yb.r) + SMul(scratch8.r, ya.r),
                           scratch0.i + SMul(scratch7.i, yb.r) + SMul(scratch8.i, ya.r));
      var scratch12 := Cpx(-SMul(scratch10.i, yb.i) + SMul(scratch9.i, ya.i),
                           SMul(scratch10.r, yb.i) - SMul(scratch9.r, ya.i));
      Fout[off + u + 2 * m] := Add(scratch11, scratch12);
      Fout[off + u + 3 * m] := Sub(scratch11, scratch12);
      SMulNeg(scratch9.i, ya.i);
      SMulNeg(scratch9.r, ya.i);
      Step5(a0, a, Fout[..], off, tw, fstride, m, u);
    }
    AllColumns(a0, Fout[..], off, tw, fstride, 5, m);
  }

  /** Stepping the table index by fstride * k with one conditional subtraction keeps it reduced. */
  lemma IndexStep(q: nat, k: nat, p: nat, m: nat, s: nat, n: nat)
    requires n >= 1 && n == Prod3(p, m, s) && k < Prod(p, m)
    ensures Prod(s, k) < n
    ensures var sum := Prod3(q, k, s) % n + Prod(s, k);
      Prod3(q + 1, k, s) % n == if sum >= n then sum - n else sum
  {
    hide Prod, Prod3;
    ProdAssoc(q, k, s);
    ProdAssoc(q + 1, k, s);
    ProdAssoc(p, m, s);
    ProdComm(s, k);
    ProdMono(k + 1, Prod(p, m), s);
    ProdSucc(k, s);
    if s == 0 { ProdSmall(Prod(p, m)); }
    ProdSucc(q, Prod(k, s));
    var x, y := Prod3(q, k, s), Prod(k, s);
    ModAdd(x, y, n);
    ProdSmall(n);
    ModUnique(y, 0, y, n);
    var sum := x % n + y;
    ModUnique(sum, if sum >= n then 1 else 0, if sum >= n then sum - n else sum, n);
  }

  lemma FirstTerm(a: seq<Cpx>, off: int, tw: seq<Cpx>, s: int, m: int, u: int, k: int)
    requires IsTwiddleTable(tw)
    ensures Sum(StageTerm(a, off, tw, s, m, u, k), 1) == At(a, off + u, m)(0)
    ensures Prod3(0, k, s) == 0
  {
    hide W, Mul, Prod, Prod3, At;
    ProdAssoc(0, k, s);
    ProdSmall(k);
    ProdSmall(s);
    WZero(tw);
    MulOne(At(a, off + u, m)(0));
    var f := StageTerm(a, off, tw, s, m, u, k);
    assert Sum(f, 1) == Add(Sum(f, 0), f(0)) == f(0);
  }

  lemma NextTerm(a: seq<Cpx>, off: int, tw: seq<Cpx>, s: int, m: int, u: int, k: int, q: nat, twidx: int)
    requires |tw| >= 1 && twidx == Prod3(q, k, s) % |tw|
    ensures var f := StageTerm(a, off, tw, s, m, u, k);
      Sum(f, q + 1) == Add(Sum(f, q), Mul(At(a, off + u, m)(q), tw[twidx]))
  {
    hide Mul, Prod, Prod3, At;
  }

  /** Writing row q1 of a column does not disturb the rows above it. */
  lemma RowWritten(b: seq<Cpx>, c: seq<Cpx>, off: nat, u: nat, p: nat, m: nat, q1: nat, v: Cpx)
    requires u < m && q1 < p && off + Prod(p, m) <= |b|
    requires 0 <= off + u + Prod(q1, m) < |b| && c == b[off + u + Prod(q1, m) := v]
    ensures var f, g := At(c, off + u, m), At(b, off + u, m); forall q: nat :: q < q1 ==> f(q) == g(q)
    ensures At(c, off + u, m)(q1) == v
    ensures InRange(off + u + Prod(q1, m), off, p, m) && (u + Prod(q1, m)) % m == u
  {
    hide Prod;
    Index(u, q1, p, m);
    var f, g := At(c, off + u, m), At(b, off + u, m);
    forall q: nat | q < q1
      ensures f(q) == g(q)
    {
      Index(u, q, p, m);
    }
  }

  lemma RadixOf(a: seq<Cpx>, off: int, tw: seq<Cpx>, s: int, p: nat, m: int, u: int, q1: nat)
    requires |tw| >= 1 && 0 <= u < m && q1 < p
    ensures Outputs(a, off, tw, s, p, m, u)(q1) == Sum(StageTerm(a, off, tw, s, m, u, u + Prod(q1, m)), p)
  {
    hide Prod, StageTerm, Sum;
    Index(u, q1, p, m);
  }

  /** Output q1 of column u, accumulated in its place. */
  method GenericOutput(Fout: array<Cpx>, off: nat, fstride: nat, tw: seq<Cpx>, m: nat, p: nat, u: nat, q1: nat, k: nat,
                       scratch: array<Cpx>, ghost a0: seq<Cpx>)
    requires u < m && q1 < p && off + Prod(p, m) <= Fout.Length == |a0| && scratch.Length == p && Fout != scratch
    requires IsTwiddleTable(tw) && |tw| == Prod3(p, m, fstride) && k == u + Prod(q1, m)
    requires forall q: nat :: q < p ==> scratch[q] == At(a0, off + u, m)(q)
    modifies Fout
    ensures off + k < Fout.Length
    ensures Fout[..] == old(Fout[..])[off + k := Outputs(a0, off, tw, fstride, p, m, u)(q1)]
  {
    hide Prod, Prod3, Mul, W, IsTwiddleTable, StageTerm, At, Sum, Outputs, Add;
    Index(u, q1, p, m);
    FirstTerm(a0, off, tw, fstride, m, u, k);
    ghost var b := Fout[..];
    var twidx := 0;
    Fout[off + k] := scratch[0];
    for q := 1 to p
      invariant scratch[..] == old(scratch[..])
      invariant 0 <= twidx == Prod3(q - 1, k, fstride) % |tw|
      invariant Fout[..] == b[off + k := Sum(StageTerm(a0, off, tw, fstride, m, u, k), q)]
    {
      IndexStep(q - 1, k, p, m, fstride, |tw|);
      twidx := twidx + Prod(fstride, k);
      if twidx >= |tw| {
        twidx := twidx - |tw|;
      }
      NextTerm(a0, off, tw, fstride, m, u, k, q, twidx);
      var t := Mul(scratch[q], tw[twidx]);
      Fout[off + k] := Add(Fout[off + k], t);
    }
    RadixOf(a0, off, tw, fstride, p, m, u, q1);
  }

  method BflyGeneric(Fout: array<Cpx>, off: nat, fstride: nat, tw: seq<Cpx>, m: nat, p: nat)
    requires m >= 1 && p >= 1 && off + Prod(p, m) <= Fout.Length
    requires IsTwiddleTable(tw) && |tw| == Prod3(p, m, fstride)
    modifies Fout
    ensures Fout[..] == Combine(old(Fout[..]), off, tw, fstride, p, m)
  {
    hide Prod, Prod3, W, Progress, Outputs, Combine, IsTwiddleTable, At;
    ghost var a0 := Fout[..];
    ProgressStart(a0, off, tw, fstride, p, m);
    ProdSmall(m);
    var scratch := new Cpx[p](i => ZERO);
    for u := 0 to m
      invariant Progress(a0, Fout[..], off, tw, fstride, p, m, u)
    {
      ghost var a := Fout[..];
      var k := u;
      for q1 := 0 to p
        invariant k == u + Prod(q1, m)
        invariant Fout[..] == a
        invariant forall q: nat :: q < q1 ==> scratch[q] == At(a0, off + u, m)(q)
      {
        ColumnRead(a0, a, off, tw, fstride, p, m, u, q1);
        scratch[q1] := Fout[off + k];
        ProdSucc(q1, m);
        k := k + m;
      }
      k := u;
      for q1 := 0 to p
        invariant k == u + Prod(q1, m)
        invariant forall q: nat :: q < p ==> scratch[q] == At(a0, off + u, m)(q)
        invariant forall i :: 0 <= i < |a| && !(InRange(i, off, p, m) && (i - off) % m == u) ==> Fout[..][i] == a[i]
        invariant forall q: nat :: q < q1 ==> At(Fout[..], off + u, m)(q) == Outputs(a0, off, tw, fstride, p, m, u)(q)
      {
        ghost var b := Fout[..];
        GenericOutput(Fout, off, fstride, tw, m, p, u, q1, k, scratch, a0);
        RowWritten(b, Fout[..], off, u, p, m, q1, Outputs(a0, off, tw, fstride, p, m, u)(q1));
        ProdSucc(q1, m);
        k := k + m;
      }
      ColumnDone(a0, a, Fout[..], off, tw, fstride, p, m, u);
    }
    AllColumns(a0, Fout[..], off, tw, fstride, p, m);
  }
}
