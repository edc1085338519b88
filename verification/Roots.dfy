/** The outputs of one column of a stage for the radices that kiss_fft.c unrolls: a p-point transform of the
    twiddled inputs, in the arithmetic each butterfly uses. */
module Roots {
  import opened Arith
  import opened Complex
  import opened Twiddles
  import opened Stage

  /** Input q of column u after its twiddle. */
  ghost function Scratch(a: seq<Cpx>, off: int, tw: seq<Cpx>, s: int, m: int, u: int, q: nat): Cpx
    requires |tw| >= 1
  {
    Mul(At(a, off + u, m)(q), W(tw, Prod3(q, u, s)))
  }

  /** w^e for the p-th root of unity w = W(d) */
  ghost function Root(tw: seq<Cpx>, d: int, e: int): Cpx
    requires |tw| >= 1
  {
    W(tw, Prod(e, d))
  }

  /** q -> scratch[q] * w^(q * q1) */
  ghost function RootTerm(a: seq<Cpx>, off: int, tw: seq<Cpx>, s: int, p: nat, m: int, u: int, q1: int): nat -> Cpx
    requires |tw| >= 1 && p >= 1
  {
    (q: nat) => Mul(Scratch(a, off, tw, s, m, u, q), Root(tw, Prod(m, s), Prod(q, q1) % p))
  }

  /** Powers of the p-th root of unity depend on the exponent modulo p. */
  lemma RootPower(tw: seq<Cpx>, p: nat, d: int, e: int)
    requires |tw| >= 1 && p >= 1 && |tw| == Prod(p, d)
    ensures Root(tw, d, e) == Root(tw, d, e % p)
  {
    hide Prod, W;
    DivMod(e, p);
    ProdAdd(Prod(e / p, p), e % p, d);
    ProdAssoc(e / p, p, d);
    WPeriod(tw, Prod(e % p, d), e / p);
  }

  lemma RootMul(tw: seq<Cpx>, d: int, e: int, f: int)
    requires IsTwiddleTable(tw)
    ensures Mul(Root(tw, d, e), Root(tw, d, f)) == Root(tw, d, e + f)
  {
    hide Prod, W, Mul;
    ProdAdd(e, f, d);
    WMul(tw, Prod(e, d), Prod(f, d));
  }

  lemma TermTurn(a: seq<Cpx>, off: int, tw: seq<Cpx>, s: int, p: nat, m: int, u: int, q1: int, q: nat)
    requires IsTwiddleTable(tw) && 0 <= u < m && 0 <= q1 < p && |tw| == Prod3(p, m, s)
    ensures StageTerm(a, off, tw, s, m, u, u + Prod(q1, m))(q) == RootTerm(a, off, tw, s, p, m, u, q1)(q)
  {
    hide Prod, Prod3, W, Mul, At;
    var t := u + Prod(q1, m);
    ExponentColumn(q, u, q1, m, s);
    ProdAssoc(p, m, s);
    RootPower(tw, p, Prod(m, s), Prod(q, q1));
    WMul(tw, Prod3(q, u, s), Prod(Prod(q, q1), Prod(m, s)));
    MulAssoc(At(a, off + u, m)(q), W(tw, Prod3(q, u, s)), Root(tw, Prod(m, s), Prod(q, q1)));
  }

  /** Output q1 of column u is output q1 of a p-point transform of the scratch array. */
  lemma ColumnOutput(a: seq<Cpx>, off: int, tw: seq<Cpx>, s: int, p: nat, m: int, u: int, q1: nat)
    requires IsTwiddleTable(tw) && 0 <= u < m && q1 < p && |tw| == Prod3(p, m, s)
    ensures Outputs(a, off, tw, s, p, m, u)(q1) == Sum(RootTerm(a, off, tw, s, p, m, u, q1), p)
  {
    hide Prod, Prod3, W, Mul, At, StageTerm, RootTerm;
    Index(u, q1, p, m);
    forall q: nat | q < p
      ensures StageTerm(a, off, tw, s, m, u, u + Prod(q1, m))(q) == RootTerm(a, off, tw, s, p, m, u, q1)(q)
    {
      TermTurn(a, off, tw, s, p, m, u, q1, q);
    }
    SumExt(StageTerm(a, off, tw, s, m, u, u + Prod(q1, m)), RootTerm(a, off, tw, s, p, m, u, q1), p);
  }

  lemma Scratch0(a: seq<Cpx>, off: int, tw: seq<Cpx>, s: int, m: int, u: int)
    requires IsTwiddleTable(tw)
    ensures Scratch(a, off, tw, s, m, u, 0) == Get(a, off + u)
    ensures Root(tw, Prod(m, s), 0) == ONE
  {
    hide Prod, W, Mul;
    Rows(a, off + u, m);
    ProdSmall(u);
    ProdSmall(s);
    ProdSmall(Prod(m, s));
    WZero(tw);
    MulOne(Get(a, off + u));
  }

  /** The p-th roots of unity sum to zero. */
  lemma RootsSum(tw: seq<Cpx>, p: nat, d: int)
    requires IsTwiddleTable(tw) && p >= 2 && |tw| == Prod(p, d)
    ensures Sum((e: nat) => Root(tw, d, e), p) == ZERO
  {
    hide Prod, W, Mul;
    ProdSmall(d);
    ProdSmall(p);
    ProdSmall(|tw|);
    ProdComm(d, p);
    if d <= 0 { ProdMono(d, 0, p); }
    ProdMono(2, p, d);
    ModUnique(d, 0, d, |tw|);
    ModUnique(|tw|, 1, 0, |tw|);
    RootSum(tw, d, p);
    forall e: nat | e < p
      ensures Powers(tw, d)(e) == Root(tw, d, e)
    {
      ProdComm(d, e);
    }
    SumExt(Powers(tw, d), (e: nat) => Root(tw, d, e), p);
  }

  /** Opposite p-th roots are conjugate. */
  lemma RootConj(tw: seq<Cpx>, p: nat, d: int, e: int)
    requires IsTwiddleTable(tw) && p >= 1 && |tw| == Prod(p, d)
    ensures Root(tw, d, p - e) == Conj(Root(tw, d, e))
  {
    hide Prod, W, Mul, Conj;
    ProdAdd(p, -e, d);
    ProdAdd(-e, e, d);
    ProdSmall(d);
    WConj(tw, Prod(e, d));
    ProdSmall(|tw|);
    WPeriod(tw, -Prod(e, d), 1);
  }

  // ---- radix 2 ----

  lemma Root2(tw: seq<Cpx>, d: int)
    requires IsTwiddleTable(tw) && |tw| == Prod(2, d)
    ensures Root(tw, d, 0) == ONE && Root(tw, d, 1) == Cpx(-1.0, 0.0)
  {
    hide Prod, W, Mul;
    RootsSum(tw, 2, d);
    SumUnrolled((e: nat) => Root(tw, d, e));
    ProdSmall(d);
    WZero(tw);
  }

  lemma Terms2(a: seq<Cpx>, off: int, tw: seq<Cpx>, s: int, m: int, u: int, q1: nat)
    requires IsTwiddleTable(tw) && 0 <= u < m && q1 < 2 && |tw| == Prod3(2, m, s)
    ensures Outputs(a, off, tw, s, 2, m, u)(q1)
         == Add(Mul(Get(a, off + u), ONE), Mul(Scratch(a, off, tw, s, m, u, 1), Root(tw, Prod(m, s), q1)))
  {
    hide Prod, Prod3, W, Mul, Add, Outputs, Scratch, Root;
    ColumnOutput(a, off, tw, s, 2, m, u, q1);
    SumUnrolled(RootTerm(a, off, tw, s, 2, m, u, q1));
    Scratch0(a, off, tw, s, m, u);
    ProdSmall(q1);
  }

  /** What kf_bfly2 stores in the two rows of column u. */
  lemma Radix2(a: seq<Cpx>, off: int, tw: seq<Cpx>, s: int, m: int, u: int)
    requires IsTwiddleTable(tw) && 0 <= u < m && |tw| == Prod3(2, m, s)
    ensures var x, t := Get(a, off + u), Scratch(a, off, tw, s, m, u, 1);
      && Outputs(a, off, tw, s, 2, m, u)(0) == Add(x, t)
      && Outputs(a, off, tw, s, 2, m, u)(1) == Sub(x, t)
  {
    hide Prod, Prod3, W, Outputs, Scratch, Root;
    Terms2(a, off, tw, s, m, u, 0);
    Terms2(a, off, tw, s, m, u, 1);
    ProdAssoc(2, m, s);
    Root2(tw, Prod(m, s));
  }

  // ---- radix 3 ----

  lemma Root3(tw: seq<Cpx>, d: int)
    requires IsTwiddleTable(tw) && |tw| == Prod(3, d)
    ensures var w := Root(tw, d, 1);
      Root(tw, d, 0) == ONE && w.r == -0.5 && Root(tw, d, 2) == Conj(w)
  {
    hide Prod, W, Mul;
    RootsSum(tw, 3, d);
    SumUnrolled((e: nat) => Root(tw, d, e));
    RootConj(tw, 3, d, 1);
    ProdSmall(d);
    WZero(tw);
  }

  lemma Terms3(a: seq<Cpx>, off: int, tw: seq<Cpx>, s: int, m: int, u: int, q1: nat)
    requires IsTwiddleTable(tw) && 0 <= u < m && q1 < 3 && |tw| == Prod3(3, m, s)
    ensures var d := Prod(m, s);
      Outputs(a, off, tw, s, 3, m, u)(q1)
      == Add(Add(Mul(Get(a, off + u), ONE),
                 Mul(Scratch(a, off, tw, s, m, u, 1), Root(tw, d, q1))),
             Mul(Scratch(a, off, tw, s, m, u, 2), Root(tw, d, 2 * q1 % 3)))
  {
    hide Prod, Prod3, W, Mul, Add, Outputs, Scratch, Root;
    ColumnOutput(a, off, tw, s, 3, m, u, q1);
    SumUnrolled(RootTerm(a, off, tw, s, 3, m, u, q1));
    Scratch0(a, off, tw, s, m, u);
    ProdSmall(q1);
  }

  /** What kf_bfly3 stores: the cosine part through halving, the sine part through epi3.i. */
  lemma Radix3(a: seq<Cpx>, off: int, tw: seq<Cpx>, s: int, m: int, u: int)
    requires IsTwiddleTable(tw) && 0 <= u < m && |tw| == Prod3(3, m, s)
    ensures var x, y, z := Get(a, off + u), Scratch(a, off, tw, s, m, u, 1), Scratch(a, off, tw, s, m, u, 2);
      var sum, dif := Add(y, z), Scale(Sub(y, z), Root(tw, Prod(m, s), 1).i);
      var mid := Cpx(x.r - sum.r / 2.0, x.i - sum.i / 2.0);
      && Outputs(a, off, tw, s, 3, m, u)(0) == Add(x, sum)
      && Outputs(a, off, tw, s, 3, m, u)(1) == Cpx(mid.r - dif.i, mid.i + dif.r)
      && Outputs(a, off, tw, s, 3, m, u)(2) == Cpx(mid.r + dif.i, mid.i - dif.r)
  {
    hide Prod, Prod3, W, Outputs, Scratch, Root, Mul, Scale, Conj;
    Terms3(a, off, tw, s, m, u, 0);
    Terms3(a, off, tw, s, m, u, 1);
    Terms3(a, off, tw, s, m, u, 2);
    ProdAssoc(3, m, s);
    Root3(tw, Prod(m, s));
    var w := Root(tw, Prod(m, s), 1);
    Sum3(Get(a, off + u), Scratch(a, off, tw, s, m, u, 1), Scratch(a, off, tw, s, m, u, 2), w);
  }

  /** A three-point transform over w = -1/2 + i w.i. */
  lemma Sum3(x: Cpx, y: Cpx, z: Cpx, w: Cpx)
    requires w.r == -0.5
    ensures var sum, dif := Add(y, z), Scale(Sub(y, z), w.i);
      var mid := Cpx(x.r - sum.r / 2.0, x.i - sum.i / 2.0);
      && Add(Add(Mul(x, ONE), Mul(y, ONE)), Mul(z, ONE)) == Add(x, sum)
      && Add(Add(Mul(x, ONE), Mul(y, w)), Mul(z, Conj(w))) == Cpx(mid.r - dif.i, mid.i + dif.r)
      && Add(Add(Mul(x, ONE), Mul(y, Conj(w))), Mul(z, w)) == Cpx(mid.r + dif.i, mid.i - dif.r)
  {
    hide Mul, Scale;
    HalfTurn(y, w);
    HalfTurn(z, w);
    MulOne(x);
    MulOne(y);
    MulOne(z);
    ScaleSub(y, z, w.i);
  }

  lemma HalfTurn(y: Cpx, w: Cpx)
    requires w.r == -0.5
    ensures var v := Scale(y, w.i);
      && Mul(y, w) == Cpx(-y.r / 2.0 - v.i, -y.i / 2.0 + v.r)
      && Mul(y, Conj(w)) == Cpx(-y.r / 2.0 + v.i, -y.i / 2.0 - v.r)
  {
    hide SMul;
    SMulConst(y.r);
    SMulConst(y.i);
    SMulNeg(y.r, w.i);
    SMulNeg(y.i, w.i);
  }

  lemma ScaleSub(y: Cpx, z: Cpx, c: real)
    ensures Scale(Sub(y, z), c) == Sub(Scale(y, c), Scale(z, c))
  {
    hide SMul;
    SMulAdd(y.r, z.r, c);
    SMulAdd(y.i, z.i, c);
  }

  // ---- radix 4 ----

  lemma QuarterTurn(tw: seq<Cpx>, inverse: bool, d: int)
    requires HasDirection(tw, inverse) && |tw| == 4 * d && d >= 1
    ensures W(tw, d) == Cpx(0.0, if inverse then 1.0 else -1.0)
  {
    assert |tw| / 4 == d;
    WIndex(tw, d);
  }

  lemma Root4(tw: seq<Cpx>, inverse: bool, d: int)
    requires IsTwiddleTable(tw) && HasDirection(tw, inverse) && |tw| == Prod(4, d)
    ensures var w := Cpx(0.0, if inverse then 1.0 else -1.0);
      && Root(tw, d, 0) == ONE && Root(tw, d, 1) == w
      && Root(tw, d, 2) == Cpx(-1.0, 0.0) && Root(tw, d, 3) == Conj(w)
  {
    hide Prod, W, Mul;
    ProdSmall(d);
    WZero(tw);
    QuarterTurn(tw, inverse, d);
    MulOne(Root(tw, d, 1));
    RootMul(tw, d, 1, 1);
    RootConj(tw, 4, d, 1);
  }

  lemma Terms4(a: seq<Cpx>, off: int, tw: seq<Cpx>, s: int, m: int, u: int, q1: nat)
    requires IsTwiddleTable(tw) && 0 <= u < m && q1 < 4 && |tw| == Prod3(4, m, s)
    ensures var d := Prod(m, s);
      Outputs(a, off, tw, s, 4, m, u)(q1)
      == Add(Add(Add(Mul(Get(a, off + u), ONE),
                     Mul(Scratch(a, off, tw, s, m, u, 1), Root(tw, d, q1))),
                 Mul(Scratch(a, off, tw, s, m, u, 2), Root(tw, d, 2 * q1 % 4))),
             Mul(Scratch(a, off, tw, s, m, u, 3), Root(tw, d, 3 * q1 % 4)))
  {
    hide Prod, Prod3, W, Mul, Add, Outputs, Scratch, Root;
    ColumnOutput(a, off, tw, s, 4, m, u, q1);
    SumUnrolled(RootTerm(a, off, tw, s, 4, m, u, q1));
    Scratch0(a, off, tw, s, m, u);
    ProdSmall(q1);
  }

  /** What kf_bfly4 stores: sums, differences and a quarter turn in the direction of the transform. */
  lemma Radix4(a: seq<Cpx>, off: int, tw: seq<Cpx>, inverse: bool, s: int, m: int, u: int)
    requires IsTwiddleTable(tw) && HasDirection(tw, inverse) && 0 <= u < m && |tw| == Prod3(4, m, s)
    ensures var x, y := Get(a, off + u), Scratch(a, off, tw, s, m, u, 1);
      var z, v := Scratch(a, off, tw, s, m, u, 2), Scratch(a, off, tw, s, m, u, 3);
      var even, odd := Add(x, z), Add(y, v);
      var evenDif, oddDif := Sub(x, z), Sub(y, v);
      var left := Cpx(evenDif.r - oddDif.i, evenDif.i + oddDif.r);
      var right := Cpx(evenDif.r + oddDif.i, evenDif.i - oddDif.r);
      && Outputs(a, off, tw, s, 4, m, u)(0) == Add(even, odd)
      && Outputs(a, off, tw, s, 4, m, u)(1) == (if inverse then left else right)
      && Outputs(a, off, tw, s, 4, m, u)(2) == Sub(even, odd)
      && Outputs(a, off, tw, s, 4, m, u)(3) == (if inverse then right else left)
  {
    hide Prod, Prod3, W, Outputs, Scratch, Root, Mul, Add, Sub, Conj;
    Terms4(a, off, tw, s, m, u, 0);
    Terms4(a, off, tw, s, m, u, 1);
    Terms4(a, off, tw, s, m, u, 2);
    Terms4(a, off, tw, s, m, u, 3);
    ProdAssoc(4, m, s);
    Root4(tw, inverse, Prod(m, s));
    Sum4(Get(a, off + u), Scratch(a, off, tw, s, m, u, 1), Scratch(a, off, tw, s, m, u, 2),
         Scratch(a, off, tw, s, m, u, 3), inverse);
  }

  /** A four-point transform. */
  lemma Sum4(x: Cpx, y: Cpx, z: Cpx, v: Cpx, inverse: bool)
    ensures var w, minus := Cpx(0.0, if inverse then 1.0 else -1.0), Cpx(-1.0, 0.0);
      var evenDif, oddDif := Sub(x, z), Sub(y, v);
      var left := Cpx(evenDif.r - oddDif.i, evenDif.i + oddDif.r);
      var right := Cpx(evenDif.r + oddDif.i, evenDif.i - oddDif.r);
      && Add(Add(Add(Mul(x, ONE), Mul(y, ONE)), Mul(z, ONE)), Mul(v, ONE)) == Add(Add(x, z), Add(y, v))
      && Add(Add(Add(Mul(x, ONE), Mul(y, w)), Mul(z, minus)), Mul(v, Conj(w))) == (if inverse then left else right)
      && Add(Add(Add(Mul(x, ONE), Mul(y, minus)), Mul(z, ONE)), Mul(v, minus)) == Sub(Add(x, z), Add(y, v))
      && Add(Add(Add(Mul(x, ONE), Mul(y, Conj(w))), Mul(z, minus)), Mul(v, w)) == (if inverse then right else left)
  {
    hide Mul;
    MulOne(x);
    MulOne(y);
    MulOne(z);
    MulOne(v);
  }

  // ---- radix 5 ----

  lemma Root5(tw: seq<Cpx>, d: int)
    requires IsTwiddleTable(tw) && |tw| == Prod(5, d)
    ensures Root(tw, d, 0) == ONE
    ensures Root(tw, d, 3) == Conj(Root(tw, d, 2)) && Root(tw, d, 4) == Conj(Root(tw, d, 1))
  {
    hide Prod, W, Conj, Mul;
    ProdSmall(d);
    WZero(tw);
    RootConj(tw, 5, d, 1);
    RootConj(tw, 5, d, 2);
  }

  lemma Terms5(a: seq<Cpx>, off: int, tw: seq<Cpx>, s: int, m: int, u: int, q1: nat)
    requires IsTwiddleTable(tw) && 0 <= u < m && q1 < 5 && |tw| == Prod3(5, m, s)
    ensures var d := Prod(m, s);
      Outputs(a, off, tw, s, 5, m, u)(q1)
      == Add(Add(Add(Add(Mul(Get(a, off + u), ONE),
                         Mul(Scratch(a, off, tw, s, m, u, 1), Root(tw, d, q1))),
                     Mul(Scratch(a, off, tw, s, m, u, 2), Root(tw, d, 2 * q1 % 5))),
                 Mul(Scratch(a, off, tw, s, m, u, 3), Root(tw, d, 3 * q1 % 5))),
             Mul(Scratch(a, off, tw, s, m, u, 4), Root(tw, d, 4 * q1 % 5)))
  {
    hide Prod, Prod3, W, Mul, Add, Outputs, Scratch, Root;
    ColumnOutput(a, off, tw, s, 5, m, u, q1);
    SumUnrolled(RootTerm(a, off, tw, s, 5, m, u, q1));
    Scratch0(a, off, tw, s, m, u);
    ProdSmall(q1);
  }

  /** c * y + d * z, on both components */
  function Mix(y: Cpx, c: real, z: Cpx, d: real): Cpx {
    Cpx(SMul(y.r, c) + SMul(z.r, d), SMul(y.i, c) + SMul(z.i, d))
  }

  /** What kf_bfly5 stores: the pairs (1, 4) and (2, 3) through their sums and differences. */
  lemma Radix5(a: seq<Cpx>, off: int, tw: seq<Cpx>, s: int, m: int, u: int)
    requires IsTwiddleTable(tw) && 0 <= u < m && |tw| == Prod3(5, m, s)
    ensures var x, y1 := Get(a, off + u), Scratch(a, off, tw, s, m, u, 1);
      var y2, y3 := Scratch(a, off, tw, s, m, u, 2), Scratch(a, off, tw, s, m, u, 3);
      var y4 := Scratch(a, off, tw, s, m, u, 4);
      var ya, yb := Root(tw, Prod(m, s), 1), Root(tw, Prod(m, s), 2);
      var s14, d14, s23, d23 := Add(y1, y4), Sub(y1, y4), Add(y2, y3), Sub(y2, y3);
      var near, far := Add(x, Mix(s14, ya.r, s23, yb.r)), Add(x, Mix(s14, yb.r, s23, ya.r));
      var nearSin, farSin := Mix(d14, ya.i, d23, yb.i), Mix(d14, yb.i, d23, -ya.i);
      && Outputs(a, off, tw, s, 5, m, u)(0) == Add(x, Add(s14, s23))
      && Outputs(a, off, tw, s, 5, m, u)(1) == Cpx(near.r - nearSin.i, near.i + nearSin.r)
      && Outputs(a, off, tw, s, 5, m, u)(2) == Cpx(far.r - farSin.i, far.i + farSin.r)
      && Outputs(a, off, tw, s, 5, m, u)(3) == Cpx(far.r + farSin.i, far.i - farSin.r)
      && Outputs(a, off, tw, s, 5, m, u)(4) == Cpx(near.r + nearSin.i, near.i - nearSin.r)
  {
    hide Prod, Prod3, W, Outputs, Scratch, Root, Mul, Add, Sub, Conj, Mix;
    Terms5(a, off, tw, s, m, u, 0);
    Terms5(a, off, tw, s, m, u, 1);
    Terms5(a, off, tw, s, m, u, 2);
    Terms5(a, off, tw, s, m, u, 3);
    Terms5(a, off, tw, s, m, u, 4);
    ProdAssoc(5, m, s);
    Root5(tw, Prod(m, s));
    Sum5(Get(a, off + u), Scratch(a, off, tw, s, m, u, 1), Scratch(a, off, tw, s, m, u, 2),
         Scratch(a, off, tw, s, m, u, 3), Scratch(a, off, tw, s, m, u, 4), Root(tw, Prod(m, s), 1), Root(tw, Prod(m, s), 2));
  }

  /** Two terms turned by opposite angles. */
  lemma PairTurn(y: Cpx, z: Cpx, w: Cpx)
    ensures var sum, dif := Add(y, z), Sub(y, z);
      && Add(Mul(y, w), Mul(z, Conj(w))) == Cpx(SMul(sum.r, w.r) - SMul(dif.i, w.i), SMul(sum.i, w.r) + SMul(dif.r, w.i))
      && Add(Mul(y, Conj(w)), Mul(z, w)) == Cpx(SMul(sum.r, w.r) + SMul(dif.i, w.i), SMul(sum.i, w.r) - SMul(dif.r, w.i))
  {
    hide SMul;
    SMulAdd(y.r, z.r, w.r);
    SMulAdd(y.i, z.i, w.r);
    SMulAdd(y.r, z.r, w.i);
    SMulAdd(y.i, z.i, w.i);
    SMulNeg(y.r, w.i);
    SMulNeg(y.i, w.i);
    SMulNeg(z.r, w.i);
    SMulNeg(z.i, w.i);
  }

  /** A five-point transform over ya and yb = ya * ya. */
  lemma Sum5(x: Cpx, y1: Cpx, y2: Cpx, y3: Cpx, y4: Cpx, ya: Cpx, yb: Cpx)
    ensures var s14, d14, s23, d23 := Add(y1, y4), Sub(y1, y4), Add(y2, y3), Sub(y2, y3);
      var near, far := Add(x, Mix(s14, ya.r, s23, yb.r)), Add(x, Mix(s14, yb.r, s23, ya.r));
      var nearSin, farSin := Mix(d14, ya.i, d23, yb.i), Mix(d14, yb.i, d23, -ya.i);
      && Add(Add(Add(Add(Mul(x, ONE), Mul(y1, ONE)), Mul(y2, ONE)), Mul(y3, ONE)), Mul(y4, ONE))
         == Add(x, Add(s14, s23))
      && Add(Add(Add(Add(Mul(x, ONE), Mul(y1, ya)), Mul(y2, yb)), Mul(y3, Conj(yb))), Mul(y4, Conj(ya)))
         == Cpx(near.r - nearSin.i, near.i + nearSin.r)
      && Add(Add(Add(Add(Mul(x, ONE), Mul(y1, yb)), Mul(y2, Conj(ya))), Mul(y3, ya)), Mul(y4, Conj(yb)))
         == Cpx(far.r - farSin.i, far.i + farSin.r)
      && Add(Add(Add(Add(Mul(x, ONE), Mul(y1, Conj(yb))), Mul(y2, ya)), Mul(y3, Conj(ya))), Mul(y4, yb))
         == Cpx(far.r + farSin.i, far.i - farSin.r)
      && Add(Add(Add(Add(Mul(x, ONE), Mul(y1, Conj(ya))), Mul(y2, Conj(yb))), Mul(y3, yb)), Mul(y4, ya))
         == Cpx(near.r + nearSin.i, near.i - nearSin.r)
  {
    hide Mul, Conj, SMul;
    MulOne(x);
    MulOne(y1);
    MulOne(y2);
    MulOne(y3);
    MulOne(y4);
    PairTurn(y1, y4, ya);
    PairTurn(y2, y3, yb);
    PairTurn(y1, y4, yb);
    PairTurn(y2, y3, ya);
    SMulNeg(Sub(y2, y3).r, ya.i);
    SMulNeg(Sub(y2, y3).i, ya.i);
  }
}
