/** The inverse transform and circular convolution, over a table and its opposite. */
module Inversion {
  import opened Arith
  import opened Complex
  import opened Twiddles

  /** The table kiss_fft_alloc fills for the other direction: every phase negated. */
  ghost predicate Opposite(tw: seq<Cpx>, back: seq<Cpx>)
    ensures Opposite(tw, back) ==> |back| == |tw|
  {
    |back| == |tw| && forall i :: 0 <= i < |tw| ==> back[i] == Conj(tw[i])
  }

  lemma WBack(tw: seq<Cpx>, back: seq<Cpx>, e: int)
    requires |tw| >= 1 && Opposite(tw, back)
    ensures W(back, e) == Conj(W(tw, e))
  {
    hide Conj;
  }

  /** c + ... + c, n times */
  lemma {:induction false} SumConstant(f: nat -> Cpx, n: nat, c: Cpx)
    requires forall k: nat :: k < n ==> f(k) == c
    ensures Sum(f, n) == Scale(c, n as real)
  {
    hide SMul;
    if n == 0 {
      SMulConst(c.r);
      SMulConst(c.i);
    } else {
      SumConstant(f, n - 1, c);
      SMulAdd((n - 1) as real, 1.0, c.r);
      SMulAdd((n - 1) as real, 1.0, c.i);
      SMulConst(c.r);
      SMulConst(c.i);
      assert n as real == (n - 1) as real + 1.0;
    }
  }

  /** k -> x(j) * W(j k) * W(-(k t)) for fixed j, t: the double sum of a transform followed by its inverse */
  ghost function Both(x: nat -> Cpx, tw: seq<Cpx>, t: int): (nat, nat) -> Cpx
    requires |tw| >= 1
  {
    (k: nat, j: nat) => Mul(Mul(x(j), W(tw, Prod(j, k))), W(tw, -Prod(k, t)))
  }

  lemma BothTerm(x: nat -> Cpx, tw: seq<Cpx>, t: int, k: nat, j: nat)
    requires IsTwiddleTable(tw)
    ensures Both(x, tw, t)(k, j) == Mul(Powers(tw, j - t)(k), x(j))
  {
    hide Mul, W, Prod;
    WMul(tw, Prod(j, k), -Prod(k, t));
    MulAssoc(x(j), W(tw, Prod(j, k)), W(tw, -Prod(k, t)));
    ProdComm(k, t);
    ProdAdd(j, -t, k);
    ProdAdd(t, -t, k);
    ProdSmall(k);
    MulComm(x(j), W(tw, Prod(j - t, k)));
  }

  /** Sum over the frequencies: n for j = t, nothing for any other j. */
  lemma Column(x: nat -> Cpx, tw: seq<Cpx>, t: nat, j: nat)
    requires IsTwiddleTable(tw) && t < |tw| && j < |tw|
    ensures RowSums(Flip(Both(x, tw, t)), |tw|)(j) == if j == t then Scale(x(t), |tw| as real) else ZERO
  {
    hide Mul, W, Prod, Scale, Both, Powers;
    var n := |tw|;
    var row := Row(Flip(Both(x, tw, t)), j);
    forall k: nat | k < n
      ensures row(k) == Mul(Powers(tw, j - t)(k), x(j))
    {
      BothTerm(x, tw, t, k, j);
    }
    if j == t {
      forall k: nat | k < n
        ensures row(k) == x(t)
      {
        PowersZero(tw, k);
        MulOne(x(t));
      }
      SumConstant(row, n, x(t));
    } else {
      SumMul(Powers(tw, j - t), x(j), row, n);
      Nonzero(j - t, n);
      ProdComm(j - t, n);
      WholeTurns(j - t, n);
      RootSum(tw, j - t, n);
      MulZero(x(j));
    }
  }

  lemma PowersZero(tw: seq<Cpx>, k: nat)
    requires IsTwiddleTable(tw)
    ensures Powers(tw, 0)(k) == ONE
  {
    hide Mul, Prod, W;
    ProdSmall(k);
    WZero(tw);
  }

  lemma Nonzero(d: int, n: int)
    requires -n < d < n && d != 0
    ensures d % n != 0
  {
    hide Prod;
    ProdSmall(n);
    ProdAdd(1, -1, n);
    if d > 0 {
      ModUnique(d, 0, d, n);
    } else {
      ModUnique(d, -1, d + n, n);
    }
  }

  lemma WholeTurns(d: int, n: int)
    requires n >= 1
    ensures Prod(d, n) % n == 0
  {
    hide Prod;
    ModUnique(Prod(d, n), d, 0, n);
  }

  /** k -> bin k of the transform of x */
  ghost function Spectrum(x: nat -> Cpx, tw: seq<Cpx>): nat -> Cpx
    requires |tw| >= 1
  {
    (k: nat) => Dft(x, tw, 1, |tw|, k)
  }

  /** The inverse transform of the transform is n times the input. */
  lemma Inverse(x: nat -> Cpx, tw: seq<Cpx>, back: seq<Cpx>, t: nat)
    requires IsTwiddleTable(tw) && Opposite(tw, back) && t < |tw|
    ensures Dft(Spectrum(x, tw), back, 1, |tw|, t) == Scale(x(t), |tw| as real)
  {
    hide Mul, W, Prod, Prod3, Scale, Both, IsTwiddleTable, Opposite;
    var n := |tw|;
    var terms := DftTerm(Spectrum(x, tw), back, 1, t);
    var f := Both(x, tw, t);
    forall k: nat | k < n
      ensures terms(k) == RowSums(f, n)(k)
    {
      WBack(tw, back, Prod(k, t));
      WConj(tw, Prod(k, t));
      OuterTerm(x, tw, back, t, k);
    }
    SumExt(terms, RowSums(f, n), n);
    SumSwap(f, n, n);
    var columns := RowSums(Flip(f), n);
    forall j: nat | j < n
      ensures columns(j) == if j == t then Scale(x(t), n as real) else ZERO
    {
      Column(x, tw, t, j);
    }
    SumSingle(columns, n, t);
  }

  lemma OuterTerm(x: nat -> Cpx, tw: seq<Cpx>, back: seq<Cpx>, t: nat, k: nat)
    requires |tw| >= 1 && |back| >= 1 && W(back, Prod(k, t)) == W(tw, -Prod(k, t))
    ensures DftTerm(Spectrum(x, tw), back, 1, t)(k) == Sum(Row(Both(x, tw, t), k), |tw|)
  {
    hide Mul, W, Prod, Prod3;
    var n := |tw|;
    ProdAssoc(k, t, 1);
    ProdSmall(Prod(k, t));
    var inner := DftTerm(x, tw, 1, k);
    forall j: nat | j < n
      ensures Row(Both(x, tw, t), k)(j) == Mul(inner(j), W(tw, -Prod(k, t)))
    {
      ProdAssoc(j, k, 1);
      ProdSmall(Prod(j, k));
    }
    SumMul(inner, W(tw, -Prod(k, t)), Row(Both(x, tw, t), k), n);
  }

  // ---- circular convolution ----

  /** t -> g((t + c) mod n) */
  ghost function Rotated(g: nat -> Cpx, c: int, n: nat): nat -> Cpx
    requires n >= 1
  {
    (t: nat) => g((t + c) % n)
  }

  lemma RotatedAt(g: nat -> Cpx, c: int, n: nat, t: nat)
    requires t < n
    ensures Rotated(g, c, n)(t) == g(if t < n - c % n then t + c % n else t + c % n - n)
  {
    hide Prod;
    var r := c % n;
    DivMod(c, n);
    ProdAdd(c / n, 1, n);
    ProdSmall(n);
    if t < n - r {
      ModUnique(t + c, c / n, t + r, n);
    } else {
      ModUnique(t + c, c / n + 1, t + r - n, n);
    }
  }

  lemma RotatedHead(g: nat -> Cpx, c: int, n: nat, high: nat -> Cpx, m: nat)
    requires n >= 1 && m == n - c % n
    requires forall t: nat :: high(t) == g(c % n + t)
    ensures Sum(Rotated(g, c, n), m) == Sum(high, m)
  {
    hide Rotated;
    forall t: nat | t < m
      ensures Rotated(g, c, n)(t) == high(t)
    {
      RotatedAt(g, c, n, t);
    }
    SumExt(Rotated(g, c, n), high, m);
  }

  lemma RotatedTail(g: nat -> Cpx, c: int, n: nat, m: nat)
    requires n >= 1 && m == n - c % n
    ensures Sum(Rotated(g, c, n), n) == Add(Sum(Rotated(g, c, n), m), Sum(g, c % n))
  {
    hide Rotated;
    forall t: nat | t < c % n
      ensures g(t) == Rotated(g, c, n)(m + t)
    {
      RotatedAt(g, c, n, m + t);
    }
    SumSplit(Rotated(g, c, n), m, g, c % n);
  }

  /** A sum over a full turn does not depend on where the turn starts. */
  lemma CyclicSum(g: nat -> Cpx, c: int, n: nat)
    requires n >= 1
    ensures Sum(Rotated(g, c, n), n) == Sum(g, n)
  {
    hide Rotated, Sum;
    var r: nat := c % n;
    var high := (t: nat) => g(r + t);
    RotatedHead(g, c, n, high, n - r);
    RotatedTail(g, c, n, n - r);
    SumSplit(g, r, high, n - r);
  }

  /** t -> sum over j of x(j) * h((t - j) mod n) */
  ghost function Circular(x: nat -> Cpx, h: nat -> Cpx, n: nat): nat -> Cpx
    requires n >= 1
  {
    (t: nat) => Sum(CircularTerm(x, h, n, t), n)
  }

  ghost function CircularTerm(x: nat -> Cpx, h: nat -> Cpx, n: nat, t: int): nat -> Cpx
    requires n >= 1
  {
    (j: nat) => Mul(x(j), h((t - j) % n))
  }

  /** x(j) * h((t - j) mod n) * W(t k), over (t, j) */
  ghost function Grid(x: nat -> Cpx, h: nat -> Cpx, tw: seq<Cpx>, k: nat): (nat, nat) -> Cpx
    requires |tw| >= 1
  {
    (t: nat, j: nat) => Mul(CircularTerm(x, h, |tw|, t)(j), W(tw, Prod(t, k)))
  }

  /** W(t k) splits at j up to whole turns. */
  lemma GridPhase(tw: seq<Cpx>, k: nat, t: nat, j: nat, l: nat)
    requires IsTwiddleTable(tw) && l == (t - j) % |tw|
    ensures W(tw, Prod(t, k)) == Mul(W(tw, Prod(l, k)), W(tw, Prod(j, k)))
  {
    hide Mul, W, Prod, IsTwiddleTable;
    var n := |tw|;
    var q := (t - j) / n;
    DivMod(t - j, n);
    ProdAdd(Prod(q, n), l, k);
    ProdAdd(t - j, j, k);
    ProdAssoc(q, n, k);
    ProdComm(n, k);
    ProdAssoc(q, k, n);
    assert Prod(t, k) == Prod(l, k) + Prod(j, k) + Prod(Prod(q, k), n);
    WPeriod(tw, Prod(l, k) + Prod(j, k), Prod(q, k));
    WMul(tw, Prod(l, k), Prod(j, k));
  }

  lemma GridTerm(x: nat -> Cpx, h: nat -> Cpx, tw: seq<Cpx>, k: nat, t: nat, j: nat)
    requires IsTwiddleTable(tw)
    ensures Grid(x, h, tw, k)(t, j)
         == Mul(Rotated(DftTerm(h, tw, 1, k), 0 - j, |tw|)(t), DftTerm(x, tw, 1, k)(j))
  {
    hide Mul, W, Prod, Prod3, IsTwiddleTable;
    var l: nat := (t - j) % |tw|;
    assert (t + (0 - j)) % |tw| == l;
    ProdAssoc(l, k, 1);
    ProdSmall(Prod(l, k));
    ProdAssoc(j, k, 1);
    ProdSmall(Prod(j, k));
    GridPhase(tw, k, t, j, l);
    Regroup(x(j), h(l), W(tw, Prod(l, k)), W(tw, Prod(j, k)));
    assert CircularTerm(x, h, |tw|, t)(j) == Mul(x(j), h(l));
    assert DftTerm(h, tw, 1, k)(l) == Mul(h(l), W(tw, Prod(l, k)));
    assert Rotated(DftTerm(h, tw, 1, k), 0 - j, |tw|)(t) == Mul(h(l), W(tw, Prod(l, k)));
    assert DftTerm(x, tw, 1, k)(j) == Mul(x(j), W(tw, Prod(j, k)));
  }

  lemma Regroup(a: Cpx, b: Cpx, u: Cpx, v: Cpx)
    ensures Mul(Mul(a, b), Mul(u, v)) == Mul(Mul(b, u), Mul(a, v))
  {
    hide Mul;
    MulAssoc(a, b, Mul(u, v));
    MulAssoc(b, u, v);
    MulComm(a, Mul(b, Mul(u, v)));
    MulAssoc(Mul(b, u), v, a);
    MulComm(v, a);
  }

  /** The transform of a circular convolution is the product of the transforms. */
  lemma ConvolutionTheorem(x: nat -> Cpx, h: nat -> Cpx, tw: seq<Cpx>, k: nat)
    requires IsTwiddleTable(tw)
    ensures Dft(Circular(x, h, |tw|), tw, 1, |tw|, k) == Mul(Dft(x, tw, 1, |tw|, k), Dft(h, tw, 1, |tw|, k))
  {
    hide Mul, W, Prod, Prod3, IsTwiddleTable, Grid, CircularTerm, Rotated;
    var n := |tw|;
    var f := Grid(x, h, tw, k);
    var terms := DftTerm(Circular(x, h, n), tw, 1, k);
    forall t: nat | t < n
      ensures terms(t) == RowSums(f, n)(t)
    {
      GridRow(x, h, tw, k, t);
    }
    SumExt(terms, RowSums(f, n), n);
    SumSwap(f, n, n);
    var hk := Dft(h, tw, 1, n, k);
    var xs := DftTerm(x, tw, 1, k);
    forall j: nat | j < n
      ensures RowSums(Flip(f), n)(j) == Mul(xs(j), hk)
    {
      GridColumn(x, h, tw, k, j);
    }
    SumMul(xs, hk, RowSums(Flip(f), n), n);
  }

  lemma GridRow(x: nat -> Cpx, h: nat -> Cpx, tw: seq<Cpx>, k: nat, t: nat)
    requires IsTwiddleTable(tw)
    ensures DftTerm(Circular(x, h, |tw|), tw, 1, k)(t) == Sum(Row(Grid(x, h, tw, k), t), |tw|)
  {
    hide Mul, W, Prod, Prod3, IsTwiddleTable, CircularTerm;
    ProdAssoc(t, k, 1);
    ProdSmall(Prod(t, k));
    SumMul(CircularTerm(x, h, |tw|, t), W(tw, Prod(t, k)), Row(Grid(x, h, tw, k), t), |tw|);
  }

  lemma GridColumn(x: nat -> Cpx, h: nat -> Cpx, tw: seq<Cpx>, k: nat, j: nat)
    requires IsTwiddleTable(tw)
    ensures Sum(Row(Flip(Grid(x, h, tw, k)), j), |tw|) == Mul(DftTerm(x, tw, 1, k)(j), Dft(h, tw, 1, |tw|, k))
  {
    hide Mul, W, Prod, Prod3, IsTwiddleTable, Grid, DftTerm, Rotated;
    var n := |tw|;
    var hs, c := DftTerm(h, tw, 1, k), DftTerm(x, tw, 1, k)(j);
    var column := Row(Flip(Grid(x, h, tw, k)), j);
    forall t: nat | t < n
      ensures column(t) == Mul(Rotated(hs, 0 - j, n)(t), c)
    {
      GridTerm(x, h, tw, k, t, j);
    }
    SumMul(Rotated(hs, 0 - j, n), c, column, n);
    CyclicSum(hs, 0 - j, n);
    MulComm(c, Sum(hs, n));
  }
}
