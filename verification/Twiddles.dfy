/** The twiddle table of a transform of length n, taken through the algebra that the
    n-th roots of unity satisfy, and the plain discrete Fourier sum over it. */
module Twiddles {
  import opened Arith
  import opened Complex

  /** What the table filled by kf_cexp is used for: the powers of a primitive n-th root of unity,
      with conjugates at opposite positions. */
  ghost predicate IsTwiddleTable(tw: seq<Cpx>)
    ensures IsTwiddleTable(tw) ==> |tw| >= 1
  {
    && |tw| >= 1
    && tw[0] == ONE
    && (forall i, j {:trigger Mul(tw[i], tw[j])} :: 0 <= i < |tw| && 0 <= j < |tw| ==> Mul(tw[i], tw[j]) == tw[(i + j) % |tw|])
    && (forall i {:trigger Conj(tw[i])} :: 0 < i < |tw| ==> tw[|tw| - i] == Conj(tw[i]))
    && (forall i :: 0 < i < |tw| ==> tw[i] != ONE)
  }

  /** The direction fixes the sign of the quarter turn. */
  ghost predicate HasDirection(tw: seq<Cpx>, inverse: bool) {
    |tw| > 0 && |tw| % 4 == 0 ==> tw[|tw| / 4] == Cpx(0.0, if inverse then 1.0 else -1.0)
  }

  /** The e-th power of the root. */
  ghost function W(tw: seq<Cpx>, e: int): Cpx
    requires |tw| >= 1
  {
    tw[e % |tw|]
  }

  lemma WIndex(tw: seq<Cpx>, e: int)
    requires 0 <= e < |tw|
    ensures W(tw, e) == tw[e]
  {}

  lemma WZero(tw: seq<Cpx>)
    requires IsTwiddleTable(tw)
    ensures W(tw, 0) == ONE
  {}

  lemma WMul(tw: seq<Cpx>, a: int, b: int)
    requires IsTwiddleTable(tw)
    ensures Mul(W(tw, a), W(tw, b)) == W(tw, a + b)
  {
    hide Mul;
    ModAdd(a, b, |tw|);
  }

  lemma WPeriod(tw: seq<Cpx>, e: int, t: int)
    requires |tw| >= 1
    ensures W(tw, e + Prod(t, |tw|)) == W(tw, e)
  {
    ModPeriod(e, t, |tw|);
  }

  /** Opposite powers are conjugate. */
  lemma WConj(tw: seq<Cpx>, e: int)
    requires IsTwiddleTable(tw)
    ensures W(tw, -e) == Conj(W(tw, e))
  {
    hide Mul, Prod;
    var n := |tw|;
    DivMod(e, n);
    ProdSmall(n);
    ProdAdd(e / n, -(e / n), n);
    if e % n == 0 {
      ModUnique(-e, -(e / n), 0, n);
    } else {
      ProdAdd(-(e / n), -1, n);
      ProdAdd(1, -1, n);
      ModUnique(-e, -(e / n) - 1, n - e % n, n);
    }
  }

  /** k -> W(d * k) */
  ghost function Powers(tw: seq<Cpx>, d: int): nat -> Cpx
    requires |tw| >= 1
  {
    (k: nat) => W(tw, Prod(d, k))
  }

  lemma PowersNext(tw: seq<Cpx>, d: int, c: nat)
    requires IsTwiddleTable(tw)
    ensures Mul(Powers(tw, d)(c), W(tw, d)) == Powers(tw, d)(c + 1)
  {
    hide Mul, Prod, W;
    ProdSucc(d, c);
    WMul(tw, Prod(d, c), d);
  }

  lemma ShiftStep(s: Cpx, a: Cpx, w: Cpx)
    requires Add(Mul(s, w), ONE) == Add(s, a)
    ensures Add(Mul(Add(s, a), w), ONE) == Add(Add(s, a), Mul(a, w))
  {
    hide Mul;
    MulAdd(s, a, w);
  }

  lemma {:induction false} PowersShift(tw: seq<Cpx>, d: int, c: nat)
    requires IsTwiddleTable(tw)
    ensures Add(Mul(Sum(Powers(tw, d), c), W(tw, d)), ONE) == Add(Sum(Powers(tw, d), c), Powers(tw, d)(c))
  {
    hide Mul, Prod, W;
    if c == 0 {
      ProdSmall(d);
      WZero(tw);
      MulZero(W(tw, d));
    } else {
      PowersShift(tw, d, c - 1);
      PowersNext(tw, d, c - 1);
      ShiftStep(Sum(Powers(tw, d), c - 1), Powers(tw, d)(c - 1), W(tw, d));
    }
  }

  lemma FixedPoint(s: Cpx, w: Cpx)
    requires Mul(s, w) == s && w != ONE
    ensures s == ZERO
  {
    hide Mul;
    MulAdd(w, ONE, s);
    MulComm(w, s);
    MulOne(s);
    NoZeroDivisors(Sub(w, ONE), s);
  }

  /** The powers of a root of unity other than one sum to zero over any number of full turns. */
  lemma RootSum(tw: seq<Cpx>, d: int, c: nat)
    requires IsTwiddleTable(tw)
    requires d % |tw| != 0 && Prod(d, c) % |tw| == 0
    ensures Sum(Powers(tw, d), c) == ZERO
  {
    hide Mul, Prod;
    PowersShift(tw, d, c);
    FixedPoint(Sum(Powers(tw, d), c), W(tw, d));
  }

  /** j -> x(j) * W(j * k * stride) */
  ghost function DftTerm(x: nat -> Cpx, tw: seq<Cpx>, stride: int, k: int): nat -> Cpx
    requires |tw| >= 1
  {
    (j: nat) => Mul(x(j), W(tw, Prod3(j, k, stride)))
  }

  /** Bin k of the transform of x(0), ..., x(len - 1) over every stride-th power of the root. */
  ghost function Dft(x: nat -> Cpx, tw: seq<Cpx>, stride: int, len: nat, k: int): Cpx
    requires |tw| >= 1
  {
    Sum(DftTerm(x, tw, stride, k), len)
  }

  lemma DftExt(x: nat -> Cpx, y: nat -> Cpx, tw: seq<Cpx>, stride: int, len: nat, k: int)
    requires |tw| >= 1
    requires forall j: nat :: j < len ==> x(j) == y(j)
    ensures Dft(x, tw, stride, len, k) == Dft(y, tw, stride, len, k)
  {
    hide Mul, Prod3, W;
    SumExt(DftTerm(x, tw, stride, k), DftTerm(y, tw, stride, k), len);
  }
}
