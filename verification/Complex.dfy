/** Complex numbers over exact reals: the arithmetic that the C_ADD, C_SUB and C_MUL macros
    of kissfft perform on floats, and finite sums of them. */
module Complex {
  import opened Arith

  datatype Cpx = Cpx(r: real, i: real)

  const ZERO := Cpx(0.0, 0.0)
  const ONE := Cpx(1.0, 0.0)

  function Add(a: Cpx, b: Cpx): Cpx {
    Cpx(a.r + b.r, a.i + b.i)
  }

  function Sub(a: Cpx, b: Cpx): Cpx {
    Cpx(a.r - b.r, a.i - b.i)
  }

  /** S_MUL, the scalar product */
  function SMul(a: real, b: real): real {
    a * b
  }

  function Mul(a: Cpx, b: Cpx): Cpx {
    Cpx(SMul(a.r, b.r) - SMul(a.i, b.i), SMul(a.r, b.i) + SMul(a.i, b.r))
  }

  function Conj(a: Cpx): Cpx {
    Cpx(a.r, -a.i)
  }

  /** C_MULBYSCALAR */
  function Scale(a: Cpx, s: real): Cpx {
    Cpx(SMul(a.r, s), SMul(a.i, s))
  }

  lemma SMulAdd(a: real, b: real, c: real)
    ensures SMul(a + b, c) == SMul(a, c) + SMul(b, c)
    ensures SMul(a - b, c) == SMul(a, c) - SMul(b, c)
    ensures SMul(c, a + b) == SMul(c, a) + SMul(c, b)
    ensures SMul(c, a - b) == SMul(c, a) - SMul(c, b)
  {}

  lemma SMulNeg(a: real, b: real)
    ensures SMul(-a, b) == -SMul(a, b) == SMul(a, -b)
  {}

  lemma SMulConst(a: real)
    ensures SMul(a, 0.0) == 0.0 == SMul(0.0, a)
    ensures SMul(a, 1.0) == a == SMul(1.0, a)
    ensures SMul(a, -1.0) == -a == SMul(-1.0, a)
    ensures SMul(a, -0.5) == -a / 2.0
  {}

  lemma MulComm(a: Cpx, b: Cpx)
    ensures Mul(a, b) == Mul(b, a)
  {}

  lemma MulAssoc(a: Cpx, b: Cpx, c: Cpx)
    ensures Mul(Mul(a, b), c) == Mul(a, Mul(b, c))
  {
    hide SMul;
    SMulAssoc(a.r, b, c);
    SMulAssoc(a.i, b, c);
    SMulAdd(SMul(a.r, b.r), SMul(a.i, b.i), c.r);
    SMulAdd(SMul(a.r, b.r), SMul(a.i, b.i), c.i);
    SMulAdd(SMul(a.r, b.i), SMul(a.i, b.r), c.r);
    SMulAdd(SMul(a.r, b.i), SMul(a.i, b.r), c.i);
    SMulAdd(SMul(b.r, c.r), SMul(b.i, c.i), a.r);
    SMulAdd(SMul(b.r, c.r), SMul(b.i, c.i), a.i);
    SMulAdd(SMul(b.r, c.i), SMul(b.i, c.r), a.r);
    SMulAdd(SMul(b.r, c.i), SMul(b.i, c.r), a.i);
  }

  lemma SMulAssoc(x: real, b: Cpx, c: Cpx)
    ensures SMul(SMul(x, b.r), c.r) == SMul(x, SMul(b.r, c.r)) && SMul(SMul(x, b.i), c.i) == SMul(x, SMul(b.i, c.i))
    ensures SMul(SMul(x, b.r), c.i) == SMul(x, SMul(b.r, c.i)) && SMul(SMul(x, b.i), c.r) == SMul(x, SMul(b.i, c.r))
  {}

  lemma MulAdd(a: Cpx, b: Cpx, c: Cpx)
    ensures Mul(Add(a, b), c) == Add(Mul(a, c), Mul(b, c))
    ensures Mul(Sub(a, b), c) == Sub(Mul(a, c), Mul(b, c))
  {
    hide SMul;
    SMulAdd(a.r, b.r, c.r);
    SMulAdd(a.r, b.r, c.i);
    SMulAdd(a.i, b.i, c.r);
    SMulAdd(a.i, b.i, c.i);
  }

  lemma MulZero(a: Cpx)
    ensures Mul(ZERO, a) == ZERO == Mul(a, ZERO)
  {
    hide SMul;
    SMulConst(a.r);
    SMulConst(a.i);
  }

  lemma MulOne(a: Cpx)
    ensures Mul(a, ONE) == a == Mul(ONE, a)
    ensures Mul(a, Cpx(-1.0, 0.0)) == Cpx(-a.r, -a.i)
    ensures Mul(a, Cpx(0.0, 1.0)) == Cpx(-a.i, a.r) && Mul(a, Cpx(0.0, -1.0)) == Cpx(a.i, -a.r)
  {
    hide SMul;
    SMulConst(a.r);
    SMulConst(a.i);
  }

  /** The complex numbers have no zero divisors. */
  lemma NoZeroDivisors(a: Cpx, b: Cpx)
    requires Mul(a, b) == ZERO
    ensures a == ZERO || b == ZERO
  {
    var na, nb := a.r * a.r + a.i * a.i, b.r * b.r + b.i * b.i;
    calc {
      na * nb;
      (a.r * b.r - a.i * b.i) * (a.r * b.r - a.i * b.i)
      + (a.r * b.i + a.i * b.r) * (a.r * b.i + a.i * b.r);
      0.0;
    }
    if na == 0.0 {
      SumOfSquares(a.r, a.i);
    } else {
      assert nb == 0.0 by { if nb != 0.0 { Nonzero(na, nb); } }
      SumOfSquares(b.r, b.i);
    }
  }

  lemma Nonzero(x: real, y: real)
    requires x != 0.0 && y != 0.0
    ensures x * y != 0.0
  {}

  lemma SumOfSquares(x: real, y: real)
    requires x * x + y * y == 0.0
    ensures x == 0.0 && y == 0.0
  {
    Square(x, x * x);
    Square(y, y * y);
  }

  lemma Square(x: real, xx: real)
    requires xx == x * x
    ensures if x == 0.0 then xx == 0.0 else xx > 0.0
  {
    if x > 0.0 {
      Positive(x, x, xx);
    } else if x < 0.0 {
      Positive(-x, -x, xx);
    }
  }

  lemma Positive(x: real, y: real, xy: real)
    requires x > 0.0 && y > 0.0 && xy == x * y
    ensures xy > 0.0
  {}

  /** f(0) + ... + f(n - 1) */
  ghost function Sum(f: nat -> Cpx, n: nat): Cpx {
    if n == 0 then ZERO else Add(Sum(f, n - 1), f(n - 1))
  }

  /** The sums that the unrolled butterflies write out. */
  lemma SumUnrolled(f: nat -> Cpx)
    ensures Sum(f, 2) == Add(f(0), f(1))
    ensures Sum(f, 3) == Add(Add(f(0), f(1)), f(2))
    ensures Sum(f, 4) == Add(Add(Add(f(0), f(1)), f(2)), f(3))
    ensures Sum(f, 5) == Add(Add(Add(Add(f(0), f(1)), f(2)), f(3)), f(4))
  {
    assert Sum(f, 1) == Add(Sum(f, 0), f(0)) == f(0);
    assert Sum(f, 2) == Add(Sum(f, 1), f(1));
    assert Sum(f, 3) == Add(Sum(f, 2), f(2));
    assert Sum(f, 4) == Add(Sum(f, 3), f(3));
  }

  lemma {:induction false} SumExt(f: nat -> Cpx, g: nat -> Cpx, n: nat)
    requires forall k: nat :: k < n ==> f(k) == g(k)
    ensures Sum(f, n) == Sum(g, n)
  {
    if n > 0 { SumExt(f, g, n - 1); }
  }

  lemma {:induction false} SumZero(f: nat -> Cpx, n: nat)
    requires forall k: nat :: k < n ==> f(k) == ZERO
    ensures Sum(f, n) == ZERO
  {
    if n > 0 { SumZero(f, n - 1); }
  }

  lemma {:induction false} SumAdd(f: nat -> Cpx, g: nat -> Cpx, h: nat -> Cpx, n: nat)
    requires forall k: nat :: k < n ==> h(k) == Add(f(k), g(k))
    ensures Sum(h, n) == Add(Sum(f, n), Sum(g, n))
  {
    if n > 0 { SumAdd(f, g, h, n - 1); }
  }

  lemma {:induction false} SumMul(f: nat -> Cpx, c: Cpx, h: nat -> Cpx, n: nat)
    requires forall k: nat :: k < n ==> h(k) == Mul(f(k), c)
    ensures Sum(h, n) == Mul(Sum(f, n), c)
  {
    hide Mul;
    if n == 0 {
      MulZero(c);
    } else {
      SumMul(f, c, h, n - 1);
      MulAdd(Sum(f, n - 1), f(n - 1), c);
    }
  }

  /** A sum over lo + m terms is the sum of the first lo and of the m that follow. */
  lemma {:induction false} SumSplit(f: nat -> Cpx, lo: nat, g: nat -> Cpx, m: nat)
    requires forall k: nat :: k < m ==> g(k) == f(lo + k)
    ensures Sum(f, lo + m) == Add(Sum(f, lo), Sum(g, m))
  {
    if m > 0 { SumSplit(f, lo, g, m - 1); }
  }

  /** A sum with one nonzero term. */
  lemma {:induction false} SumSingle(f: nat -> Cpx, n: nat, at: nat)
    requires at < n
    requires forall k: nat :: k < n && k != at ==> f(k) == ZERO
    ensures Sum(f, n) == f(at)
  {
    if at == n - 1 {
      SumZero(f, n - 1);
    } else {
      SumSingle(f, n - 1, at);
    }
  }

  /** The row a of a double sequence, and the sequence of the sums of its first m columns. */
  ghost function Row(f: (nat, nat) -> Cpx, a: nat): nat -> Cpx {
    (b: nat) => f(a, b)
  }

  ghost function Flip(f: (nat, nat) -> Cpx): (nat, nat) -> Cpx {
    (a: nat, b: nat) => f(b, a)
  }

  ghost function RowSums(f: (nat, nat) -> Cpx, m: nat): nat -> Cpx {
    (a: nat) => Sum(Row(f, a), m)
  }

  /** Exchange of two finite sums. */
  lemma {:induction false} SumSwap(f: (nat, nat) -> Cpx, n: nat, m: nat)
    ensures Sum(RowSums(f, m), n) == Sum(RowSums(Flip(f), n), m)
  {
    if n == 0 {
      SumZero(RowSums(Flip(f), 0), m);
    } else {
      SumSwap(f, n - 1, m);
      SumAdd(RowSums(Flip(f), n - 1), Row(f, n - 1), RowSums(Flip(f), n), m);
    }
  }

  /** Decimation: the indices below p * m, taken as q + j * p. */
  lemma {:induction false} SumDecimate(g: nat -> Cpx, f: (nat, nat) -> Cpx, p: nat, m: nat)
    requires forall q: nat, j: nat :: q < p && j < m ==> f(q, j) == g(q + Prod(j, p))
    ensures Sum(g, Prod(m, p)) == Sum(RowSums(f, m), p)
  {
    hide Prod;
    ProdSmall(p);
    if m == 0 {
      SumZero(RowSums(f, 0), p);
    } else {
      var lo := Prod(m - 1, p);
      ProdSucc(m - 1, p);
      SumDecimate(g, f, p, m - 1);
      var last := Row(Flip(f), m - 1);
      forall q: nat | q < p
        ensures last(q) == g(lo + q)
      {
        assert f(q, m - 1) == g(q + lo);
      }
      SumSplit(g, lo, last, p);
      SumAdd(RowSums(f, m - 1), last, RowSums(f, m), p);
    }
  }
}
