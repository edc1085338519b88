/** One stage of the mixed-radix transform as a function of the array it overwrites: what every
    butterfly of kiss_fft.c must leave behind, and why p transforms of length m combined this way
    are one transform of length p * m. */
module Stage {
  import opened Arith
  import opened Complex
  import opened Twiddles

  ghost function Get(f: seq<Cpx>, i: int): Cpx {
    if 0 <= i < |f| then f[i] else ZERO
  }

  /** j -> f[base + j * step] */
  ghost function At(f: seq<Cpx>, base: int, step: int): nat -> Cpx {
    (j: nat) => Get(f, base + Prod(j, step))
  }

  lemma Rows(f: seq<Cpx>, base: int, m: int)
    ensures At(f, base, m)(0) == Get(f, base)
    ensures At(f, base, m)(1) == Get(f, base + m)
    ensures At(f, base, m)(2) == Get(f, base + 2 * m)
    ensures At(f, base, m)(3) == Get(f, base + 3 * m)
    ensures At(f, base, m)(4) == Get(f, base + 4 * m)
  {
    ProdSmall(m);
  }

  /** q -> a[off + u + q * m] * W(q * t * s) */
  ghost function StageTerm(a: seq<Cpx>, off: int, tw: seq<Cpx>, s: int, m: int, u: int, t: int): nat -> Cpx
    requires |tw| >= 1
  {
    (q: nat) => Mul(At(a, off + u, m)(q), W(tw, Prod3(q, t, s)))
  }

  /** Output t of the stage: the elements of t's column, each turned by its power of the root. */
  ghost function Radix(a: seq<Cpx>, off: int, tw: seq<Cpx>, s: int, p: nat, m: int, t: int): Cpx
    requires |tw| >= 1 && m >= 1
  {
    Sum(StageTerm(a, off, tw, s, m, t % m, t), p)
  }

  /** q1 -> output q1 of column u */
  ghost function Outputs(a: seq<Cpx>, off: int, tw: seq<Cpx>, s: int, p: nat, m: int, u: int): nat -> Cpx
    requires |tw| >= 1 && m >= 1
  {
    (q1: nat) => Radix(a, off, tw, s, p, m, u + Prod(q1, m))
  }

  /** The p * m elements from off. */
  ghost predicate InRange(i: int, off: int, p: int, m: int) {
    off <= i < off + Prod(p, m)
  }

  /** The array after a stage over the p * m elements from off. */
  ghost function Combine(a: seq<Cpx>, off: int, tw: seq<Cpx>, s: int, p: nat, m: int): (b: seq<Cpx>)
    requires |tw| >= 1 && m >= 1
    ensures |b| == |a|
  {
    seq(|a|, i requires 0 <= i < |a| => if InRange(i, off, p, m) then Radix(a, off, tw, s, p, m, i - off) else a[i])
  }

  /** Element i once the columns below u are in place. */
  ghost function Partial(a0: seq<Cpx>, off: int, tw: seq<Cpx>, s: int, p: nat, m: int, u: int, i: int): Cpx
    requires |tw| >= 1 && m >= 1
  {
    if InRange(i, off, p, m) && (i - off) % m < u then Radix(a0, off, tw, s, p, m, i - off) else Get(a0, i)
  }

  ghost predicate Progress(a0: seq<Cpx>, a: seq<Cpx>, off: int, tw: seq<Cpx>, s: int, p: nat, m: int, u: int)
    requires |tw| >= 1 && m >= 1
  {
    && |a| == |a0|
    && forall i :: 0 <= i < |a| ==> a[i] == Partial(a0, off, tw, s, p, m, u, i)
  }

  lemma ProgressStart(a0: seq<Cpx>, off: int, tw: seq<Cpx>, s: int, p: nat, m: int)
    requires |tw| >= 1 && m >= 1
    ensures Progress(a0, a0, off, tw, s, p, m, 0)
  {
    hide Radix, Prod;
  }

  /** The elements of column u are still the original ones when its turn comes. */
  lemma ColumnRead(a0: seq<Cpx>, a: seq<Cpx>, off: int, tw: seq<Cpx>, s: int, p: nat, m: int, u: int, q: nat)
    requires |tw| >= 1 && 0 <= u < m && q < p && 0 <= off && off + Prod(p, m) <= |a0|
    requires Progress(a0, a, off, tw, s, p, m, u)
    ensures 0 <= off + u + Prod(q, m) < |a| && a[off + u + Prod(q, m)] == At(a0, off + u, m)(q)
  {
    hide Radix, Prod;
    Index(u, q, p, m);
  }

  /** Writing the p outputs of column u, and nothing else, moves the stage on by one column. */
  lemma ColumnDone(a0: seq<Cpx>, a: seq<Cpx>, b: seq<Cpx>, off: int, tw: seq<Cpx>, s: int, p: nat, m: int, u: int)
    requires |tw| >= 1 && 0 <= u < m && 0 <= off && off + Prod(p, m) <= |a0|
    requires Progress(a0, a, off, tw, s, p, m, u) && |b| == |a|
    requires forall i :: 0 <= i < |a| && !(InRange(i, off, p, m) && (i - off) % m == u) ==> b[i] == a[i]
    requires forall q1: nat :: q1 < p ==> At(b, off + u, m)(q1) == Outputs(a0, off, tw, s, p, m, u)(q1)
    ensures Progress(a0, b, off, tw, s, p, m, u + 1)
  {
    hide Radix, Prod;
    forall i | 0 <= i < |a|
      ensures b[i] == Partial(a0, off, tw, s, p, m, u + 1, i)
    {
      if InRange(i, off, p, m) && (i - off) % m == u {
        Coordinates(i - off, p, m);
        var q1: nat := (i - off) / m;
        assert At(b, off + u, m)(q1) == b[i];
        assert Outputs(a0, off, tw, s, p, m, u)(q1) == Radix(a0, off, tw, s, p, m, i - off);
      }
    }
  }

  lemma AllColumns(a0: seq<Cpx>, a: seq<Cpx>, off: int, tw: seq<Cpx>, s: int, p: nat, m: int)
    requires |tw| >= 1 && m >= 1 && Progress(a0, a, off, tw, s, p, m, m)
    ensures a == Combine(a0, off, tw, s, p, m)
  {
    hide Radix, Prod;
    forall i | 0 <= i < |a|
      ensures a[i] == Combine(a0, off, tw, s, p, m)[i]
    {
      if InRange(i, off, p, m) { Coordinates(i - off, p, m); }
    }
  }

  /** Input q of the stage: x(q), x(q + p), x(q + 2 p), ... */
  ghost function Decimated(x: nat -> Cpx, p: nat, q: nat): nat -> Cpx {
    (j: nat) => x(q + Prod(j, p))
  }

  /** Term q + j * p of the long transform is term j of the q-th short one, turned by W(q * t * s). */
  lemma TermSplit(x: nat -> Cpx, tw: seq<Cpx>, s: nat, p: nat, m: nat, q: nat, j: nat, t: nat)
    requires IsTwiddleTable(tw) && m >= 1 && |tw| == Prod3(p, m, s)
    ensures Mul(DftTerm(Decimated(x, p, q), tw, Prod(s, p), t % m)(j), W(tw, Prod3(q, t, s)))
         == DftTerm(x, tw, s, t)(q + Prod(j, p))
  {
    hide Prod, Prod3, Mul, W;
    var u, q1 := t % m, t / m;
    DivMod(t, m);
    ExponentSplit(q, j, u, q1, p, m, s);
    var e1, e2 := Prod3(j, u, Prod(s, p)), Prod3(q, t, s);
    WMul(tw, e1, e2);
    WPeriod(tw, e1 + e2, Prod(j, q1));
    MulAssoc(x(q + Prod(j, p)), W(tw, e1), W(tw, e2));
  }

  ghost function ShortTerms(x: nat -> Cpx, tw: seq<Cpx>, s: nat, p: nat, t: nat): (nat, nat) -> Cpx
    requires |tw| >= 1
  {
    (q: nat, j: nat) => DftTerm(x, tw, s, t)(q + Prod(j, p))
  }

  lemma ShortTransform(x: nat -> Cpx, tw: seq<Cpx>, s: nat, p: nat, m: nat, q: nat, t: nat)
    requires IsTwiddleTable(tw) && m >= 1 && |tw| == Prod3(p, m, s)
    ensures Sum(Row(ShortTerms(x, tw, s, p, t), q), m)
         == Mul(Dft(Decimated(x, p, q), tw, Prod(s, p), m, t % m), W(tw, Prod3(q, t, s)))
  {
    hide Prod, Prod3, Mul, W, DftTerm;
    var w := W(tw, Prod3(q, t, s));
    var short := DftTerm(Decimated(x, p, q), tw, Prod(s, p), t % m);
    var row := Row(ShortTerms(x, tw, s, p, t), q);
    forall j: nat | j < m
      ensures row(j) == Mul(short(j), w)
    {
      TermSplit(x, tw, s, p, m, q, j, t);
    }
    SumMul(short, w, row, m);
  }

  /** Decimation in time: if column t % m of the array holds bin t % m of the p decimated
      transforms, output t of the stage is bin t of the whole one. */
  lemma MixedRadix(a: seq<Cpx>, off: int, x: nat -> Cpx, tw: seq<Cpx>, s: nat, p: nat, m: nat, t: nat)
    requires IsTwiddleTable(tw) && m >= 1 && |tw| == Prod3(p, m, s)
    requires forall q: nat :: q < p ==> At(a, off + t % m, m)(q) == Dft(Decimated(x, p, q), tw, Prod(s, p), m, t % m)
    ensures Radix(a, off, tw, s, p, m, t) == Dft(x, tw, s, Prod(m, p), t)
  {
    hide Prod, Prod3, Mul, W, At, Decimated, Dft;
    var f := ShortTerms(x, tw, s, p, t);
    var terms := StageTerm(a, off, tw, s, m, t % m, t);
    forall q: nat | q < p
      ensures terms(q) == RowSums(f, m)(q)
    {
      ShortTransform(x, tw, s, p, m, q, t);
    }
    SumExt(terms, RowSums(f, m), p);
    SumDecimate(DftTerm(x, tw, s, t), f, p, m);
    WholeDft(x, tw, s, Prod(m, p), t);
  }

  lemma WholeDft(x: nat -> Cpx, tw: seq<Cpx>, s: int, len: nat, t: int)
    requires |tw| >= 1
    ensures Dft(x, tw, s, len, t) == Sum(DftTerm(x, tw, s, t), len)
  {}
}
