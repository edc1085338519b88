/** Products and remainders of integers, named so that proofs can use them through their laws. */
module Arith {
  function Prod(a: int, b: int): (r: int)
    ensures a >= 0 && b >= 0 ==> r >= 0
  {
    a * b
  }

  function Prod3(a: int, b: int, c: int): (r: int)
    ensures a >= 0 && b >= 0 && c >= 0 ==> r >= 0
  {
    Prod(Prod(a, b), c)
  }

  lemma ProdSucc(a: int, b: int)
    ensures Prod(a, b + 1) == Prod(a, b) + a
    ensures Prod(a + 1, b) == Prod(a, b) + b
  {}

  lemma ProdSmall(a: int)
    ensures Prod(0, a) == 0 == Prod(a, 0)
    ensures Prod(1, a) == a == Prod(a, 1)
    ensures Prod(2, a) == 2 * a && Prod(3, a) == 3 * a && Prod(4, a) == 4 * a && Prod(5, a) == 5 * a
  {}

  lemma ProdMono(a: int, b: int, n: int)
    requires a <= b && n >= 0
    ensures Prod(a, n) <= Prod(b, n)
  {}

  lemma ProdComm(a: int, b: int)
    ensures Prod(a, b) == Prod(b, a)
  {}

  lemma ProdAdd(a: int, b: int, c: int)
    ensures Prod(a + b, c) == Prod(a, c) + Prod(b, c)
  {}

  lemma ProdAssoc(a: int, b: int, c: int)
    ensures Prod3(a, b, c) == Prod(Prod(a, b), c) == Prod(a, Prod(b, c))
  {}

  lemma DivMod(x: int, n: int)
    requires n >= 1
    ensures x == Prod(x / n, n) + x % n && 0 <= x % n < n
  {}

  /** Quotient and remainder are determined. */
  lemma ModUnique(x: int, q: int, r: int, n: int)
    requires n >= 1 && x == Prod(q, n) + r && 0 <= r < n
    ensures x % n == r && x / n == q
  {
    hide Prod;
    DivMod(x, n);
    ProdAdd(x / n, -q, n);
    ProdAdd(q, -q, n);
    ProdSmall(n);
    var d := x / n - q;
    if d >= 1 {
      ProdMono(1, d, n);
    } else if d <= -1 {
      ProdMono(d, -1, n);
      ProdAdd(-1, 1, n);
    }
  }

  lemma ModAdd(a: int, b: int, n: int)
    requires n >= 1
    ensures (a % n + b % n) % n == (a + b) % n
  {
    hide Prod;
    DivMod(a, n);
    DivMod(b, n);
    var r := a % n + b % n;
    DivMod(r, n);
    ProdAdd(a / n, b / n, n);
    ProdAdd(a / n + b / n, r / n, n);
    ModUnique(a + b, a / n + b / n + r / n, r % n, n);
  }

  lemma ModPeriod(e: int, t: int, n: int)
    requires n >= 1
    ensures (e + Prod(t, n)) % n == e % n
  {
    hide Prod;
    DivMod(e, n);
    ProdAdd(e / n, t, n);
    ModUnique(e + Prod(t, n), e / n + t, e % n, n);
  }

  /** The row and column of t in a grid of p rows of length m. */
  lemma Coordinates(t: int, p: int, m: int)
    requires m >= 1 && 0 <= t < Prod(p, m)
    ensures t == t % m + Prod(t / m, m) && 0 <= t % m < m && 0 <= t / m < p
  {
    hide Prod;
    DivMod(t, m);
    ProdSmall(m);
    if t / m >= p {
      ProdMono(p, t / m, m);
    }
    if t / m <= -1 {
      ProdMono(t / m, -1, m);
      ProdAdd(-1, 1, m);
    }
  }

  lemma Index(u: int, q: int, p: int, m: int)
    requires 0 <= u < m && 0 <= q < p
    ensures (u + Prod(q, m)) % m == u && (u + Prod(q, m)) / m == q && 0 <= u + Prod(q, m) < Prod(p, m)
  {
    hide Prod;
    ModUnique(u + Prod(q, m), q, u, m);
    ProdMono(q, p - 1, m);
    ProdMono(0, q, m);
    ProdSmall(m);
    ProdSucc(p - 1, m);
  }

  /** (q + j p)(u + q1 m) s, with the whole turns p m s split off. */
  lemma ExponentSplit(q: int, j: int, u: int, q1: int, p: int, m: int, s: int)
    ensures Prod3(q + Prod(j, p), u + Prod(q1, m), s)
         == Prod3(j, u, Prod(s, p)) + Prod3(q, u + Prod(q1, m), s) + Prod(Prod(j, q1), Prod3(p, m, s))
  {
    ExpandSplit(q, j, u, q1, p, m, s);
  }

  lemma ExpandSplit(q: int, j: int, u: int, q1: int, p: int, m: int, s: int)
    ensures (q + j * p) * (u + q1 * m) * s == j * u * (s * p) + q * (u + q1 * m) * s + j * q1 * (p * m * s)
  {}

  lemma ExponentColumn(q: int, u: int, q1: int, m: int, s: int)
    ensures Prod3(q, u + Prod(q1, m), s) == Prod3(q, u, s) + Prod(Prod(q, q1), Prod(m, s))
  {
    ExpandColumn(q, u, q1, m, s);
  }

  lemma ExpandColumn(q: int, u: int, q1: int, m: int, s: int)
    ensures q * (u + q1 * m) * s == q * u * s + q * q1 * (m * s)
  {}

  lemma IndexBound(q: int, u: int, p: int, m: int, s: int)
    requires 0 <= q < p && 0 <= u < m && s >= 1
    ensures 0 <= Prod3(q, u, s) < Prod3(p, m, s)
  {
    hide Prod, Prod3;
    ProdAssoc(q, u, s);
    ProdAssoc(p, m, s);
    ProdMono(q, p - 1, u);
    ProdMono(0, q, u);
    ProdMono(u, m - 1, p - 1);
    ProdComm(u, p - 1);
    ProdComm(m - 1, p - 1);
    ProdSucc(p - 1, m - 1);
    ProdSucc(p, m - 1);
    ProdSmall(u);
    ProdSmall(s);
    ProdMono(Prod(q, u), Prod(p, m) - 1, s);
    ProdMono(0, Prod(q, u), s);
    ProdSucc(Prod(p, m) - 1, s);
  }
}
