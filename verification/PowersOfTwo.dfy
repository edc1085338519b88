/** ceilToPow2 of readerwriterqueue.h, with its shifts and ors on natural numbers. */
module PowersOfTwo {
  import opened Arith
  import opened Blocks

  function Pow2(n: nat): (r: nat)
    ensures r >= 1
  {
    if n == 0 then 1 else 2 * Pow2(n - 1)
  }

  /** Bitwise or. */
  function Or(a: nat, b: nat): nat
    decreases a + b
  {
    if a == 0 then b
    else if b == 0 then a
    else 2 * Or(a / 2, b / 2) + if a % 2 == 1 || b % 2 == 1 then 1 else 0
  }

  /** x >> k */
  function Shr(x: nat, k: nat): nat {
    if k == 0 then x else Shr(x / 2, k - 1)
  }

  lemma {:induction false} OrBounds(a: nat, b: nat, m: nat)
    requires a < Pow2(m) && b < Pow2(m)
    ensures a <= Or(a, b) && b <= Or(a, b) < Pow2(m)
    decreases m
  {
    if a == 0 || b == 0 {
    } else {
      OrBounds(a / 2, b / 2, m - 1);
    }
  }

  /** Bits above those of b stay as they are. */
  lemma {:induction false} OrHigh(hi: nat, m: nat, a: nat, b: nat)
    requires a < Pow2(m) && b < Pow2(m)
    ensures Or(Prod(hi, Pow2(m)) + a, b) == Prod(hi, Pow2(m)) + Or(a, b)
    decreases m
  {
    hide Prod;
    if m == 0 {
      ProdSmall(hi);
    } else {
      var p := Pow2(m - 1);
      ProdComm(hi, 2 * p);
      ProdComm(hi, p);
      ProdAdd(p, p, hi);
      OrHigh(hi, m - 1, a / 2, b / 2);
      Halves(Prod(hi, p), a);
      ProdMono(0, hi, p);
      OrStep(2 * Prod(hi, p) + a, b);
      OrStep(a, b);
    }
  }

  lemma Halves(h: nat, a: nat)
    ensures (2 * h + a) / 2 == h + a / 2 && (2 * h + a) % 2 == a % 2
  {}

  lemma OrStep(a: nat, b: nat)
    ensures Or(a, b) == 2 * Or(a / 2, b / 2) + if a % 2 == 1 || b % 2 == 1 then 1 else 0
  {}

  /** x >> w for an x between 2^n - 2^k and 2^n, with n = k + w. */
  lemma {:induction false} ShrSplit(x: nat, n: nat, k: nat, w: nat)
    requires k + w == n && Pow2(n) - Pow2(k) <= x < Pow2(n)
    ensures Pow2(k) - Pow2(if k >= w then k - w else 0) <= Shr(x, w) < Pow2(k)
  {
    ShrTimes(x, w);
    Pow2Add(k, w);
    if k >= w {
      Pow2Add(k - w, w);
      Quotient(Shr(x, w), Pow2(w), x, Pow2(k), Pow2(k - w));
    } else {
      Pow2Mono(k, w);
      Quotient(Shr(x, w), Pow2(w), x, Pow2(k), 1);
    }
  }

  /** s = x / p between (q p - r p) / p and q. */
  lemma Quotient(s: nat, p: nat, x: nat, q: nat, r: nat)
    requires p >= 1 && Prod(s, p) <= x < Prod(s + 1, p) && Prod(q, p) - Prod(r, p) <= x < Prod(q, p)
    ensures q - r <= s < q
  {
    hide Prod;
    if s >= q {
      ProdMono(q, s, p);
    }
    if s + 1 <= q - r {
      ProdMono(s + 1, q - r, p);
      ProdAdd(q - r, r, p);
    }
  }

  lemma {:induction false} ShrTimes(x: nat, w: nat)
    ensures Prod(Shr(x, w), Pow2(w)) <= x < Prod(Shr(x, w) + 1, Pow2(w))
    decreases w
  {
    hide Prod;
    if w == 0 {
      ProdSmall(x);
      ProdSmall(x + 1);
    } else {
      var s, p := Shr(x / 2, w - 1), Pow2(w - 1);
      ShrTimes(x / 2, w - 1);
      ProdComm(s, 2 * p);
      ProdComm(s, p);
      ProdComm(s + 1, 2 * p);
      ProdComm(s + 1, p);
      ProdAdd(p, p, s);
      ProdAdd(p, p, s + 1);
    }
  }

  lemma {:induction false} Pow2Add(a: nat, b: nat)
    ensures Pow2(a + b) == Prod(Pow2(a), Pow2(b))
    decreases b
  {
    hide Prod;
    if b == 0 {
      ProdSmall(Pow2(a));
    } else {
      Pow2Add(a, b - 1);
      var p := Pow2(b - 1);
      ProdComm(Pow2(a), 2 * p);
      ProdComm(Pow2(a), p);
      ProdAdd(p, p, Pow2(a));
    }
  }

  lemma {:induction false} Pow2Mono(a: nat, b: nat)
    requires a <= b
    ensures Pow2(a) <= Pow2(b)
    decreases b
  {
    if a < b {
      Pow2Mono(a, b - 1);
    }
  }

  /** The w highest of the n bits of x are set. */
  predicate Smeared(x: nat, n: nat, w: nat) {
    Pow2(n) - Pow2(if n >= w then n - w else 0) <= x < Pow2(n)
  }

  /** x |= x >> w doubles the number of set bits at the top. */
  lemma SmearStep(x: nat, n: nat, w: nat)
    requires Smeared(x, n, w)
    ensures Smeared(Or(x, Shr(x, w)), n, 2 * w)
  {
    var k := if n >= w then n - w else 0;
    var s := Shr(x, w);
    hide Prod, Or, Shr;
    if k == 0 {
      ShrLess(x, w);
      OrBounds(x, s, n);
    } else {
      ShrSplit(x, n, k, w);
      Pow2Add(w, k);
      ProdAdd(Pow2(w) - 1, 1, Pow2(k));
      ProdSmall(Pow2(k));
      var lo: nat := x - Prod(Pow2(w) - 1, Pow2(k));
      OrHigh(Pow2(w) - 1, k, lo, s);
      OrBounds(lo, s, k);
    }
  }

  lemma {:induction false} ShrLess(x: nat, w: nat)
    ensures Shr(x, w) <= x
    decreases w
  {
    if w > 0 {
      ShrLess(x / 2, w - 1);
    }
  }

  /** The number of bits of y. */
  lemma {:induction false} BitsOf(y: nat, limit: nat) returns (n: nat)
    requires y < Pow2(limit)
    ensures n <= limit && Smeared(y, n, 1) && (n >= 1 ==> Pow2(n - 1) <= y) && (n == 0 ==> y == 0)
    decreases limit
  {
    if limit == 0 {
      n := 0;
    } else if y < Pow2(limit - 1) {
      n := BitsOf(y, limit - 1);
    } else {
      n := limit;
    }
  }

  lemma {:induction false} Pow2IsPower(n: nat)
    ensures PowerOfTwo(Pow2(n))
    decreases n
  {
    if n > 0 {
      Pow2IsPower(n - 1);
    }
  }

  /** ceilToPow2 on a size_t of eight bytes: the least power of two that is not below x0. */
  method CeilToPow2Loop(x0: nat) returns (x: nat)
    requires 1 <= x0 <= Pow2(63)
    ensures x == CeilToPow2(x0)
  {
    hide Pow2, Or, Shr, Smeared;
    x := x0 - 1;
    ghost var n := BitsOf(x, 63);
    SmearStep(x, n, 1);
    x := Or(x, Shr(x, 1));
    SmearStep(x, n, 2);
    x := Or(x, Shr(x, 2));
    SmearStep(x, n, 4);
    x := Or(x, Shr(x, 4));
    var i := 1;
    while i < 8
      invariant i == 1 || i == 2 || i == 4 || i == 8
      invariant Smeared(x, n, 8 * i)
    {
      SmearStep(x, n, 8 * i);
      x := Or(x, Shr(x, 8 * i));
      i := 2 * i;
    }
    AllSet(x, n);
    Pow2IsPower(n);
    Rounded(x0, n);
    x := x + 1;
    LeastPower(x, CeilToPow2(x0), x0);
  }

  lemma {:induction false} PowersGap(p: nat, q: nat)
    requires PowerOfTwo(p) && PowerOfTwo(q) && p < q
    ensures p <= q / 2
    decreases p
  {
    if p > 1 {
      PowersGap(p / 2, q / 2);
    }
  }

  /** There is one least power of two. */
  lemma LeastPower(p: nat, q: nat, x: nat)
    requires PowerOfTwo(p) && p >= x && (p == 1 || p / 2 < x) && PowerOfTwo(q) && q >= x && (q == 1 || q / 2 < x) && x >= 1
    ensures p == q
  {
    if p < q {
      PowersGap(p, q);
    } else if q < p {
      PowersGap(q, p);
    }
  }

  lemma AllSet(x: nat, n: nat)
    requires Smeared(x, n, 64) && n <= 63
    ensures x + 1 == Pow2(n)
  {
    assert Pow2(0) == 1;
  }

  lemma Rounded(x0: nat, n: nat)
    requires x0 >= 1 && Smeared(x0 - 1, n, 1) && (n >= 1 ==> Pow2(n - 1) <= x0 - 1)
    ensures x0 <= Pow2(n) && (n == 0 ==> Pow2(n) == 1) && (n >= 1 ==> Pow2(n) / 2 < x0)
  {}
}
