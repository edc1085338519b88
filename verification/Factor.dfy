/** The factorisers of kissfft: kf_factor of kiss_fft.c and traits::prepare of kissfft.hh. Their different early
    exits are shown to be shortcuts of one plain trial division. */
module Factor {
  import opened Arith

  /** MAXFACTORS of _kiss_fft_guts.h */
  const MAX_FACTORS := 32

  /** A radix and the length that remains after it. */
  datatype Radix = Radix(p: nat, m: nat)

  /** The trial divisors in order: 4, 2, 3, 5, 7, 9, ... */
  function NextTrial(p: nat): (q: nat)
    ensures q >= 2
  {
    if p == 4 then 2 else if p == 2 then 3 else p + 2
  }

  ghost predicate Divides(d: nat, n: nat) {
    d != 0 && n % d == 0
  }

  ghost predicate IsPrime(p: nat) {
    p >= 2 && forall d: nat :: 2 <= d < p ==> !Divides(d, p)
  }

  /** No divisor that comes before p divides n. */
  ghost predicate Tried(n: nat, p: nat) {
    || p == 4
    || (p == 2 && !Divides(4, n))
    || (p % 2 == 1 && p >= 3 && forall d: nat :: 2 <= d < p ==> !Divides(d, n))
  }

  lemma TriedBound(n: nat, p: nat)
    requires n >= 2 && Tried(n, p) && p % 2 == 1
    ensures p <= n
  {
    assert Divides(n, n);
  }

  lemma TriedNext(n: nat, p: nat)
    requires n >= 2 && Tried(n, p) && !Divides(p, n)
    ensures Tried(n, NextTrial(p))
  {
    hide Divides;
    if p == 2 {
      forall d: nat | 2 <= d < 3
        ensures !Divides(d, n)
      {
        assert d == 2;
      }
    } else if p % 2 == 1 {
      forall d: nat | 2 <= d < p + 2
        ensures !Divides(d, n)
      {
        if d == p + 1 {
          if Divides(d, n) { EvenDivides(d, n); }
        }
      }
    }
  }

  lemma EvenDivides(d: nat, n: nat)
    requires d % 2 == 0 && Divides(d, n)
    ensures Divides(2, n)
  {
    hide Prod;
    var h := d / 2;
    DivMod(n, d);
    ProdAdd(h, h, n / d);
    ProdComm(n / d, d);
  }

  lemma DividesTrans(a: nat, b: nat, c: nat)
    requires Divides(a, b) && Divides(b, c)
    ensures Divides(a, c)
  {
    hide Prod;
    DivMod(b, a);
    DivMod(c, b);
    ProdAssoc(c / b, b / a, a);
    ModUnique(c, Prod(c / b, b / a), 0, a);
  }

  /** The quotient by a divisor divides too. */
  lemma CoDivisor(d: nat, n: nat)
    requires n >= 1 && Divides(d, n)
    ensures 1 <= n / d && Divides(n / d, n) && Prod(n / d, d) == n
    ensures d >= 2 ==> n / d < n
  {
    hide Prod;
    DivMod(n, d);
    ProdSmall(d);
    ProdSmall(n / d);
    if n / d <= 0 {
      ProdMono(n / d, 0, d);
    }
    ProdComm(n / d, d);
    ModUnique(n, d, 0, n / d);
    if d >= 2 {
      ProdMono(2, d, n / d);
    }
  }

  /** The first trial divisor from p on that divides n. */
  ghost function FirstRadix(n: nat, p: nat): (r: nat)
    requires n >= 2 && Tried(n, p)
    ensures r >= 2 && Divides(r, n) && Tried(n, r) && (p % 2 == 1 ==> r >= p)
    decreases if p == 4 then n + 2 else if p == 2 then n + 1 else n - p
  {
    if Divides(p, n) then p
    else
      TriedNext(n, p);
      assert NextTrial(p) % 2 == 1 ==> NextTrial(p) <= n by {
        if NextTrial(p) % 2 == 1 { TriedBound(n, NextTrial(p)); }
      }
      FirstRadix(n, NextTrial(p))
  }

  lemma TriedQuotient(n: nat, p: nat)
    requires n >= 2 && Tried(n, p) && Divides(p, n)
    ensures 1 <= n / p < n && Tried(n / p, p)
  {
    CoDivisor(p, n);
    if p == 2 {
      if Divides(4, n / 2) { DividesTrans(4, n / 2, n); }
    } else if p != 4 {
      forall d: nat | 2 <= d < p
        ensures !Divides(d, n / p)
      {
        if Divides(d, n / p) { DividesTrans(d, n / p, n); }
      }
    }
  }

  /** Plain trial division: every trial divisor in turn, as often as it divides. */
  ghost function Radices(n: nat, p: nat): (s: seq<Radix>)
    requires n >= 1 && Tried(n, p)
    decreases n
  {
    if n == 1 then []
    else
      var r := FirstRadix(n, p);
      TriedQuotient(n, r);
      [Radix(r, n / r)] + Radices(n / r, r)
  }

  /** What both factorisers return: the one radix 1 for length 1, trial division otherwise. */
  ghost function Factors(n: nat): seq<Radix>
    requires n >= 1
  {
    if n == 1 then [Radix(1, 1)] else Radices(n, 4)
  }

  /** Beyond the square root there is only n itself left. */
  lemma BeyondRoot(n: nat, p: nat)
    requires n >= 2 && Tried(n, p) && p % 2 == 1 && Prod(p, p) > n
    ensures FirstRadix(n, p) == n
  {
    hide Prod;
    var r := FirstRadix(n, p);
    CoDivisor(r, n);
    var c := n / r;
    if c >= 2 {
      ProdMono(p, c, r);
      ProdMono(p, r, p);
      ProdComm(p, r);
    } else {
      assert c == 1;
      ProdSmall(r);
    }
  }

  /** The early exit of both loops: once the trial divisor passes a bound above the square root, n is taken whole. */
  lemma EarlyExit(n: nat, p: nat)
    requires n >= 2 && Tried(n, p) && p != 4 && Prod(p, p) > n
    ensures FirstRadix(n, p) == n
  {
    if p == 2 {
      assert n == 2 || n == 3;
      if n == 3 {
        assert !Divides(2, 3);
        TriedNext(3, 2);
        assert FirstRadix(3, 2) == FirstRadix(3, 3);
        assert Divides(3, 3);
      }
    } else {
      BeyondRoot(n, p);
    }
  }

  // ---- what the list is ----

  ghost function Product(s: seq<Radix>): nat {
    if s == [] then 1 else Prod(s[0].p, Product(s[1..]))
  }

  /** p[0] * m[0] = n, p[i] * m[i] = m[i - 1], and the last m is 1. */
  ghost predicate Chain(s: seq<Radix>, n: nat) {
    if s == [] then n == 1 else Prod(s[0].p, s[0].m) == n && Chain(s[1..], s[0].m)
  }

  ghost predicate IsRadix(p: nat) {
    p == 4 || p == 2 || (p % 2 == 1 && IsPrime(p))
  }

  /** The first trial divisor that divides is 4, 2 or an odd prime. */
  lemma FirstRadixPrime(n: nat, p: nat)
    requires n >= 2 && Tried(n, p)
    ensures IsRadix(FirstRadix(n, p))
  {
    var r := FirstRadix(n, p);
    if r != 4 && r != 2 {
      forall d: nat | 2 <= d < r
        ensures !Divides(d, r)
      {
        if Divides(d, r) { DividesTrans(d, r, n); }
      }
    }
  }

  lemma {:induction false} RadicesChain(n: nat, p: nat)
    requires n >= 1 && Tried(n, p)
    ensures Chain(Radices(n, p), n) && Product(Radices(n, p)) == n
    ensures forall i :: 0 <= i < |Radices(n, p)| ==> IsRadix(Radices(n, p)[i].p)
  {
    hide Divides, IsRadix, Prod;
    if n > 1 {
      var r := FirstRadix(n, p);
      TriedQuotient(n, r);
      CoDivisor(r, n);
      ProdComm(r, n / r);
      FirstRadixPrime(n, p);
      RadicesChain(n / r, r);
      assert Radices(n, p)[1..] == Radices(n / r, r);
    }
  }

  /** r comes no earlier than p among the trial divisors. */
  ghost predicate NotBefore(p: nat, r: nat) {
    p == 4 || (p == 2 && r != 4) || (p % 2 == 1 && r % 2 == 1 && p <= r)
  }

  lemma FirstRadixOrder(n: nat, p: nat)
    requires n >= 2 && Tried(n, p)
    ensures NotBefore(p, FirstRadix(n, p))
  {
    var r := FirstRadix(n, p);
    if p % 2 == 1 && r % 2 == 0 {
      EvenDivides(r, n);
    }
  }

  lemma {:induction false} RadixDivides(n: nat, p: nat, j: nat)
    requires n >= 1 && Tried(n, p) && j < |Radices(n, p)|
    ensures Divides(Radices(n, p)[j].p, n) && NotBefore(p, Radices(n, p)[j].p)
    decreases n
  {
    hide Divides, Prod;
    var r := FirstRadix(n, p);
    TriedQuotient(n, r);
    FirstRadixOrder(n, p);
    if j > 0 {
      RadixDivides(n / r, r, j - 1);
      CoDivisor(r, n);
      DividesTrans(Radices(n, p)[j].p, n / r, n);
    }
  }

  ghost predicate InOrder(q: nat, r: nat) {
    q == 4 || (q == 2 && r % 2 == 1) || (3 <= q <= r && q % 2 == r % 2 == 1)
  }

  /** The first radix and one of the rest. */
  lemma HeadOrder(n: nat, p: nat, last: nat)
    requires n >= 2 && Tried(n, p)
    requires var r := FirstRadix(n, p); r != 0 && Divides(last, n / r) && NotBefore(r, last)
    ensures InOrder(FirstRadix(n, p), last)
  {
    hide FirstRadix;
    var r := FirstRadix(n, p);
    if r == 2 {
      HalfOdd(n);
      if last % 2 == 0 {
        EvenDivides(last, n / 2);
      }
    }
  }

  lemma {:induction false} RadicesOrder(n: nat, p: nat, i: nat, j: nat)
    requires n >= 1 && Tried(n, p) && i < j < |Radices(n, p)|
    ensures InOrder(Radices(n, p)[i].p, Radices(n, p)[j].p)
    decreases n
  {
    hide Divides, Prod, InOrder, NotBefore;
    var r := FirstRadix(n, p);
    TriedQuotient(n, r);
    if i > 0 {
      RadicesOrder(n / r, r, i - 1, j - 1);
    } else {
      RadixDivides(n / r, r, j - 1);
      HeadOrder(n, p, Radices(n, p)[j].p);
    }
  }

  /** The radices come in order: first the 4s, then at most one 2, then odd primes from the smallest on. */
  lemma FactorsOrder(n: nat, i: nat, j: nat)
    requires n >= 2 && i < j < |Factors(n)|
    ensures var q, r := Factors(n)[i].p, Factors(n)[j].p; q == 4 || (q == 2 && r % 2 == 1) || (3 <= q <= r && q % 2 == r % 2 == 1)
  {
    RadicesOrder(n, 4, i, j);
  }

  /** The factor list multiplies to n, its remainders chain, and each radix is 4, 2 or an odd prime. */
  lemma FactorsChain(n: nat)
    requires n >= 1
    ensures Chain(Factors(n), n) && Product(Factors(n)) == n
    ensures n >= 2 ==> forall i :: 0 <= i < |Factors(n)| ==> IsRadix(Factors(n)[i].p)
  {
    if n == 1 {
      ProdSmall(1);
    } else {
      RadicesChain(n, 4);
    }
  }

  ghost function Pow3(k: nat): nat {
    if k == 0 then 1 else 3 * Pow3(k - 1)
  }

  /** Each radix past the powers of two is at least 3. */
  lemma {:induction false} OddCount(n: nat, p: nat)
    requires n >= 1 && Tried(n, p) && p % 2 == 1
    ensures Pow3(|Radices(n, p)|) <= n
  {
    hide Divides, Prod;
    if n > 1 {
      var r := FirstRadix(n, p);
      TriedQuotient(n, r);
      CoDivisor(r, n);
      OddCount(n / r, r);
      ProdComm(n / r, r);
      ProdMono(3, r, n / r);
      ProdSmall(n / r);
    }
  }

  /** At most one radix is 2, and two radices 4 weigh more than two radices 3. */
  lemma {:induction false} EvenCount(n: nat, p: nat)
    requires n >= 2 && Tried(n, p)
    ensures |Radices(n, p)| >= 1 && 2 * Pow3(|Radices(n, p)| - 1) <= n
  {
    hide Divides, Prod;
    var r := FirstRadix(n, p);
    TriedQuotient(n, r);
    CoDivisor(r, n);
    ProdComm(n / r, r);
    ProdSmall(n / r);
    if r % 2 == 1 {
      OddCount(n / r, r);
      ProdMono(3, r, n / r);
    } else if n / r >= 2 {
      EvenCount(n / r, r);
      if r == 2 { HalfOdd(n); OddStart(n / 2); }
    }
  }

  lemma HalfOdd(n: nat)
    requires n >= 1 && Divides(2, n) && !Divides(4, n)
    ensures !Divides(2, n / 2)
  {}

  /** An odd length goes straight to the odd radices. */
  lemma OddStart(n: nat)
    requires n >= 2 && !Divides(2, n) && Tried(n, 2)
    ensures Pow3(|Radices(n, 2)|) <= n
  {
    TriedNext(n, 2);
    assert FirstRadix(n, 2) == FirstRadix(n, 3);
    OddCount(n, 3);
    assert Radices(n, 2) == Radices(n, 3);
  }

  /** A 31-bit length has at most 19 radices, so the table of MAX_FACTORS pairs is never overrun. */
  lemma FactorsFit(n: nat)
    requires 1 <= n < 0x8000_0000
    ensures 1 <= |Factors(n)| <= 19 < MAX_FACTORS
  {
    if n >= 2 {
      EvenCount(n, 4);
      Pow3Table();
      if |Factors(n)| >= 20 { Pow3Mono(19, |Factors(n)| - 1); }
    }
  }

  lemma Pow3Table()
    ensures Pow3(19) == 1162261467
  {
    assert Pow3(4) == 81;
    assert Pow3(8) == 6561 by { assert Pow3(6) == 729; }
    assert Pow3(12) == 531441 by { assert Pow3(10) == 59049; }
    assert Pow3(16) == 43046721 by { assert Pow3(14) == 4782969; }
    assert Pow3(18) == 387420489;
  }

  lemma {:induction false} Pow3Mono(a: nat, b: nat)
    requires a <= b
    ensures Pow3(a) <= Pow3(b)
  {
    if a < b { Pow3Mono(a, b - 1); }
  }

  // ---- the loops ----

  /** p1, m1, p2, m2, ... as kf_factor stores them */
  ghost function Flat(s: seq<Radix>): (f: seq<int>)
    ensures |f| == 2 * |s|
  {
    if s == [] then [] else [s[0].p, s[0].m] + Flat(s[1..])
  }

  lemma {:induction false} FlatAppend(s: seq<Radix>, r: Radix)
    ensures Flat(s + [r]) == Flat(s) + [r.p, r.m]
  {
    if s == [] {
      assert s + [r] == [r];
    } else {
      FlatAppend(s[1..], r);
      assert (s + [r])[1..] == s[1..] + [r];
    }
  }

  /** What is still to be found from (n, p) on. */
  ghost function Rest(n: nat, p: nat, n0: nat): seq<Radix>
    requires n0 >= 1 && (n >= 2 ==> Tried(n, p)) && n >= 1
  {
    if n0 == 1 then [Radix(1, 1)] else if n == 1 then [] else Radices(n, p)
  }

  /** The trial divisor p leads to the radix r of n, either by trial or because it already jumped to n. */
  ghost predicate Seeking(n: nat, p: nat, r: nat) {
    p >= 1 && if n <= 1 then n == 1 && r == 1 && (p == 4 || p == 1)
              else r >= 2 && Divides(r, n) && (p == r || (Tried(n, p) && FirstRadix(n, p) == r))
  }

  lemma SeekingEnds(n: nat, p: nat, r: nat)
    requires Seeking(n, p, r) && n % p == 0
    ensures p == r
  {}

  /** One step of the inner loop: the next trial divisor, cut short at n when it passes the bound. */
  lemma SeekingNext(n: nat, p: nat, r: nat, q: nat, beyond: bool)
    requires Seeking(n, p, r) && n % p != 0 && q == NextTrial(p)
    requires beyond ==> Prod(q, q) > n
    requires n == 1 ==> beyond
    ensures Seeking(n, if beyond then n else q, r)
    ensures Measure(n, if beyond then n else q) < Measure(n, p)
  {
    if n >= 2 {
      TriedNext(n, p);
      assert FirstRadix(n, p) == FirstRadix(n, q);
      if beyond {
        EarlyExit(n, q);
      } else if q % 2 == 1 {
        TriedBound(n, q);
      }
    }
  }

  ghost function Measure(n: nat, p: nat): nat {
    if p == 4 then n + 2 else if p == 2 then n + 1 else if p <= n then n - p else 0
  }

  /** The bound is the floor of the square root of the length that the factoriser started from. */
  method KfFactor(nfft: nat, floorSqrt: nat, facbuf: array<int>)
    requires 1 <= nfft < 0x8000_0000 && facbuf.Length == 2 * MAX_FACTORS
    requires Prod(floorSqrt, floorSqrt) <= nfft < Prod(floorSqrt + 1, floorSqrt + 1)
    modifies facbuf
    ensures 2 * |Factors(nfft)| <= facbuf.Length && facbuf[..2 * |Factors(nfft)|] == Flat(Factors(nfft))
  {
    hide Prod, Divides, Tried, Radices, FirstRadix, Factors, Flat, Rest, Seeking, NextTrial;
    FactorsFit(nfft);
    var n, p, at := nfft, 4, 0;
    ghost var done: seq<Radix> := [];
    FourTried(nfft);
    RestStart(nfft);
    while true
      invariant 1 <= n <= nfft && p >= 1 && (n == 1 ==> nfft == 1 && p == 4) && (n >= 2 ==> Tried(n, p))
      invariant done + Rest(n, p, nfft) == Factors(nfft)
      invariant at == 2 * |done| <= facbuf.Length && facbuf[..at] == Flat(done)
      decreases n
    {
      ghost var r := RestHead(n, p, nfft);
      while n % p != 0
        invariant p >= 1 && Seeking(n, p, r) && facbuf[..at] == Flat(done)
        decreases Measure(n, p)
      {
        var q := NextTrial(p);
        Beyond(q, floorSqrt, n, nfft);
        SeekingNext(n, p, r, q, q > floorSqrt);
        p := q;
        if p > floorSqrt {
          p := n;
        }
      }
      SeekingEnds(n, p, r);
      n := n / p;
      Split(done, Radix(p, n), if n == 1 then [] else Rest(n, p, nfft));
      Stored(facbuf[..], at, done, p, n);
      facbuf[at] := p;
      facbuf[at + 1] := n;
      done := done + [Radix(p, n)];
      at := at + 2;
      if n <= 1 { break; }
    }
  }

  lemma Split(done: seq<Radix>, x: Radix, rest: seq<Radix>)
    ensures done + ([x] + rest) == (done + [x]) + rest
    ensures |done + ([x] + rest)| >= |done| + 1
    ensures rest == [] ==> done + ([x] + rest) == done + [x]
  {}

  lemma Stored(buf: seq<int>, at: nat, done: seq<Radix>, p: nat, n: nat)
    requires at == 2 * |done| && at + 1 < |buf| && buf[..at] == Flat(done)
    ensures buf[at := p][at + 1 := n][..at + 2] == Flat(done + [Radix(p, n)])
  {
    FlatAppend(done, Radix(p, n));
    assert buf[at := p][at + 1 := n][..at + 2] == buf[..at] + [p, n];
  }

  lemma FourTried(n: nat)
    ensures Tried(n, 4)
  {}

  lemma RestStart(n: nat)
    requires n >= 1
    ensures Tried(n, 4) && Rest(n, 4, n) == Factors(n)
  {}

  /** The first entry still to be found. */
  lemma RestHead(n: nat, p: nat, n0: nat) returns (r: nat)
    requires 1 <= n <= n0 && (n == 1 ==> n0 == 1 && p == 4) && (n >= 2 ==> Tried(n, p))
    ensures Seeking(n, p, r) && r >= 1 && 1 <= n / r && (n >= 2 ==> n / r < n) && (n / r >= 2 ==> Tried(n / r, r))
    ensures Rest(n, p, n0) == [Radix(r, n / r)] + (if n / r == 1 then [] else Rest(n / r, r, n0))
  {
    if n == 1 {
      r := 1;
      assert [Radix(1, 1)] == [Radix(1, 1)] + [];
    } else {
      r := FirstRadix(n, p);
      TriedQuotient(n, r);
      assert Radices(n, p) == [Radix(r, n / r)] + Radices(n / r, r);
    }
  }

  lemma Beyond(q: nat, floorSqrt: nat, n: nat, nfft: nat)
    requires n <= nfft < Prod(floorSqrt + 1, floorSqrt + 1)
    ensures q > floorSqrt ==> Prod(q, q) > n
    ensures nfft == 1 && q >= 2 && Prod(floorSqrt, floorSqrt) <= nfft ==> q > floorSqrt
  {
    hide Prod;
    if q > floorSqrt {
      ProdMono(floorSqrt + 1, q, floorSqrt + 1);
      ProdMono(floorSqrt + 1, q, q);
      ProdComm(q, floorSqrt + 1);
    } else if q >= 2 {
      ProdMono(2, floorSqrt, floorSqrt);
      ProdSmall(floorSqrt);
    }
  }

  ghost function Ps(s: seq<Radix>): seq<nat> {
    seq(|s|, i requires 0 <= i < |s| => s[i].p)
  }

  ghost function Ms(s: seq<Radix>): seq<nat> {
    seq(|s|, i requires 0 <= i < |s| => s[i].m)
  }

  lemma PsAppend(s: seq<Radix>, r: Radix)
    ensures Ps(s + [r]) == Ps(s) + [r.p] && Ms(s + [r]) == Ms(s) + [r.m]
  {}

  /** traits::prepare stops its trial at p * p > n for what is left of n, not for the whole length, and still
      pushes the same radices and remainders. */
  method Prepare(nfft: nat) returns (stageRadix: seq<nat>, stageRemainder: seq<nat>)
    requires nfft >= 1
    ensures stageRadix == Ps(Factors(nfft)) && stageRemainder == Ms(Factors(nfft))
  {
    hide Prod, Divides, Tried, Radices, FirstRadix, Factors, Rest, Seeking, NextTrial, Ps, Ms;
    var n, p := nfft, 4;
    stageRadix, stageRemainder := [], [];
    ghost var done: seq<Radix> := [];
    EmptyLists();
    RestStart(nfft);
    while true
      invariant 1 <= n <= nfft && p >= 1 && (n == 1 ==> nfft == 1 && p == 4) && (n >= 2 ==> Tried(n, p))
      invariant done + Rest(n, p, nfft) == Factors(nfft)
      invariant stageRadix == Ps(done) && stageRemainder == Ms(done)
      decreases n
    {
      ghost var r := RestHead(n, p, nfft);
      while n % p != 0
        invariant p >= 1 && Seeking(n, p, r)
        decreases Measure(n, p)
      {
        var q := NextTrial(p);
        SquareAboveOne(q);
        SeekingNext(n, p, r, q, Prod(q, q) > n);
        p := q;
        if Prod(p, p) > n {
          p := n;
        }
      }
      SeekingEnds(n, p, r);
      n := n / p;
      Split(done, Radix(p, n), if n == 1 then [] else Rest(n, p, nfft));
      PsAppend(done, Radix(p, n));
      stageRadix := stageRadix + [p];
      stageRemainder := stageRemainder + [n];
      done := done + [Radix(p, n)];
      if n <= 1 { break; }
    }
  }

  lemma EmptyLists()
    ensures Ps([]) == [] && Ms([]) == []
  {}

  lemma SquareAboveOne(q: nat)
    requires q >= 2
    ensures Prod(q, q) > 1
  {
    hide Prod;
    ProdMono(2, q, q);
    ProdSmall(q);
  }
}
