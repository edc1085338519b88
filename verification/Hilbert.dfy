/** hilbert3D of lines_cubes.cpp and lines_colors.cpp: the eight-way recursion walks every point of a cubic lattice
    once, one lattice step at a time, from one corner of the cube to the next. */
module Hilbert {
  import opened Arith

  datatype Vector3 = Vector3(x: real, y: real, z: real)

  /** Points and directions of the integer lattice. */
  datatype Pt = Pt(x: int, y: int, z: int)

  function Plus(a: Pt, b: Pt): Pt {
    Pt(a.x + b.x, a.y + b.y, a.z + b.z)
  }

  /** The corner that entry i of vec_s stands for, as signs. */
  function Corner(i: int): (c: Pt)
    ensures IsCorner(c)
  {
    if i <= 0 then Pt(-1, 1, -1) else if i == 1 then Pt(-1, 1, 1) else if i == 2 then Pt(-1, -1, 1)
    else if i == 3 then Pt(-1, -1, -1) else if i == 4 then Pt(1, -1, -1) else if i == 5 then Pt(1, -1, 1)
    else if i == 6 then Pt(1, 1, 1) else Pt(1, 1, -1)
  }

  predicate IsCorner(s: Pt) {
    (s.x == 1 || s.x == -1) && (s.y == 1 || s.y == -1) && (s.z == 1 || s.z == -1)
  }

  /** The entry of vec_s at a corner. */
  function LabelOf(s: Pt): (i: int)
    requires IsCorner(s)
    ensures 0 <= i < 8 && Corner(i) == s
  {
    if s.x == -1 then (if s.y == 1 then (if s.z == -1 then 0 else 1) else if s.z == 1 then 2 else 3)
    else if s.y == -1 then (if s.z == -1 then 4 else 5) else if s.z == 1 then 6 else 7
  }

  predicate IsLabels(v: seq<int>) {
    |v| == 8 && forall i :: 0 <= i < 8 ==> 0 <= v[i] < 8
  }

  function Move(a: real, sign: int, d: real): real {
    if sign > 0 then a + d else a - d
  }

  function VecS(center: Vector3, half: real, i: int): Vector3 {
    var c := Corner(i);
    Vector3(Move(center.x, c.x, half), Move(center.y, c.y, half), Move(center.z, c.z, half))
  }

  /** The labels that the k-th recursive call passes down. */
  function ChildLabels(v: seq<int>, k: int): (w: seq<int>)
    requires IsLabels(v)
    ensures IsLabels(w)
  {
    if k <= 0 then [v[0], v[3], v[4], v[7], v[6], v[5], v[2], v[1]]
    else if k <= 2 then [v[0], v[7], v[6], v[1], v[2], v[5], v[4], v[3]]
    else if k <= 4 then [v[2], v[3], v[0], v[1], v[6], v[7], v[4], v[5]]
    else if k <= 6 then [v[4], v[3], v[2], v[5], v[6], v[1], v[0], v[7]]
    else [v[6], v[5], v[2], v[1], v[0], v[3], v[4], v[7]]
  }

  function Pow(b: int, n: nat): (r: int)
    ensures b >= 1 ==> r >= 1
  {
    if n == 0 then 1 else Prod(b, Pow(b, n - 1))
  }

  /** Negative iteration counts behave like zero. */
  function Depth(iterations: int): nat {
    if iterations < 0 then 0 else iterations
  }

  /** The i-th point by the base 8 digits of i, most significant first. */
  function Spot(center: Vector3, side: real, n: nat, v: seq<int>, i: int): Vector3
    requires IsLabels(v) && 0 <= i < Pow(8, n + 1)
    decreases n
  {
    if n == 0 then VecS(center, side / 2.0, v[i])
    else
      SplitIndex(n, i);
      var k, j := i / Pow(8, n), i % Pow(8, n);
      Spot(VecS(center, side / 2.0, v[k]), side / 2.0, n - 1, ChildLabels(v, k), j)
  }

  lemma SplitIndex(n: nat, i: int)
    requires n >= 1 && 0 <= i < Pow(8, n + 1)
    ensures 0 <= i / Pow(8, n) < 8 && 0 <= i % Pow(8, n) < Pow(8, n)
  {
    hide Prod;
    Coordinates(i, 8, Pow(8, n));
  }

  ghost predicate Walk(pts: seq<Vector3>, count: int, center: Vector3, side: real, n: nat, v: seq<int>)
    requires IsLabels(v)
  {
    |pts| == count <= Pow(8, n + 1) && forall i {:trigger pts[i]} :: 0 <= i < count ==> pts[i] == Spot(center, side, n, v, i)
  }

  /** Appending the k-th recursive result continues the walk. */
  lemma Append(tmp: seq<Vector3>, part: seq<Vector3>, k: int, center: Vector3, side: real, n: nat, v: seq<int>)
    requires IsLabels(v) && 0 <= k < 8 && n >= 1
    requires Walk(tmp, Prod(k, Pow(8, n)), center, side, n, v)
    requires Walk(part, Pow(8, n), VecS(center, side / 2.0, v[k]), side / 2.0, n - 1, ChildLabels(v, k))
    ensures Walk(tmp + part, Prod(k + 1, Pow(8, n)), center, side, n, v)
  {
    hide Prod, VecS, ChildLabels;
    var m := Pow(8, n);
    ProdSucc(k, m);
    ProdMono(k + 1, 8, m);
    forall i | Prod(k, m) <= i < Prod(k + 1, m)
      ensures i < Pow(8, n + 1) && part[i - Prod(k, m)] == Spot(center, side, n, v, i)
    {
      Index(i - Prod(k, m), k, 8, m);
    }
  }

  /** hilbert3D */
  method Hilbert3D(center: Vector3, side: real, iterations: int, v: seq<int>) returns (points: seq<Vector3>)
    requires IsLabels(v)
    ensures Walk(points, Pow(8, Depth(iterations) + 1), center, side, Depth(iterations), v)
    decreases Depth(iterations), 0
  {
    hide Prod, VecS, ChildLabels, Walk;
    PowTwo(0);
    if iterations - 1 >= 0 {
      EmptyWalk(center, side, iterations, v);
      var tmp := ConcatEighth([], 0, center, side, iterations, v);
      tmp := ConcatEighth(tmp, 1, center, side, iterations, v);
      tmp := ConcatEighth(tmp, 2, center, side, iterations, v);
      tmp := ConcatEighth(tmp, 3, center, side, iterations, v);
      tmp := ConcatEighth(tmp, 4, center, side, iterations, v);
      tmp := ConcatEighth(tmp, 5, center, side, iterations, v);
      tmp := ConcatEighth(tmp, 6, center, side, iterations, v);
      tmp := ConcatEighth(tmp, 7, center, side, iterations, v);
      return tmp;
    }
    points := seq(8, k requires 0 <= k < 8 => VecS(center, side / 2.0, v[k]));
    CornerWalk(points, center, side, v);
  }

  /** concat of the k-th recursive call to what the calls before it gave. */
  method ConcatEighth(tmp: seq<Vector3>, k: int, center: Vector3, side: real, iterations: int, v: seq<int>)
    returns (points: seq<Vector3>)
    requires IsLabels(v) && 0 <= k < 8 && iterations >= 1 && Walk(tmp, Prod(k, Pow(8, iterations)), center, side, iterations, v)
    ensures Walk(points, Prod(k + 1, Pow(8, iterations)), center, side, iterations, v)
    decreases Depth(iterations - 1), 1
  {
    hide Prod, VecS, ChildLabels, Walk;
    var half := side / 2.0;
    var part := Hilbert3D(VecS(center, half, v[k]), half, iterations - 1, ChildLabels(v, k));
    Append(tmp, part, k, center, side, iterations, v);
    points := tmp + part;
  }

  lemma EmptyWalk(center: Vector3, side: real, n: nat, v: seq<int>)
    requires IsLabels(v)
    ensures Walk([], Prod(0, Pow(8, n)), center, side, n, v)
    ensures Prod(8, Pow(8, n)) == Pow(8, n + 1)
  {
    ProdSmall(Pow(8, n));
    hide Spot;
  }

  lemma CornerWalk(points: seq<Vector3>, center: Vector3, side: real, v: seq<int>)
    requires IsLabels(v) && |points| == 8 && forall k :: 0 <= k < 8 ==> points[k] == VecS(center, side / 2.0, v[k])
    ensures Walk(points, Pow(8, 1), center, side, 0, v)
  {
    PowTwo(0);
    hide VecS;
  }

  // ---- the walk on the integer lattice ----

  /** How the k-th eighth of the walk is turned relative to the whole. */
  function Turn(k: int, p: Pt): Pt {
    if k <= 0 then Pt(-p.y, -p.z, p.x)
    else if k <= 2 then Pt(p.z, -p.x, -p.y)
    else if k <= 4 then Pt(p.x, -p.y, -p.z)
    else if k <= 6 then Pt(-p.z, p.x, -p.y)
    else Pt(p.y, -p.z, -p.x)
  }

  function Unturn(k: int, p: Pt): (q: Pt)
    ensures Turn(k, q) == p
  {
    if k <= 0 then Pt(p.z, -p.x, -p.y)
    else if k <= 2 then Pt(-p.y, -p.z, p.x)
    else if k <= 4 then Pt(p.x, -p.y, -p.z)
    else if k <= 6 then Pt(p.y, -p.z, -p.x)
    else Pt(-p.z, p.x, -p.y)
  }

  function Toward(c: int, sign: int): int {
    if sign > 0 then c else -c
  }

  /** c or -c on each axis. */
  function Far(c: int, s: Pt): Pt {
    Pt(Toward(c, s.x), Toward(c, s.y), Toward(c, s.z))
  }

  /** The i-th point of the walk of depth n, in half lattice steps from the centre. */
  function PointAt(n: nat, i: int): Pt
    requires 0 <= i < Pow(8, n + 1)
  {
    if n == 0 then Corner(i)
    else
      SplitIndex(n, i);
      var k, j := i / Pow(8, n), i % Pow(8, n);
      Plus(Far(Pow(2, n), Corner(k)), Turn(k, PointAt(n - 1, j)))
  }

  predicate OddBelow(c: int, bound: int) {
    c % 2 == 1 && -bound < c < bound
  }

  /** The lattice cube: odd coordinates below 2^(n+1) on every axis. */
  predicate InCube(n: nat, p: Pt) {
    var b := Pow(2, n + 1);
    OddBelow(p.x, b) && OddBelow(p.y, b) && OddBelow(p.z, b)
  }

  predicate Step(d: Pt) {
    || ((d.x == 2 || d.x == -2) && d.y == 0 && d.z == 0)
    || ((d.y == 2 || d.y == -2) && d.x == 0 && d.z == 0)
    || ((d.z == 2 || d.z == -2) && d.x == 0 && d.y == 0)
  }

  /** One lattice step apart: two half steps along exactly one axis. */
  predicate Adjacent(a: Pt, b: Pt) {
    Step(Pt(b.x - a.x, b.y - a.y, b.z - a.z))
  }

  lemma PowTwo(n: nat)
    ensures Pow(2, n + 1) == 2 * Pow(2, n) && Pow(8, n + 1) == 8 * Pow(8, n)
    ensures n >= 1 ==> Pow(2, n) % 2 == 0
    ensures Pow(2, 0) == 1 && Pow(2, 1) == 2 && Pow(8, 0) == 1 && Pow(8, 1) == 8
  {
    assert Pow(2, 0) == 1 && Pow(8, 0) == 1;
    if n >= 1 {
      assert Pow(2, n) == 2 * Pow(2, n - 1);
    }
  }

  lemma OddNeg(c: int, b: int)
    requires OddBelow(c, b)
    ensures OddBelow(-c, b)
  {}

  lemma OddShift(c: int, b: int)
    requires b % 2 == 0 && c % 2 == 1
    ensures (c + b) % 2 == 1 && (c - b) % 2 == 1
  {}

  lemma OddOutward(c: int, b: int, sign: int)
    requires OddBelow(c, b) && b % 2 == 0 && (sign == 1 || sign == -1)
    ensures OddBelow(Toward(b, sign) + c, 2 * b) && Toward(1, Toward(b, sign) + c) == sign
  {
    OddShift(c, b);
  }

  lemma OddInward(c: int, b: int)
    requires OddBelow(c, 2 * b) && b % 2 == 0
    ensures OddBelow(c + Toward(-b, Toward(1, c)), b) && Toward(b, Toward(1, c)) + (c + Toward(-b, Toward(1, c))) == c
  {}

  lemma TurnCube(n: nat, k: int, q: Pt)
    requires InCube(n, q)
    ensures InCube(n, Turn(k, q))
  {
    hide OddBelow, Pow;
    OddNeg(q.x, Pow(2, n + 1));
    OddNeg(q.y, Pow(2, n + 1));
    OddNeg(q.z, Pow(2, n + 1));
  }

  /** Moving a cube into a corner of the cube twice as wide. */
  lemma CornerCube(n: nat, s: Pt, r: Pt)
    requires n >= 1 && InCube(n - 1, r) && IsCorner(s)
    ensures InCube(n, Plus(Far(Pow(2, n), s), r)) && SignOf(Plus(Far(Pow(2, n), s), r)) == s
  {
    hide Pow, OddBelow, Toward;
    PowTwo(n);
    OddOutward(r.x, Pow(2, n), s.x);
    OddOutward(r.y, Pow(2, n), s.y);
    OddOutward(r.z, Pow(2, n), s.z);
  }

  /** Every point of the walk lies in the cube. */
  lemma {:induction false} PointsInCube(n: nat, i: int)
    requires 0 <= i < Pow(8, n + 1)
    ensures InCube(n, PointAt(n, i))
  {
    hide Prod, Pow, Turn, Far, Plus;
    PowTwo(n);
    if n == 0 {
    } else {
      hide InCube, OddBelow, Corner;
      SplitIndex(n, i);
      PointsInCube(n - 1, i % Pow(8, n));
      var k, q := i / Pow(8, n), PointAt(n - 1, i % Pow(8, n));
      TurnCube(n - 1, k, q);
      CornerCube(n, Corner(k), Turn(k, q));
    }
  }

  /** On which side of the centre each eighth of the walk lies: the octants in the order of vec_s. */
  predicate InOctant(k: int, x: bool, y: bool, z: bool) {
    (x <==> k >= 4) && (y <==> k <= 1 || k >= 6) && (z <==> k == 1 || k == 2 || k == 5 || k == 6)
  }

  lemma EighthsInOrder(n: nat, i: int)
    requires 0 <= i < Pow(8, n + 1)
    ensures var p := PointAt(n, i); p.x != 0 && p.y != 0 && p.z != 0 && InOctant(i / Pow(8, n), p.x > 0, p.y > 0, p.z > 0)
  {
    hide Prod, Pow, Turn, Far, Plus;
    PowTwo(n);
    PointsInCube(n, i);
    if n >= 1 {
      SplitIndex(n, i);
      var k, j := i / Pow(8, n), i % Pow(8, n);
      PointsInCube(n - 1, j);
      TurnCube(n - 1, k, PointAt(n - 1, j));
      CornerCube(n, Corner(k), Turn(k, PointAt(n - 1, j)));
    }
  }

  function SignOf(p: Pt): (s: Pt)
    ensures IsCorner(s)
  {
    Pt(Toward(1, p.x), Toward(1, p.y), Toward(1, p.z))
  }

  /** The eighth of the cube that holds p, and p as that eighth sees it. */
  function Eighth(p: Pt): int {
    LabelOf(SignOf(p))
  }

  function Inside(n: nat, p: Pt): Pt {
    Unturn(Eighth(p), Plus(p, Far(-Pow(2, n), SignOf(p))))
  }

  lemma UnturnCube(n: nat, k: int, r: Pt)
    requires InCube(n, r)
    ensures InCube(n, Unturn(k, r))
  {
    hide OddBelow, Pow;
    OddNeg(r.x, Pow(2, n + 1));
    OddNeg(r.y, Pow(2, n + 1));
    OddNeg(r.z, Pow(2, n + 1));
  }

  lemma InsideCube(n: nat, p: Pt)
    requires n >= 1 && InCube(n, p)
    ensures InCube(n - 1, Inside(n, p))
    ensures Plus(Far(Pow(2, n), Corner(Eighth(p))), Turn(Eighth(p), Inside(n, p))) == p
  {
    hide OddBelow, Pow, Toward, Turn, Unturn, LabelOf, Corner;
    PowTwo(n);
    OddInward(p.x, Pow(2, n));
    OddInward(p.y, Pow(2, n));
    OddInward(p.z, Pow(2, n));
    UnturnCube(n - 1, Eighth(p), Plus(p, Far(-Pow(2, n), SignOf(p))));
  }

  lemma UnturnTurn(k: int, q: Pt)
    ensures Unturn(k, Turn(k, q)) == q
  {}

  lemma LabelUnique(k: int)
    requires 0 <= k < 8
    ensures LabelOf(Corner(k)) == k
  {}

  /** The eighth and the inner point are determined. */
  lemma EighthUnique(n: nat, k: int, q: Pt)
    requires n >= 1 && InCube(n - 1, q) && 0 <= k < 8
    ensures var p := Plus(Far(Pow(2, n), Corner(k)), Turn(k, q)); Eighth(p) == k && Inside(n, p) == q
  {
    var p := Plus(Far(Pow(2, n), Corner(k)), Turn(k, q));
    TurnCube(n - 1, k, q);
    CornerCube(n, Corner(k), Turn(k, q));
    LabelUnique(k);
    UnturnTurn(k, q);
    hide Pow, Turn, Unturn, InCube, LabelOf, Corner, SignOf;
    assert Plus(p, Far(-Pow(2, n), Corner(k))) == Turn(k, q);
  }

  /** Where a point of the cube comes in the walk. */
  function IndexOf(n: nat, p: Pt): (i: int)
    requires InCube(n, p)
    ensures 0 <= i < Pow(8, n + 1)
  {
    PowTwo(n);
    if n == 0 then LabelOf(SignOf(p))
    else
      InsideCube(n, p);
      Index(IndexOf(n - 1, Inside(n, p)), Eighth(p), 8, Pow(8, n));
      IndexOf(n - 1, Inside(n, p)) + Prod(Eighth(p), Pow(8, n))
  }

  lemma PointInEighth(n: nat, k: int, j: int)
    requires n >= 1 && 0 <= k < 8 && 0 <= j < Pow(8, n)
    ensures 0 <= j + Prod(k, Pow(8, n)) < Pow(8, n + 1)
    ensures PointAt(n, j + Prod(k, Pow(8, n))) == Plus(Far(Pow(2, n), Corner(k)), Turn(k, PointAt(n - 1, j)))
  {
    Index(j, k, 8, Pow(8, n));
    hide Prod, Turn, Far, Plus, Corner;
  }

  /** IndexOf inverts PointAt: no point comes twice. */
  lemma {:induction false} IndexOfPoint(n: nat, i: int)
    requires 0 <= i < Pow(8, n + 1)
    ensures InCube(n, PointAt(n, i)) && IndexOf(n, PointAt(n, i)) == i
  {
    hide Prod, Pow, Turn, Far, Plus, InCube, OddBelow, LabelOf, Corner;
    PointsInCube(n, i);
    PowTwo(n);
    if n == 0 {
      LabelUnique(i);
      SignCorner(Corner(i));
    } else {
      SplitIndex(n, i);
      var k, j := i / Pow(8, n), i % Pow(8, n);
      IndexOfPoint(n - 1, j);
      EighthUnique(n, k, PointAt(n - 1, j));
      DivMod(i, Pow(8, n));
    }
  }

  lemma SignCorner(s: Pt)
    requires IsCorner(s)
    ensures SignOf(s) == s
  {}

  /** PointAt inverts IndexOf: every point of the cube comes. */
  lemma {:induction false} PointOfIndex(n: nat, p: Pt)
    requires InCube(n, p)
    ensures PointAt(n, IndexOf(n, p)) == p
  {
    hide Prod, Pow, Turn, Far, Plus, LabelOf, Corner;
    PowTwo(n);
    if n == 0 {
      hide IsCorner;
      SignCube(p);
    } else {
      hide InCube, OddBelow, SignOf, IsCorner;
      InsideCube(n, p);
      var j, k := IndexOf(n - 1, Inside(n, p)), Eighth(p);
      PointOfIndex(n - 1, Inside(n, p));
      Index(j, k, 8, Pow(8, n));
    }
  }

  lemma SignCube(p: Pt)
    requires InCube(0, p)
    ensures SignOf(p) == p && IsCorner(p)
  {
    PowTwo(0);
  }

  lemma FarEnds(b: int)
    ensures Plus(Far(b, Corner(0)), Turn(0, Far(b - 1, Corner(0)))) == Far(2 * b - 1, Corner(0))
    ensures Plus(Far(b, Corner(7)), Turn(7, Far(b - 1, Corner(7)))) == Far(2 * b - 1, Corner(7))
  {}

  lemma EndsBase()
    ensures PointAt(0, 0) == Far(Pow(2, 1) - 1, Corner(0))
    ensures PointAt(0, Pow(8, 1) - 1) == Far(Pow(2, 1) - 1, Corner(7))
  {
    PowTwo(0);
  }

  /** The walk of depth n starts at the corner of label 0 and ends at the corner of label 7. */
  lemma {:induction false} Ends(n: nat)
    ensures PointAt(n, 0) == Far(Pow(2, n + 1) - 1, Corner(0))
    ensures PointAt(n, Pow(8, n + 1) - 1) == Far(Pow(2, n + 1) - 1, Corner(7))
  {
    hide Prod, Pow, PointAt, Turn, Far, Plus, Corner;
    PowTwo(n);
    if n == 0 {
      EndsBase();
    } else {
      Ends(n - 1);
      FarEnds(Pow(2, n));
      PointInEighth(n, 0, 0);
      PointInEighth(n, 7, Pow(8, n) - 1);
      ProdSmall(Pow(8, n));
      ProdSucc(7, Pow(8, n));
      ProdEight(Pow(8, n));
    }
  }

  lemma ProdEight(a: int)
    ensures Prod(8, a) == 8 * a
  {}

  lemma TurnStep(k: int, a: Pt, b: Pt, f: Pt)
    requires Adjacent(a, b)
    ensures Adjacent(Plus(f, Turn(k, a)), Plus(f, Turn(k, b)))
  {}

  /** The last point of one eighth and the first of the next are one step apart. */
  lemma Junction(n: nat, k: int)
    requires n >= 1 && 0 <= k < 7
    ensures Adjacent(Plus(Far(Pow(2, n), Corner(k)), Turn(k, Far(Pow(2, n) - 1, Corner(7)))),
                     Plus(Far(Pow(2, n), Corner(k + 1)), Turn(k + 1, Far(Pow(2, n) - 1, Corner(0)))))
  {
    hide Pow;
  }

  lemma StepsBase(i: int)
    requires 0 <= i < Pow(8, 1) - 1
    ensures Adjacent(PointAt(0, i), PointAt(0, i + 1))
  {
    PowTwo(0);
  }

  /** Consecutive points are one lattice step apart. */
  lemma {:induction false} Steps(n: nat, i: int)
    requires 0 <= i < Pow(8, n + 1) - 1
    ensures Adjacent(PointAt(n, i), PointAt(n, i + 1))
  {
    hide Prod, Pow, Turn, Far, Plus, Adjacent, Corner, PointAt;
    if n == 0 {
      StepsBase(i);
    } else {
      var m := Pow(8, n);
      SplitIndex(n, i);
      var k, j := i / m, i % m;
      DivMod(i, m);
      PointInEighth(n, k, j);
      if j < m - 1 {
        PointInEighth(n, k, j + 1);
        Steps(n - 1, j);
        TurnStep(k, PointAt(n - 1, j), PointAt(n - 1, j + 1), Far(Pow(2, n), Corner(k)));
      } else {
        LastEighth(n, k, j);
        StepAcross(n, k);
      }
    }
  }

  lemma StepAcross(n: nat, k: int)
    requires n >= 1 && 0 <= k < 7
    ensures var i := Pow(8, n) - 1 + Prod(k, Pow(8, n));
            0 <= i < Pow(8, n + 1) - 1 && Adjacent(PointAt(n, i), PointAt(n, i + 1))
  {
    hide Prod, Pow, Turn, Far, Plus, Adjacent, Corner, PointAt;
    ProdSucc(k, Pow(8, n));
    PointInEighth(n, k, Pow(8, n) - 1);
    PointInEighth(n, k + 1, 0);
    Ends(n - 1);
    Junction(n, k);
  }

  lemma LastEighth(n: nat, k: int, j: int)
    requires n >= 1 && 0 <= k < 8 && j == Pow(8, n) - 1 && j + Prod(k, Pow(8, n)) < Pow(8, n + 1) - 1
    ensures k < 7
  {
    hide Prod;
    ProdSucc(7, Pow(8, n));
  }

  // ---- labels as symmetries of the cube ----

  /** A map of the lattice, by the axes it sends the three axes to. */
  datatype Frame = Frame(ex: Pt, ey: Pt, ez: Pt)

  function Neg(a: Pt): Pt {
    Pt(-a.x, -a.y, -a.z)
  }

  /** c times v for a c that is 1, -1 or 0. */
  function Signed(c: int, v: int): int {
    if c > 0 then v else if c < 0 then -v else 0
  }

  function Row(a: int, b: int, c: int, p: Pt): int {
    Signed(a, p.x) + Signed(b, p.y) + Signed(c, p.z)
  }

  function Apply(f: Frame, p: Pt): Pt {
    Pt(Row(f.ex.x, f.ey.x, f.ez.x, p), Row(f.ex.y, f.ey.y, f.ez.y, p), Row(f.ex.z, f.ey.z, f.ez.z, p))
  }

  /** f after the k-th turn. */
  function Turned(f: Frame, k: int): Frame {
    if k <= 0 then Frame(f.ez, Neg(f.ex), Neg(f.ey))
    else if k <= 2 then Frame(Neg(f.ey), Neg(f.ez), f.ex)
    else if k <= 4 then Frame(f.ex, Neg(f.ey), Neg(f.ez))
    else if k <= 6 then Frame(f.ey, Neg(f.ez), Neg(f.ex))
    else Frame(Neg(f.ez), f.ex, Neg(f.ey))
  }

  /** Distinct labels that put the corners where f takes them: f permutes the corners of the cube. */
  predicate Describes(v: seq<int>, f: Frame) {
    && IsLabels(v)
    && (forall i, j :: 0 <= i < j < 8 ==> v[i] != v[j])
    && forall i {:trigger v[i]} :: 0 <= i < 8 ==> Corner(v[i]) == Apply(f, Corner(i))
  }

  lemma SignedNegs(c: Pt, p: Pt)
    ensures Signed(-c.x, p.x) == Signed(c.x, -p.x) && Signed(-c.x, p.y) == Signed(c.x, -p.y) && Signed(-c.x, p.z) == Signed(c.x, -p.z)
    ensures Signed(-c.y, p.x) == Signed(c.y, -p.x) && Signed(-c.y, p.y) == Signed(c.y, -p.y) && Signed(-c.y, p.z) == Signed(c.y, -p.z)
    ensures Signed(-c.z, p.x) == Signed(c.z, -p.x) && Signed(-c.z, p.y) == Signed(c.z, -p.y) && Signed(-c.z, p.z) == Signed(c.z, -p.z)
  {}

  lemma TurnedRow(f: Frame, k: int, p: Pt)
    ensures Apply(Turned(f, k), p) == Apply(f, Turn(k, p))
  {
    hide Signed;
    SignedNegs(f.ex, p);
    SignedNegs(f.ey, p);
    SignedNegs(f.ez, p);
  }

  /** The labels of the k-th call are those of a turned cube, in the standard order. */
  lemma TurnedCorner(k: int, i: int)
    requires 0 <= k < 8 && 0 <= i < 8
    ensures var id := [0, 1, 2, 3, 4, 5, 6, 7]; Corner(ChildLabels(id, k)[i]) == Turn(k, Corner(i))
  {}

  lemma ChildOf(v: seq<int>, k: int, i: int)
    requires IsLabels(v) && 0 <= k < 8 && 0 <= i < 8
    ensures var t := ChildLabels([0, 1, 2, 3, 4, 5, 6, 7], k)[i]; 0 <= t < 8 && ChildLabels(v, k)[i] == v[t]
  {}

  lemma TableDistinct(k: int, i: int, j: int)
    requires 0 <= k < 8 && 0 <= i < j < 8
    ensures var table := ChildLabels([0, 1, 2, 3, 4, 5, 6, 7], k); table[i] != table[j]
  {}

  lemma ChildDistinct(v: seq<int>, k: int)
    requires IsLabels(v) && 0 <= k < 8 && forall i, j :: 0 <= i < j < 8 ==> v[i] != v[j]
    ensures forall i, j :: 0 <= i < j < 8 ==> ChildLabels(v, k)[i] != ChildLabels(v, k)[j]
  {
    hide ChildLabels;
    forall i, j | 0 <= i < j < 8
      ensures ChildLabels(v, k)[i] != ChildLabels(v, k)[j]
    {
      ChildOf(v, k, i);
      ChildOf(v, k, j);
      TableDistinct(k, i, j);
    }
  }

  /** What the recursion keeps: the labels passed down are again a symmetry of the cube. */
  lemma ChildDescribes(v: seq<int>, f: Frame, k: int)
    requires Describes(v, f) && 0 <= k < 8
    ensures Describes(ChildLabels(v, k), Turned(f, k))
  {
    hide Corner, ChildLabels, Apply, Turned, Turn;
    ChildDistinct(v, k);
    var w := ChildLabels(v, k);
    forall i | 0 <= i < 8
      ensures Corner(w[i]) == Apply(Turned(f, k), Corner(i))
    {
      ChildOf(v, k, i);
      TurnedCorner(k, i);
      TurnedRow(f, k, Corner(i));
    }
  }

  // ---- from lattice to space ----

  /** Half the distance between neighbouring points. */
  function Unit(side: real, n: nat): real
    decreases n
  {
    if n == 0 then side / 2.0 else Unit(side / 2.0, n - 1)
  }

  function Times(a: real, b: int): real {
    a * b as real
  }

  function Place(center: Vector3, unit: real, p: Pt): Vector3 {
    Vector3(center.x + Times(unit, p.x), center.y + Times(unit, p.y), center.z + Times(unit, p.z))
  }

  lemma TimesAdd(a: real, b: int, c: int)
    ensures Times(a, b + c) == Times(a, b) + Times(a, c)
  {}

  lemma TimesNeg(a: real, b: int)
    ensures Times(a, -b) == -Times(a, b)
  {}

  lemma TimesDouble(a: real, b: int)
    ensures Times(a, 2 * b) == 2.0 * Times(a, b)
  {}

  lemma TimesHalf(a: real)
    ensures Times(a / 2.0, 1) == a / 2.0 == Times(a, 1) / 2.0 && Times(a / 2.0, -1) == -(a / 2.0)
  {}

  /** Neighbours are side/2^n apart, and the eighths are moved by whole units. */
  lemma {:induction false} UnitOfSide(side: real, n: nat)
    ensures Times(Unit(side, n), Pow(2, n)) == side / 2.0
    ensures Times(2.0 * Unit(side, n), Pow(2, n)) == side
    decreases n
  {
    hide Times, Pow;
    PowTwo(n);
    if n == 0 {
      TimesHalf(side);
    } else {
      PowTwo(n - 1);
      UnitOfSide(side / 2.0, n - 1);
      TimesDouble(Unit(side, n), Pow(2, n - 1));
    }
    TimesTwice(Unit(side, n), Pow(2, n));
  }

  lemma TimesTwice(a: real, b: int)
    ensures Times(2.0 * a, b) == 2.0 * Times(a, b)
  {}

  /** Moving to a corner and turning: the corner moves as a corner. */
  lemma RowFar(a: int, b: int, c: int, d: int, s: Pt, q: Pt)
    requires IsCorner(s) && (Row(a, b, c, s) == 1 || Row(a, b, c, s) == -1)
    ensures Row(a, b, c, Plus(Far(d, s), q)) == Toward(d, Row(a, b, c, s)) + Row(a, b, c, q)
  {}

  lemma MoveTimes(a: real, unit: real, d: int, s: int, t: int)
    requires s == 1 || s == -1
    ensures Move(a, s, Times(unit, d)) + Times(unit, t) == a + Times(unit, Toward(d, s) + t)
  {
    hide Times;
    TimesAdd(unit, d, t);
    TimesAdd(unit, -d, t);
    TimesNeg(unit, d);
  }

  /** Every point of the real walk is a lattice point, turned by the frame and placed. */
  lemma {:induction false} SpotIsPlaced(center: Vector3, side: real, n: nat, v: seq<int>, f: Frame, i: int)
    requires Describes(v, f) && 0 <= i < Pow(8, n + 1)
    ensures Spot(center, side, n, v, i) == Place(center, Unit(side, n), Apply(f, PointAt(n, i)))
    decreases n
  {
    hide Prod, Pow, Times, Move, Corner, Turn, Far, Plus, ChildLabels, Turned, Apply;
    PowTwo(n);
    if n == 0 {
      SpotBase(center, side / 2.0, Corner(v[i]));
    } else {
      SplitIndex(n, i);
      var k, j := i / Pow(8, n), i % Pow(8, n);
      ChildDescribes(v, f, k);
      SpotIsPlaced(VecS(center, side / 2.0, v[k]), side / 2.0, n - 1, ChildLabels(v, k), Turned(f, k), j);
      SpotStep(center, side, n, v[k], f, Corner(k), k, PointAt(n - 1, j));
    }
  }

  lemma SpotBase(center: Vector3, half: real, c: Pt)
    requires IsCorner(c)
    ensures Vector3(Move(center.x, c.x, half), Move(center.y, c.y, half), Move(center.z, c.z, half)) == Place(center, half, c)
  {}

  lemma SpotStep(center: Vector3, side: real, n: nat, tag: int, f: Frame, s: Pt, k: int, q: Pt)
    requires n >= 1 && IsCorner(s) && Corner(tag) == Apply(f, s)
    ensures Place(VecS(center, side / 2.0, tag), Unit(side / 2.0, n - 1), Apply(Turned(f, k), q))
         == Place(center, Unit(side, n), Apply(f, Plus(Far(Pow(2, n), s), Turn(k, q))))
  {
    hide Pow, Times, Move, Corner, Turn, Far, Plus, Turned, Row, Toward;
    UnitOfSide(side, n);
    TurnedRow(f, k, q);
    var u, d, c, t := Unit(side, n), Pow(2, n), Corner(tag), Apply(f, Turn(k, q));
    RowFar(f.ex.x, f.ey.x, f.ez.x, d, s, Turn(k, q));
    RowFar(f.ex.y, f.ey.y, f.ez.y, d, s, Turn(k, q));
    RowFar(f.ex.z, f.ey.z, f.ez.z, d, s, Turn(k, q));
    MoveTimes(center.x, u, d, c.x, t.x);
    MoveTimes(center.y, u, d, c.y, t.y);
    MoveTimes(center.z, u, d, c.z, t.z);
  }

  const STANDARD := [0, 1, 2, 3, 4, 5, 6, 7]
  const IDENTITY := Frame(Pt(1, 0, 0), Pt(0, 1, 0), Pt(0, 0, 1))

  lemma Identity(p: Pt)
    ensures Apply(IDENTITY, p) == p
  {}

  lemma StandardAt(i: int)
    requires 0 <= i < 8
    ensures STANDARD[i] == i
  {}

  lemma StandardLabels()
    ensures Describes(STANDARD, IDENTITY)
  {
    hide Corner, Apply, IDENTITY;
    forall i | 0 <= i < 8
      ensures STANDARD[i] == i && Corner(i) == Apply(IDENTITY, Corner(i))
    {
      StandardAt(i);
      Identity(Corner(i));
    }
  }

  /** Two points one lattice step apart: they differ on one axis, by step. */
  predicate Neighbours(a: Vector3, b: Vector3, step: real) {
    || ((b.x - a.x == step || a.x - b.x == step) && b.y == a.y && b.z == a.z)
    || ((b.y - a.y == step || a.y - b.y == step) && b.x == a.x && b.z == a.z)
    || ((b.z - a.z == step || a.z - b.z == step) && b.x == a.x && b.y == a.y)
  }

  predicate Stepwise(pts: seq<Vector3>, step: real) {
    forall i {:trigger pts[i]} :: 0 <= i < |pts| - 1 ==> Neighbours(pts[i], pts[i + 1], step)
  }

  /** Exactly the points of the lattice cube. */
  ghost predicate Covers(pts: seq<Vector3>, center: Vector3, unit: real, n: nat) {
    forall x :: x in pts <==> exists p :: InCube(n, p) && x == Place(center, unit, p)
  }

  predicate Distinct(pts: seq<Vector3>) {
    forall i, j :: 0 <= i < j < |pts| ==> pts[i] != pts[j]
  }

  /** The eighths of the result lie in the octants around the centre in the order of vec_s. */
  predicate Octants(pts: seq<Vector3>, center: Vector3, n: nat)
    requires Pow(8, n) > 0
  {
    forall i {:trigger pts[i]} :: 0 <= i < |pts| ==>
      InOctant(i / Pow(8, n), pts[i].x > center.x, pts[i].y > center.y, pts[i].z > center.z)
  }

  /** The points as the caller sees them: a Hamiltonian walk on the cubic lattice with 2^(n+1) points to an edge, in steps of
      unit + unit, octant by octant, from the corner towards -x, +y and -z to that towards +x, +y and -z. */
  ghost predicate Hamiltonian(pts: seq<Vector3>, center: Vector3, side: real, unit: real, n: nat)
    requires Pow(8, n) > 0
  {
    var reach := side - unit;
    && |pts| == Pow(8, n + 1) && |pts| > 0
    && pts[0] == Vector3(center.x - reach, center.y + reach, center.z - reach)
    && pts[|pts| - 1] == Vector3(center.x + reach, center.y + reach, center.z - reach)
    && Stepwise(pts, 2.0 * unit)
    && Covers(pts, center, unit, n)
    && (unit != 0.0 ==> Distinct(pts))
    && (unit > 0.0 ==> Octants(pts, center, n))
  }

  lemma PlaceOutermost(center: Vector3, side: real, unit: real, d: int)
    requires Times(2.0 * unit, d) == side
    ensures Place(center, unit, Pt(-(2 * d - 1), 2 * d - 1, -(2 * d - 1)))
         == Vector3(center.x - (side - unit), center.y + (side - unit), center.z - (side - unit))
    ensures Place(center, unit, Pt(2 * d - 1, 2 * d - 1, -(2 * d - 1)))
         == Vector3(center.x + (side - unit), center.y + (side - unit), center.z - (side - unit))
  {
    TimesTwice(unit, d);
    TimesDouble(unit, d);
    TimesAdd(unit, 2 * d, -1);
    TimesNeg(unit, 2 * d - 1);
    assert Times(unit, -1) == -unit;
    hide Times;
  }

  lemma PlaceSide(center: Vector3, unit: real, p: Pt)
    requires unit > 0.0 && p.x != 0 && p.y != 0 && p.z != 0
    ensures var q := Place(center, unit, p);
            (q.x > center.x <==> p.x > 0) && (q.y > center.y <==> p.y > 0) && (q.z > center.z <==> p.z > 0)
  {
    TimesSign(unit, p.x);
    TimesSign(unit, p.y);
    TimesSign(unit, p.z);
    hide Times;
  }

  lemma TimesSign(unit: real, c: int)
    requires unit > 0.0 && c != 0
    ensures Times(unit, c) > 0.0 <==> c > 0
  {}

  lemma LatticeOctants(pts: seq<Vector3>, center: Vector3, unit: real, n: nat)
    requires OnLattice(pts, center, unit, n) && unit > 0.0 && Pow(8, n) > 0
    ensures Octants(pts, center, n)
  {
    hide Pow, Place, PointAt, InOctant;
    forall i | 0 <= i < |pts|
      ensures InOctant(i / Pow(8, n), pts[i].x > center.x, pts[i].y > center.y, pts[i].z > center.z)
    {
      EighthsInOrder(n, i);
      PlaceSide(center, unit, PointAt(n, i));
    }
  }

  lemma PowPositive(n: nat)
    ensures Pow(2, n) > 0 && Pow(8, n) > 0
  {}

  lemma PlaceNeighbours(center: Vector3, unit: real, a: Pt, b: Pt)
    requires Adjacent(a, b)
    ensures Neighbours(Place(center, unit, a), Place(center, unit, b), 2.0 * unit)
  {
    hide Times;
    TimesStep(unit, a.x, b.x - a.x);
    TimesStep(unit, a.y, b.y - a.y);
    TimesStep(unit, a.z, b.z - a.z);
  }

  lemma TimesStep(u: real, a: int, d: int)
    ensures Times(u, a + 2) == Times(u, a) + 2.0 * u && Times(u, a - 2) == Times(u, a) - 2.0 * u
  {}

  lemma PlaceInjective(center: Vector3, unit: real, a: Pt, b: Pt)
    requires unit != 0.0 && Place(center, unit, a) == Place(center, unit, b)
    ensures a == b
  {
    TimesInjective(unit, a.x, b.x);
    TimesInjective(unit, a.y, b.y);
    TimesInjective(unit, a.z, b.z);
  }

  lemma TimesInjective(u: real, a: int, b: int)
    requires u != 0.0 && Times(u, a) == Times(u, b)
    ensures a == b
  {
    var x, y := a as real, b as real;
    assert u * (x - y) == 0.0;
  }

  ghost predicate OnLattice(pts: seq<Vector3>, center: Vector3, unit: real, n: nat) {
    && |pts| == Pow(8, n + 1)
    && forall i {:trigger pts[i]} :: 0 <= i < |pts| ==> pts[i] == Place(center, unit, PointAt(n, i))
  }

  lemma WalkOnLattice(pts: seq<Vector3>, center: Vector3, side: real, n: nat)
    requires Walk(pts, Pow(8, n + 1), center, side, n, STANDARD)
    ensures OnLattice(pts, center, Unit(side, n), n)
  {
    hide Pow, Place, PointAt, Spot, Corner, Apply, Unit, Describes, IDENTITY, STANDARD;
    StandardLabels();
    forall i | 0 <= i < |pts|
      ensures pts[i] == Place(center, Unit(side, n), PointAt(n, i))
    {
      SpotIsPlaced(center, side, n, STANDARD, IDENTITY, i);
      Identity(PointAt(n, i));
    }
  }

  lemma LatticeSteps(pts: seq<Vector3>, center: Vector3, unit: real, n: nat)
    requires OnLattice(pts, center, unit, n)
    ensures Stepwise(pts, 2.0 * unit)
  {
    hide Pow, Place, PointAt, Adjacent, Neighbours;
    forall i | 0 <= i < |pts| - 1
      ensures Neighbours(pts[i], pts[i + 1], 2.0 * unit)
    {
      Steps(n, i);
      PlaceNeighbours(center, unit, PointAt(n, i), PointAt(n, i + 1));
    }
  }

  lemma LatticeCovered(pts: seq<Vector3>, center: Vector3, unit: real, n: nat)
    requires OnLattice(pts, center, unit, n)
    ensures Covers(pts, center, unit, n)
  {
    hide Pow, Place, PointAt, InCube, IndexOf;
    forall x | x in pts
      ensures exists p :: InCube(n, p) && x == Place(center, unit, p)
    {
      var i :| 0 <= i < |pts| && pts[i] == x;
      PointsInCube(n, i);
      assert x == Place(center, unit, PointAt(n, i));
    }
    forall p | InCube(n, p)
      ensures Place(center, unit, p) in pts
    {
      PointOfIndex(n, p);
      assert pts[IndexOf(n, p)] == Place(center, unit, p);
    }
  }

  lemma LatticeDistinct(pts: seq<Vector3>, center: Vector3, unit: real, n: nat)
    requires OnLattice(pts, center, unit, n) && unit != 0.0
    ensures Distinct(pts)
  {
    hide Pow, Place, PointAt, InCube, IndexOf;
    forall i, j | 0 <= i < j < |pts|
      ensures pts[i] != pts[j]
    {
      if pts[i] == pts[j] {
        PlaceInjective(center, unit, PointAt(n, i), PointAt(n, j));
        IndexOfPoint(n, i);
        IndexOfPoint(n, j);
      }
    }
  }

  lemma LatticeEnds(pts: seq<Vector3>, center: Vector3, side: real, unit: real, n: nat)
    requires OnLattice(pts, center, unit, n) && Times(2.0 * unit, Pow(2, n)) == side
    ensures |pts| > 0
    ensures pts[0] == Vector3(center.x - (side - unit), center.y + (side - unit), center.z - (side - unit))
    ensures pts[|pts| - 1] == Vector3(center.x + (side - unit), center.y + (side - unit), center.z - (side - unit))
  {
    hide Pow, Place, PointAt, Times;
    PowPositive(n);
    PowTwo(n);
    Ends(n);
    PlaceOutermost(center, side, unit, Pow(2, n));
  }

  /** From the labels 0 to 7, at every depth, the result is the whole lattice cube, each point once, one step at a time. */
  lemma WalkIsHamiltonian(pts: seq<Vector3>, center: Vector3, side: real, n: nat)
    requires Walk(pts, Pow(8, n + 1), center, side, n, STANDARD)
    ensures Pow(8, n) > 0 && Hamiltonian(pts, center, side, Unit(side, n), n)
    ensures Times(2.0 * Unit(side, n), Pow(2, n)) == side
  {
    hide Pow, Place, PointAt, InCube, Far, Stepwise, Covers, Distinct, Octants, Spot, Corner, Times, Unit, STANDARD, Walk;
    PowPositive(n);
    UnitOfSide(side, n);
    WalkOnLattice(pts, center, side, n);
    LatticeEnds(pts, center, side, Unit(side, n), n);
    LatticeSteps(pts, center, Unit(side, n), n);
    LatticeCovered(pts, center, Unit(side, n), n);
    if Unit(side, n) != 0.0 {
      LatticeDistinct(pts, center, Unit(side, n), n);
    }
    if Unit(side, n) > 0.0 {
      LatticeOctants(pts, center, Unit(side, n), n);
    }
  }
}
