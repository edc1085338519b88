/** The integer sample formats of RtAudio: S24 packs three bytes, and convertBuffer shifts between widths. */
module Samples {
  datatype Format = SInt8 | SInt16 | SInt24 | SInt32

  /** One sample in memory: a plain integer, or the three bytes of an S24, lowest first. */
  datatype Sample = Whole(value: int) | Packed(c0: int, c1: int, c2: int)

  function Bits(f: Format): int {
    match f
    case SInt8 => 8
    case SInt16 => 16
    case SInt24 => 24
    case SInt32 => 32
  }

  /** 2^n for the widths and differences of widths that occur. */
  function Two(n: int): (p: int)
    ensures p >= 1
  {
    if n == 8 then 0x100 else if n == 16 then 0x1_0000 else if n == 24 then 0x100_0000 else if n == 32 then 0x1_0000_0000 else 1
  }

  predicate InWidth(f: Format, v: int) {
    -Two(Bits(f)) <= 2 * v < Two(Bits(f))
  }

  lemma Ranges(v: int)
    ensures InWidth(SInt8, v) <==> -0x80 <= v < 0x80
    ensures InWidth(SInt16, v) <==> -0x8000 <= v < 0x8000
    ensures InWidth(SInt24, v) <==> -0x80_0000 <= v < 0x80_0000
    ensures InWidth(SInt32, v) <==> -0x8000_0000 <= v < 0x8000_0000
  {}

  /** A cast to a signed type: the low bits as two's complement. */
  function Cast(f: Format, v: int): (r: int)
    ensures InWidth(f, r)
    ensures InWidth(f, v) ==> r == v
  {
    var m := v % Two(Bits(f));
    if 2 * m < Two(Bits(f)) then m else m - Two(Bits(f))
  }

  /** S24::asInt: the bytes put together and the sign bit extended. */
  function AsInt(s: Sample): int
    requires s.Packed?
  {
    var i := s.c0 + 0x100 * s.c1 + 0x1_0000 * s.c2;
    if i >= 0x80_0000 then i - 0x100_0000 else i
  }

  /** A sample of the format, as it lies in a buffer. */
  predicate IsSample(f: Format, s: Sample) {
    if f.SInt24? then s.Packed? && 0 <= s.c0 < 0x100 && 0 <= s.c1 < 0x100 && 0 <= s.c2 < 0x100
    else s.Whole? && InWidth(f, s.value)
  }

  function Load(f: Format, s: Sample): (v: int)
    requires IsSample(f, s)
    ensures InWidth(f, v)
  {
    if f.SInt24? then AsInt(s) else s.value
  }

  lemma LowBits(i: int, high: int, low: int, m: int)
    requires i == high * m + low && 0 <= low < m && (m == 0x100 || m == 0x1_0000 || m == 0x100_0000)
    ensures i % m == low
  {}

  /** An int by its bytes. */
  lemma Bytes(i: int, c0: int, c1: int, c2: int, rest: int)
    requires i == c0 + 0x100 * c1 + 0x1_0000 * c2 + 0x100_0000 * rest && 0 <= c0 < 0x100 && 0 <= c1 < 0x100 && 0 <= c2 < 0x100
    ensures i % 0x100 == c0 && i % 0x1_0000 == c0 + 0x100 * c1 && i % 0x100_0000 == c0 + 0x100 * c1 + 0x1_0000 * c2
  {
    LowBits(i, c1 + 0x100 * c2 + 0x1_0000 * rest, c0, 0x100);
    LowBits(i, c2 + 0x100 * rest, c0 + 0x100 * c1, 0x1_0000);
    LowBits(i, rest, c0 + 0x100 * c1 + 0x1_0000 * c2, 0x100_0000);
  }

  /** S24::operator=: the three low bytes of an int. */
  function Pack(i: int): Sample {
    Packed(i % 0x100, (i % 0x1_0000) / 0x100, (i % 0x100_0000) / 0x1_0000)
  }

  /** Packing keeps the low bytes of an int, which read back as the low 24 bits with their sign. */
  lemma PackBytes(i: int, c0: int, c1: int, c2: int, rest: int)
    requires i == c0 + 0x100 * c1 + 0x1_0000 * c2 + 0x100_0000 * rest && 0 <= c0 < 0x100 && 0 <= c1 < 0x100 && 0 <= c2 < 0x100
    ensures Pack(i) == Packed(c0, c1, c2) && AsInt(Pack(i)) == Cast(SInt24, i)
  {
    Bytes(i, c0, c1, c2, rest);
  }

  /** i without its n lowest bytes. */
  function Above(i: int, n: nat): int {
    if n == 0 then i else Above(i, n - 1) / 0x100
  }

  function ByteAt(i: int, n: nat): (c: int)
    ensures 0 <= c < 0x100
  {
    Above(i, n) % 0x100
  }

  lemma ByteParts(i: int)
    ensures i == ByteAt(i, 0) + 0x100 * ByteAt(i, 1) + 0x1_0000 * ByteAt(i, 2) + 0x100_0000 * Above(i, 3)
  {
    assert Above(i, 0) == i;
    assert Above(i, 0) == 0x100 * Above(i, 1) + ByteAt(i, 0);
    assert Above(i, 1) == 0x100 * Above(i, 2) + ByteAt(i, 1);
    assert Above(i, 2) == 0x100 * Above(i, 3) + ByteAt(i, 2);
  }

  /** And every pattern of three bytes is the packing of the value it reads as. */
  lemma AsIntPack(s: Sample)
    requires IsSample(SInt24, s)
    ensures Pack(AsInt(s)) == s
  {
    PackBytes(AsInt(s), s.c0, s.c1, s.c2, if s.c2 >= 0x80 then -1 else 0);
    hide Pack;
  }

  function Store(f: Format, v: int): (s: Sample)
    requires InWidth(f, v)
    ensures IsSample(f, s) && Load(f, s) == v
  {
    ByteParts(v);
    PackBytes(v, ByteAt(v, 0), ByteAt(v, 1), ByteAt(v, 2), Above(v, 3));
    if f.SInt24? then Pack(v) else Whole(v)
  }

  /** The shift that convertBuffer applies to one sample: left to widen, arithmetically right to narrow, then a cast. */
  function Shift(from: Format, to: Format, v: int): int {
    if Bits(from) <= Bits(to) then v * Two(Bits(to) - Bits(from)) else v / Two(Bits(from) - Bits(to))
  }

  function ConvertSample(from: Format, to: Format, s: Sample): (r: Sample)
    requires IsSample(from, s)
    ensures IsSample(to, r)
  {
    Store(to, Cast(to, Shift(from, to, Load(from, s))))
  }

  /** No shift leaves the width it goes to, so that no cast changes a value. */
  lemma ShiftFits(from: Format, to: Format, v: int)
    requires InWidth(from, v)
    ensures InWidth(to, Shift(from, to, v))
  {}

  /** 2^n */
  function Power(n: nat): nat {
    if n == 0 then 1 else 2 * Power(n - 1)
  }

  lemma PowerFour(n: nat)
    ensures Power(n + 4) == 16 * Power(n)
  {
    assert Power(n + 2) == 4 * Power(n);
  }

  lemma TwoIsPower()
    ensures Power(0) == Two(0) && Power(8) == Two(8) && Power(16) == Two(16) && Power(24) == Two(24) && Power(32) == Two(32)
  {
    assert Power(0) == 1;
    hide Power;
    PowerFour(0);
    PowerFour(4);
    PowerFour(8);
    PowerFour(12);
    PowerFour(16);
    PowerFour(20);
    PowerFour(24);
    PowerFour(28);
  }

  /** A sample keeps the fraction of the full scale that it stands for: exactly if the other format is as wide, and otherwise
      down to the next step of the other format. */
  lemma ConvertScale(f: Format, g: Format, s: Sample)
    requires IsSample(f, s)
    ensures var v, w := (if f.SInt24? then AsInt(s) else s.value), Load(g, ConvertSample(f, g, s));
            if Bits(f) <= Bits(g) then w == v * Power(Bits(g) - Bits(f))
            else var step := Power(Bits(f) - Bits(g)); w * step <= v < (w + 1) * step
  {
    hide Power;
    TwoIsPower();
    ShiftFits(f, g, Load(f, s));
    ShiftScales(f, g, Load(f, s));
    hide Shift, Cast, Two;
  }

  lemma ShiftScales(f: Format, g: Format, v: int)
    ensures var w := Shift(f, g, v);
            if Bits(f) <= Bits(g) then w == v * Two(Bits(g) - Bits(f))
            else w * Two(Bits(f) - Bits(g)) <= v < (w + 1) * Two(Bits(f) - Bits(g))
  {}

  /** A sample's way to another format and back clears the bits that the other format has no room for, and no more. */
  lemma RoundTrip(f: Format, g: Format, s: Sample)
    requires IsSample(f, s)
    ensures var back := ConvertSample(g, f, ConvertSample(f, g, s)); var lost := Load(f, s) % Two(Bits(f) - Bits(g));
            && Load(f, back) == Load(f, s) - lost
            && (back == s <==> Bits(f) <= Bits(g) || lost == 0)
  {
    var v := Load(f, s);
    ShiftFits(f, g, v);
    ShiftFits(g, f, Shift(f, g, v));
    ThereAndBack(f, g, v);
    hide Shift, Cast, InWidth;
    if f.SInt24? {
      AsIntPack(s);
    }
  }

  lemma ThereAndBack(f: Format, g: Format, v: int)
    ensures Shift(g, f, Shift(f, g, v)) == v - v % Two(Bits(f) - Bits(g))
  {}
}
