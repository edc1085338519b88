/** decode_layer2: one allocation pass, then twelve sample passes, four to each third of the frame. */
module Layer2Frame {
  import opened Layer2

  const SCALE_BLOCK := 12

  /** The number of subbands that goes with each allocation table. */
  function Sblimits(table: nat): nat {
    if table == 0 then 27 else if table == 1 then 30 else if table == 2 then 8 else if table == 3 then 12 else 30
  }

  /** Where joint coding begins: from the mode extension if there is any, else nowhere. */
  function Jsbound(joint: bool, modeExt: nat, table: nat): nat {
    if joint then 4 * (modeExt + 1) else Sblimits(table)
  }

  predicate JsboundOk(joint: bool, modeExt: nat, table: nat) {
    Jsbound(joint, modeExt, table) <= Sblimits(table)
  }

  /** The allocation table that a header selects. */
  function TableOf(lsf: bool, frequencyIndex: nat, channels: nat, bitrateIndex: nat): (table: nat)
    ensures table < 5
  {
    if lsf then 4
    else if channels == 2 then
      if 1 <= bitrateIndex <= 6 then (if frequencyIndex == 2 then 3 else 2)
      else if frequencyIndex != 1 && 10 <= bitrateIndex <= 14 then 1
      else 0
    else
      if 1 <= bitrateIndex <= 2 then (if frequencyIndex == 2 then 3 else 2)
      else if frequencyIndex != 1 && 6 <= bitrateIndex <= 14 then 1
      else 0
  }

  /** The array translate, by frequency, number of channels less one, and bit rate. */
  const TRANSLATE := [
    [[0, 2, 2, 2, 2, 2, 2, 0, 0, 0, 1, 1, 1, 1, 1, 0], [0, 2, 2, 0, 0, 0, 1, 1, 1, 1, 1, 1, 1, 1, 1, 0]],
    [[0, 2, 2, 2, 2, 2, 2, 0, 0, 0, 0, 0, 0, 0, 0, 0], [0, 2, 2, 0, 0, 0, 0, 0, 0, 0, 0, 0, 0, 0, 0, 0]],
    [[0, 3, 3, 3, 3, 3, 3, 0, 0, 0, 1, 1, 1, 1, 1, 0], [0, 3, 3, 0, 0, 0, 1, 1, 1, 1, 1, 1, 1, 1, 1, 0]]]

  const SBLIMITS := [27, 30, 8, 12, 30]

  lemma HeaderTables(frequencyIndex: nat, channels: nat, bitrateIndex: nat, table: nat)
    requires frequencyIndex < 3 && 1 <= channels <= 2 && bitrateIndex < 16 && table < 5
    ensures TableOf(true, frequencyIndex, channels, bitrateIndex) == 4 && Sblimits(table) == SBLIMITS[table]
    ensures TableOf(false, frequencyIndex, channels, bitrateIndex) == TRANSLATE[frequencyIndex][2 - channels][bitrateIndex]
  {}

  /** How often the second loop of II_decode_bitalloc runs: its count is unsigned. */
  function JointCount(joint: bool, modeExt: nat, table: nat): nat {
    (Sblimits(table) - Jsbound(joint, modeExt, table)) % 0x1_0000_0000
  }

  /** For two channels the two loops go through the bands of the frame, unless a mode extension of joint stereo begins the joint
      bands above all that one of the two small tables has: then the count of the second loop wraps to 2^32 - 4 or 2^32 - 8, which
      takes it beyond bit_alloc. */
  lemma HeaderFits(lsf: bool, frequencyIndex: nat, bitrateIndex: nat, joint: bool, modeExt: nat)
    requires frequencyIndex < 3 && bitrateIndex < 16 && modeExt < 4
    ensures var table := TableOf(lsf, frequencyIndex, 2, bitrateIndex);
            var bands := Jsbound(joint, modeExt, table) + JointCount(joint, modeExt, table);
            && (JsboundOk(joint, modeExt, table) <==>
                lsf || !joint || bitrateIndex == 0 || bitrateIndex > 6 || modeExt < if frequencyIndex == 2 then 3 else 2)
            && (JsboundOk(joint, modeExt, table) ==> bands == Sblimits(table) <= SBLIMIT)
            && (!JsboundOk(joint, modeExt, table) ==>
                bands > SBLIMIT && JointCount(joint, modeExt, table) == 0x1_0000_0000 - if table == 2 && modeExt == 3 then 8 else 4)
  {}

  /** Where sample pass k starts. */
  function PassPos(f: Frame, stream: seq<bool>, start: nat, ba: seq<nat>, k: nat): nat {
    if k == 0 then SampleStart(f, stream, start, ba) else BandPos(f, ba, PassPos(f, stream, start, ba, k - 1), f.sblimit)
  }

  function PassOf(f: Frame, t: Tables, stream: seq<bool>, start: nat, ba: seq<nat>, scf: seq<nat>, k: nat): Pass {
    Pass(f, t, stream, ba, scf, PassPos(f, stream, start, ba, k), k / 4)
  }

  /** The passes of decode_layer2; what the synthesis is given is the list of the twelve fraction buffers. */
  method DecodeLayer2(r: BitReader, f: Frame, t: Tables, downsample: nat)
    returns (fractions: seq<seq<real>>, ba: seq<nat>, scf: seq<nat>)
    requires FrameOk(f)
    modifies r
    ensures Prepared(f, r.stream, old(r.pos), ba, scf) && |fractions| == SCALE_BLOCK
    ensures forall k {:trigger fractions[k]} :: 0 <= k < SCALE_BLOCK ==>
              Filled(PassOf(f, t, r.stream, old(r.pos), ba, scf, k), fractions[k], downsample)
    ensures r.pos == PassPos(f, r.stream, old(r.pos), ba, SCALE_BLOCK)
  {
    hide Prepared, Filled, SharedPairs, BandPos, SampleStart;
    ghost var start := r.pos;
    var bitAlloc, scalefac := new nat[2 * SBLIMIT](i => 0), new nat[3 * 2 * SBLIMIT](i => 0);
    var fraction := new real[2 * 4 * SBLIMIT](i => 0.0);
    DecodeBitalloc(r, f, bitAlloc, scalefac);
    ba, scf := bitAlloc[..], scalefac[..];
    PreparedShares(f, r.stream, start, ba, scf);
    fractions := [];
    var i := 0;
    while i < SCALE_BLOCK
      invariant 0 <= i <= SCALE_BLOCK && |fractions| == i
      invariant bitAlloc[..] == ba && scalefac[..] == scf
      invariant r.pos == PassPos(f, r.stream, start, ba, i)
      invariant forall k {:trigger fractions[k]} :: 0 <= k < i ==> Filled(PassOf(f, t, r.stream, start, ba, scf, k), fractions[k], downsample)
    {
      DecodeSamples(r, f, t, bitAlloc, scalefac, fraction, i / 4, downsample);
      fractions := fractions + [fraction[..]];
      i := i + 1;
    }
  }

  lemma PreparedShares(f: Frame, stream: seq<bool>, start: nat, ba: seq<nat>, scf: seq<nat>)
    requires FrameOk(f) && Prepared(f, stream, start, ba, scf)
    ensures |ba| == 2 * SBLIMIT && |scf| == 3 * 2 * SBLIMIT && SharedPairs(f, ba)
  {
    AllocatedShares(f, stream, start, ba);
  }

  /** The scale factor that the frame codes for entry m and third x. */
  function FactorRead(f: Frame, stream: seq<bool>, start: nat, ba: seq<nat>, m: nat, x: nat): nat {
    var selPos := AllocPos(f, start, f.sblimit);
    Factor(stream, ba, selPos, selPos + 2 * Rank(ba, Entries(f)), m, x)
  }

  /** The scale factor that a pass uses for a channel of a subband is the one that the allocation pass read for that
      channel, that subband and that third of the frame, whatever else has bits allocated or not. */
  lemma OwnFactor(f: Frame, t: Tables, stream: seq<bool>, start: nat, ba: seq<nat>, scf: seq<nat>, k: nat, i: nat, j: nat)
    requires FrameOk(f) && Prepared(f, stream, start, ba, scf) && k < SCALE_BLOCK && i < f.sblimit && j < f.channels
    requires ba[Slot(f, i, j)] != 0
    ensures FactorOf(PassOf(f, t, stream, start, ba, scf, k), i, j) == FactorRead(f, stream, start, ba, Slot(f, i, j), k / 4)
  {
    hide Factor, Allocated, AllocPos, Rank, PassPos;
    var selPos := AllocPos(f, start, f.sblimit);
    var m := Slot(f, i, j);
    PreparedShares(f, stream, start, ba, scf);
    assert m < Entries(f) && m < |ba|;
    assert FactorsAt(stream, ba, selPos, selPos + 2 * Rank(ba, Entries(f)), scf, m);
    assert k / 4 == 0 || k / 4 == 1 || k / 4 == 2;
  }

  /** Which of the factors coded for an entry the twelve passes use, by its selection: the first for the passes 0 to 3, 0 to 7
      or all, and the last for the rest, with one between them if all three are coded. */
  lemma PassFactors(f: Frame, t: Tables, stream: seq<bool>, start: nat, ba: seq<nat>, scf: seq<nat>, k: nat, i: nat, j: nat)
    requires FrameOk(f) && Prepared(f, stream, start, ba, scf) && k < SCALE_BLOCK && i < f.sblimit && j < f.channels
    requires ba[Slot(f, i, j)] != 0
    ensures var m, selPos := Slot(f, i, j), AllocPos(f, start, f.sblimit);
            Selection(stream, ba, selPos, m) == Field(stream, selPos + 2 * Rank(ba, m), 2)
    ensures var m, selPos := Slot(f, i, j), AllocPos(f, start, f.sblimit);
            var at := FactorPos(stream, ba, selPos, selPos + 2 * Rank(ba, Entries(f)), m);
            FactorOf(PassOf(f, t, stream, start, ba, scf, k), i, j) ==
            match Selection(stream, ba, selPos, m)
            case 0 => Field(stream, if k <= 3 then at else if k <= 7 then at + 6 else at + 12, 6)
            case 1 => Field(stream, if k <= 7 then at else at + 6, 6)
            case 2 => Field(stream, at, 6)
            case _ => Field(stream, if k <= 3 then at else at + 6, 6)
  {
    hide Prepared, FactorOf, FactorPos, Field, AllocPos, Rank, FrameOk, Slot, Entries, Selection, Factor, PassOf;
    OwnFactor(f, t, stream, start, ba, scf, k, i, j);
    var selPos := AllocPos(f, start, f.sblimit);
    SelectionCode(stream, ba, selPos, Slot(f, i, j));
    CodedFactor(stream, ba, selPos, selPos + 2 * Rank(ba, Entries(f)), Slot(f, i, j), k);
  }

  lemma SelectionCode(stream: seq<bool>, ba: seq<nat>, selPos: nat, m: nat)
    ensures Selection(stream, ba, selPos, m) == Field(stream, selPos + 2 * Rank(ba, m), 2)
  {}

  lemma CodedFactor(stream: seq<bool>, ba: seq<nat>, selPos: nat, facPos: nat, m: nat, k: nat)
    requires k < SCALE_BLOCK
    ensures var at := FactorPos(stream, ba, selPos, facPos, m);
            Factor(stream, ba, selPos, facPos, m, k / 4) ==
            match Selection(stream, ba, selPos, m)
            case 0 => Field(stream, if k <= 3 then at else if k <= 7 then at + 6 else at + 12, 6)
            case 1 => Field(stream, if k <= 7 then at else at + 6, 6)
            case 2 => Field(stream, at, 6)
            case _ => Field(stream, if k <= 3 then at else at + 6, 6)
  {
    hide Field, FactorPos, Selection, Which;
    WhichPass(Selection(stream, ba, selPos, m), k);
  }

  lemma WhichPass(selection: nat, k: nat)
    requires k < SCALE_BLOCK
    ensures 6 * Which(selection, k / 4) ==
            match selection
            case 0 => if k <= 3 then 0 else if k <= 7 then 6 else 12
            case 1 => if k <= 7 then 0 else 6
            case 2 => 0
            case _ => if k <= 3 then 0 else 6
  {}

  /** Each channel of a subband is made from its own allocation, codes and factor, the codes lying one behind the other; from
      jsbound on both channels read the same codes, and only the first channel's ungrouped samples come out differently. */
  lemma DecodedSample(f: Frame, t: Tables, stream: seq<bool>, start: nat, ba: seq<nat>, scf: seq<nat>, k: nat, i: nat, j: nat, q: nat)
    requires FrameOk(f) && Prepared(f, stream, start, ba, scf) && i < f.sblimit && j < f.channels
    ensures var p, b := PassOf(f, t, stream, start, ba, scf, k), Alloc(f, stream, start, i, j);
            var first := BandPos(f, ba, p.pos, i);
            var at := if i < f.jsbound && j == 1 then first + Cost(f, i, Alloc(f, stream, start, i, 0)) else first;
            && Scaled(p, i, j, q) == Sample(f, t, stream, at, i, b, FactorOf(p, i, j), q)
            && (Decoded(p, i, j, q) == Scaled(p, i, j, q)
                || (i >= f.jsbound && j == 0 && b != 0 && TableAt(f.table, RowStart(f.table, i) + b).d < 0))
  {
    hide FactorOf, Field, SharedPairs, Alloc, BandPos, RowStart, PassPos, Sample, Cost, Scaled, Decoded, Slot, AllocAt, AllocPos,
      Quantiser, SamplePos, TableAt, Factored, Allocated, Rank;
    AllocatedAt(f, stream, start, ba, i, j);
    AllocatedAt(f, stream, start, ba, i, 0);
    PreparedShares(f, stream, start, ba, scf);
    if i >= f.jsbound && f.channels == 2 {
      SharedAt(f, ba, i);
    }
    PassSample(PassOf(f, t, stream, start, ba, scf, k), i, j, q);
  }

  lemma PassSample(p: Pass, i: nat, j: nat, q: nat)
    requires j < p.f.channels <= 2
    requires i >= p.f.jsbound ==> AllocAt(p.ba, Slot(p.f, i, 0)) == AllocAt(p.ba, Slot(p.f, i, 1))
    ensures var b, first := AllocAt(p.ba, Slot(p.f, i, j)), BandPos(p.f, p.ba, p.pos, i);
            var at := if i < p.f.jsbound && j == 1 then first + Cost(p.f, i, AllocAt(p.ba, Slot(p.f, i, 0))) else first;
            && Scaled(p, i, j, q) == Sample(p.f, p.t, p.stream, at, i, b, FactorOf(p, i, j), q)
            && (Decoded(p, i, j, q) == Scaled(p, i, j, q)
                || (i >= p.f.jsbound && j == 0 && b != 0 && TableAt(p.f.table, RowStart(p.f.table, i) + b).d < 0))
  {
    hide FactorOf, BandPos, RowStart, Sample, Cost;
  }

  /** What a pass makes of codes: nothing without bits; three codes behind each other, moved by the table's offset and scaled;
      or the three members of one code, each with its own multiplier. */
  lemma SampleValue(f: Frame, t: Tables, stream: seq<bool>, at: nat, i: nat, b: nat, factor: nat, q: nat)
    requires q < 3
    ensures var e := TableAt(f.table, RowStart(f.table, i) + b);
            Sample(f, t, stream, at, i, b, factor, q) ==
            if b == 0 then 0.0
            else if e.d < 0 then (Field(stream, at + q * e.bits, e.bits) + e.d) as real * t.muls(e.bits, factor)
            else t.muls(t.group(e.d, Field(stream, at, e.bits), q), factor)
  {
    hide Field, RowStart;
    SkipTimes(q, TableAt(f.table, RowStart(f.table, i) + b).bits);
    hide Skip;
  }

  lemma SkipTimes(q: nat, n: nat)
    requires q < 3
    ensures Skip(q, n) == q * n
  {}

  lemma AllocatedAt(f: Frame, stream: seq<bool>, start: nat, ba: seq<nat>, i: nat, j: nat)
    requires FrameOk(f) && Allocated(f, stream, start, ba, f.sblimit) && i < f.sblimit && j < f.channels
    ensures AllocAt(ba, Slot(f, i, j)) == Alloc(f, stream, start, i, j)
  {
    hide Alloc;
  }

  lemma SharedAt(f: Frame, ba: seq<nat>, i: nat)
    requires SharedPairs(f, ba) && f.jsbound <= i < f.sblimit && f.channels == 2
    ensures AllocAt(ba, Slot(f, i, 0)) == AllocAt(ba, Slot(f, i, 1))
  {}

  function SecondMultiplier(p: Pass, i: nat): real {
    p.t.muls(Quantiser(p.f, i, AllocAt(p.ba, Slot(p.f, i, 1))).bits, FactorOf(p, i, 1))
  }

  /** So every sample is its code scaled by its own factor, but for the first channel's share of an ungrouped joint code:
      there the code leaves the second channel's multiplier in as well, which is harmless exactly if the sample is zero
      or that multiplier is one. */
  lemma OwnScaling(p: Pass, i: nat, j: nat, q: nat)
    requires j == 0 && i >= p.f.jsbound ==> AllocAt(p.ba, Slot(p.f, i, 0)) == AllocAt(p.ba, Slot(p.f, i, 1))
    ensures Decoded(p, i, j, q) == Scaled(p, i, j, q)
       <==> !Doubled(p, i, j) || Scaled(p, i, j, q) == 0.0 || SecondMultiplier(p, i) == 1.0
  {
    hide Field, Rank, RowStart, BandPos;
    if Doubled(p, i, j) {
      var b := AllocAt(p.ba, Slot(p.f, i, 1));
      var e := Quantiser(p.f, i, b);
      var v := (Field(p.stream, SamplePos(p, i, 0) + Skip(q, e.bits), e.bits) + e.d) as real;
      Thrice(v, p.t.muls(e.bits, FactorOf(p, i, 1)), p.t.muls(e.bits, FactorOf(p, i, 0)));
    }
  }

  lemma Thrice(v: real, second: real, first: real)
    ensures Times(Times(v, second), first) == Times(v, first) <==> Times(v, first) == 0.0 || second == 1.0
  {
    var x := v * first;
    assert v * second * first == x * second;
    assert x * second == x <==> x * (second - 1.0) == 0.0;
    if x != 0.0 && x * (second - 1.0) == 0.0 {
      assert second - 1.0 == 0.0;
    }
  }

  // ---- a frame on which it shows ----

  /** Allocation table 2: two rows of sixteen entries, six of eight. */
  const SHORT_ROW: seq<Entry> :=
    [Entry(3, 0), Entry(5, 3), Entry(7, 5), Entry(10, 9), Entry(4, -7), Entry(5, -15), Entry(6, -31), Entry(7, -63)]

  const LONG_ROW: seq<Entry> :=
    [Entry(4, 0), Entry(5, 3), Entry(7, 5), Entry(10, 9), Entry(4, -7), Entry(5, -15), Entry(6, -31), Entry(7, -63),
     Entry(8, -127), Entry(9, -255), Entry(10, -511), Entry(11, -1023), Entry(12, -2047), Entry(13, -4095),
     Entry(14, -8191), Entry(15, -16383)]

  const ALLOC_2: seq<Entry> :=
    LONG_ROW + LONG_ROW + SHORT_ROW + SHORT_ROW + SHORT_ROW + SHORT_ROW + SHORT_ROW + SHORT_ROW

  /** Joint stereo from band 4 of 8. */
  const SHOWN: Frame := Frame(2, Sblimits(2), Jsbound(true, 0, 2), ALLOC_2)

  /** Only band 4 has bits allocated: entry 4, of four ungrouped bits. Both its channels select one scale factor, which is 0;
      the first code is 8, and what follows the stream reads as zeros. */
  const BITS: seq<bool> := seq(57, k => k == 28 || k == 40 || k == 42 || k == 56)

  const ALLOCATION: seq<nat> := seq(2 * SBLIMIT, m => if m == 8 || m == 9 then 4 else 0)
  const FACTORS: seq<nat> := seq(3 * 2 * SBLIMIT, m => 0)

  lemma ShownTable(i: nat)
    requires i <= 8
    ensures |ALLOC_2| == 80
    ensures i < 2 ==> TableAt(ALLOC_2, 16 * i) == Entry(4, 0)
    ensures 2 <= i < 8 ==> TableAt(ALLOC_2, 8 * i + 16) == Entry(3, 0)
    ensures TableAt(ALLOC_2, 52) == Entry(4, -7)
  {}

  lemma {:induction false} ShownRows(i: nat)
    requires i <= 8
    ensures RowStart(ALLOC_2, i) == if i <= 2 then 16 * i else 8 * i + 16
    ensures AllocPos(SHOWN, 0, i) == if i <= 2 then 8 * i else if i <= 4 then 6 * i + 4 else 3 * i + 16
    ensures i < 8 ==> StepOf(SHOWN, i) == if i < 2 then 4 else 3
  {
    hide ALLOC_2;
    ShownTable(i);
    if i > 0 {
      ShownRows(i - 1);
      ShownTable(i - 1);
      SmallPowers();
    }
  }

  /** None of the four set bits is among the n at pos. */
  predicate Quiet(pos: nat, n: nat) {
    (pos + n <= 28 || pos > 28) && (pos + n <= 40 || pos > 40) && (pos + n <= 42 || pos > 42) && (pos + n <= 56 || pos > 56)
  }

  lemma {:induction false} NoBits(pos: nat, n: nat)
    requires Quiet(pos, n)
    ensures Field(BITS, pos, n) == 0
  {
    if n > 0 {
      NoBits(pos, n - 1);
    }
  }

  /** A set bit and zeros behind it. */
  lemma {:induction false} OneBit(pos: nat, n: nat)
    requires n >= 1 && pos in {28, 40, 42, 56} && Quiet(pos + 1, n - 1)
    ensures Field(BITS, pos, n) == Pow2(n - 1)
  {
    if n > 1 {
      OneBit(pos, n - 1);
    } else {
      assert Field(BITS, pos, 0) == 0;
    }
  }

  lemma SmallPowers()
    ensures Pow2(0) == 1 && Pow2(1) == 2 && Pow2(2) == 4 && Pow2(3) == 8 && Pow2(4) == 16
  {}

  /** The codes of all bands but band 4 are zero. */
  lemma ShownPlace(i: nat, j: nat)
    requires i < 8 && j < 2
    ensures var at := AllocPos(SHOWN, 0, i) + (if j == 1 && i < 4 then StepOf(SHOWN, i) else 0);
            if i == 4 then at == 28 && StepOf(SHOWN, i) == 3 else Quiet(at, StepOf(SHOWN, i))
  {
    hide Field, AllocPos, StepOf, RowStart, ALLOC_2, BITS;
    ShownRows(i);
  }

  lemma ShownAlloc(i: nat, j: nat)
    requires i < 8 && j < 2
    ensures Alloc(SHOWN, BITS, 0, i, j) == if i == 4 then 4 else 0
  {
    hide Field, AllocPos, StepOf, RowStart, ALLOC_2, BITS, Quiet, Pow2;
    ShownPlace(i, j);
    if i == 4 {
      SmallPowers();
      assert Field(BITS, 28, 3) == 4 by {
        FirstBit();
      }
    } else {
      NoBits(AllocPos(SHOWN, 0, i) + (if j == 1 && i < 4 then StepOf(SHOWN, i) else 0), StepOf(SHOWN, i));
    }
  }

  lemma FirstBit()
    ensures Field(BITS, 28, 3) == 4
  {
    hide BITS;
    OneBit(28, 3);
    SmallPowers();
  }

  lemma ShownAllocated()
    ensures FrameOk(SHOWN) && Allocated(SHOWN, BITS, 0, ALLOCATION, 8)
  {
    ShownRows(8);
    ShownTable(0);
    hide Alloc, ALLOC_2, RowStart, BITS;
    forall i: nat, j: nat | i < 8 && j < 2 ensures ALLOCATION[Slot(SHOWN, i, j)] == Alloc(SHOWN, BITS, 0, i, j) {
      ShownAlloc(i, j);
    }
  }

  lemma {:induction false} ShownRank(m: nat)
    requires m <= 16
    ensures Rank(ALLOCATION, m) == if m <= 8 then 0 else if m == 9 then 1 else 2
  {
    if m > 0 {
      ShownRank(m - 1);
    }
  }

  lemma ShownSelections()
    ensures Selection(BITS, ALLOCATION, 40, 8) == 2 && Selection(BITS, ALLOCATION, 40, 9) == 2
  {
    ShownRank(8);
    ShownRank(9);
    OneBit(40, 2);
    OneBit(42, 2);
    SmallPowers();
  }

  lemma {:induction false} ShownFactorPos(m: nat)
    requires m <= 16
    ensures FactorPos(BITS, ALLOCATION, 40, 44, m) == if m <= 8 then 44 else if m == 9 then 50 else 56
  {
    ShownSelections();
    hide Selection;
    if m > 0 {
      ShownFactorPos(m - 1);
    }
  }

  lemma ShownFactors(m: nat)
    requires m == 8 || m == 9
    ensures FactorsAt(BITS, ALLOCATION, 40, 44, FACTORS, m)
  {
    ShownRank(m);
    ShownFactorPos(m);
    ShownSelections();
    hide Field, Selection, FactorPos, Rank;
    NoBits(FactorPos(BITS, ALLOCATION, 40, 44, m), 6);
  }

  lemma ShownPrepared()
    ensures FrameOk(SHOWN) && Prepared(SHOWN, BITS, 0, ALLOCATION, FACTORS) && SampleStart(SHOWN, BITS, 0, ALLOCATION) == 56
  {
    hide AllocPos, Allocated, FactorsAt, Rank, FactorPos, ALLOC_2, FrameOk, BITS;
    ShownAllocated();
    ShownRows(8);
    ShownRank(16);
    ShownFactorPos(16);
    ShownFactors(8);
    ShownFactors(9);
  }

  lemma {:induction false} NothingBefore(i: nat)
    requires i <= 4
    ensures BandPos(SHOWN, ALLOCATION, 56, i) == 56
  {
    if i > 0 {
      NothingBefore(i - 1);
    }
  }

  /** In the first pass over it, with m the multiplier of both channels, the second channel's sample is 1 times m, and so
      should be the first's, but that is 1 times m squared: with the multiplier 4/15 that the tables of the decoder hold there,
      16/225 for 4/15. */
  lemma FirstChannelScaledTwice(t: Tables)
    ensures TableOf(false, 0, 2, 1) == 2 && FrameOk(SHOWN) && Prepared(SHOWN, BITS, 0, ALLOCATION, FACTORS)
    ensures var p, m := PassOf(SHOWN, t, BITS, 0, ALLOCATION, FACTORS, 0), t.muls(4, 0);
            && Decoded(p, 4, 1, 0) == Scaled(p, 4, 1, 0) == m && Scaled(p, 4, 0, 0) == m
            && Decoded(p, 4, 0, 0) == Times(m, m)
            && (m == 4.0 / 15.0 ==> Decoded(p, 4, 0, 0) == 16.0 / 225.0)
  {
    ShownPrepared();
    ShownCode();
    hide Rank, BandPos, SampleStart, Prepared, RowStart, ALLOC_2, BITS, FrameOk, Sample, Quantiser;
    var p := PassOf(SHOWN, t, BITS, 0, ALLOCATION, FACTORS, 0);
    assert p.pos == 56 && SamplePos(p, 4, 0) == 56 == SamplePos(p, 4, 1);
    assert FactorOf(p, 4, 0) == 0 == FactorOf(p, 4, 1);
    ShownSample(t);
  }

  lemma ShownSample(t: Tables)
    ensures Sample(SHOWN, t, BITS, 56, 4, 4, 0, 0) == t.muls(4, 0)
  {
    ShownCode();
    hide Field, Rank, BandPos, ALLOC_2, BITS, Quantiser;
  }

  /** The first code of band 4. */
  lemma ShownCode()
    ensures Quantiser(SHOWN, 4, 4) == Entry(4, -7) && BandPos(SHOWN, ALLOCATION, 56, 4) == 56
    ensures Field(BITS, 56, 4) == 8 && Rank(ALLOCATION, 8) == 0 && Rank(ALLOCATION, 9) == 1
  {
    NothingBefore(4);
    OneBit(56, 4);
    SmallPowers();
    ShownRank(8);
    ShownRank(9);
    ShownRows(4);
    ShownTable(4);
    hide RowStart, ALLOC_2;
  }
}
