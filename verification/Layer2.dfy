/** MPEG audio layer II of mpadec: the allocation pass writes scale factors at a running cursor, and each of the twelve
    sample passes reads them back at a cursor of its own. */
module Layer2 {
  const SBLIMIT := 32

  datatype Entry = Entry(bits: nat, d: int)

  /** The frame's channels, its number of subbands, where joint coding begins, and its allocation table: for each subband a
      row of 2^bits entries, of which the first gives bits. */
  datatype Frame = Frame(channels: nat, sblimit: nat, jsbound: nat, table: seq<Entry>)

  function Pow2(n: nat): (r: nat)
    ensures r >= 1
  {
    if n == 0 then 1 else 2 * Pow2(n - 1)
  }

  /** The n bits of the stream at pos, highest first; beyond its end there are zeros. */
  function Field(stream: seq<bool>, pos: nat, n: nat): (v: nat)
    ensures v < Pow2(n)
  {
    if n == 0 then 0
    else 2 * Field(stream, pos, n - 1) + if pos + n - 1 < |stream| && stream[pos + n - 1] then 1 else 0
  }

  lemma Doubling(a: nat, p: nat)
    ensures 2 * (a * p) == a * (2 * p)
  {}

  /** One bit, and two fields read one behind the other: the first holds the high bits of both. */
  lemma {:induction false} FieldJoin(stream: seq<bool>, pos: nat, m: nat, n: nat)
    ensures Field(stream, pos, 1) == if pos < |stream| && stream[pos] then 1 else 0
    ensures Field(stream, pos, m + n) == Field(stream, pos, m) * Pow2(n) + Field(stream, pos + m, n)
    decreases n
  {
    assert Field(stream, pos, 0) == 0;
    if n > 0 {
      FieldJoin(stream, pos, m, n - 1);
      Doubling(Field(stream, pos, m), Pow2(n - 1));
    }
  }

  class BitReader {
    const stream: seq<bool>
    var pos: nat

    constructor (stream: seq<bool>)
      ensures this.stream == stream && pos == 0
    {
      this.stream, this.pos := stream, 0;
    }

    /** GETBITS */
    method GetBits(n: nat) returns (v: nat)
      modifies this
      ensures v == Field(stream, old(pos), n) && pos == old(pos) + n
    {
      v := Field(stream, pos, n);
      pos := pos + n;
    }
  }

  function TableAt(table: seq<Entry>, k: nat): Entry {
    if k < |table| then table[k] else Entry(0, 0)
  }

  /** Where the row of subband i starts, and its bits. */
  function RowStart(table: seq<Entry>, i: nat): nat {
    if i == 0 then 0 else RowStart(table, i - 1) + Pow2(TableAt(table, RowStart(table, i - 1)).bits)
  }

  function StepOf(f: Frame, i: nat): nat {
    TableAt(f.table, RowStart(f.table, i)).bits
  }

  predicate FrameOk(f: Frame) {
    && (f.channels == 1 || f.channels == 2)
    && f.jsbound <= f.sblimit <= SBLIMIT
    && (f.channels == 1 ==> f.jsbound == f.sblimit)
    && RowStart(f.table, f.sblimit) <= |f.table|
  }

  // ---- what the bitstream says ----

  /** Where the allocation of subband i is coded: once for each channel below jsbound, once for both above. */
  function AllocPos(f: Frame, start: nat, i: nat): nat {
    if i == 0 then start
    else AllocPos(f, start, i - 1) + if f.channels == 2 && i - 1 < f.jsbound then 2 * StepOf(f, i - 1) else StepOf(f, i - 1)
  }

  /** The allocation of a subband for a channel. */
  function Alloc(f: Frame, stream: seq<bool>, start: nat, i: nat, j: nat): (b: nat)
    ensures b < Pow2(StepOf(f, i))
  {
    Field(stream, AllocPos(f, start, i) + (if j == 1 && i < f.jsbound then StepOf(f, i) else 0), StepOf(f, i))
  }

  /** The allocations come one behind the other: below jsbound first that of channel 0 and then that of channel 1, and from
      jsbound on one for both. */
  lemma AllocationOrder(f: Frame, stream: seq<bool>, start: nat, i: nat)
    requires f.channels == 2
    ensures var pos, step := AllocPos(f, start, i), TableAt(f.table, RowStart(f.table, i)).bits;
            && Alloc(f, stream, start, i, 0) == Field(stream, pos, step)
            && Alloc(f, stream, start, i, 1) == Field(stream, if i < f.jsbound then pos + step else pos, step)
            && AllocPos(f, start, 0) == start && AllocPos(f, start, i + 1) == (if i < f.jsbound then pos + 2 * step else pos + step)
            && RowStart(f.table, i + 1) == RowStart(f.table, i) + Pow2(step)
  {}

  /** Channel j of subband i among the entries of bit_alloc. */
  function Slot(f: Frame, i: nat, j: nat): nat {
    if f.channels == 2 then 2 * i + j else i
  }

  function Entries(f: Frame): nat {
    Slot(f, f.sblimit, 0)
  }

  /** How many of the first m entries have bits allocated. */
  function Rank(ba: seq<nat>, m: nat): (r: nat)
    ensures r <= m
  {
    if m == 0 then 0 else Rank(ba, m - 1) + if m - 1 < |ba| && ba[m - 1] != 0 then 1 else 0
  }

  /** The scale factor selection of entry m, coded for entries with bits allocated only. */
  function Selection(stream: seq<bool>, ba: seq<nat>, selPos: nat, m: nat): nat {
    Field(stream, selPos + 2 * Rank(ba, m), 2)
  }

  /** How many scale factors a selection transmits. */
  function Transmitted(selection: nat): nat {
    if selection == 0 then 3 else if selection == 2 then 1 else 2
  }

  /** Which of the transmitted scale factors holds for third x. */
  function Which(selection: nat, x: nat): nat {
    if selection == 0 then x
    else if selection == 1 then (if x == 2 then 1 else 0)
    else if selection == 2 then 0
    else (if x == 0 then 0 else 1)
  }

  function FactorPos(stream: seq<bool>, ba: seq<nat>, selPos: nat, facPos: nat, m: nat): nat {
    if m == 0 then facPos
    else FactorPos(stream, ba, selPos, facPos, m - 1)
         + if m - 1 < |ba| && ba[m - 1] != 0 then 6 * Transmitted(Selection(stream, ba, selPos, m - 1)) else 0
  }

  /** The scale factor of entry m for third x of the frame. */
  function Factor(stream: seq<bool>, ba: seq<nat>, selPos: nat, facPos: nat, m: nat, x: nat): nat {
    Field(stream, FactorPos(stream, ba, selPos, facPos, m) + 6 * Which(Selection(stream, ba, selPos, m), x), 6)
  }

  /** bit_alloc as the bitstream codes it. */
  predicate Allocated(f: Frame, stream: seq<bool>, start: nat, ba: seq<nat>, upTo: nat) {
    && |ba| == 2 * SBLIMIT && upTo <= SBLIMIT && f.channels <= 2
    && forall i: nat, j: nat {:trigger Slot(f, i, j)} :: i < upTo && j < f.channels ==> ba[Slot(f, i, j)] == Alloc(f, stream, start, i, j)
  }

  /** The three scale factors of entry m stand at the place its rank gives. */
  predicate FactorsAt(stream: seq<bool>, ba: seq<nat>, selPos: nat, facPos: nat, scf: seq<nat>, m: nat) {
    var at := 3 * Rank(ba, m);
    && at + 2 < |scf|
    && scf[at] == Factor(stream, ba, selPos, facPos, m, 0)
    && scf[at + 1] == Factor(stream, ba, selPos, facPos, m, 1)
    && scf[at + 2] == Factor(stream, ba, selPos, facPos, m, 2)
  }

  /** The scale factors stand behind each other, three for each entry with bits allocated. */
  predicate Factored(stream: seq<bool>, ba: seq<nat>, selPos: nat, facPos: nat, scf: seq<nat>, upTo: nat) {
    && |scf| == 3 * 2 * SBLIMIT
    && forall m: nat {:trigger FactorsAt(stream, ba, selPos, facPos, scf, m)} ::
        m < upTo && m < |ba| && ba[m] != 0 ==> FactorsAt(stream, ba, selPos, facPos, scf, m)
  }

  // ---- the allocation pass ----

  /** One more subband allocated. */
  lemma AllocatedNext(f: Frame, stream: seq<bool>, start: nat, ba: seq<nat>, ba': seq<nat>, i: nat)
    requires Allocated(f, stream, start, ba, i) && i < SBLIMIT && |ba'| == |ba| && 1 <= f.channels
    requires forall m :: 0 <= m < Slot(f, i, 0) ==> ba'[m] == ba[m]
    requires ba'[Slot(f, i, 0)] == Alloc(f, stream, start, i, 0)
    requires f.channels == 2 ==> ba'[Slot(f, i, 1)] == Alloc(f, stream, start, i, 1)
    ensures Allocated(f, stream, start, ba', i + 1)
  {
    hide Alloc;
  }

  /** The first loops of II_decode_bitalloc. */
  method DecodeAllocations(r: BitReader, f: Frame, bitAlloc: array<nat>)
    requires FrameOk(f) && bitAlloc.Length == 2 * SBLIMIT
    modifies r, bitAlloc
    ensures Allocated(f, r.stream, old(r.pos), bitAlloc[..], f.sblimit) && r.pos == AllocPos(f, old(r.pos), f.sblimit)
  {
    hide Field, Pow2, Allocated, AllocPos, RowStart;
    ghost var start := r.pos;
    var alloc, ba, i: nat := 0, 0, 0;
    FirstRow(f, start);
    NoneAllocated(f, r.stream, start, bitAlloc[..]);
    if f.channels > 1 {
      while i < f.jsbound
        invariant i <= f.jsbound && alloc == RowStart(f.table, i) && ba == 2 * i
        invariant r.pos == AllocPos(f, start, i) && Allocated(f, r.stream, start, bitAlloc[..], i)
      {
        ghost var was := bitAlloc[..];
        var step := TableAt(f.table, alloc).bits;
        bitAlloc[ba] := r.GetBits(step);
        bitAlloc[ba + 1] := r.GetBits(step);
        AllocatedNext(f, r.stream, start, was, bitAlloc[..], i);
        NextRow(f, start, i);
        ba := ba + 2;
        alloc := alloc + Pow2(step);
        i := i + 1;
      }
      while i < f.sblimit
        invariant f.jsbound <= i <= f.sblimit && alloc == RowStart(f.table, i) && ba == 2 * i
        invariant r.pos == AllocPos(f, start, i) && Allocated(f, r.stream, start, bitAlloc[..], i)
      {
        ghost var was := bitAlloc[..];
        var step := TableAt(f.table, alloc).bits;
        bitAlloc[ba] := r.GetBits(step);
        bitAlloc[ba + 1] := bitAlloc[ba];
        AllocatedNext(f, r.stream, start, was, bitAlloc[..], i);
        NextRow(f, start, i);
        ba := ba + 2;
        alloc := alloc + Pow2(step);
        i := i + 1;
      }
    } else {
      while i < f.sblimit
        invariant i <= f.sblimit && alloc == RowStart(f.table, i) && ba == i
        invariant r.pos == AllocPos(f, start, i) && Allocated(f, r.stream, start, bitAlloc[..], i)
      {
        ghost var was := bitAlloc[..];
        var step := TableAt(f.table, alloc).bits;
        bitAlloc[ba] := r.GetBits(step);
        AllocatedNext(f, r.stream, start, was, bitAlloc[..], i);
        NextRow(f, start, i);
        ba := ba + 1;
        alloc := alloc + Pow2(step);
        i := i + 1;
      }
    }
  }

  lemma FirstRow(f: Frame, start: nat)
    ensures RowStart(f.table, 0) == 0 && AllocPos(f, start, 0) == start
  {}

  lemma NextRow(f: Frame, start: nat, i: nat)
    ensures RowStart(f.table, i + 1) == RowStart(f.table, i) + Pow2(StepOf(f, i))
    ensures AllocPos(f, start, i + 1)
         == AllocPos(f, start, i) + if f.channels == 2 && i < f.jsbound then 2 * StepOf(f, i) else StepOf(f, i)
  {}

  lemma NoneAllocated(f: Frame, stream: seq<bool>, start: nat, ba: seq<nat>)
    requires |ba| == 2 * SBLIMIT && f.channels <= 2
    ensures Allocated(f, stream, start, ba, 0)
  {}

  /** The selections wait in the order of the entries they belong to. */
  predicate Selected(stream: seq<bool>, ba: seq<nat>, selPos: nat, scfsi: seq<nat>, upTo: nat) {
    && |scfsi| == 2 * SBLIMIT
    && forall m: nat {:trigger Rank(ba, m)} :: m < upTo && m < |ba| && ba[m] != 0 ==>
        Rank(ba, m) < |scfsi| && scfsi[Rank(ba, m)] == Selection(stream, ba, selPos, m)
  }

  lemma {:induction false} RankGrows(ba: seq<nat>, m: nat, n: nat)
    requires m < n <= |ba|
    ensures Rank(ba, m) <= Rank(ba, n) && (ba[m] != 0 ==> Rank(ba, m) < Rank(ba, n))
    decreases n
  {
    if n > m + 1 {
      RankGrows(ba, m, n - 1);
    }
  }

  lemma SelectedNext(stream: seq<bool>, ba: seq<nat>, selPos: nat, scfsi: seq<nat>, m: nat)
    requires Selected(stream, ba, selPos, scfsi, m) && m < |ba| <= 2 * SBLIMIT
    ensures ba[m] == 0 ==> Selected(stream, ba, selPos, scfsi, m + 1)
    ensures ba[m] != 0 ==> Rank(ba, m) < |scfsi|
    ensures ba[m] != 0 ==> Selected(stream, ba, selPos, scfsi[Rank(ba, m) := Selection(stream, ba, selPos, m)], m + 1)
  {
    hide Selection;
    forall m' | 0 <= m' < m && ba[m'] != 0 ensures Rank(ba, m') < Rank(ba, m) {
      RankGrows(ba, m', m);
    }
    hide Rank;
  }

  /** The selection loop of II_decode_bitalloc. */
  method DecodeSelections(r: BitReader, f: Frame, bitAlloc: array<nat>, scfsiBuf: array<nat>)
    requires FrameOk(f) && bitAlloc.Length == 2 * SBLIMIT == scfsiBuf.Length && bitAlloc != scfsiBuf
    modifies r, scfsiBuf
    ensures Selected(r.stream, bitAlloc[..], old(r.pos), scfsiBuf[..], Entries(f))
    ensures r.pos == old(r.pos) + 2 * Rank(bitAlloc[..], Entries(f))
  {
    hide Field, Selected, Rank;
    ghost var selPos, alloc := r.pos, bitAlloc[..];
    var ba, scfsi: nat := 0, 0;
    NoneSelected(r.stream, alloc, selPos, scfsiBuf[..]);
    RankNext(alloc, 0);
    while ba < Entries(f)
      invariant ba <= Entries(f) && scfsi == Rank(alloc, ba) && bitAlloc[..] == alloc
      invariant r.pos == selPos + 2 * Rank(alloc, ba) && Selected(r.stream, alloc, selPos, scfsiBuf[..], ba)
    {
      SelectedNext(r.stream, alloc, selPos, scfsiBuf[..], ba);
      RankNext(alloc, ba);
      if bitAlloc[ba] != 0 {
        scfsiBuf[scfsi] := r.GetBits(2);
        scfsi := scfsi + 1;
      }
      ba := ba + 1;
    }
  }

  lemma RankNext(ba: seq<nat>, m: nat)
    ensures Rank(ba, 0) == 0
    ensures Rank(ba, m + 1) == Rank(ba, m) + if m < |ba| && ba[m] != 0 then 1 else 0
  {}

  lemma NoneSelected(stream: seq<bool>, ba: seq<nat>, selPos: nat, scfsi: seq<nat>)
    requires |scfsi| == 2 * SBLIMIT
    ensures Selected(stream, ba, selPos, scfsi, 0)
  {}

  lemma RankRoom(ba: seq<nat>, m: nat)
    requires m < |ba| == 2 * SBLIMIT
    ensures 3 * Rank(ba, m) + 2 < 3 * 2 * SBLIMIT
  {}

  lemma FactoredSkip(stream: seq<bool>, ba: seq<nat>, selPos: nat, facPos: nat, scf: seq<nat>, m: nat)
    requires Factored(stream, ba, selPos, facPos, scf, m) && m < |ba| && ba[m] == 0
    ensures Factored(stream, ba, selPos, facPos, scf, m + 1)
  {
    hide FactorsAt;
  }

  lemma FactorsKept(stream: seq<bool>, ba: seq<nat>, selPos: nat, facPos: nat, scf: seq<nat>, scf': seq<nat>, m: nat, n: nat)
    requires FactorsAt(stream, ba, selPos, facPos, scf, m) && m < n <= |ba| && ba[m] != 0 && |scf'| == |scf|
    requires forall k :: 0 <= k < 3 * Rank(ba, n) && k < |scf| ==> scf'[k] == scf[k]
    ensures FactorsAt(stream, ba, selPos, facPos, scf', m)
  {
    RankGrows(ba, m, n);
    hide Factor, Rank;
  }

  /** Three more scale factors at the cursor. */
  lemma FactoredAdd(stream: seq<bool>, ba: seq<nat>, selPos: nat, facPos: nat, scf: seq<nat>, scf': seq<nat>, m: nat)
    requires Factored(stream, ba, selPos, facPos, scf, m) && m < |ba| && ba[m] != 0 && |scf'| == |scf|
    requires forall k :: 0 <= k < 3 * Rank(ba, m) && k < |scf| ==> scf'[k] == scf[k]
    requires FactorsAt(stream, ba, selPos, facPos, scf', m)
    ensures Factored(stream, ba, selPos, facPos, scf', m + 1)
  {
    hide FactorsAt, Rank;
    forall m': nat | m' < m && ba[m'] != 0
      ensures FactorsAt(stream, ba, selPos, facPos, scf', m')
    {
      FactorsKept(stream, ba, selPos, facPos, scf, scf', m', m);
    }
  }

  lemma NoneFactored(stream: seq<bool>, ba: seq<nat>, selPos: nat, facPos: nat, scf: seq<nat>)
    requires |scf| == 3 * 2 * SBLIMIT
    ensures Factored(stream, ba, selPos, facPos, scf, 0)
  {}

  /** The switch on the selection: three factors, or the first of two twice, or one three times, or the second of two twice. */
  method ReadFactors(r: BitReader, selection: nat, scalefac: array<nat>, scf: nat)
    requires scf + 2 < scalefac.Length
    modifies r, scalefac
    ensures var a, b, c := Field(r.stream, old(r.pos), 6), Field(r.stream, old(r.pos) + 6, 6), Field(r.stream, old(r.pos) + 12, 6);
            && scalefac[scf..scf + 3] == (match selection case 0 => [a, b, c] case 1 => [a, a, b] case 2 => [a, a, a] case _ => [a, b, b])
            && r.pos == old(r.pos) + (match selection case 0 => 18 case 1 => 12 case 2 => 6 case _ => 12)
    ensures r.pos == old(r.pos) + 6 * Transmitted(selection)
    ensures scalefac[scf] == Field(r.stream, old(r.pos) + 6 * Which(selection, 0), 6)
    ensures scalefac[scf + 1] == Field(r.stream, old(r.pos) + 6 * Which(selection, 1), 6)
    ensures scalefac[scf + 2] == Field(r.stream, old(r.pos) + 6 * Which(selection, 2), 6)
    ensures forall k :: 0 <= k < scalefac.Length && (k < scf || k > scf + 2) ==> scalefac[k] == old(scalefac[k])
  {
    hide Field;
    match selection
    case 0 =>
      scalefac[scf] := r.GetBits(6);
      scalefac[scf + 1] := r.GetBits(6);
      scalefac[scf + 2] := r.GetBits(6);
    case 1 =>
      scalefac[scf] := r.GetBits(6);
      scalefac[scf + 1] := scalefac[scf];
      scalefac[scf + 2] := r.GetBits(6);
    case 2 =>
      scalefac[scf] := r.GetBits(6);
      scalefac[scf + 2] := scalefac[scf];
      scalefac[scf + 1] := scalefac[scf + 2];
    case _ =>
      scalefac[scf] := r.GetBits(6);
      scalefac[scf + 1] := r.GetBits(6);
      scalefac[scf + 2] := scalefac[scf + 1];
  }

  /** The scale factor loop of II_decode_bitalloc. */
  method DecodeFactors(r: BitReader, f: Frame, bitAlloc: array<nat>, scfsiBuf: array<nat>, scalefac: array<nat>, ghost selPos: nat)
    requires FrameOk(f) && bitAlloc.Length == 2 * SBLIMIT && scalefac.Length == 3 * 2 * SBLIMIT
    requires scalefac != bitAlloc && scalefac != scfsiBuf && Selected(r.stream, bitAlloc[..], selPos, scfsiBuf[..], Entries(f))
    modifies r, scalefac
    ensures Factored(r.stream, bitAlloc[..], selPos, old(r.pos), scalefac[..], Entries(f))
    ensures r.pos == FactorPos(r.stream, bitAlloc[..], selPos, old(r.pos), Entries(f))
  {
    hide Field, Factored, Rank, Selection, Selected, Which, Transmitted;
    ghost var facPos, alloc, sel := r.pos, bitAlloc[..], scfsiBuf[..];
    var ba, scfsi, scf: nat := 0, 0, 0;
    NoneFactored(r.stream, alloc, selPos, facPos, scalefac[..]);
    RankNext(alloc, 0);
    while ba < Entries(f)
      invariant ba <= Entries(f) && scfsi == Rank(alloc, ba) && scf == 3 * Rank(alloc, ba)
      invariant bitAlloc[..] == alloc && scfsiBuf[..] == sel
      invariant r.pos == FactorPos(r.stream, alloc, selPos, facPos, ba)
      invariant Factored(r.stream, alloc, selPos, facPos, scalefac[..], ba)
    {
      ghost var was := scalefac[..];
      RankNext(alloc, ba);
      if bitAlloc[ba] != 0 {
        RankRoom(alloc, ba);
        SelectionAt(r.stream, alloc, selPos, sel, ba, Entries(f));
        ReadFactors(r, scfsiBuf[scfsi], scalefac, scf);
        FactoredAdd(r.stream, alloc, selPos, facPos, was, scalefac[..], ba);
        scfsi := scfsi + 1;
        scf := scf + 3;
      } else {
        FactoredSkip(r.stream, alloc, selPos, facPos, was, ba);
      }
      ba := ba + 1;
    }
  }

  lemma SelectionAt(stream: seq<bool>, ba: seq<nat>, selPos: nat, scfsi: seq<nat>, m: nat, upTo: nat)
    requires Selected(stream, ba, selPos, scfsi, upTo) && m < upTo && m < |ba| && ba[m] != 0
    ensures Rank(ba, m) < |scfsi| && scfsi[Rank(ba, m)] == Selection(stream, ba, selPos, m)
  {
    hide Selection;
  }

  /** What II_decode_bitalloc leaves behind, for a frame whose allocations start at start. */
  predicate Prepared(f: Frame, stream: seq<bool>, start: nat, ba: seq<nat>, scf: seq<nat>) {
    var selPos := AllocPos(f, start, f.sblimit);
    && Allocated(f, stream, start, ba, f.sblimit)
    && Factored(stream, ba, selPos, selPos + 2 * Rank(ba, Entries(f)), scf, Entries(f))
  }

  /** Where the samples begin. */
  function SampleStart(f: Frame, stream: seq<bool>, start: nat, ba: seq<nat>): nat {
    var selPos := AllocPos(f, start, f.sblimit);
    FactorPos(stream, ba, selPos, selPos + 2 * Rank(ba, Entries(f)), Entries(f))
  }

  /** II_decode_bitalloc, without its checksum. */
  method DecodeBitalloc(r: BitReader, f: Frame, bitAlloc: array<nat>, scalefac: array<nat>)
    requires FrameOk(f) && bitAlloc.Length == 2 * SBLIMIT && scalefac.Length == 3 * 2 * SBLIMIT && bitAlloc != scalefac
    modifies r, bitAlloc, scalefac
    ensures Prepared(f, r.stream, old(r.pos), bitAlloc[..], scalefac[..])
    ensures r.pos == SampleStart(f, r.stream, old(r.pos), bitAlloc[..])
  {
    hide Allocated, Selected, Factored, Rank, AllocPos, FactorPos;
    var scfsiBuf := new nat[2 * SBLIMIT](i => 0);
    DecodeAllocations(r, f, bitAlloc);
    ghost var selPos, alloc := r.pos, bitAlloc[..];
    DecodeSelections(r, f, bitAlloc, scfsiBuf);
    assert bitAlloc[..] == alloc;
    DecodeFactors(r, f, bitAlloc, scfsiBuf, scalefac, selPos);
    assert bitAlloc[..] == alloc;
  }

  // ---- the sample pass ----

  /** The tables that turn codes into samples: muls by a quantiser and a scale factor, and the quantisers of a group. */
  datatype Tables = Tables(muls: (nat, nat) -> real, group: (int, nat, nat) -> nat)

  /** The allocation entry that b selects in subband i. */
  function Quantiser(f: Frame, i: nat, b: nat): Entry {
    TableAt(f.table, RowStart(f.table, i) + b)
  }

  /** Bits of the three samples of a subband. */
  function Cost(f: Frame, i: nat, b: nat): nat {
    if b == 0 then 0 else if Quantiser(f, i, b).d < 0 then 3 * Quantiser(f, i, b).bits else Quantiser(f, i, b).bits
  }

  function Times(a: real, b: real): real {
    a * b
  }

  /** q times n. */
  function Skip(q: nat, n: nat): nat {
    if q == 0 then 0 else if q == 1 then n else 2 * n
  }

  /** Sample q of three, coded at pos, scaled by a scale factor. */
  function Sample(f: Frame, t: Tables, stream: seq<bool>, pos: nat, i: nat, b: nat, factor: nat, q: nat): real {
    var e := Quantiser(f, i, b);
    if b == 0 then 0.0
    else if e.d < 0 then Times((Field(stream, pos + Skip(q, e.bits), e.bits) + e.d) as real, t.muls(e.bits, factor))
    else t.muls(t.group(e.d, Field(stream, pos, e.bits), q), factor)
  }

  /** Bits of a subband in one sample pass: each channel's own below jsbound, shared above. */
  function BandCost(f: Frame, ba: seq<nat>, i: nat): nat {
    if i >= f.jsbound then Cost(f, i, AllocAt(ba, Slot(f, i, 1)))
    else if f.channels == 2 then Cost(f, i, AllocAt(ba, Slot(f, i, 0))) + Cost(f, i, AllocAt(ba, Slot(f, i, 1)))
    else Cost(f, i, AllocAt(ba, Slot(f, i, 0)))
  }

  function AllocAt(ba: seq<nat>, m: nat): nat {
    if m < |ba| then ba[m] else 0
  }

  function BandPos(f: Frame, ba: seq<nat>, pos: nat, i: nat): nat {
    if i == 0 then pos else BandPos(f, ba, pos, i - 1) + BandCost(f, ba, i - 1)
  }

  /** Where sample q of channel j of subband i stands in fraction. */
  function Cell(j: nat, q: nat, i: nat): nat {
    4 * SBLIMIT * j + SBLIMIT * q + i
  }

  lemma CellsApart(j: nat, q: nat, i: nat, j': nat, q': nat, i': nat)
    requires j < 2 && q < 4 && i < SBLIMIT && j' < 2 && q' < 4 && i' < SBLIMIT
    ensures Cell(j, q, i) < 2 * 4 * SBLIMIT
    ensures Cell(j, q, i) == Cell(j', q', i') ==> j == j' && q == q' && i == i'
  {}

  /** One sample pass: the frame, the tables, the stream, what the allocation pass left, where the pass starts and its third. */
  datatype Pass = Pass(f: Frame, t: Tables, stream: seq<bool>, ba: seq<nat>, scf: seq<nat>, pos: nat, x: nat)

  /** The scale factor that stands for channel j of subband i. */
  function FactorOf(p: Pass, i: nat, j: nat): nat {
    var at := 3 * Rank(p.ba, Slot(p.f, i, j)) + p.x;
    if at < |p.scf| then p.scf[at] else 0
  }

  /** Where the samples of channel j of subband i are coded. */
  function SamplePos(p: Pass, i: nat, j: nat): nat {
    BandPos(p.f, p.ba, p.pos, i) + if i < p.f.jsbound && j == 1 then Cost(p.f, i, AllocAt(p.ba, Slot(p.f, i, 0))) else 0
  }

  /** Each channel's samples, scaled by its own scale factor. */
  function Scaled(p: Pass, i: nat, j: nat, q: nat): real {
    Sample(p.f, p.t, p.stream, SamplePos(p, i, j), i, AllocAt(p.ba, Slot(p.f, i, j)), FactorOf(p, i, j), q)
  }

  /** Shared samples of ungrouped codes: the first channel's are multiplied by the second channel's factor as well. */
  predicate Doubled(p: Pass, i: nat, j: nat) {
    var b := AllocAt(p.ba, Slot(p.f, i, 1));
    i >= p.f.jsbound && j == 0 && b != 0 && Quantiser(p.f, i, b).d < 0
  }

  function Decoded(p: Pass, i: nat, j: nat, q: nat): real {
    if Doubled(p, i, j) then
      Times(Scaled(p, i, 1, q), p.t.muls(Quantiser(p.f, i, AllocAt(p.ba, Slot(p.f, i, 1))).bits, FactorOf(p, i, 0)))
    else Scaled(p, i, j, q)
  }

  predicate Banded(p: Pass, fraction: seq<real>, upTo: nat) {
    && |fraction| == 2 * 4 * SBLIMIT && upTo <= SBLIMIT && p.f.channels <= 2
    && forall i: nat, j: nat, q: nat {:trigger Cell(j, q, i)} :: i < upTo && j < p.f.channels && q < 3 ==>
        fraction[Cell(j, q, i)] == Decoded(p, i, j, q)
  }

  /** Channel j of one band of three samples. */
  predicate OneBand(p: Pass, fraction: seq<real>, i: nat, j: nat) {
    && |fraction| == 2 * 4 * SBLIMIT && i < SBLIMIT && j < 2
    && fraction[Cell(j, 0, i)] == Decoded(p, i, j, 0)
    && fraction[Cell(j, 1, i)] == Decoded(p, i, j, 1)
    && fraction[Cell(j, 2, i)] == Decoded(p, i, j, 2)
  }

  predicate SameBut(before: seq<real>, after: seq<real>, i: nat, j: nat) {
    && |after| == |before| == 2 * 4 * SBLIMIT
    && forall i': nat, j': nat, q: nat {:trigger Cell(j', q, i')} :: i' < SBLIMIT && j' < 2 && q < 3 && !(i' == i && j' == j) ==>
        after[Cell(j', q, i')] == before[Cell(j', q, i')]
  }

  lemma BandedNext(p: Pass, before: seq<real>, mid: seq<real>, after: seq<real>, i: nat)
    requires Banded(p, before, i) && i < SBLIMIT && SameBut(before, mid, i, 0) && OneBand(p, mid, i, 0)
    requires if p.f.channels == 2 then SameBut(mid, after, i, 1) && OneBand(p, after, i, 1) else after == mid
    ensures Banded(p, after, i + 1)
  {
    hide Decoded, Cell;
  }

  /** Channel j of a band below jsbound: three codes, or one code for a group of three. */
  method DecodeBand(r: BitReader, ghost p: Pass, f: Frame, t: Tables, alloc: nat, b: nat, scf: nat, scalefac: array<nat>,
                    fraction: array<real>, i: nat, j: nat, x1: nat)
    requires p.f == f && p.t == t && p.stream == r.stream && p.x == x1 && i < f.jsbound && j < f.channels <= 2 && i < SBLIMIT && x1 < 3
    requires alloc == RowStart(f.table, i) && b == AllocAt(p.ba, Slot(f, i, j)) && scf == 3 * Rank(p.ba, Slot(f, i, j))
    requires p.scf == scalefac[..] && (b != 0 ==> scf + 2 < scalefac.Length) && fraction.Length == 2 * 4 * SBLIMIT
    requires r.pos == SamplePos(p, i, j)
    modifies r, fraction
    ensures OneBand(p, fraction[..], i, j) && SameBut(old(fraction[..]), fraction[..], i, j)
    ensures r.pos == old(r.pos) + Cost(f, i, b)
  {
    hide Field, Rank, RowStart, BandPos, Cell, Times, SameBut;
    CellsApart(j, 0, i, j, 1, i);
    CellsApart(j, 1, i, j, 2, i);
    CellsApart(j, 2, i, j, 0, i);
    var v0, v1, v2 := 0.0, 0.0, 0.0;
    if b != 0 {
      var e := TableAt(f.table, alloc + b);
      if e.d < 0 {
        var cm := t.muls(e.bits, scalefac[scf + x1]);
        var g := r.GetBits(e.bits);
        v0 := Times((g + e.d) as real, cm);
        g := r.GetBits(e.bits);
        v1 := Times((g + e.d) as real, cm);
        g := r.GetBits(e.bits);
        v2 := Times((g + e.d) as real, cm);
      } else {
        var idx := r.GetBits(e.bits);
        var m := scalefac[scf + x1];
        v0 := t.muls(t.group(e.d, idx, 0), m);
        v1 := t.muls(t.group(e.d, idx, 1), m);
        v2 := t.muls(t.group(e.d, idx, 2), m);
      }
    }
    SetBand(fraction, i, j, v0, v1, v2);
  }

  method SetBand(fraction: array<real>, i: nat, j: nat, v0: real, v1: real, v2: real)
    requires fraction.Length == 2 * 4 * SBLIMIT && i < SBLIMIT && j < 2
    modifies fraction
    ensures SameBut(old(fraction[..]), fraction[..], i, j)
    ensures Cell(j, 0, i) < fraction.Length && fraction[Cell(j, 0, i)] == v0
    ensures Cell(j, 1, i) < fraction.Length && fraction[Cell(j, 1, i)] == v1
    ensures Cell(j, 2, i) < fraction.Length && fraction[Cell(j, 2, i)] == v2
  {
    fraction[Cell(j, 0, i)] := v0;
    fraction[Cell(j, 1, i)] := v1;
    fraction[Cell(j, 2, i)] := v2;
  }

  /** A band that both channels share: one set of codes, two scale factors. */
  method DecodeJointBand(r: BitReader, ghost p: Pass, f: Frame, t: Tables, alloc: nat, b: nat, scf: nat, scalefac: array<nat>,
                         fraction: array<real>, i: nat, x1: nat)
    requires p.f == f && p.t == t && p.stream == r.stream && p.x == x1 && f.jsbound <= i < SBLIMIT && f.channels == 2 && x1 < 3
    requires alloc == RowStart(f.table, i) && b == AllocAt(p.ba, Slot(f, i, 1)) == AllocAt(p.ba, Slot(f, i, 0))
    requires scf == 3 * Rank(p.ba, Slot(f, i, 0)) && (b != 0 ==> scf + 3 == 3 * Rank(p.ba, Slot(f, i, 1)))
    requires p.scf == scalefac[..] && (b != 0 ==> scf + 5 < scalefac.Length) && fraction.Length == 2 * 4 * SBLIMIT
    requires r.pos == SamplePos(p, i, 1)
    modifies r, fraction
    ensures OneBand(p, fraction[..], i, 0) && OneBand(p, fraction[..], i, 1) && SameElse(old(fraction[..]), fraction[..], i)
    ensures r.pos == old(r.pos) + Cost(f, i, b)
  {
    hide Field, Rank, RowStart, BandPos, Cell, Times, SameBut, SameElse;
    var l0, l1, l2, r0, r1, r2 := 0.0, 0.0, 0.0, 0.0, 0.0, 0.0;
    if b != 0 {
      var e := TableAt(f.table, alloc + b);
      if e.d < 0 {
        var cm := t.muls(e.bits, scalefac[scf + x1 + 3]);
        var g := r.GetBits(e.bits);
        r0 := Times((g + e.d) as real, cm);
        g := r.GetBits(e.bits);
        r1 := Times((g + e.d) as real, cm);
        g := r.GetBits(e.bits);
        r2 := Times((g + e.d) as real, cm);
        cm := t.muls(e.bits, scalefac[scf + x1]);
        l0, l1, l2 := Times(r0, cm), Times(r1, cm), Times(r2, cm);
      } else {
        var idx := r.GetBits(e.bits);
        var m1, m2 := scalefac[scf + x1], scalefac[scf + x1 + 3];
        l0, r0 := t.muls(t.group(e.d, idx, 0), m1), t.muls(t.group(e.d, idx, 0), m2);
        l1, r1 := t.muls(t.group(e.d, idx, 1), m1), t.muls(t.group(e.d, idx, 1), m2);
        l2, r2 := t.muls(t.group(e.d, idx, 2), m1), t.muls(t.group(e.d, idx, 2), m2);
      }
    }
    ghost var before := fraction[..];
    SetBand(fraction, i, 1, r0, r1, r2);
    ghost var mid := fraction[..];
    SetBand(fraction, i, 0, l0, l1, l2);
    TwoBands(before, mid, fraction[..], i);
  }

  predicate SameElse(before: seq<real>, after: seq<real>, i: nat) {
    && |after| == |before| == 2 * 4 * SBLIMIT
    && forall i': nat, j': nat, q: nat {:trigger Cell(j', q, i')} :: i' < SBLIMIT && j' < 2 && q < 3 && i' != i ==>
        after[Cell(j', q, i')] == before[Cell(j', q, i')]
  }

  lemma TwoBands(before: seq<real>, mid: seq<real>, after: seq<real>, i: nat)
    requires SameBut(before, mid, i, 1) && SameBut(mid, after, i, 0) && i < SBLIMIT
    ensures SameElse(before, after, i)
    ensures after[Cell(1, 0, i)] == mid[Cell(1, 0, i)] && after[Cell(1, 1, i)] == mid[Cell(1, 1, i)]
    ensures after[Cell(1, 2, i)] == mid[Cell(1, 2, i)]
  {
    hide Cell;
  }

  lemma BandedJoint(p: Pass, before: seq<real>, after: seq<real>, i: nat)
    requires Banded(p, before, i) && i < SBLIMIT && SameElse(before, after, i)
    requires OneBand(p, after, i, 0) && OneBand(p, after, i, 1)
    ensures Banded(p, after, i + 1)
  {
    hide Decoded, Cell;
  }

  /** The shared region relies on this: both entries of a subband are the same there. */
  predicate SharedPairs(f: Frame, ba: seq<nat>) {
    f.channels == 2 ==> forall i: nat {:trigger Slot(f, i, 0)} :: f.jsbound <= i < f.sblimit ==>
      AllocAt(ba, Slot(f, i, 0)) == AllocAt(ba, Slot(f, i, 1))
  }

  lemma AllocatedShares(f: Frame, stream: seq<bool>, start: nat, ba: seq<nat>)
    requires FrameOk(f) && Allocated(f, stream, start, ba, f.sblimit)
    ensures SharedPairs(f, ba)
  {
    if f.channels == 2 {
      forall i: nat | f.jsbound <= i < f.sblimit
        ensures AllocAt(ba, Slot(f, i, 0)) == AllocAt(ba, Slot(f, i, 1))
      {
        assert Slot(f, i, 0) == 2 * i && Slot(f, i, 1) == 2 * i + 1;
        hide Field;
      }
    }
  }

  function Shown(f: Frame, downsample: nat): nat {
    if f.sblimit > downsample then downsample else f.sblimit
  }

  /** A whole pass: the decoded bands, and zeros above them. */
  predicate Filled(p: Pass, fraction: seq<real>, downsample: nat) {
    && Shown(p.f, downsample) <= SBLIMIT && Banded(p, fraction, Shown(p.f, downsample))
    && forall i: nat, j: nat, q: nat {:trigger Cell(j, q, i)} :: Shown(p.f, downsample) <= i < SBLIMIT && j < p.f.channels && q < 3 ==>
        fraction[Cell(j, q, i)] == 0.0
  }

  /** A sample of a whole pass. */
  lemma FilledAt(p: Pass, fraction: seq<real>, downsample: nat, i: nat, j: nat, q: nat)
    requires Filled(p, fraction, downsample) && i < SBLIMIT && j < p.f.channels && q < 3
    ensures 128 * j + 32 * q + i < |fraction| == 2 * 4 * SBLIMIT
    ensures fraction[128 * j + 32 * q + i] == if i < p.f.sblimit && i < downsample then Decoded(p, i, j, q) else 0.0
  {
    hide Decoded;
    assert Cell(j, q, i) == 128 * j + 32 * q + i;
  }

  /** The cursor among the scale factors before and after a band. */
  lemma BandCursor(f: Frame, ba: seq<nat>, pos: nat, i: nat)
    requires |ba| == 2 * SBLIMIT && i < SBLIMIT && 1 <= f.channels <= 2
    ensures BandPos(f, ba, pos, i + 1) == BandPos(f, ba, pos, i) + BandCost(f, ba, i)
    ensures Rank(ba, Slot(f, i, 0)) <= Slot(f, i, 0)
    ensures f.channels == 2 ==> Rank(ba, Slot(f, i, 1)) == Rank(ba, Slot(f, i, 0)) + if AllocAt(ba, Slot(f, i, 0)) != 0 then 1 else 0
    ensures Rank(ba, Slot(f, i + 1, 0)) == Rank(ba, Slot(f, i, f.channels - 1)) + if AllocAt(ba, Slot(f, i, f.channels - 1)) != 0 then 1 else 0
  {
    hide Cost;
    RankNext(ba, Slot(f, i, 0));
    RankNext(ba, Slot(f, i, f.channels - 1));
  }

  /** Zeros for the bands from first on. */
  method ZeroBands(f: Frame, ghost p: Pass, fraction: array<real>, first: nat)
    requires fraction.Length == 2 * 4 * SBLIMIT && f.channels <= 2 && p.f == f
    requires first <= SBLIMIT && Banded(p, fraction[..], first)
    modifies fraction
    ensures Banded(p, fraction[..], first)
    ensures forall i: nat, j: nat, q: nat {:trigger Cell(j, q, i)} :: first <= i < SBLIMIT && j < f.channels && q < 3 ==>
              Cell(j, q, i) < fraction.Length && fraction[Cell(j, q, i)] == 0.0
  {
    hide Decoded;
    var i := first;
    while i < SBLIMIT
      invariant first <= i <= SBLIMIT && Banded(p, fraction[..], first)
      invariant ZeroedUpTo(f, fraction[..], first, i, 0)
    {
      var j: nat := 0;
      while j < f.channels
        invariant j <= f.channels && Banded(p, fraction[..], first)
        invariant ZeroedUpTo(f, fraction[..], first, i, j)
      {
        ghost var was := fraction[..];
        SetBand(fraction, i, j, 0.0, 0.0, 0.0);
        ZeroedNext(p, was, fraction[..], first, i, j);
        j := j + 1;
      }
      i := i + 1;
    }
  }

  predicate ZeroedUpTo(f: Frame, fraction: seq<real>, first: nat, i: nat, j: nat) {
    && |fraction| == 2 * 4 * SBLIMIT
    && forall i': nat, j': nat, q: nat {:trigger Cell(j', q, i')} ::
        first <= i' < SBLIMIT && j' < f.channels <= 2 && q < 3 && (i' < i || (i' == i && j' < j)) ==> fraction[Cell(j', q, i')] == 0.0
  }

  lemma ZeroedNext(p: Pass, before: seq<real>, after: seq<real>, first: nat, i: nat, j: nat)
    requires ZeroedUpTo(p.f, before, first, i, j) && Banded(p, before, first) && first <= i < SBLIMIT && j < p.f.channels <= 2
    requires SameBut(before, after, i, j)
    requires after[Cell(j, 0, i)] == 0.0 && after[Cell(j, 1, i)] == 0.0 && after[Cell(j, 2, i)] == 0.0
    ensures ZeroedUpTo(p.f, after, first, i, j + 1) && Banded(p, after, first)
  {
    hide Decoded, Cell;
  }

  /** II_decode_samples: every band of the pass is made from its own codes and from the scale factors of its own subband,
      channel and third. */
  method DecodeSamples(r: BitReader, f: Frame, t: Tables, bitAlloc: array<nat>, scalefac: array<nat>, fraction: array<real>,
                       x1: nat, downsample: nat)
    requires FrameOk(f) && bitAlloc.Length == 2 * SBLIMIT && scalefac.Length == 3 * 2 * SBLIMIT && bitAlloc != scalefac
    requires fraction.Length == 2 * 4 * SBLIMIT && x1 < 3 && SharedPairs(f, bitAlloc[..])
    modifies r, fraction
    ensures var p := Pass(f, t, r.stream, bitAlloc[..], scalefac[..], old(r.pos), x1); Filled(p, fraction[..], downsample)
    ensures forall i: nat, j: nat, q: nat {:trigger Cell(j, q, i)} ::
              (i >= downsample || i >= f.sblimit) && i < SBLIMIT && j < f.channels && q < 3 ==>
              Cell(j, q, i) < fraction.Length && fraction[Cell(j, q, i)] == 0.0
    ensures r.pos == BandPos(f, bitAlloc[..], old(r.pos), f.sblimit)
  {
    hide Field, Rank, RowStart, BandPos, Cost, Cell, Banded, SameBut, SameElse, OneBand, SharedPairs;
    ghost var ba, scfs := bitAlloc[..], scalefac[..];
    ghost var p := Pass(f, t, r.stream, ba, scfs, r.pos, x1);
    var alloc, at, scf, i: nat := 0, 0, 0, 0;
    RankNext(ba, 0);
    FirstBand(p, fraction[..]);
    while i < f.jsbound
      invariant i <= f.jsbound && alloc == RowStart(f.table, i) && at == Slot(f, i, 0) && scf == 3 * Rank(ba, at)
      invariant bitAlloc[..] == ba && scalefac[..] == scfs
      invariant r.pos == BandPos(f, ba, p.pos, i) && Banded(p, fraction[..], i)
    {
      BandCursor(f, ba, p.pos, i);
      NextRow(f, 0, i);
      ghost var before := fraction[..];
      var b := bitAlloc[at];
      DecodeBand(r, p, f, t, alloc, b, scf, scalefac, fraction, i, 0, x1);
      scf := if b != 0 then scf + 3 else scf;
      at := at + 1;
      ghost var mid := fraction[..];
      if f.channels == 2 {
        b := bitAlloc[at];
        DecodeBand(r, p, f, t, alloc, b, scf, scalefac, fraction, i, 1, x1);
        scf := if b != 0 then scf + 3 else scf;
        at := at + 1;
      }
      BandedNext(p, before, mid, fraction[..], i);
      alloc := alloc + Pow2(TableAt(f.table, alloc).bits);
      i := i + 1;
    }
    while i < f.sblimit
      invariant f.jsbound <= i <= f.sblimit && alloc == RowStart(f.table, i) && at == Slot(f, i, 0) && scf == 3 * Rank(ba, at)
      invariant bitAlloc[..] == ba && scalefac[..] == scfs
      invariant r.pos == BandPos(f, ba, p.pos, i) && Banded(p, fraction[..], i)
    {
      BandCursor(f, ba, p.pos, i);
      NextRow(f, 0, i);
      SharedPair(f, ba, i);
      ghost var before := fraction[..];
      var b := bitAlloc[at + 1];
      at := at + 2;
      DecodeJointBand(r, p, f, t, alloc, b, scf, scalefac, fraction, i, x1);
      scf := if b != 0 then scf + 6 else scf;
      BandedJoint(p, before, fraction[..], i);
      alloc := alloc + Pow2(TableAt(f.table, alloc).bits);
      i := i + 1;
    }
    BandedLess(p, fraction[..], f.sblimit, Shown(f, downsample));
    ZeroBands(f, p, fraction, Shown(f, downsample));
  }

  lemma SharedPair(f: Frame, ba: seq<nat>, i: nat)
    requires SharedPairs(f, ba) && f.channels == 2 && f.jsbound <= i < f.sblimit
    ensures AllocAt(ba, Slot(f, i, 0)) == AllocAt(ba, Slot(f, i, 1))
  {}

  lemma FirstBand(p: Pass, fraction: seq<real>)
    requires |fraction| == 2 * 4 * SBLIMIT && p.f.channels <= 2
    ensures Banded(p, fraction, 0) && BandPos(p.f, p.ba, p.pos, 0) == p.pos && RowStart(p.f.table, 0) == 0
  {}

  lemma BandedLess(p: Pass, fraction: seq<real>, n: nat, m: nat)
    requires Banded(p, fraction, n) && m <= n
    ensures Banded(p, fraction, m)
  {
    hide Decoded, Cell;
  }
}
