/** RtApi::setConvertInfo and RtApi::convertBuffer for the integer formats: where each sample of each channel lies in the
    user's and the device's buffer, and the copy between them. */
module ConvertBuffer {
  import opened Arith
  import opened Samples

  datatype Mode = OUTPUT | INPUT

  datatype ConvertInfo = ConvertInfo(
    channels: nat, inJump: nat, outJump: nat, inFormat: Format, outFormat: Format, inOffset: seq<nat>, outOffset: seq<nat>)

  /** One side of a conversion: a buffer of size frames for total channels, of which those from first on are used. */
  datatype Side = Side(interleaved: bool, total: nat, first: nat, format: Format)

  /** Where channel k of a frame starts, and how far apart frames are. */
  function Offset(s: Side, size: nat, k: nat): nat {
    if s.interleaved then s.first + k else Prod(s.first + k, size)
  }

  function Jump(s: Side): nat {
    if s.interleaved then s.total else 1
  }

  /** Where channel k of frame i lies. */
  function Position(s: Side, size: nat, i: nat, k: nat): nat {
    Prod(i, Jump(s)) + Offset(s, size, k)
  }

  /** Frame by frame or channel by channel: different channels and frames lie in different places of a buffer of total times
      size samples. */
  lemma PositionsApart(s: Side, size: nat, i: nat, k: nat, i': nat, k': nat)
    requires i < size && i' < size && s.first + k < s.total && s.first + k' < s.total
    ensures Position(s, size, i, k) == if s.interleaved then Prod(i, s.total) + s.first + k else Prod(s.first + k, size) + i
    ensures Position(s, size, i, k) < Prod(s.total, size)
    ensures Position(s, size, i, k) == Position(s, size, i', k') ==> i == i' && k == k'
  {
    hide Prod;
    ProdComm(s.total, size);
    ProdSmall(i);
    ProdSmall(i');
    if s.interleaved {
      Index(s.first + k, i, size, s.total);
      Index(s.first + k', i', size, s.total);
    } else {
      Index(i, s.first + k, s.total, size);
      Index(i', s.first + k', s.total, size);
    }
  }

  /** Every place of a buffer is some frame of some channel. */
  lemma PositionOf(s: Side, size: nat, p: nat) returns (i: nat, k: nat)
    requires s.first == 0 && p < Prod(s.total, size)
    ensures i < size && k < s.total && Position(s, size, i, k) == p
  {
    hide Prod;
    ProdComm(s.total, size);
    if s.total == 0 || size == 0 {
      ProdSmall(s.total);
      ProdSmall(size);
    }
    if s.interleaved {
      Coordinates(p, size, s.total);
      i, k := p / s.total, p % s.total;
    } else {
      Coordinates(p, s.total, size);
      i, k := p % size, p / size;
      ProdSmall(i);
    }
  }

  function Min(a: nat, b: nat): nat {
    if a < b then a else b
  }

  /** The info of a conversion between two sides. */
  predicate Describes(info: ConvertInfo, from: Side, to: Side, size: nat) {
    && info.inFormat == from.format && info.outFormat == to.format
    && info.channels == Min(from.total, to.total)
    && |info.inOffset| == info.channels == |info.outOffset|
    && (forall k :: 0 <= k < info.channels ==> info.inOffset[k] == Offset(from, size, k))
    && (forall k :: 0 <= k < info.channels ==> info.outOffset[k] == Offset(to, size, k))
    && info.inJump == (if info.channels > 0 then Jump(from) else from.total)
    && info.outJump == (if info.channels > 0 then Jump(to) else to.total)
  }

  /** The channels of a side fit behind its first one. */
  predicate RoomFor(s: Side, channels: nat) {
    s.first + channels <= s.total
  }

  /** Every sample that the conversion reads is one of its format. */
  predicate Readable(src: seq<Sample>, from: Side, size: nat, channels: nat) {
    && Prod(from.total, size) <= |src|
    && forall i: nat, k: nat {:trigger Position(from, size, i, k)} :: i < size && k < channels ==>
        Position(from, size, i, k) < |src| && IsSample(from.format, src[Position(from, size, i, k)])
  }

  /** (i, k) comes before frame a, or in it before channel b. */
  predicate Earlier(i: nat, k: nat, a: nat, b: nat) {
    i < a || (i == a && k < b)
  }

  /** No sample converted so far goes to place p. */
  predicate Missed(to: Side, size: nat, channels: nat, a: nat, b: nat, p: nat) {
    forall i: nat, k: nat {:trigger Position(to, size, i, k)} :: i < size && k < channels && Earlier(i, k, a, b) ==>
      Position(to, size, i, k) != p
  }

  /** The frames before a and the channels of frame a before b are converted; all other places are as before. */
  predicate ConvertedUpTo(before: seq<Sample>, after: seq<Sample>, src: seq<Sample>, from: Side, to: Side,
                          size: nat, channels: nat, a: nat, b: nat)
    requires Readable(src, from, size, channels)
  {
    && |after| == |before| && Prod(to.total, size) <= |after|
    && (forall i: nat, k: nat {:trigger Position(to, size, i, k)} :: i < size && k < channels && Earlier(i, k, a, b) ==>
        var at := Position(to, size, i, k);
        at < |after| && after[at] == ConvertSample(from.format, to.format, src[Position(from, size, i, k)]))
    && (forall p :: 0 <= p < |after| && Missed(to, size, channels, a, b, p) ==> after[p] == before[p])
  }

  predicate Converted(before: seq<Sample>, after: seq<Sample>, src: seq<Sample>, from: Side, to: Side, size: nat, channels: nat)
    requires Readable(src, from, size, channels)
  {
    ConvertedUpTo(before, after, src, from, to, size, channels, size, 0)
  }

  /** One more channel of frame a. */
  lemma ConvertOne(before: seq<Sample>, after: seq<Sample>, src: seq<Sample>, from: Side, to: Side,
                   size: nat, channels: nat, a: nat, b: nat)
    requires Readable(src, from, size, channels) && RoomFor(to, channels) && a < size && b < channels
    requires ConvertedUpTo(before, after, src, from, to, size, channels, a, b)
    ensures Position(from, size, a, b) < |src| && IsSample(from.format, src[Position(from, size, a, b)])
    ensures Position(to, size, a, b) < |after|
    ensures var x := ConvertSample(from.format, to.format, src[Position(from, size, a, b)]);
            ConvertedUpTo(before, after[Position(to, size, a, b) := x], src, from, to, size, channels, a, b + 1)
  {
    hide Prod, ConvertSample, IsSample, Position;
    PositionsApart(to, size, a, b, a, b);
    var at := Position(to, size, a, b);
    var x := ConvertSample(from.format, to.format, src[Position(from, size, a, b)]);
    var next := after[at := x];
    forall i: nat, k: nat | i < size && k < channels && Earlier(i, k, a, b + 1)
      ensures Position(to, size, i, k) < |next|
      ensures next[Position(to, size, i, k)] == ConvertSample(from.format, to.format, src[Position(from, size, i, k)])
    {
      PositionsApart(to, size, i, k, a, b);
    }
    forall p: nat | p < |next| && Missed(to, size, channels, a, b + 1, p)
      ensures next[p] == before[p]
    {
      assert p != at && Missed(to, size, channels, a, b, p);
    }
  }

  /** A whole frame. */
  lemma NextFrame(before: seq<Sample>, after: seq<Sample>, src: seq<Sample>, from: Side, to: Side,
                  size: nat, channels: nat, a: nat)
    requires Readable(src, from, size, channels)
    requires ConvertedUpTo(before, after, src, from, to, size, channels, a, channels)
    ensures ConvertedUpTo(before, after, src, from, to, size, channels, a + 1, 0)
  {
    hide Prod, ConvertSample, IsSample, Position;
    forall p: nat | p < |after| && Missed(to, size, channels, a + 1, 0, p)
      ensures after[p] == before[p]
    {
      assert Missed(to, size, channels, a, channels, p);
    }
  }

  class Stream {
    const nDeviceChannels: seq<nat>
    const nUserChannels: seq<nat>
    const deviceFormat: seq<Format>
    const userFormat: Format
    const deviceInterleaved: seq<bool>
    const userInterleaved: bool
    const bufferSize: nat
    var convertInfo: seq<ConvertInfo>

    predicate Valid()
      reads this
    {
      |nDeviceChannels| == 2 == |nUserChannels| && |deviceFormat| == 2 == |deviceInterleaved| && |convertInfo| == 2
    }

    function Index(mode: Mode): nat {
      if mode.OUTPUT? then 0 else 1
    }

    function UserSide(mode: Mode): Side
      reads this
      requires Valid()
    {
      Side(userInterleaved, nUserChannels[Index(mode)], 0, userFormat)
    }

    function DeviceSide(mode: Mode, firstChannel: nat): Side
      reads this
      requires Valid()
    {
      var m := Index(mode);
      Side(deviceInterleaved[m], nDeviceChannels[m], firstChannel, deviceFormat[m])
    }

    constructor (nDeviceChannels: seq<nat>, nUserChannels: seq<nat>, deviceFormat: seq<Format>, userFormat: Format,
                 deviceInterleaved: seq<bool>, userInterleaved: bool, bufferSize: nat)
      requires |nDeviceChannels| == 2 == |nUserChannels| && |deviceFormat| == 2 == |deviceInterleaved|
      ensures Valid() && this.bufferSize == bufferSize && this.userFormat == userFormat && this.userInterleaved == userInterleaved
      ensures this.nDeviceChannels == nDeviceChannels && this.nUserChannels == nUserChannels
      ensures this.deviceFormat == deviceFormat && this.deviceInterleaved == deviceInterleaved
      ensures forall m :: 0 <= m < 2 ==> convertInfo[m].inOffset == [] == convertInfo[m].outOffset
    {
      this.nDeviceChannels, this.nUserChannels, this.deviceFormat := nDeviceChannels, nUserChannels, deviceFormat;
      this.userFormat, this.deviceInterleaved, this.userInterleaved := userFormat, deviceInterleaved, userInterleaved;
      this.bufferSize := bufferSize;
      this.convertInfo := seq(2, i => ConvertInfo(0, 0, 0, SInt8, SInt8, [], []));
    }

    /** setConvertInfo, on offset lists that are still empty: INPUT goes from the device to the user, OUTPUT back. */
    method SetConvertInfo(mode: Mode, firstChannel: nat)
      requires Valid() && convertInfo[Index(mode)].inOffset == [] == convertInfo[Index(mode)].outOffset
      modifies this`convertInfo
      ensures Valid() && convertInfo[1 - Index(mode)] == old(convertInfo[1 - Index(mode)])
      ensures Describes(convertInfo[Index(mode)],
                        if mode.INPUT? then DeviceSide(mode, firstChannel) else UserSide(mode),
                        if mode.INPUT? then UserSide(mode) else DeviceSide(mode, firstChannel), bufferSize)
    {
      var m := Index(mode);
      var info := convertInfo[m];
      if mode.INPUT? {
        info := info.(inJump := nDeviceChannels[1], outJump := nUserChannels[1],
                      inFormat := deviceFormat[1], outFormat := userFormat);
      } else {
        info := info.(inJump := nUserChannels[0], outJump := nDeviceChannels[0],
                      inFormat := userFormat, outFormat := deviceFormat[0]);
      }
      info := info.(channels := if info.inJump < info.outJump then info.inJump else info.outJump);
      ghost var from, to := UserSide(mode), DeviceSide(mode, firstChannel);
      if mode.INPUT? {
        from, to := to, from;
      }
      info := SetOffsets(info, mode, from, to);
      if firstChannel > 0 {
        info := AddFirstChannel(info, mode, firstChannel, from, to);
      }
      convertInfo := convertInfo[m := info];
    }

    /** The interleave and deinterleave offsets. */
    method SetOffsets(start: ConvertInfo, mode: Mode, ghost from: Side, ghost to: Side) returns (info: ConvertInfo)
      requires Valid() && start.inOffset == [] == start.outOffset
      requires start.inFormat == from.format && start.outFormat == to.format
      requires start.inJump == from.total && start.outJump == to.total && start.channels == Min(from.total, to.total)
      requires from.interleaved == if mode.INPUT? then deviceInterleaved[Index(mode)] else userInterleaved
      requires to.interleaved == if mode.INPUT? then userInterleaved else deviceInterleaved[Index(mode)]
      ensures Describes(info, from.(first := 0), to.(first := 0), bufferSize)
    {
      hide Prod;
      info := start;
      var k := 0;
      if deviceInterleaved[Index(mode)] != userInterleaved {
        if (mode.OUTPUT? && deviceInterleaved[Index(mode)]) || (mode.INPUT? && userInterleaved) {
          while k < info.channels
            invariant 0 <= k <= info.channels && |info.inOffset| == k == |info.outOffset|
            invariant info == start.(inJump := if k == 0 then start.inJump else 1, inOffset := info.inOffset, outOffset := info.outOffset)
            invariant forall j :: 0 <= j < k ==> info.inOffset[j] == Prod(j, bufferSize) && info.outOffset[j] == j
          {
            info := info.(inOffset := info.inOffset + [Prod(k, bufferSize)], outOffset := info.outOffset + [k], inJump := 1);
            k := k + 1;
          }
        } else {
          while k < info.channels
            invariant 0 <= k <= info.channels && |info.inOffset| == k == |info.outOffset|
            invariant info == start.(outJump := if k == 0 then start.outJump else 1, inOffset := info.inOffset, outOffset := info.outOffset)
            invariant forall j :: 0 <= j < k ==> info.inOffset[j] == j && info.outOffset[j] == Prod(j, bufferSize)
          {
            info := info.(inOffset := info.inOffset + [k], outOffset := info.outOffset + [Prod(k, bufferSize)], outJump := 1);
            k := k + 1;
          }
        }
      } else if userInterleaved {
        while k < info.channels
          invariant 0 <= k <= info.channels && |info.inOffset| == k == |info.outOffset|
          invariant info == start.(inOffset := info.inOffset, outOffset := info.outOffset)
          invariant forall j :: 0 <= j < k ==> info.inOffset[j] == j == info.outOffset[j]
        {
          info := info.(inOffset := info.inOffset + [k], outOffset := info.outOffset + [k]);
          k := k + 1;
        }
      } else {
        while k < info.channels
          invariant 0 <= k <= info.channels && |info.inOffset| == k == |info.outOffset|
          invariant info == start.(inJump := if k == 0 then start.inJump else 1, outJump := if k == 0 then start.outJump else 1,
                                   inOffset := info.inOffset, outOffset := info.outOffset)
          invariant forall j :: 0 <= j < k ==> info.inOffset[j] == Prod(j, bufferSize) == info.outOffset[j]
        {
          info := info.(inOffset := info.inOffset + [Prod(k, bufferSize)], outOffset := info.outOffset + [Prod(k, bufferSize)],
                        inJump := 1, outJump := 1);
          k := k + 1;
        }
      }
    }

    /** The channel offset on the device's side. */
    method AddFirstChannel(start: ConvertInfo, mode: Mode, firstChannel: nat, ghost from: Side, ghost to: Side)
      returns (info: ConvertInfo)
      requires Valid() && Describes(start, from.(first := 0), to.(first := 0), bufferSize)
      requires mode.OUTPUT? ==> from.first == 0 && to.first == firstChannel && to.interleaved == deviceInterleaved[0]
      requires mode.INPUT? ==> to.first == 0 && from.first == firstChannel && from.interleaved == deviceInterleaved[1]
      ensures Describes(info, from, to, bufferSize)
    {
      hide Prod, Min;
      info := start;
      var k := 0;
      var add := if deviceInterleaved[Index(mode)] then firstChannel else Prod(firstChannel, bufferSize);
      forall j: nat ensures mode.OUTPUT? ==> Offset(to, bufferSize, j) == Offset(to.(first := 0), bufferSize, j) + add {
        ProdAdd(firstChannel, j, bufferSize);
      }
      forall j: nat ensures mode.INPUT? ==> Offset(from, bufferSize, j) == Offset(from.(first := 0), bufferSize, j) + add {
        ProdAdd(firstChannel, j, bufferSize);
      }
      hide Offset;
      if mode.OUTPUT? {
        while k < info.channels
          invariant 0 <= k <= info.channels && |info.outOffset| == info.channels
          invariant info == start.(outOffset := info.outOffset)
          invariant forall j :: 0 <= j < k ==> info.outOffset[j] == Offset(to, bufferSize, j)
          invariant forall j :: k <= j < info.channels ==> info.outOffset[j] == start.outOffset[j]
        {
          info := info.(outOffset := info.outOffset[k := info.outOffset[k] + add]);
          k := k + 1;
        }
      } else {
        while k < info.channels
          invariant 0 <= k <= info.channels && |info.inOffset| == info.channels
          invariant info == start.(inOffset := info.inOffset)
          invariant forall j :: 0 <= j < k ==> info.inOffset[j] == Offset(from, bufferSize, j)
          invariant forall j :: k <= j < info.channels ==> info.inOffset[j] == start.inOffset[j]
        {
          info := info.(inOffset := info.inOffset[k := info.inOffset[k] + add]);
          k := k + 1;
        }
      }
    }
  
    /** convertBuffer between integer formats. toDuplexDevice says that outBuffer is the device buffer of a duplex stream;
        it is then cleared first if the output side has fewer channels than the input side. */
    method ConvertBuffer(outBuffer: array<Sample>, inBuffer: array<Sample>, info: ConvertInfo, toDuplexDevice: bool,
                         ghost from: Side, ghost to: Side)
      requires Valid() && outBuffer != inBuffer && Describes(info, from, to, bufferSize)
      requires RoomFor(from, info.channels) && RoomFor(to, info.channels)
      requires Readable(inBuffer[..], from, bufferSize, info.channels) && Prod(to.total, bufferSize) <= outBuffer.Length
      modifies outBuffer
      ensures Converted(if toDuplexDevice && nDeviceChannels[0] < nDeviceChannels[1]
                        then Cleared(old(outBuffer[..]), Prod(bufferSize, info.outJump), info.outFormat) else old(outBuffer[..]),
                        outBuffer[..], inBuffer[..], from, to, bufferSize, info.channels)
    {
      hide Prod, ConvertSample, IsSample, ConvertedUpTo, Readable;
      ghost var src := inBuffer[..];
      if toDuplexDevice && nDeviceChannels[0] < nDeviceChannels[1] {
        Clear(outBuffer, Prod(bufferSize, info.outJump), info.outFormat);
      }
      ghost var before := outBuffer[..];
      assert inBuffer[..] == src;
      NothingConverted(before, src, from, to, bufferSize, info.channels);
      ProdSmall(info.inJump);
      ProdSmall(info.outJump);
      var inAt, outAt := 0, 0;
      var i := 0;
      while i < bufferSize
        invariant 0 <= i <= bufferSize
        invariant inAt == Prod(i, info.inJump) && outAt == Prod(i, info.outJump)
        invariant outBuffer.Length == |before| && inBuffer[..] == src
        invariant ConvertedUpTo(before, outBuffer[..], src, from, to, bufferSize, info.channels, i, 0)
      {
        var j := 0;
        while j < info.channels
          invariant 0 <= j <= info.channels
          invariant outBuffer.Length == |before| && inBuffer[..] == src
          invariant ConvertedUpTo(before, outBuffer[..], src, from, to, bufferSize, info.channels, i, j)
        {
          ConvertOne(before, outBuffer[..], src, from, to, bufferSize, info.channels, i, j);
          outBuffer[outAt + info.outOffset[j]] := ConvertSample(info.inFormat, info.outFormat, inBuffer[inAt + info.inOffset[j]]);
          j := j + 1;
        }
        NextFrame(before, outBuffer[..], src, from, to, bufferSize, info.channels, i);
        ProdSucc(i, info.inJump);
        ProdSucc(i, info.outJump);
        inAt := inAt + info.inJump;
        outAt := outAt + info.outJump;
        i := i + 1;
      }
    }
  }

  /** memset to zero. */
  method Clear(buffer: array<Sample>, n: nat, f: Format)
    modifies buffer
    ensures buffer[..] == Cleared(old(buffer[..]), n, f)
  {
    forall p | 0 <= p < buffer.Length && p < n {
      buffer[p] := Store(f, 0);
    }
  }

  function Cleared(buffer: seq<Sample>, n: nat, f: Format): (r: seq<Sample>)
    ensures |r| == |buffer|
  {
    seq(|buffer|, p requires 0 <= p < |buffer| => if p < n then Store(f, 0) else buffer[p])
  }

  lemma NothingConverted(before: seq<Sample>, src: seq<Sample>, from: Side, to: Side, size: nat, channels: nat)
    requires Readable(src, from, size, channels) && Prod(to.total, size) <= |before|
    ensures ConvertedUpTo(before, before, src, from, to, size, channels, 0, 0)
  {}

  // ---- what the clearing leaves behind ----

  ghost predicate Reaches(to: Side, size: nat, channels: nat, i: nat, k: nat, p: nat) {
    i < size && k < channels && Position(to, size, i, k) == p
  }

  /** What place p holds after a conversion. */
  ghost function WrittenAt(before: seq<Sample>, src: seq<Sample>, from: Side, to: Side, size: nat, channels: nat, p: nat): Sample
    requires Readable(src, from, size, channels) && p < |before|
  {
    if exists i: nat, k: nat :: Reaches(to, size, channels, i, k, p) then
      var i: nat, k: nat :| Reaches(to, size, channels, i, k, p);
      ConvertSample(from.format, to.format, src[Position(from, size, i, k)])
    else before[p]
  }

  ghost function Written(before: seq<Sample>, src: seq<Sample>, from: Side, to: Side, size: nat, channels: nat): seq<Sample>
    requires Readable(src, from, size, channels)
  {
    seq(|before|, p requires 0 <= p < |before| => WrittenAt(before, src, from, to, size, channels, p))
  }

  /** Every prior content has a converted one. */
  lemma WrittenIsConverted(before: seq<Sample>, src: seq<Sample>, from: Side, to: Side, size: nat, channels: nat)
    requires Readable(src, from, size, channels) && RoomFor(to, channels) && Prod(to.total, size) <= |before|
    ensures Converted(before, Written(before, src, from, to, size, channels), src, from, to, size, channels)
  {
    hide Prod, ConvertSample, IsSample, Position;
    forall i: nat, k: nat | i < size && k < channels
      ensures Position(to, size, i, k) < |before|
      ensures WrittenAt(before, src, from, to, size, channels, Position(to, size, i, k))
           == ConvertSample(from.format, to.format, src[Position(from, size, i, k)])
    {
      var p := Position(to, size, i, k);
      PositionsApart(to, size, i, k, i, k);
      assert Reaches(to, size, channels, i, k, p);
      forall i': nat, k': nat | Reaches(to, size, channels, i', k', p) ensures i' == i && k' == k {
        PositionsApart(to, size, i, k, i', k');
      }
    }
    forall p: nat | p < |before| && Missed(to, size, channels, size, 0, p)
      ensures WrittenAt(before, src, from, to, size, channels, p) == before[p]
    {
      forall i: nat, k: nat ensures !Reaches(to, size, channels, i, k, p) {
      }
    }
  }

  /** Every place of the buffer that no sample went to is zero. */
  predicate NothingStale(after: seq<Sample>, to: Side, size: nat, channels: nat) {
    forall p: nat :: p < Prod(to.total, size) && Missed(to, size, channels, size, 0, p) ==>
      p < |after| && after[p] == Store(to.format, 0)
  }

  /** The places that no sample goes to lie all in front of n. */
  predicate MissedBelow(to: Side, size: nat, channels: nat, n: nat) {
    forall p: nat :: p < Prod(to.total, size) && Missed(to, size, channels, size, 0, p) ==> p < n
  }

  /** The first frame of a channel that no sample goes to. */
  lemma UnusedChannel(to: Side, size: nat, channels: nat, c: nat)
    requires size > 0 && c < to.total && (c < to.first || c >= to.first + channels) && RoomFor(to, channels)
    ensures var p := Position(to.(first := 0), size, 0, c);
            p < Prod(to.total, size) && Missed(to, size, channels, size, 0, p)
  {
    hide Prod;
    var all := to.(first := 0);
    PositionsApart(all, size, 0, c, 0, c);
    forall i: nat, k: nat | i < size && k < channels ensures Position(to, size, i, k) != Position(all, size, 0, c) {
      assert Position(to, size, i, k) == Position(all, size, i, to.first + k);
      PositionsApart(all, size, i, to.first + k, 0, c);
    }
  }

  /** The frame and the channel of a place; a sample goes there if it is one of the channels in use. */
  lemma ChannelOf(to: Side, size: nat, channels: nat, p: nat) returns (i: nat, c: nat)
    requires p < Prod(to.total, size)
    ensures i < size && c < to.total && Position(to.(first := 0), size, i, c) == p
    ensures to.first <= c < to.first + channels ==> !Missed(to, size, channels, size, 0, p)
  {
    hide Prod;
    i, c := PositionOf(to.(first := 0), size, p);
    if to.first <= c < to.first + channels {
      assert Position(to, size, i, c - to.first) == p;
    }
  }

  /** The channels in use are the first ones, or the first but one, up to the last. */
  predicate UsedToTheEnd(to: Side, channels: nat) {
    to.first <= 1 && to.first + channels == to.total
  }

  lemma ClearedFarEnough(to: Side, size: nat, channels: nat)
    requires RoomFor(to, channels) && channels > 0
    ensures MissedBelow(to, size, channels, Prod(size, Jump(to)))
       <==> to.interleaved || size == 0 || to.total <= 1 || UsedToTheEnd(to, channels)
  {
    hide Prod, Missed;
    ProdComm(to.total, size);
    ProdSmall(size);
    ProdSmall(to.total);
    if to.interleaved || size == 0 || to.total <= 1 {
    } else if UsedToTheEnd(to, channels) {
      forall p: nat | p < Prod(to.total, size) && Missed(to, size, channels, size, 0, p) ensures p < size {
        var i, c := ChannelOf(to, size, channels, p);
        ProdSmall(i);
      }
    } else {
      var c := if to.first >= 2 then 1 else to.first + channels;
      UnusedChannel(to, size, channels, c);
      ProdMono(1, c, size);
      ProdSmall(1);
    }
  }

  /** Nothing is stale after the clearing and the conversion, whatever the buffer held before. */
  ghost predicate NeverStale(info: ConvertInfo, from: Side, to: Side, size: nat, src: seq<Sample>)
    requires Readable(src, from, size, info.channels)
  {
    forall before: seq<Sample>, after: seq<Sample> ::
      Prod(to.total, size) <= |before|
      && Converted(Cleared(before, Prod(size, info.outJump), info.outFormat), after, src, from, to, size, info.channels)
      ==> NothingStale(after, to, size, info.channels)
  }

  /** After the clearing and the conversion, whatever the device buffer of a duplex stream held, no old sample is left in it
      exactly if the device is interleaved, or the channels in use leave out at most the first. Of another device only the
      first channel has been cleared, so that the others left out keep what they held. */
  lemma ClearedWhole(info: ConvertInfo, from: Side, to: Side, size: nat, src: seq<Sample>)
    requires Describes(info, from, to, size) && RoomFor(to, info.channels) && Readable(src, from, size, info.channels)
    ensures NeverStale(info, from, to, size, src)
       <==> info.channels == 0 || to.interleaved || size == 0 || to.total <= 1 || UsedToTheEnd(to, info.channels)
  {
    hide Prod, ConvertSample, IsSample, Missed, Readable, Store, Describes;
    var channels, n := info.channels, Prod(size, info.outJump);
    Reach(info, from, to, size);
    forall before: seq<Sample>, after: seq<Sample> |
      MissedBelow(to, size, channels, n) && Prod(to.total, size) <= |before|
      && Converted(Cleared(before, n, info.outFormat), after, src, from, to, size, channels)
      ensures NothingStale(after, to, size, channels)
    {
    }
    if !MissedBelow(to, size, channels, n) {
      var p: nat :| p < Prod(to.total, size) && Missed(to, size, channels, size, 0, p) && p >= n;
      var before := seq(Prod(to.total, size), q => Store(to.format, 1));
      var cleared := Cleared(before, n, info.outFormat);
      WrittenIsConverted(cleared, src, from, to, size, channels);
      var after := Written(cleared, src, from, to, size, channels);
      assert after[p] == Store(to.format, 1) != Store(to.format, 0) by {
        OneIsNotZero(to.format);
      }
      assert !NothingStale(after, to, size, channels);
    }
  }

  lemma OneIsNotZero(f: Format)
    ensures Store(f, 1) != Store(f, 0)
  {}

  lemma Reach(info: ConvertInfo, from: Side, to: Side, size: nat)
    requires Describes(info, from, to, size) && RoomFor(to, info.channels)
    ensures info.outFormat == to.format && Prod(size, info.outJump) >= 0
    ensures MissedBelow(to, size, info.channels, Prod(size, info.outJump))
       <==> info.channels == 0 || to.interleaved || size == 0 || to.total <= 1 || UsedToTheEnd(to, info.channels)
  {
    hide Prod, Missed;
    if info.channels > 0 {
      ClearedFarEnough(to, size, info.channels);
    } else {
      ProdComm(to.total, size);
    }
    ProdSign(size, info.outJump);
  }

  lemma ProdSign(a: nat, b: nat)
    ensures Prod(a, b) >= 0
  {}
}
