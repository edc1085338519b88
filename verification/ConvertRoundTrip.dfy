/** Output conversion followed by input conversion over the same geometry. */
module ConvertRoundTrip {
  import opened Arith
  import opened Samples
  import opened ConvertBuffer

  /** What was written for the device can be read back as device samples. */
  lemma WrittenIsReadable(before: seq<Sample>, after: seq<Sample>, src: seq<Sample>, from: Side, to: Side, size: nat, channels: nat)
    requires Readable(src, from, size, channels) && RoomFor(to, channels)
    requires Converted(before, after, src, from, to, size, channels)
    ensures Readable(after, to, size, channels)
  {
    hide Prod, ConvertSample, IsSample, Position;
    forall i: nat, k: nat | i < size && k < channels
      ensures Position(to, size, i, k) < |after| && IsSample(to.format, after[Position(to, size, i, k)])
    {
      assert Earlier(i, k, size, 0);
    }
  }

  /** There and back, one sample at one place. */
  lemma PlaceBack(user: seq<Sample>, dev0: seq<Sample>, dev1: seq<Sample>, user0: seq<Sample>, user1: seq<Sample>,
                  u: Side, d: Side, size: nat, i: nat, k: nat)
    requires u.first == 0 && RoomFor(d, u.total) && i < size && k < u.total
    requires Readable(user, u, size, u.total) && Converted(dev0, dev1, user, u, d, size, u.total)
    requires Readable(dev1, d, size, u.total) && Converted(user0, user1, dev1, d, u, size, u.total)
    ensures var p := Position(u, size, i, k);
            && p < |user| && p < |user1| && IsSample(u.format, user[p])
            && user1[p] == ConvertSample(d.format, u.format, ConvertSample(u.format, d.format, user[p]))
  {
    hide Prod, ConvertSample, IsSample, Position;
    assert Earlier(i, k, size, 0);
  }

  /** The user's buffer, whole. */
  predicate UserBuffer(user: seq<Sample>, u: Side, size: nat) {
    |user| == Prod(u.total, size) && forall p :: 0 <= p < |user| ==> IsSample(u.format, user[p])
  }

  /** A sample that loses nothing: the low bits that the device has no room for are clear. */
  predicate Survives(u: Format, d: Format, s: Sample)
    requires IsSample(u, s)
  {
    Bits(u) <= Bits(d) || Load(u, s) % Two(Bits(u) - Bits(d)) == 0
  }

  lemma UserReadable(user: seq<Sample>, u: Side, size: nat)
    requires u.first == 0 && UserBuffer(user, u, size)
    ensures Readable(user, u, size, u.total)
  {
    hide Prod, IsSample, Position;
    forall i: nat, k: nat | i < size && k < u.total
      ensures Position(u, size, i, k) < |user|
    {
      PositionsApart(u, size, i, k, i, k);
    }
  }

  /** If the user's channels fit on the device behind the first one, then what comes back is what was sent, at every place,
      in every combination of interleaving and of integer formats, exactly if every sample survives the device's width:
      always when the device is at least as wide. */
  lemma ThereAndBackAgain(user: seq<Sample>, dev0: seq<Sample>, dev1: seq<Sample>, user0: seq<Sample>, user1: seq<Sample>,
                          u: Side, d: Side, size: nat)
    requires u.first == 0 && RoomFor(d, u.total) && UserBuffer(user, u, size) && |user0| == |user|
    requires Readable(user, u, size, u.total) && Converted(dev0, dev1, user, u, d, size, u.total)
    requires Readable(dev1, d, size, u.total) && Converted(user0, user1, dev1, d, u, size, u.total)
    ensures |user1| == |user|
    ensures user1 == user <==> forall p :: 0 <= p < |user| ==> Survives(u.format, d.format, user[p])
    ensures Bits(u.format) <= Bits(d.format) ==> user1 == user
  {
    hide Prod, ConvertSample, IsSample, Position, Converted, Readable, Survives, Load;
    assert |user1| == |user| by {
      SameLength(user0, user1, dev1, d, u, size);
    }
    forall p: nat | p < |user|
      ensures user1[p] == user[p] <==> Survives(u.format, d.format, user[p])
      ensures Bits(u.format) <= Bits(d.format) ==> user1[p] == user[p]
    {
      var i, k := PositionOf(u, size, p);
      PlaceBack(user, dev0, dev1, user0, user1, u, d, size, i, k);
      SampleBack(u.format, d.format, user[p]);
    }
    if user1 != user {
      var p :| 0 <= p < |user| && user1[p] != user[p];
      assert !Survives(u.format, d.format, user[p]);
    }
  }

  lemma SameLength(before: seq<Sample>, after: seq<Sample>, src: seq<Sample>, from: Side, to: Side, size: nat)
    requires Readable(src, from, size, to.total) && Converted(before, after, src, from, to, size, to.total)
    ensures |after| == |before|
  {
    hide Prod, ConvertSample, IsSample, Position, Missed;
  }

  lemma SampleBack(f: Format, g: Format, s: Sample)
    requires IsSample(f, s)
    ensures ConvertSample(g, f, ConvertSample(f, g, s)) == s <==> Survives(f, g, s)
    ensures Bits(f) <= Bits(g) ==> Survives(f, g, s)
  {
    RoundTrip(f, g, s);
  }

  /** A stream whose two directions have the same geometry: play, then record what was played. */
  method LoopBack(stream: Stream, firstChannel: nat, user: array<Sample>, device: array<Sample>, heard: array<Sample>)
    requires stream.Valid() && user != device && device != heard && user != heard
    requires stream.convertInfo[0].inOffset == [] == stream.convertInfo[0].outOffset
    requires stream.convertInfo[1].inOffset == [] == stream.convertInfo[1].outOffset
    requires stream.UserSide(OUTPUT) == stream.UserSide(INPUT)
    requires stream.DeviceSide(OUTPUT, firstChannel) == stream.DeviceSide(INPUT, firstChannel)
    requires RoomFor(stream.DeviceSide(OUTPUT, firstChannel), stream.UserSide(OUTPUT).total)
    requires UserBuffer(user[..], stream.UserSide(OUTPUT), stream.bufferSize) && heard.Length == user.Length
    requires Prod(stream.DeviceSide(OUTPUT, firstChannel).total, stream.bufferSize) <= device.Length
    modifies stream`convertInfo, device, heard
    ensures heard[..] == user[..] <==> forall p :: 0 <= p < user.Length ==>
              Survives(stream.userFormat, stream.deviceFormat[0], user[p])
  {
    hide Prod, ConvertSample, Readable, Converted, UserBuffer, Describes, Survives;
    ghost var u, d, size := stream.UserSide(OUTPUT), stream.DeviceSide(OUTPUT, firstChannel), stream.bufferSize;
    ghost var sent, dev0, heard0 := user[..], device[..], heard[..];
    UserReadable(sent, u, size);
    stream.SetConvertInfo(OUTPUT, firstChannel);
    ChannelsOf(stream.convertInfo[0], u, d, size);
    stream.ConvertBuffer(device, user, stream.convertInfo[0], true, u, d);
    ghost var dev1 := device[..];
    assert user[..] == sent;
    WrittenIsReadable(dev0, dev1, sent, u, d, size, u.total);
    stream.SetConvertInfo(INPUT, firstChannel);
    ChannelsBack(stream.convertInfo[1], u, d, size);
    UserLength(sent, u, size);
    stream.ConvertBuffer(heard, device, stream.convertInfo[1], false, d, u);
    assert device[..] == dev1 && user[..] == sent;
    ThereAndBackAgain(sent, dev0, dev1, heard0, heard[..], u, d, size);
  }

  lemma ChannelsOf(info: ConvertInfo, u: Side, d: Side, size: nat)
    requires Describes(info, u, d, size) && RoomFor(d, u.total)
    ensures info.channels == u.total
  {}

  lemma ChannelsBack(info: ConvertInfo, u: Side, d: Side, size: nat)
    requires Describes(info, d, u, size) && RoomFor(d, u.total)
    ensures info.channels == u.total
  {}

  lemma UserLength(user: seq<Sample>, u: Side, size: nat)
    requires UserBuffer(user, u, size)
    ensures |user| == Prod(u.total, size)
  {}
}
