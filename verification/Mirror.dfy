/** The mirror structure of the tracker and the data packet made from it. */
module Mirror {
  import opened Words
  import opened Wire
  import opened Codec8
  import opened Register
  import opened CrcTable
  import opened Crc

  const BUF_SIZE: nat := 4096
  const MAX_PK: nat := 3

  /** The telemetry values, in host order; the structure keeps its multi-byte fields in network order. */
  datatype Mirror = Mirror(
    ts: u64, prio: byte, gps: Gps,
    din1: byte, din2: byte, din3: byte, din4: byte, dout1: byte, dout2: byte, dout3: byte, dout4: byte,
    profile: byte, gnss: byte, moves: byte, gsmLevel: byte, ignition: byte,
    fuel: u16, tach: u16, hood: u16, batteryVolt: u16, batteryCur: u16, externalVolt: u16, ioSpeed: u16,
    odo: u32, operator: u32, totalOdo: u32)

  /** The values at power-on, with the configured position if there is one. */
  function PowerOn(latitude: u32, longitude: u32): Mirror {
    Mirror(0x16493094298, 0,
      Gps(if longitude != 0 then longitude else 0x0C3A4548, if latitude != 0 then latitude else 0x209A9758, 8, 0, 3, 0),
      0, 1, 1, 1, 0, 0, 0, 0, 3, 3, 0, 4, 0, 750, 21, 1500, 9925, 50, 12044, 0, 0, 25099, 0)
  }

  /** A field as it lies in the structure: converted by hton, stored little-endian. */
  function Stored(x: nat, n: nat): (r: seq<byte>)
    ensures |r| == n
  {
    PutLe(Hton(x, n), n)
  }

  function GpsImage(g: Gps): (r: seq<byte>)
    ensures |r| == 15
  {
    Stored(g.longitude, 4) + Stored(g.latitude, 4) + Stored(g.altitude, 2) + Stored(g.angle, 2)
    + [g.satellites] + Stored(g.speed, 2)
  }

  // The I/O elements, in the order of the structure.

  function Io1(m: Mirror): (r: seq<Io>)
    ensures |r| == 13
  {
    [Io(1, m.din1), Io(2, m.din2), Io(3, m.din3), Io(4, m.din4), Io(179, m.dout1), Io(180, m.dout2),
     Io(50, m.dout3), Io(51, m.dout4), Io(22, m.profile), Io(71, m.gnss), Io(240, m.moves), Io(21, m.gsmLevel),
     Io(239, m.ignition)]
  }

  function Io2(m: Mirror): (r: seq<Io>)
    ensures |r| == 7
  {
    [Io(9, m.fuel), Io(10, m.tach), Io(11, m.hood), Io(67, m.batteryVolt), Io(68, m.batteryCur),
     Io(66, m.externalVolt), Io(24, m.ioSpeed)]
  }

  function Io4(m: Mirror): (r: seq<Io>)
    ensures |r| == 3
  {
    [Io(199, m.odo), Io(241, m.operator), Io(216, m.totalOdo)]
  }

  /** Identifier and value of each element, side by side in memory. */
  function Pairs(ios: seq<Io>, width: nat): (r: seq<byte>)
    ensures |r| == (1 + width) * |ios|
  {
    if ios == [] then [] else [ios[0].id] + Stored(ios[0].value, width) + Pairs(ios[1..], width)
  }

  /** The packed structure as memory: 92 bytes, 13 + 7 + 3 + 0 elements. */
  function Image(m: Mirror): (r: seq<byte>)
    ensures |r| == 92
  {
    Stored(m.ts, 8) + [m.prio] + GpsImage(m.gps) + [0, 23]
    + [13] + Pairs(Io1(m), 1) + [7] + Pairs(Io2(m), 2) + [3] + Pairs(Io4(m), 4) + [0]
  }

  /** The record a Codec 8 reader should see for a mirror. */
  function Sample(m: Mirror): (r: Record)
    ensures r.total == |r.io1| + |r.io2| + |r.io4| + |r.io8| == 23
    ensures RecordSize(r) == 92
  {
    Record(m.ts, m.prio, m.gps, 0, 23, Io1(m), Io2(m), Io4(m), [])
  }

  lemma PutIs(x: nat, n: nat, tail: seq<byte>)
    ensures Put(x, n, tail) == Stored(x, n) + tail
    ensures n == 1 && x < 256 ==> Put(x, n, tail) == [x] + tail
  {
    StoredIsBigEndian(x, n);
    if n == 1 && x < 256 { OneByte(x); }
  }

  lemma OneByte(x: byte)
    ensures PutBe(x, 1) == [x]
  {
    assert PutBe(x / 256, 0) == [];
  }

  lemma GpsImageIsRecord(g: Gps, tail: seq<byte>)
    ensures PutGps(g, tail) == GpsImage(g) + tail
  {
    hide Put, Stored;
    var s5 := Put(g.speed, 2, tail);
    var s4 := Put(g.satellites, 1, s5);
    var s3 := Put(g.angle, 2, s4);
    var s2 := Put(g.altitude, 2, s3);
    var s1 := Put(g.latitude, 4, s2);
    PutIs(g.longitude, 4, s1);
    PutIs(g.latitude, 4, s2);
    PutIs(g.altitude, 2, s3);
    PutIs(g.angle, 2, s4);
    PutIs(g.satellites, 1, s5);
    PutIs(g.speed, 2, tail);
  }

  lemma {:induction false} PairsAreIos(ios: seq<Io>, width: nat, tail: seq<byte>)
    ensures PutIos(ios, width, tail) == Pairs(ios, width) + tail
    decreases |ios|
  {
    hide Put, Stored;
    if ios != [] {
      var more := PutIos(ios[1..], width, tail);
      PutIs(ios[0].id, 1, Put(ios[0].value, width, more));
      PutIs(ios[0].value, width, more);
      PairsAreIos(ios[1..], width, tail);
    }
  }

  lemma GroupImage(ios: seq<Io>, width: nat, tail: seq<byte>)
    requires |ios| < 256
    ensures PutGroup(ios, width, tail) == [|ios|] + Pairs(ios, width) + tail
  {
    hide Put, Stored;
    PutIs(|ios|, 1, PutIos(ios, width, tail));
    PairsAreIos(ios, width, tail);
  }

  /** The structure's memory is the record's encoding. */
  lemma ImageIsRecord(m: Mirror, tail: seq<byte>)
    ensures PutRecord(Sample(m), tail) == Image(m) + tail
  {
    hide Put, Stored, PutGps, GpsImage, PutGroup, Pairs, Io1, Io2, Io4;
    var s8 := PutGroup([], 8, tail);
    var s7 := PutGroup(Io4(m), 4, s8);
    var s6 := PutGroup(Io2(m), 2, s7);
    var s5 := PutGroup(Io1(m), 1, s6);
    var s4 := Put(23, 1, s5);
    var s3 := Put(0, 1, s4);
    var s2 := PutGps(m.gps, s3);
    PutIs(m.ts, 8, Put(m.prio, 1, s2));
    PutIs(m.prio, 1, s2);
    GpsImageIsRecord(m.gps, s3);
    PutIs(0, 1, s4);
    PutIs(23, 1, s5);
    GroupImage(Io1(m), 1, s6);
    GroupImage(Io2(m), 2, s7);
    GroupImage(Io4(m), 4, s8);
    GroupImage([], 8, tail);
    assert Pairs([], 8) == [] by { NoPairs(); }
  }

  lemma NoPairs()
    ensures Pairs([], 8) == []
  {}

  lemma Io1Fits(m: Mirror)
    ensures IosFit(Io1(m), 1)
  {
    assert Power256(1) == 0x100;
    var v: seq<byte> := [m.din1, m.din2, m.din3, m.din4, m.dout1, m.dout2, m.dout3, m.dout4, m.profile, m.gnss,
                       m.moves, m.gsmLevel, m.ignition];
    assert forall i :: 0 <= i < 13 ==> Io1(m)[i].value == v[i];
    hide Io1;
  }

  lemma Io2Fits(m: Mirror)
    ensures IosFit(Io2(m), 2)
  {
    assert Power256(2) == 0x1_0000;
  }

  lemma Io4Fits(m: Mirror)
    ensures IosFit(Io4(m), 4)
  {
    assert Power256(4) == 0x1_0000_0000;
  }

  lemma SampleFits(m: Mirror)
    ensures Fits(Sample(m))
  {
    hide Io1, Io2, Io4;
    Io1Fits(m);
    Io2Fits(m);
    Io4Fits(m);
  }

  // ----- the packet -----

  function ClampPk(kolpack: byte): (pk: nat)
    ensures 1 <= pk <= MAX_PK
  {
    if kolpack == 0 then 1 else if kolpack > MAX_PK then MAX_PK else kolpack
  }

  /** pk samples of one mirror, each with its own time stamp. */
  function Samples(m: Mirror, stamps: seq<u64>): (rs: seq<Record>)
    ensures |rs| == |stamps|
    ensures forall i :: 0 <= i < |rs| ==> rs[i] == Sample(m.(ts := stamps[i]))
  {
    seq(|stamps|, i requires 0 <= i < |stamps| => Sample(m.(ts := stamps[i])))
  }

  lemma {:induction false} RecordsSnoc(rs: seq<Record>, r: Record, tail: seq<byte>)
    ensures PutRecords(rs + [r], tail) == PutRecords(rs, PutRecord(r, tail))
    decreases |rs|
  {
    hide PutRecord;
    if rs == [] {
      assert [r][1..] == [];
    } else {
      assert (rs + [r])[1..] == rs[1..] + [r];
      RecordsSnoc(rs[1..], r, tail);
    }
  }

  function Images(m: Mirror, stamps: seq<u64>): (r: seq<byte>)
    ensures |r| == 92 * |stamps|
  {
    if stamps == [] then [] else Images(m, stamps[..|stamps| - 1]) + Image(m.(ts := stamps[|stamps| - 1]))
  }

  lemma {:induction false} ImagesAreRecords(m: Mirror, stamps: seq<u64>, tail: seq<byte>)
    ensures PutRecords(Samples(m, stamps), tail) == Images(m, stamps) + tail
    decreases |stamps|
  {
    hide Image, Sample, PutRecord;
    if stamps != [] {
      var init, last := stamps[..|stamps| - 1], m.(ts := stamps[|stamps| - 1]);
      assert Samples(m, stamps) == Samples(m, init) + [Sample(last)];
      RecordsSnoc(Samples(m, init), Sample(last), tail);
      ImageIsRecord(last, tail);
      ImagesAreRecords(m, init, Image(last) + tail);
    }
  }

  function PacketData(m: Mirror, stamps: seq<u64>): (r: seq<byte>)
    ensures |r| == 92 * |stamps| + 3
  {
    [8, |stamps| % 256] + Images(m, stamps) + [|stamps| % 256]
  }

  lemma PacketDataIsPayload(m: Mirror, stamps: seq<u64>)
    requires |stamps| < 256
    ensures PacketData(m, stamps) == Payload(Samples(m, stamps))
  {
    hide Put, Images, Samples, PutRecords;
    var n := |stamps|;
    var s3 := Put(n, 1, []);
    var s2 := PutRecords(Samples(m, stamps), s3);
    PutIs(8, 1, Put(n, 1, s2));
    PutIs(n, 1, s2);
    PutIs(n, 1, []);
    ImagesAreRecords(m, stamps, s3);
  }

  /** A Codec 8 reader gets exactly pk equal samples back, whatever the mirror holds. */
  lemma PacketDecodes(m: Mirror, stamps: seq<u64>)
    requires |stamps| < 256
    ensures Decode(Frame(PacketData(m, stamps))) == Parsed(Samples(m, stamps), [])
  {
    hide Sample, PacketData, Decode, Frame, Payload, Fits;
    PacketDataIsPayload(m, stamps);
    forall r | r in Samples(m, stamps) ensures Fits(r) {
      var i :| 0 <= i < |stamps| && r == Samples(m, stamps)[i];
      SampleFits(m.(ts := stamps[i]));
    }
    PacketRoundTrip(Samples(m, stamps));
  }

  // ----- building it in a buffer -----

  /** A buffer that holds the bytes written so far and is zero after them. */
  function Padded(written: seq<byte>): (r: seq<byte>)
    requires |written| <= BUF_SIZE
    ensures |r| == BUF_SIZE
  {
    written + seq(BUF_SIZE - |written|, _ => 0)
  }

  /** memcpy at the end of what is written. */
  method Append(buf: array<byte>, at: nat, bytes: seq<byte>, ghost written: seq<byte>) returns (next: nat)
    requires |written| == at && at + |bytes| <= BUF_SIZE && buf[..] == Padded(written)
    modifies buf
    ensures buf[..] == Padded(written + bytes) && next == at + |bytes|
  {
    for i := 0 to |bytes|
      invariant buf[..] == Padded(written + bytes[..i])
    {
      buf[at + i] := bytes[i];
      assert written + bytes[..i + 1] == written + bytes[..i] + [bytes[i]];
    }
    assert bytes[..|bytes|] == bytes;
    next := at + |bytes|;
  }

  method Clear(buf: array<byte>)
    requires buf.Length == BUF_SIZE
    modifies buf
    ensures buf[..] == Padded([])
  {
    for k := 0 to BUF_SIZE
      invariant forall j :: 0 <= j < k ==> buf[j] == 0
    {
      buf[k] := 0;
    }
  }

  /** The checksum over the bytes from offset 8 on, appended high byte first: the last step of every frame. */
  method AppendKsum(buf: array<byte>, at: nat, ghost data: seq<byte>) returns (next: nat)
    requires at == |data| + 10 && |data| + 12 <= BUF_SIZE
    requires buf[..] == Padded([0, 0, 0, 0] + PutBe(|data|, 4) + data + [0, 0])
    modifies buf
    ensures buf[..] == Padded(Frame(data)) && next == |data| + 12
  {
    ghost var written := [0, 0, 0, 0] + PutBe(|data|, 4) + data + [0, 0];
    assert buf[8..8 + (at - 10)] == data by {
      assert written[8..8 + |data|] == data;
      assert buf[8..8 + |data|] == buf[..][8..8 + |data|];
    }
    var ks := Ksum(buf, 8, at - 10);
    assert data == [] ==> Crc16(data) == 0;
    var field := [HighByte(ks) as int, LowByte(ks) as int];
    next := Append(buf, at, field, written);
    assert [0, 0] + field == ChecksumField(data);
    assert written + field == Frame(data);
  }

  /** Preamble, length field, codec id and record count of a packet with pk samples. */
  function Header(pk: nat): (r: seq<byte>)
    ensures |r| == 10
  {
    [0, 0, 0, 0] + PutBe(92 * pk + 3, 4) + [8, pk % 256]
  }

  method LayOutHeader(pk: nat, buf: array<byte>) returns (uk: nat)
    requires pk <= MAX_PK && buf.Length == BUF_SIZE
    modifies buf
    ensures buf[..] == Padded(Header(pk)) && uk == 10
  {
    hide Padded, PutBe, PutLe, Hton;
    var lens := 2 + 92 * pk + 3;
    StoredIsBigEndian(lens - 2, 4);
    Clear(buf);
    uk := Append(buf, 0, [0, 0, 0, 0], []);
    assert [] + [0, 0, 0, 0] == [0, 0, 0, 0];
    uk := Append(buf, uk, PutLe(Hton(lens - 2, 4), 4), [0, 0, 0, 0]);
    uk := Append(buf, uk, [8, pk], [0, 0, 0, 0] + PutBe(lens - 2, 4));
  }

  lemma PacketParts(m: Mirror, stamps: seq<u64>)
    requires |stamps| < 256
    ensures var data := PacketData(m, stamps);
      Header(|stamps|) + Images(m, stamps) + [|stamps|, 0, 0] == [0, 0, 0, 0] + PutBe(|data|, 4) + data + [0, 0]
  {
    hide PutBe, Images;
  }

  /** The part of make_record that lays out the packet: header, pk copies of the mirror, tail and checksum. */
  method LayOut(m: Mirror, stamps: seq<u64>, buf: array<byte>) returns (ret: nat)
    requires 1 <= |stamps| <= MAX_PK && buf.Length == BUF_SIZE
    modifies buf
    ensures buf[..] == Padded(Frame(PacketData(m, stamps))) && ret == |Frame(PacketData(m, stamps))|
  {
    hide Image, Padded, Images, Header, Frame, PacketData;
    var pk := |stamps|;
    var uk := LayOutHeader(pk, buf);
    ghost var header := Header(pk);
    assert header + Images(m, stamps[..0]) == header by { NoImages(m); }
    for i := 0 to pk
      invariant uk == 10 + 92 * i
      invariant buf[..] == Padded(header + Images(m, stamps[..i]))
    {
      ImagesSnoc(m, stamps, i);
      var sample := Image(m.(ts := stamps[i]));
      assert header + Images(m, stamps[..i + 1]) == header + Images(m, stamps[..i]) + sample;
      uk := Append(buf, uk, sample, header + Images(m, stamps[..i]));
    }
    assert stamps[..pk] == stamps;
    ghost var data := PacketData(m, stamps);
    uk := Append(buf, uk, [pk, 0, 0], header + Images(m, stamps));
    PacketParts(m, stamps);
    ret := AppendKsum(buf, uk, data);
    FrameLength(data);
  }

  lemma FrameLength(data: seq<byte>)
    ensures |Frame(data)| == |data| + 12
  {}

  lemma NoImages(m: Mirror)
    ensures Images(m, []) == []
  {}

  lemma ImagesSnoc(m: Mirror, stamps: seq<u64>, i: nat)
    requires i < |stamps|
    ensures Images(m, stamps[..i + 1]) == Images(m, stamps[..i]) + Image(m.(ts := stamps[i]))
  {
    hide Image;
    assert stamps[..i + 1][..i] == stamps[..i];
  }
}
