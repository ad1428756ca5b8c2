/**
 * The AVL data packet of Teltonika's Data Sending Protocols, section Codec 8: a general encoder and decoder for any
 * number of records with any I/O elements, and their round trip.
 */
module Codec8 {
  import opened Words
  import opened Wire
  import opened CrcTable
  import opened Register

  datatype Parsed<+T> = Malformed | Parsed(value: T, rest: seq<byte>) {
    predicate IsFailure() { Malformed? }

    function PropagateFailure<U>(): Parsed<U>
      requires Malformed?
    {
      Malformed
    }

    function Extract(): (T, seq<byte>)
      requires Parsed?
    {
      (value, rest)
    }
  }

  datatype Io = Io(id: byte, value: nat)

  datatype Gps = Gps(longitude: u32, latitude: u32, altitude: u16, angle: u16, satellites: byte, speed: u16)

  datatype Record = Record(ts: u64, priority: byte, gps: Gps, eventId: byte, total: byte,
                           io1: seq<Io>, io2: seq<Io>, io4: seq<Io>, io8: seq<Io>)

  // ----- encoding, each function in front of what follows -----

  function Put(x: nat, n: nat, tail: seq<byte>): (r: seq<byte>)
    ensures |r| == n + |tail|
  {
    PutBe(x, n) + tail
  }

  function PutIos(ios: seq<Io>, width: nat, tail: seq<byte>): (r: seq<byte>)
    ensures |r| == (1 + width) * |ios| + |tail|
  {
    if ios == [] then tail else Put(ios[0].id, 1, Put(ios[0].value, width, PutIos(ios[1..], width, tail)))
  }

  function PutGroup(ios: seq<Io>, width: nat, tail: seq<byte>): (r: seq<byte>)
    ensures |r| == 1 + (1 + width) * |ios| + |tail|
  {
    Put(|ios|, 1, PutIos(ios, width, tail))
  }

  function PutGps(g: Gps, tail: seq<byte>): (r: seq<byte>)
    ensures |r| == 15 + |tail|
  {
    Put(g.longitude, 4, Put(g.latitude, 4, Put(g.altitude, 2, Put(g.angle, 2,
      Put(g.satellites, 1, Put(g.speed, 2, tail))))))
  }

  function PutGroups(r: Record, tail: seq<byte>): (s: seq<byte>)
    ensures |s| == 4 + 2 * |r.io1| + 3 * |r.io2| + 5 * |r.io4| + 9 * |r.io8| + |tail|
  {
    PutGroup(r.io1, 1, PutGroup(r.io2, 2, PutGroup(r.io4, 4, PutGroup(r.io8, 8, tail))))
  }

  function RecordSize(r: Record): nat {
    30 + 2 * |r.io1| + 3 * |r.io2| + 5 * |r.io4| + 9 * |r.io8|
  }

  function PutRecord(r: Record, tail: seq<byte>): (s: seq<byte>)
    ensures |s| == RecordSize(r) + |tail|
  {
    Put(r.ts, 8, Put(r.priority, 1, PutGps(r.gps, Put(r.eventId, 1, Put(r.total, 1, PutGroups(r, tail))))))
  }

  function PutRecords(rs: seq<Record>, tail: seq<byte>): seq<byte> {
    if rs == [] then tail else PutRecord(rs[0], PutRecords(rs[1..], tail))
  }

  /** The bytes the length field announces: codec id 8, count, records, count again. */
  function Payload(rs: seq<Record>): seq<byte> {
    Put(8, 1, Put(|rs|, 1, PutRecords(rs, Put(|rs|, 1, []))))
  }

  /** The 4-byte checksum field: two zero bytes and the CRC, high byte first. */
  function ChecksumField(data: seq<byte>): (r: seq<byte>)
    ensures |r| == 4
  {
    var c := Crc16(data);
    [0, 0, HighByte(c) as int, LowByte(c) as int]
  }

  /** Preamble, length, data, checksum field: the frame every packet and every command travels in. */
  function Frame(data: seq<byte>): (r: seq<byte>)
    ensures |r| == |data| + 12
  {
    [0, 0, 0, 0] + PutBe(|data|, 4) + data + ChecksumField(data)
  }

  // ----- decoding -----

  function Take(s: seq<byte>, n: nat): (r: Parsed<nat>)
    ensures r.Parsed? ==> r.value < Power256(n)
  {
    if |s| < n then Malformed else Parsed(GetBe(s[..n]), s[n..])
  }

  lemma Widths()
    ensures Power256(1) == 0x100 && Power256(2) == 0x1_0000 && Power256(4) == 0x1_0000_0000
    ensures Power256(8) == 0x1_0000_0000_0000_0000
  {}

  function Take8(s: seq<byte>): Parsed<byte> {
    Widths();
    var (x, rest) :- Take(s, 1);
    Parsed(x, rest)
  }

  function Take16(s: seq<byte>): Parsed<u16> {
    Widths();
    var (x, rest) :- Take(s, 2);
    Parsed(x, rest)
  }

  function Take32(s: seq<byte>): Parsed<u32> {
    Widths();
    var (x, rest) :- Take(s, 4);
    Parsed(x, rest)
  }

  function Take64(s: seq<byte>): Parsed<u64> {
    Widths();
    var (x, rest) :- Take(s, 8);
    Parsed(x, rest)
  }

  function TakeIos(s: seq<byte>, count: nat, width: nat): Parsed<seq<Io>>
    decreases count
  {
    if count == 0 then Parsed([], s)
    else
      var (id, s1) :- Take8(s);
      var (value, s2) :- Take(s1, width);
      var (ios, s3) :- TakeIos(s2, count - 1, width);
      Parsed([Io(id, value)] + ios, s3)
  }

  function TakeGroup(s: seq<byte>, width: nat): Parsed<seq<Io>> {
    var (count, s1) :- Take8(s);
    TakeIos(s1, count, width)
  }

  function TakeGps(s: seq<byte>): Parsed<Gps> {
    var (longitude, s1) :- Take32(s);
    var (latitude, s2) :- Take32(s1);
    var (altitude, s3) :- Take16(s2);
    var (angle, s4) :- Take16(s3);
    var (satellites, s5) :- Take8(s4);
    var (speed, s6) :- Take16(s5);
    Parsed(Gps(longitude, latitude, altitude, angle, satellites, speed), s6)
  }

  function TakeRecord(s: seq<byte>): Parsed<Record> {
    var (ts, s1) :- Take64(s);
    var (priority, s2) :- Take8(s1);
    var (gps, s3) :- TakeGps(s2);
    var (eventId, s4) :- Take8(s3);
    var (total, s5) :- Take8(s4);
    var (io1, s6) :- TakeGroup(s5, 1);
    var (io2, s7) :- TakeGroup(s6, 2);
    var (io4, s8) :- TakeGroup(s7, 4);
    var (io8, s9) :- TakeGroup(s8, 8);
    Parsed(Record(ts, priority, gps, eventId, total, io1, io2, io4, io8), s9)
  }

  function TakeRecords(s: seq<byte>, count: nat): Parsed<seq<Record>>
    decreases count
  {
    if count == 0 then Parsed([], s)
    else
      var (r, s1) :- TakeRecord(s);
      var (rs, s2) :- TakeRecords(s1, count - 1);
      Parsed([r] + rs, s2)
  }

  /** The records of a payload; the codec id must be 8, both counts must agree and nothing may follow. */
  function ParsePayload(s: seq<byte>): Parsed<seq<Record>> {
    var (codec, s1) :- Take8(s);
    var (count, s2) :- Take8(s1);
    var (rs, s3) :- TakeRecords(s2, count);
    var (again, s4) :- Take8(s3);
    if codec == 8 && again == count && s4 == [] then Parsed(rs, []) else Malformed
  }

  /** The data of a frame; preamble, length and checksum must be right. */
  function ParseFrame(s: seq<byte>): Parsed<seq<byte>> {
    if |s| < 12 || s[..4] != [0, 0, 0, 0] || GetBe(s[4..8]) != |s| - 12 then Malformed
    else
      var data := s[8..|s| - 4];
      if s[|s| - 4..] == ChecksumField(data) then Parsed(data, []) else Malformed
  }

  function Decode(s: seq<byte>): Parsed<seq<Record>> {
    var (data, _) :- ParseFrame(s);
    ParsePayload(data)
  }

  // ----- round trip -----

  ghost predicate IosFit(ios: seq<Io>, width: nat) {
    |ios| < 256 && forall io :: io in ios ==> io.value < Power256(width)
  }

  /** Every group has at most 255 elements and every value fits its width. */
  ghost predicate Fits(r: Record) {
    IosFit(r.io1, 1) && IosFit(r.io2, 2) && IosFit(r.io4, 4) && IosFit(r.io8, 8)
  }

  lemma TakePut(x: nat, n: nat, tail: seq<byte>)
    requires x < Power256(n)
    ensures Take(Put(x, n, tail), n) == Parsed(x, tail)
    ensures n == 1 ==> Take8(Put(x, n, tail)) == Parsed(x, tail)
    ensures n == 2 ==> Take16(Put(x, n, tail)) == Parsed(x, tail)
    ensures n == 4 ==> Take32(Put(x, n, tail)) == Parsed(x, tail)
    ensures n == 8 ==> Take64(Put(x, n, tail)) == Parsed(x, tail)
  {
    PutGet(x, n);
    assert Put(x, n, tail)[..n] == PutBe(x, n);
    assert Put(x, n, tail)[n..] == tail;
    hide Put;
    Widths();
  }

  lemma {:induction false} IosRoundTrip(ios: seq<Io>, width: nat, tail: seq<byte>)
    requires forall io :: io in ios ==> io.value < Power256(width)
    ensures TakeIos(PutIos(ios, width, tail), |ios|, width) == Parsed(ios, tail)
    decreases |ios|
  {
    hide Put, Take, Take8;
    if ios != [] {
      var more := PutIos(ios[1..], width, tail);
      Widths();
      TakePut(ios[0].id, 1, Put(ios[0].value, width, more));
      TakePut(ios[0].value, width, more);
      IosRoundTrip(ios[1..], width, tail);
      assert ios == [Io(ios[0].id, ios[0].value)] + ios[1..];
    }
  }

  lemma GroupRoundTrip(ios: seq<Io>, width: nat, tail: seq<byte>)
    requires IosFit(ios, width)
    ensures TakeGroup(PutGroup(ios, width, tail), width) == Parsed(ios, tail)
  {
    hide Put, Take, Take8;
    Widths();
    TakePut(|ios|, 1, PutIos(ios, width, tail));
    IosRoundTrip(ios, width, tail);
  }

  lemma GpsRoundTrip(g: Gps, tail: seq<byte>)
    ensures TakeGps(PutGps(g, tail)) == Parsed(g, tail)
  {
    hide Put, Take, Take8, Take16, Take32;
    Widths();
    var s5 := Put(g.speed, 2, tail);
    var s4 := Put(g.satellites, 1, s5);
    var s3 := Put(g.angle, 2, s4);
    var s2 := Put(g.altitude, 2, s3);
    var s1 := Put(g.latitude, 4, s2);
    TakePut(g.longitude, 4, s1);
    TakePut(g.latitude, 4, s2);
    TakePut(g.altitude, 2, s3);
    TakePut(g.angle, 2, s4);
    TakePut(g.satellites, 1, s5);
    TakePut(g.speed, 2, tail);
  }

  lemma RecordRoundTrip(r: Record, tail: seq<byte>)
    requires Fits(r)
    ensures TakeRecord(PutRecord(r, tail)) == Parsed(r, tail)
  {
    hide Put, Take, Take8, Take64, TakeGps, TakeGroup, PutGroup, PutGps;
    Widths();
    var s8 := PutGroup(r.io8, 8, tail);
    var s7 := PutGroup(r.io4, 4, s8);
    var s6 := PutGroup(r.io2, 2, s7);
    var s5 := PutGroup(r.io1, 1, s6);
    var s4 := Put(r.total, 1, s5);
    var s3 := Put(r.eventId, 1, s4);
    var s2 := PutGps(r.gps, s3);
    TakePut(r.ts, 8, Put(r.priority, 1, s2));
    TakePut(r.priority, 1, s2);
    GpsRoundTrip(r.gps, s3);
    TakePut(r.eventId, 1, s4);
    TakePut(r.total, 1, s5);
    GroupRoundTrip(r.io1, 1, s6);
    GroupRoundTrip(r.io2, 2, s7);
    GroupRoundTrip(r.io4, 4, s8);
    GroupRoundTrip(r.io8, 8, tail);
  }

  lemma {:induction false} RecordsRoundTrip(rs: seq<Record>, tail: seq<byte>)
    requires forall r :: r in rs ==> Fits(r)
    ensures TakeRecords(PutRecords(rs, tail), |rs|) == Parsed(rs, tail)
    decreases |rs|
  {
    hide PutRecord, TakeRecord;
    if rs != [] {
      RecordRoundTrip(rs[0], PutRecords(rs[1..], tail));
      RecordsRoundTrip(rs[1..], tail);
      assert rs == [rs[0]] + rs[1..];
    }
  }

  lemma PayloadRoundTrip(rs: seq<Record>)
    requires |rs| < 256 && forall r :: r in rs ==> Fits(r)
    ensures ParsePayload(Payload(rs)) == Parsed(rs, [])
  {
    hide Put, Take, Take8, PutRecords, TakeRecords;
    Widths();
    var s3 := Put(|rs|, 1, []);
    var s2 := PutRecords(rs, s3);
    TakePut(8, 1, Put(|rs|, 1, s2));
    TakePut(|rs|, 1, s2);
    RecordsRoundTrip(rs, s3);
    TakePut(|rs|, 1, []);
  }

  /** A byte string is accepted as a frame for some data exactly when it is that data's frame. */
  lemma FrameRoundTrip(s: seq<byte>, data: seq<byte>)
    ensures ParseFrame(s) == Parsed(data, []) <==> s == Frame(data) && |data| < 0x1_0000_0000
  {
    hide ChecksumField;
    Widths();
    if ParseFrame(s) == Parsed(data, []) {
      GetPut(s[4..8]);
      assert |s[4..8]| == 4;
      assert s == s[..4] + s[4..8] + s[8..|s| - 4] + s[|s| - 4..];
    }
    if s == Frame(data) && |data| < 0x1_0000_0000 {
      PutGet(|data|, 4);
      assert s[4..8] == PutBe(|data|, 4);
      assert s[8..|s| - 4] == data && s[|s| - 4..] == ChecksumField(data);
      assert s[..4] == [0, 0, 0, 0];
    }
  }

  lemma {:induction false} RecordsSize(rs: seq<Record>, tail: seq<byte>)
    requires forall r :: r in rs ==> Fits(r)
    ensures |PutRecords(rs, tail)| <= 4875 * |rs| + |tail|
    decreases |rs|
  {
    hide PutRecord;
    if rs != [] {
      assert Fits(rs[0]);
      RecordsSize(rs[1..], tail);
    }
  }

  lemma PayloadSize(rs: seq<Record>)
    requires |rs| < 256 && forall r :: r in rs ==> Fits(r)
    ensures |Payload(rs)| < 0x1_0000_0000
  {
    hide Put, PutRecords;
    RecordsSize(rs, Put(|rs|, 1, []));
  }

  /** Any packet of up to 255 records decodes to the records it was built from. */
  lemma PacketRoundTrip(rs: seq<Record>)
    requires |rs| < 256 && forall r :: r in rs ==> Fits(r)
    ensures Decode(Frame(Payload(rs))) == Parsed(rs, [])
  {
    hide ParseFrame, Frame, ParsePayload, Payload;
    PayloadSize(rs);
    FrameRoundTrip(Frame(Payload(rs)), Payload(rs));
    PayloadRoundTrip(rs);
  }
}
