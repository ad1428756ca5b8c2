/** What a packet says: each identifier with the field it stands for, and where each field lies. */
module Fields {
  import opened Words
  import opened Wire
  import opened Register
  import opened CrcTable
  import opened Crc
  import opened Codec8
  import opened Mirror
  import opened Scenario
  import opened TrackerModel
  import opened Framing

  // ----- by identifier -----

  /** The values a list of elements gives for an identifier. */
  function ValuesOf(ios: seq<Io>, id: byte): seq<nat> {
    if ios == [] then [] else (if ios[0].id == id then [ios[0].value] else []) + ValuesOf(ios[1..], id)
  }

  /** All values a record has for an identifier, whatever their width. */
  function Lookup(r: Record, id: byte): seq<nat> {
    ValuesOf(r.io1, id) + ValuesOf(r.io2, id) + ValuesOf(r.io4, id) + ValuesOf(r.io8, id)
  }

  /** Inputs, outputs and states: the one-byte elements. */
  ghost predicate CarriesInputs(r: Record, m: Mirror) {
    && Lookup(r, 1) == [m.din1] && Lookup(r, 2) == [m.din2] && Lookup(r, 3) == [m.din3] && Lookup(r, 4) == [m.din4]
    && Lookup(r, 179) == [m.dout1] && Lookup(r, 180) == [m.dout2] && Lookup(r, 50) == [m.dout3]
    && Lookup(r, 51) == [m.dout4] && Lookup(r, 22) == [m.profile] && Lookup(r, 71) == [m.gnss]
    && Lookup(r, 240) == [m.moves] && Lookup(r, 21) == [m.gsmLevel] && Lookup(r, 239) == [m.ignition]
  }

  /** Fuel, tachometer, hood, the three voltages and currents, speed, odometer, operator, total odometer. */
  ghost predicate CarriesValues(r: Record, m: Mirror) {
    && Lookup(r, 9) == [m.fuel] && Lookup(r, 10) == [m.tach] && Lookup(r, 11) == [m.hood]
    && Lookup(r, 67) == [m.batteryVolt] && Lookup(r, 68) == [m.batteryCur] && Lookup(r, 66) == [m.externalVolt]
    && Lookup(r, 24) == [m.ioSpeed] && Lookup(r, 199) == [m.odo] && Lookup(r, 241) == [m.operator]
    && Lookup(r, 216) == [m.totalOdo]
  }

  /** The head of a record: time and priority, the position, no event, 23 elements, as many as it has. */
  ghost predicate CarriesHead(r: Record, m: Mirror, ts: u64) {
    && r.ts == ts && r.priority == m.prio && r.eventId == 0
    && r.gps.longitude == m.gps.longitude && r.gps.latitude == m.gps.latitude && r.gps.altitude == m.gps.altitude
    && r.gps.angle == m.gps.angle && r.gps.satellites == m.gps.satellites && r.gps.speed == m.gps.speed
    && r.total == 23 == |r.io1| + |r.io2| + |r.io4| + |r.io8|
  }

  lemma {:induction false} NoneOf(ios: seq<Io>, id: byte)
    requires forall j :: 0 <= j < |ios| ==> ios[j].id != id
    ensures ValuesOf(ios, id) == []
    decreases |ios|
  {
    if ios != [] { NoneOf(ios[1..], id); }
  }

  lemma {:induction false} OnlyOne(ios: seq<Io>, k: nat, id: byte)
    requires k < |ios| && ios[k].id == id && forall j :: 0 <= j < |ios| && j != k ==> ios[j].id != id
    ensures ValuesOf(ios, id) == [ios[k].value]
    decreases |ios|
  {
    if k == 0 { NoneOf(ios[1..], id); } else { OnlyOne(ios[1..], k - 1, id); }
  }

  /** The identifier of element k of a group is in no other place. */
  ghost predicate Only1(r: Record, k: nat, id: byte) {
    && k < |r.io1| && r.io1[k].id == id && (forall j :: 0 <= j < |r.io1| && j != k ==> r.io1[j].id != id)
    && (forall j :: 0 <= j < |r.io2| ==> r.io2[j].id != id) && (forall j :: 0 <= j < |r.io4| ==> r.io4[j].id != id)
    && r.io8 == []
  }

  ghost predicate Only2(r: Record, k: nat, id: byte) {
    && k < |r.io2| && r.io2[k].id == id && (forall j :: 0 <= j < |r.io2| && j != k ==> r.io2[j].id != id)
    && (forall j :: 0 <= j < |r.io1| ==> r.io1[j].id != id) && (forall j :: 0 <= j < |r.io4| ==> r.io4[j].id != id)
    && r.io8 == []
  }

  ghost predicate Only4(r: Record, k: nat, id: byte) {
    && k < |r.io4| && r.io4[k].id == id && (forall j :: 0 <= j < |r.io4| && j != k ==> r.io4[j].id != id)
    && (forall j :: 0 <= j < |r.io1| ==> r.io1[j].id != id) && (forall j :: 0 <= j < |r.io2| ==> r.io2[j].id != id)
    && r.io8 == []
  }

  lemma Found1(r: Record, k: nat, id: byte)
    requires Only1(r, k, id)
    ensures Lookup(r, id) == [r.io1[k].value]
  {
    OnlyOne(r.io1, k, id);
    NoneOf(r.io2, id);
    NoneOf(r.io4, id);
  }

  lemma Found2(r: Record, k: nat, id: byte)
    requires Only2(r, k, id)
    ensures Lookup(r, id) == [r.io2[k].value]
  {
    OnlyOne(r.io2, k, id);
    NoneOf(r.io1, id);
    NoneOf(r.io4, id);
  }

  lemma Found4(r: Record, k: nat, id: byte)
    requires Only4(r, k, id)
    ensures Lookup(r, id) == [r.io4[k].value]
  {
    OnlyOne(r.io4, k, id);
    NoneOf(r.io1, id);
    NoneOf(r.io2, id);
  }

  lemma InputsFound(m: Mirror)
    ensures var r := Sample(m);
      && Lookup(r, 1) == [m.din1]
      && Lookup(r, 2) == [m.din2]
      && Lookup(r, 3) == [m.din3]
      && Lookup(r, 4) == [m.din4]
  {
    hide Lookup;
    var r := Sample(m);
    Found1(r, 0, 1);
    Found1(r, 1, 2);
    Found1(r, 2, 3);
    Found1(r, 3, 4);
  }

  lemma OutputsFound(m: Mirror)
    ensures var r := Sample(m);
      && Lookup(r, 179) == [m.dout1]
      && Lookup(r, 180) == [m.dout2]
      && Lookup(r, 50) == [m.dout3]
      && Lookup(r, 51) == [m.dout4]
  {
    hide Lookup;
    var r := Sample(m);
    Found1(r, 4, 179);
    Found1(r, 5, 180);
    Found1(r, 6, 50);
    Found1(r, 7, 51);
  }

  lemma StatesFound(m: Mirror)
    ensures var r := Sample(m);
      && Lookup(r, 22) == [m.profile]
      && Lookup(r, 71) == [m.gnss]
      && Lookup(r, 240) == [m.moves]
      && Lookup(r, 21) == [m.gsmLevel]
      && Lookup(r, 239) == [m.ignition]
  {
    hide Lookup;
    var r := Sample(m);
    Found1(r, 8, 22);
    Found1(r, 9, 71);
    Found1(r, 10, 240);
    Found1(r, 11, 21);
    Found1(r, 12, 239);
  }

  lemma SensorsFound(m: Mirror)
    ensures var r := Sample(m);
      && Lookup(r, 9) == [m.fuel]
      && Lookup(r, 10) == [m.tach]
      && Lookup(r, 11) == [m.hood]
  {
    hide Lookup;
    var r := Sample(m);
    Found2(r, 0, 9);
    Found2(r, 1, 10);
    Found2(r, 2, 11);
  }

  lemma VoltagesFound(m: Mirror)
    ensures var r := Sample(m);
      && Lookup(r, 67) == [m.batteryVolt]
      && Lookup(r, 68) == [m.batteryCur]
      && Lookup(r, 66) == [m.externalVolt]
      && Lookup(r, 24) == [m.ioSpeed]
  {
    hide Lookup;
    var r := Sample(m);
    Found2(r, 3, 67);
    Found2(r, 4, 68);
    Found2(r, 5, 66);
    Found2(r, 6, 24);
  }

  lemma LongsFound(m: Mirror)
    ensures var r := Sample(m);
      && Lookup(r, 199) == [m.odo]
      && Lookup(r, 241) == [m.operator]
      && Lookup(r, 216) == [m.totalOdo]
  {
    hide Lookup;
    var r := Sample(m);
    Found4(r, 0, 199);
    Found4(r, 1, 241);
    Found4(r, 2, 216);
  }

  lemma SampleCarries(m: Mirror)
    ensures CarriesInputs(Sample(m), m) && CarriesValues(Sample(m), m)
  {
    hide Lookup, Sample;
    InputsFound(m);
    OutputsFound(m);
    StatesFound(m);
    SensorsFound(m);
    VoltagesFound(m);
    LongsFound(m);
  }

  /**
   * A Codec 8 reader that looks up each of the 23 identifiers in any record of a packet finds exactly one value, that of
   * its field in the mirror after the record; the packet has 1 to 3 records, each with its own time.
   */
  lemma PacketFields(s: State, r: RecordIn, cfg: Config, i: nat)
    requires i < (if r.kolpack == 0 then 1 else if r.kolpack > 3 then 3 else r.kolpack)
    ensures var p, m := Decode(Packet(s, r, cfg)), RecordStep(s, r, cfg).drive.m;
      && p.Parsed? && p.rest == [] && |p.value| == (if r.kolpack == 0 then 1 else if r.kolpack > 3 then 3 else r.kolpack)
      && CarriesHead(p.value[i], m, r.stamps[i]) && CarriesInputs(p.value[i], m) && CarriesValues(p.value[i], m)
  {
    hide Decode, Packet, RecordStep, Lookup;
    RecordPacketDecodes(s, r, cfg);
    var m := RecordStep(s, r, cfg).drive.m;
    SampleCarries(m.(ts := r.stamps[i]));
  }

  /** What a server reads in the first packet of a tracker that has no scenario: the values it has at power-on. */
  lemma FirstPacket(latitude: u32, longitude: u32, r: RecordIn, cfg: Config)
    requires !r.scenario
    ensures var p := Decode(Packet(Initial(latitude, longitude, cfg), r, cfg));
      && p.Parsed? && p.value != [] && var v := p.value[0];
      && Lookup(v, 9) == [750] && Lookup(v, 10) == [21] && Lookup(v, 11) == [1500] && Lookup(v, 67) == [9925]
      && Lookup(v, 68) == [50] && Lookup(v, 66) == [12044] && Lookup(v, 24) == [0] && Lookup(v, 199) == [0]
      && Lookup(v, 241) == [25099] && Lookup(v, 216) == [0] && Lookup(v, 1) == [0] && Lookup(v, 2) == [1]
      && Lookup(v, 3) == [1] && Lookup(v, 4) == [1] && Lookup(v, 179) == [0] && Lookup(v, 180) == [0]
      && Lookup(v, 50) == [0] && Lookup(v, 51) == [0] && Lookup(v, 22) == [3] && Lookup(v, 71) == [3]
      && Lookup(v, 240) == [0] && Lookup(v, 21) == [4] && Lookup(v, 239) == [0]
      && v.gps.altitude == 8 && v.gps.angle == 0 && v.gps.speed == 0 && v.priority == 0
      && (latitude != 0 ==> v.gps.latitude == latitude) && (longitude != 0 ==> v.gps.longitude == longitude)
  {
    hide Decode, Packet, Lookup;
    PacketFields(Initial(latitude, longitude, cfg), r, cfg, 0);
  }

  // ----- byte by byte -----

  /** Big-endian: the byte at place i counts 256^(n-1-i). */
  lemma {:induction false} BigEndianAt(x: nat, n: nat, i: nat)
    requires i < n
    ensures PutBe(x, n)[i] == x / Power256(n - 1 - i) % 256
    decreases n
  {
    if i < n - 1 {
      BigEndianAt(x / 256, n - 1, i);
      DivideTwice(x, Power256(n - 2 - i));
    }
  }

  lemma DivideTwice(x: nat, p: nat)
    requires p > 0
    ensures x / 256 / p == x / (256 * p)
  {
    var q, r := x / 256, x % 256;
    var a, b := q / p, q % p;
    assert x == 256 * (p * a + b) + r;
    assert 256 * (p * a) == (256 * p) * a;
    assert 256 * b + r < 256 * p;
    QuotientIs(x, 256 * p, a, 256 * b + r);
  }

  lemma QuotientIs(x: nat, d: nat, a: nat, r: nat)
    requires d > 0 && x == d * a + r && r < d
    ensures x / d == a
  {
    var b := x / d;
    assert x == d * b + x % d;
    if b < a { StepUp(d, b, a); }
    if a < b { StepUp(d, a, b); }
  }

  lemma StepUp(d: nat, a: nat, b: nat)
    requires a < b
    ensures d * a + d <= d * b
    decreases b
  {
    if b == a + 1 {
      assert d * (a + 1) == d * a + d;
    } else {
      StepUp(d, a, b - 1);
      assert d * ((b - 1) + 1) == d * (b - 1) + d;
    }
  }

  lemma {:induction false} PairAt(ios: seq<Io>, k: nat)
    requires k < |ios| && ios[k].value < 256
    ensures Pairs(ios, 1)[2 * k] == ios[k].id && Pairs(ios, 1)[2 * k + 1] == ios[k].value
    decreases k
  {
    StoredIsBigEndian(ios[k].value, 1);
    OneByte(ios[k].value);
    hide Stored;
    if k > 0 { PairAt(ios[1..], k - 1); }
  }

  lemma PairsFrom(ios: seq<Io>, k: nat, width: nat)
    requires k < |ios|
    ensures Pairs(ios[k..], width) == [ios[k].id] + PutBe(ios[k].value, width) + Pairs(ios[k + 1..], width)
  {
    StoredIsBigEndian(ios[k].value, width);
    assert ios[k..][1..] == ios[k + 1..];
  }

  lemma InputBytes(m: Mirror)
    ensures Pairs(Io1(m), 1) == [1, m.din1, 2, m.din2, 3, m.din3, 4, m.din4, 179, m.dout1, 180, m.dout2, 50, m.dout3,
      51, m.dout4, 22, m.profile, 71, m.gnss, 240, m.moves, 21, m.gsmLevel, 239, m.ignition]
  {
    hide Pairs;
    var ios := Io1(m);
    forall k | 0 <= k < 13 ensures Pairs(ios, 1)[2 * k] == ios[k].id && Pairs(ios, 1)[2 * k + 1] == ios[k].value {
      PairAt(ios, k);
    }
    PairAt(ios, 0); PairAt(ios, 1); PairAt(ios, 2); PairAt(ios, 3); PairAt(ios, 4); PairAt(ios, 5); PairAt(ios, 6);
    PairAt(ios, 7); PairAt(ios, 8); PairAt(ios, 9); PairAt(ios, 10); PairAt(ios, 11); PairAt(ios, 12);
  }

  lemma WordBytes(m: Mirror)
    ensures Pairs(Io2(m), 2)
      == [9] + PutBe(m.fuel, 2) + ([10] + PutBe(m.tach, 2) + ([11] + PutBe(m.hood, 2)
         + ([67] + PutBe(m.batteryVolt, 2) + ([68] + PutBe(m.batteryCur, 2) + ([66] + PutBe(m.externalVolt, 2)
         + ([24] + PutBe(m.ioSpeed, 2)))))))
  {
    var a := Io2(m);
    assert a[0..] == a && Pairs(a[7..], 2) == [];
    hide Pairs, PutBe;
    PairsFrom(a, 0, 2); PairsFrom(a, 1, 2); PairsFrom(a, 2, 2); PairsFrom(a, 3, 2); PairsFrom(a, 4, 2);
    PairsFrom(a, 5, 2); PairsFrom(a, 6, 2);
  }

  lemma LongBytes(m: Mirror)
    ensures Pairs(Io4(m), 4)
      == [199] + PutBe(m.odo, 4) + ([241] + PutBe(m.operator, 4) + ([216] + PutBe(m.totalOdo, 4)))
  {
    var a := Io4(m);
    assert a[0..] == a && Pairs(a[3..], 4) == [];
    hide Pairs, PutBe;
    PairsFrom(a, 0, 4); PairsFrom(a, 1, 4); PairsFrom(a, 2, 4);
  }

  lemma StoredIs(x: nat, n: nat)
    ensures Stored(x, n) == PutBe(x, n)
  {
    StoredIsBigEndian(x, n);
  }

  lemma GpsBytes(g: Gps)
    ensures GpsImage(g) == PutBe(g.longitude, 4) + PutBe(g.latitude, 4) + PutBe(g.altitude, 2) + PutBe(g.angle, 2)
      + [g.satellites] + PutBe(g.speed, 2)
  {
    hide Stored, PutBe;
    StoredIs(g.longitude, 4);
    StoredIs(g.latitude, 4);
    StoredIs(g.altitude, 2);
    StoredIs(g.angle, 2);
    StoredIs(g.speed, 2);
  }

  /** The packed structure, field by field in network order, each element behind its identifier. */
  lemma ImageLayout(m: Mirror)
    ensures Image(m)
      == PutBe(m.ts, 8) + [m.prio]
         + (PutBe(m.gps.longitude, 4) + PutBe(m.gps.latitude, 4) + PutBe(m.gps.altitude, 2) + PutBe(m.gps.angle, 2)
            + [m.gps.satellites] + PutBe(m.gps.speed, 2))
         + [0, 23]
         + [13] + [1, m.din1, 2, m.din2, 3, m.din3, 4, m.din4, 179, m.dout1, 180, m.dout2, 50, m.dout3,
            51, m.dout4, 22, m.profile, 71, m.gnss, 240, m.moves, 21, m.gsmLevel, 239, m.ignition]
         + [7] + ([9] + PutBe(m.fuel, 2) + ([10] + PutBe(m.tach, 2) + ([11] + PutBe(m.hood, 2)
            + ([67] + PutBe(m.batteryVolt, 2) + ([68] + PutBe(m.batteryCur, 2) + ([66] + PutBe(m.externalVolt, 2)
            + ([24] + PutBe(m.ioSpeed, 2))))))))
         + [3] + ([199] + PutBe(m.odo, 4) + ([241] + PutBe(m.operator, 4) + ([216] + PutBe(m.totalOdo, 4))))
         + [0]
  {
    hide PutBe, Pairs, GpsImage, Stored;
    StoredIs(m.ts, 8);
    GpsBytes(m.gps);
    InputBytes(m);
    WordBytes(m);
    LongBytes(m);
  }

  // ----- the frame around it -----

  /** The two checksum bytes of a frame, read high byte first. */
  function ChecksumOf(f: seq<byte>): bv16
    requires |f| >= 12
  {
    Word(f[|f| - 1], f[|f| - 2])
  }

  /** Every packet: four zeros, the length of what follows but the checksum field, and the checksum of just those bytes. */
  lemma PacketFrame(s: State, r: RecordIn, cfg: Config)
    ensures var f := Packet(s, r, cfg);
      && |f| >= 12 && f[..4] == [0, 0, 0, 0] && GetBe(f[4..8]) == |f| - 12
      && f[|f| - 4..|f| - 2] == [0, 0] && ChecksumOf(f) == Crc16(f[8..|f| - 4])
  {
    hide RecordStep, PacketData, Frame;
    FrameEnds(PacketData(RecordStep(s, r, cfg).drive.m, r.stamps[..ClampPk(r.kolpack)]));
  }

  lemma FrameEnds(data: seq<byte>)
    requires |data| < 0x1_0000_0000
    ensures var f := Frame(data);
      && f[..4] == [0, 0, 0, 0] && GetBe(f[4..8]) == |f| - 12
      && f[|f| - 4..|f| - 2] == [0, 0] && ChecksumOf(f) == Crc16(f[8..|f| - 4])
  {
    hide PutBe, Word;
    var f := Frame(data);
    Widths();
    PutGet(|data|, 4);
    assert f[4..8] == PutBe(|data|, 4) && f[8..|f| - 4] == data;
    BothBytes(Crc16(data));
  }

  lemma BothBytes(w: bv16)
    ensures Word(LowByte(w) as int, HighByte(w) as int) == w
  {
    ByteBack(LowByte(w));
    ByteBack(HighByte(w));
    assert ((w & 0xff) as bv8 as bv16) | (((w >> 8) as bv8 as bv16) << 8) == w;
  }

  lemma ByteBack(v: bv8)
    ensures 0 <= v as int < 256 && (v as int) as bv8 == v
  {}
}
