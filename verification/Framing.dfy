/** Theorems about the receiver on whole streams. */
module Framing {
  import opened Words
  import opened Wire
  import opened CStr
  import opened Codec8
  import opened Mirror
  import opened Commands
  import opened Replies
  import opened Scenario
  import opened TrackerModel
  import opened Receiver

  /** A unit the server may send: an acknowledgement ends in a non-zero byte, a frame has the size it announces. */
  ghost predicate WellFormed(u: Unit) {
    match u
    case Ack(b) => |b| == 4 && b[3] != 0
    case Framed(b) => |b| > 8 && b[3] == 0 && |b| == SizeOf(b)
  }

  function Stream(us: seq<Unit>): seq<byte> {
    if us == [] then [] else us[0].bytes + Stream(us[1..])
  }

  /** A string of bytes no prefix of which is a unit. */
  ghost predicate Partial(acc: seq<byte>) {
    && (|acc| >= 4 ==> acc[3] == 0)
    && (|acc| > 8 ==> !(8 < SizeOf(acc) <= |acc|))
  }

  lemma AcceptKeepsAll(acc: seq<byte>, b: byte)
    requires Partial(acc)
    ensures var (a, u) := Accept(acc, b);
      && Partial(a)
      && acc + [b] == (if u.Some? then u.value.bytes else []) + a
      && (u.Some? ==> WellFormed(u.value) && |u.value.bytes| == |acc| + 1)
  {
    var a := acc + [b];
    if |acc| >= 8 { HeadDecides(acc, a); }
    hide SizeOf;
    assert [] + a == a && a + [] == a;
  }

  lemma UnitsStep(acc: seq<byte>, s: seq<byte>)
    requires s != []
    ensures var (a, u) := Accept(acc, s[0]); var (rest, us) := Units(a, s[1..]);
      Units(acc, s) == (rest, if u.Some? then [u.value] + us else us)
  {
    hide Accept;
    var (a, u) := Accept(acc, s[0]);
    var (rest, us) := Units(a, s[1..]);
    assert [] + us == us;
  }

  lemma StreamCons(u: Unit, us: seq<Unit>, a: seq<byte>, t: seq<byte>, rest: seq<byte>)
    requires a + t == Stream(us) + rest
    ensures u.bytes + a + t == Stream([u] + us) + rest
  {
    assert ([u] + us)[1..] == us;
    assert u.bytes + a + t == u.bytes + (a + t);
    assert u.bytes + (Stream(us) + rest) == u.bytes + Stream(us) + rest;
  }

  /** Whatever arrives, no byte is lost, doubled or reordered, and every unit delivered is well formed. */
  lemma {:induction false} NothingLost(acc: seq<byte>, s: seq<byte>)
    requires Partial(acc)
    ensures var (rest, us) := Units(acc, s);
      acc + s == Stream(us) + rest && Partial(rest) && forall u :: u in us ==> WellFormed(u)
    decreases |s|
  {
    hide Accept, WellFormed, Partial, Stream;
    if s == [] {
      assert acc + [] == acc && [] + acc == acc;
      assert Stream([]) == [] by { EmptyStream(); }
    } else {
      var (a, u) := Accept(acc, s[0]);
      var (rest, us) := Units(a, s[1..]);
      UnitsStep(acc, s);
      AcceptKeepsAll(acc, s[0]);
      NothingLost(a, s[1..]);
      Regroup(acc, s, if u.Some? then u.value.bytes else [], a);
      hide Units;
      if u.Some? {
        StreamCons(u.value, us, a, s[1..], rest);
      } else {
        assert [] + a == a;
      }
    }
  }

  lemma Regroup(acc: seq<byte>, s: seq<byte>, unit: seq<byte>, a: seq<byte>)
    requires s != [] && acc + [s[0]] == unit + a
    ensures acc + s == unit + a + s[1..]
  {
    assert acc + s == (acc + [s[0]]) + s[1..];
  }

  lemma EmptyStream()
    ensures Stream([]) == []
  {}

  lemma AcceptInside(u: Unit, k: nat)
    requires WellFormed(u) && k < |u.bytes|
    ensures Accept(u.bytes[..k], u.bytes[k])
      == if k + 1 == |u.bytes| then ([], Some(u)) else (u.bytes[..k + 1], None)
  {
    assert u.bytes[..k] + [u.bytes[k]] == u.bytes[..k + 1];
    if k >= 8 { HeadDecides(u.bytes[..k], u.bytes); }
    hide SizeOf;
    assert k + 1 == |u.bytes| ==> u.bytes[..k + 1] == u.bytes;
  }

  lemma {:induction false} RestOfUnit(u: Unit, k: nat, s: seq<byte>)
    requires WellFormed(u) && k < |u.bytes|
    ensures Units(u.bytes[..k], u.bytes[k..] + s) == (var (rest, us) := Units([], s); (rest, [u] + us))
    decreases |u.bytes| - k
  {
    hide Accept, WellFormed;
    var t := u.bytes[k..] + s;
    AcceptInside(u, k);
    assert t[0] == u.bytes[k] && t[1..] == u.bytes[k + 1..] + s;
    if k + 1 == |u.bytes| {
      assert u.bytes[k + 1..] + s == s;
      UnitsStep(u.bytes[..k], t);
    } else {
      UnitsStep(u.bytes[..k], t);
      RestOfUnit(u, k + 1, s);
    }
  }

  lemma {:induction false} StreamIsCut(us: seq<Unit>)
    requires forall u :: u in us ==> WellFormed(u)
    ensures Units([], Stream(us)) == ([], us)
    decreases |us|
  {
    hide WellFormed;
    if us != [] {
      var u, rest := us[0], Stream(us[1..]);
      assert WellFormed(u) && |u.bytes| > 0 by { UnitNotEmpty(u); }
      RestOfUnit(u, 0, rest);
      assert u.bytes[..0] == [] && u.bytes[0..] == u.bytes;
      StreamIsCut(us[1..]);
      assert us == [u] + us[1..];
    }
  }

  lemma UnitNotEmpty(u: Unit)
    requires WellFormed(u)
    ensures |u.bytes| > 0
  {}

  /**
   * The receiver cuts a stream completely into given units exactly when the stream is those units, each well formed,
   * one after the other.
   */
  lemma CutExactly(s: seq<byte>, us: seq<Unit>)
    ensures Units([], s) == ([], us) <==> s == Stream(us) && forall u :: u in us ==> WellFormed(u)
  {
    NothingLost([], s);
    assert [] + s == s;
    if Units([], s) == ([], us) { assert Stream(us) + [] == Stream(us); }
    if s == Stream(us) && forall u :: u in us ==> WellFormed(u) { StreamIsCut(us); }
  }

  // ----- frames built elsewhere in the system -----

  /** Every frame with preamble, length and checksum field is cut out as one unit. */
  lemma FrameIsUnit(data: seq<byte>)
    requires |data| < 0x7FFF_FFF0
    ensures WellFormed(Framed(Frame(data)))
  {
    Widths();
    PutGet(|data|, 4);
    assert Frame(data)[4..8] == PutBe(|data|, 4);
    hide PutBe, ChecksumField;
  }

  /** What the two sides of the protocol send: 4-byte acknowledgements and frames that fit the buffers. */
  ghost predicate Sendable(u: Unit) {
    match u
    case Ack(b) => |b| == 4 && b[3] != 0
    case Framed(b) => exists data: seq<byte> :: |data| <= BUF_SIZE - 12 && b == Frame(data)
  }

  lemma SendableIsWellFormed(u: Unit)
    requires Sendable(u)
    ensures WellFormed(u) && |u.bytes| <= BUF_SIZE
  {
    hide Frame;
    if u.Framed? {
      var data: seq<byte> :| |data| <= BUF_SIZE - 12 && u.bytes == Frame(data);
      FrameIsUnit(data);
      FrameLength(data);
    }
  }

  /** Packets, acknowledgements and answers in any order go through the receiver unchanged, one by one. */
  lemma FramesArriveOneByOne(us: seq<Unit>)
    requires forall u :: u in us ==> Sendable(u)
    ensures Units([], Stream(us)) == ([], us)
  {
    hide Sendable, WellFormed;
    forall u | u in us ensures WellFormed(u) { SendableIsWellFormed(u); }
    StreamIsCut(us);
  }

  lemma FrameIsSendable(data: seq<byte>)
    requires |data| <= BUF_SIZE - 12
    ensures Sendable(Framed(Frame(data)))
  {}

  /** The packet of any record and the answer to any command are frames the receiver cuts out whole. */
  lemma OutputsAreUnits(s: State, r: RecordIn, cfg: Config, ct: byte, com: Text, now: u32, unix: u32, report: string)
    requires Shape(s) && |report| <= 383
    ensures Sendable(Framed(Packet(s, r, cfg))) && Sendable(Framed(Reply(s, ct, com, now, unix, report)))
  {
    hide RecordStep, AckText, FirstMatch, Frame, Sendable, Body, Message, PacketData;
    FrameIsSendable(PacketData(RecordStep(s, r, cfg).drive.m, r.stamps[..ClampPk(r.kolpack)]));
    AckTextFits(s, com, now, report);
    var ind := FirstMatch(com, 0);
    FrameIsSendable(Message(CodecOf(ind), Wrap8(ct + 1), unix, Body(ind, AckText(s, com, now, report))));
  }

  /** A Codec 8 reader gets from any record's packet exactly its 1 to 3 samples of the new mirror. */
  lemma RecordPacketDecodes(s: State, r: RecordIn, cfg: Config)
    ensures var pk := ClampPk(r.kolpack);
      Decode(Packet(s, r, cfg)) == Parsed(Samples(RecordStep(s, r, cfg).drive.m, r.stamps[..pk]), [])
      && |Samples(RecordStep(s, r, cfg).drive.m, r.stamps[..pk])| == pk
  {
    hide RecordStep, Decode, Frame, PacketData, Samples;
    PacketDecodes(RecordStep(s, r, cfg).drive.m, r.stamps[..ClampPk(r.kolpack)]);
  }

  /** While units of at most 4096 bytes arrive, the receive buffer is never full when a byte comes. */
  lemma {:induction false} BufferSuffices(us: seq<Unit>, k: nat)
    requires forall u :: u in us ==> WellFormed(u) && |u.bytes| <= BUF_SIZE
    requires k < |Stream(us)|
    ensures |Units([], Stream(us)[..k]).0| < BUF_SIZE
    decreases |us|
  {
    hide WellFormed;
    var u := us[0];
    assert u in us;
    var all, n := Stream(us), |u.bytes|;
    if k < n {
      assert all[..k] == u.bytes[..k];
      InsideUnit(u, k);
    } else {
      UnitNotEmpty(u);
      assert all[..k] == u.bytes + Stream(us[1..])[..k - n];
      RestOfUnit(u, 0, Stream(us[1..])[..k - n]);
      assert u.bytes[..0] == [] && u.bytes[0..] == u.bytes;
      BufferSuffices(us[1..], k - n);
    }
  }

  lemma {:induction false} InsideUnit(u: Unit, k: nat)
    requires WellFormed(u) && k < |u.bytes|
    ensures Units([], u.bytes[..k]) == (u.bytes[..k], [])
  {
    InsideUnitFrom(u, 0, k);
    assert u.bytes[..0] == [] && u.bytes[0..k] == u.bytes[..k];
  }

  lemma {:induction false} InsideUnitFrom(u: Unit, j: nat, k: nat)
    requires WellFormed(u) && j <= k < |u.bytes|
    ensures Units(u.bytes[..j], u.bytes[j..k]) == (u.bytes[..k], [])
    decreases k - j
  {
    hide Accept, WellFormed;
    if j < k {
      AcceptInside(u, j);
      assert u.bytes[j..k][0] == u.bytes[j] && u.bytes[j..k][1..] == u.bytes[j + 1..k];
      InsideUnitFrom(u, j + 1, k);
      UnitsStep(u.bytes[..j], u.bytes[j..k]);
    }
  }

  // ----- a record sent while a unit is being received -----

  /** The units delivered when the receiver is restarted after k bytes of the stream. */
  function WithRestart(s: seq<byte>, k: nat): seq<Unit>
    requires k <= |s|
  {
    Units([], s[..k]).1 + Units([], s[k..]).1
  }

  lemma {:induction false} DeliveredIsPart(us: seq<Unit>, u: Unit)
    requires u in us
    ensures |u.bytes| <= |Stream(us)|
    decreases |us|
  {
    if u != us[0] { DeliveredIsPart(us[1..], u); }
  }

  /** Fewer bytes than a unit has cannot deliver it. */
  lemma TooFewBytes(s: seq<byte>, u: Unit)
    requires |s| < |u.bytes|
    ensures u !in Units([], s).1
  {
    hide WellFormed;
    NothingLost([], s);
    assert [] + s == s;
    if u in Units([], s).1 { DeliveredIsPart(Units([], s).1, u); }
  }

  /** Sending a record while a unit is partly received loses the unit: it arrives exactly if the restart misses it. */
  lemma RestartLosesUnit(u: Unit, k: nat)
    requires WellFormed(u) && k <= |u.bytes|
    ensures u in WithRestart(u.bytes, k) <==> k == 0 || k == |u.bytes|
    ensures k == 0 || k == |u.bytes| ==> WithRestart(u.bytes, k) == [u]
  {
    hide WellFormed, Units;
    var s := u.bytes;
    if k == 0 || k == |s| {
      StreamIsCut([u]);
      StreamOfOne(u);
      NothingFromNothing();
      assert s[..0] == [] && s[|s|..] == [] && s[0..] == s && s[..|s|] == s;
      assert [] + [u] == [u] && [u] + [] == [u];
    } else {
      TooFewBytes(s[..k], u);
      TooFewBytes(s[k..], u);
    }
  }

  /**
   * What is heard first after a restart inside a frame: the next four bytes of the frame, as an acknowledgement nobody
   * sent, exactly if there are four and the last of them is not 0.
   */
  lemma TailAsAck(f: seq<byte>, k: nat)
    requires k <= |f|
    ensures var us := Units([], f[k..]).1;
      us != [] && us[0].Ack? <==> |f| - k >= 4 && f[k + 3] != 0
    ensures var us := Units([], f[k..]).1;
      us != [] && us[0].Ack? ==> |f| - k >= 4 && us[0] == Ack(f[k..k + 4])
  {
    FirstIsAck(f[k..]);
    if |f| - k >= 4 { assert f[k..][..4] == f[k..k + 4] && f[k..][3] == f[k + 3]; }
  }

  lemma FirstIsAck(s: seq<byte>)
    ensures var us := Units([], s).1;
      us != [] && us[0].Ack? <==> |s| >= 4 && s[3] != 0
    ensures var us := Units([], s).1; us != [] && us[0].Ack? ==> |s| >= 4 && us[0] == Ack(s[..4])
  {
    hide Accept, Units;
    NothingLost([], s);
    var (rest, us) := Units([], s);
    assert [] + s == s;
    if us != [] && us[0].Ack? {
      assert us[0] in us;
      HeadOfStream(us, rest, s);
    }
    if |s| >= 4 && s[3] != 0 {
      var u := Ack(s[..4]);
      RestOfUnit(u, 0, s[4..]);
      assert u.bytes[..0] == [] && u.bytes[0..] + s[4..] == s;
    }
  }

  lemma HeadOfStream(us: seq<Unit>, rest: seq<byte>, s: seq<byte>)
    requires us != [] && us[0].Ack? && WellFormed(us[0]) && s == Stream(us) + rest
    ensures |s| >= 4 && us[0].bytes == s[..4] && s[3] != 0
  {
    assert s == us[0].bytes + (Stream(us[1..]) + rest);
    assert s[3] == us[0].bytes[3];
  }

  /** A prefix of a stream of well-formed units is cut into the first of them. */
  lemma {:induction false} PrefixIsCut(us: seq<Unit>, p: seq<byte>)
    requires (forall u :: u in us ==> WellFormed(u)) && p <= Stream(us)
    ensures Units([], p).1 <= us
    decreases |us|
  {
    hide WellFormed, Accept;
    if us == [] {
      assert p == [];
    } else {
      var u := us[0];
      if |p| < |u.bytes| {
        assert p == u.bytes[..|p|];
        InsideUnit(u, |p|);
      } else {
        var q := p[|u.bytes|..];
        assert p == u.bytes + q && q <= Stream(us[1..]);
        UnitNotEmpty(u);
        RestOfUnit(u, 0, q);
        assert u.bytes[..0] == [] && u.bytes[0..] == u.bytes;
        PrefixIsCut(us[1..], q);
        assert us == [u] + us[1..];
      }
    }
  }

  lemma StreamOfOne(u: Unit)
    ensures Stream([u]) == u.bytes
  {
    assert [u][1..] == [] && u.bytes + [] == u.bytes;
  }

  lemma NothingFromNothing()
    ensures Units([], []) == ([], [])
  {}

  // ----- the command text -----

  function CString(s: seq<byte>): (r: string)
    ensures |r| <= |s|
  {
    if s == [] || s[0] == 0 then "" else [s[0] as char] + CString(s[1..])
  }

  /** Characters of one byte each, none of them a terminator. */
  ghost predicate Plain(s: string) {
    forall i :: 0 <= i < |s| ==> 0 < s[i] as int < 256
  }

  /**
   * The command inside a frame: the body, if its length is positive as a signed number, of that length modulo 256, up to
   * a terminator and then to the first CR LF. The receive buffer is cleared after every unit, so zeros follow the frame.
   */
  function CommandText(frame: seq<byte>): (r: string)
    ensures |r| <= 255
  {
    var buf := frame + seq(BUF_SIZE, _ => 0);
    var size := Signed32(GetBe(buf[11..15]));
    var text := if size <= 0 then "" else CString(buf[15..15 + size % 256]);
    var end := Find(text, "\r\n");
    if end == -1 then text else text[..end]
  }

  lemma {:induction false} CStringOfText(s: string)
    requires Plain(s)
    ensures CString(CharBytes(s)) == s
    decreases |s|
  {
    if s != "" {
      assert CharBytes(s)[0] as char == s[0];
      assert CharBytes(s)[1..] == CharBytes(s[1..]);
      CStringOfText(s[1..]);
    }
  }

  const PRINT_SIZE: nat := 2048

  /** What printing a received frame takes: its size, two characters for each byte, the command if any, a terminator. */
  function PrintedSize(size: nat, body: nat, command: nat): nat {
    18 + |Decimal(size)| + 3 + 2 * size + (if body > 0 then 8 + command else 0) + 1
  }

  /** The print buffer holds every frame of up to 880 bytes and none of more than 1011, whatever its command. */
  lemma PrintBounds(size: nat, body: nat, command: nat)
    requires command <= 255
    ensures size <= 880 ==> PrintedSize(size, body, command) <= PRINT_SIZE
    ensures size > 1011 ==> PrintedSize(size, body, command) > PRINT_SIZE
  {
    if size <= 880 {
      assert Power10(3) == 1000;
      DecimalLength(size, 3, 1000);
    }
    if size > 1011 {
      assert |Decimal(size)| == |Decimal(size / 10)| + 1;
      assert |Decimal(size / 10)| == |Decimal(size / 10 / 10)| + 1;
    }
  }

  /** A Codec 12 frame with this text can be printed: its command is the text's length modulo 256 long. */
  predicate Printable(text: string) {
    PrintedSize(20 + |text|, |text|, |text| % 256) <= PRINT_SIZE
  }

  /**
   * A Codec 12 command without CR LF whose frame fits the print buffer arrives as it was sent exactly when it has at most
   * 255 characters, and every command of up to 255 characters fits.
   */
  lemma CommandArrives(text: string, ct: byte)
    requires Plain(text) && Find(text, "\r\n") == -1 && (|text| > 255 ==> Printable(text))
    ensures |text| <= 255 ==> Printable(text)
    ensures var frame := Frame(Message(12, ct, 0, CharBytes(text)));
      |frame| == 20 + |text| && frame[10] == ct && (CommandText(frame) == text <==> |text| <= 255)
  {
    hide PutBe, Find, Frame, Message, CString, Decimal, PrintedSize, CommandText, CharBytes;
    var frame := Frame(Message(12, ct, 0, CharBytes(text)));
    if |text| <= 255 { PrintBounds(20 + |text|, |text|, |text|); } else { PrintBounds(20 + |text|, |text|, |text| % 256); }
    TextFrame(text, ct);
    WholeCommand(frame, |text|);
    if |text| <= 255 {
      assert frame[15..15 + |text| % 256] == CharBytes(text);
      CStringOfText(text);
    }
  }

  /** The command of a frame that holds it. */
  lemma WholeCommand(frame: seq<byte>, n: nat)
    requires n < 0x8000_0000 && |frame| >= 15 + n % 256 && GetBe(frame[11..15]) == n
    ensures var text := CString(frame[15..15 + n % 256]); var end := Find(text, "\r\n");
      CommandText(frame) == if end == -1 then text else text[..end]
  {
    hide Find, GetBe, CString, Signed32;
    BehindFrame(frame, n % 256);
    PositiveSize(n);
    NoCString();
    if n == 0 { assert frame[15..15] == []; }
  }

  lemma BehindFrame(frame: seq<byte>, k: nat)
    requires k < 256 && |frame| >= 15 + k
    ensures var buf := frame + seq(BUF_SIZE, _ => 0); buf[11..15] == frame[11..15] && buf[15..15 + k] == frame[15..15 + k]
  {}

  lemma PositiveSize(n: nat)
    requires n < 0x8000_0000
    ensures Signed32(n) == n
  {}

  lemma NoCString()
    ensures CString([]) == ""
  {}

  /** Where a Codec 12 frame keeps the type, the size and the text of its command. */
  lemma TextFrame(text: string, ct: byte)
    requires |text| < 0x1_0000_0000
    ensures var frame := Frame(Message(12, ct, 0, CharBytes(text)));
      && |frame| == 20 + |text| && frame[10] == ct
      && GetBe(frame[11..15]) == |text| && frame[15..15 + |text|] == CharBytes(text)
  {
    hide PutBe, ChecksumField;
    var body := CharBytes(text);
    var data := Message(12, ct, 0, body);
    var frame := Frame(data);
    Widths();
    PutGet(|text|, 4);
    assert frame[8..8 + |data|] == data;
    assert data[3..7] == PutBe(|text|, 4) && frame[11..15] == data[3..7];
    assert data[7..7 + |text|] == body && frame[15..15 + |text|] == data[7..7 + |text|];
  }

  /**
   * The receiver does not look at the checksum: frames that differ only in their last four bytes are delivered alike, and
   * their commands are the same, if the text ends before those bytes.
   */
  lemma ChecksumIsIgnored(f: seq<byte>, g: seq<byte>)
    requires |f| == |g| >= 19 && f[..|f| - 4] == g[..|g| - 4]
    requires 15 + Signed32(GetBe(f[11..15])) % 256 <= |f| - 4
    ensures Units([], f) == ([], [Framed(f)]) <==> Units([], g) == ([], [Framed(g)])
    ensures CommandText(f) == CommandText(g)
  {
    hide Units, CommandText;
    OneFrame(f);
    OneFrame(g);
    assert f[..8] == f[..|f| - 4][..8] && g[..8] == g[..|g| - 4][..8];
    HeadDecides(f, g);
    assert f[3] == f[..|f| - 4][3] && g[3] == g[..|g| - 4][3];
    var size := Signed32(GetBe(f[11..15]));
    assert f[11..15] == f[..|f| - 4][11..15] && g[11..15] == g[..|g| - 4][11..15];
    assert f[15..15 + size % 256] == f[..|f| - 4][15..15 + size % 256] == g[15..15 + size % 256];
    SameCommand(f, g, size);
  }

  lemma OneFrame(f: seq<byte>)
    ensures Units([], f) == ([], [Framed(f)]) <==> WellFormed(Framed(f))
  {
    CutExactly(f, [Framed(f)]);
    StreamOfOne(Framed(f));
    assert Framed(f) in [Framed(f)];
  }

  lemma SameCommand(f: seq<byte>, g: seq<byte>, size: int)
    requires |f| == |g| >= 15 + size % 256 && f[11..15] == g[11..15] && size == Signed32(GetBe(f[11..15]))
    requires f[15..15 + size % 256] == g[15..15 + size % 256]
    ensures CommandText(f) == CommandText(g)
  {
    hide Find, GetBe, CString, Signed32;
    BehindFrame(f, size % 256);
    BehindFrame(g, size % 256);
  }
}
