/** The answers to commands: Codec 12 and Codec 13 messages (Teltonika's Data Sending Protocols, same-named sections). */
module Replies {
  import opened Words
  import opened Wire
  import opened CStr
  import opened Codec8
  import opened Commands
  import opened TrackerModel

  /** SET_ALL, GET_STAT, SET_ON and SET_OFF are answered in Codec 13, everything else in Codec 12. */
  function CodecOf(ind: int): (cid: byte)
    ensures cid == 12 || cid == 13
  {
    if ind in {SET_ALL, GET_STAT, SET_ON, SET_OFF} then 13 else 12
  }

  /** The default answer a command's text overwrites, for the commands whose text may be shorter than it. */
  function DefaultText(ind: int): string {
    if ind == GET_STAT then "Error command GET_STAT"
    else if ind == SET_ON then "Error command SET_ON"
    else if ind == SET_OFF then "Error command SET_OFF"
    else ""
  }

  // ----- texts -----

  /** One bit per relay, relay 1 lowest, or-ed together in a byte. */
  function Mask(box: seq<Box>): bv8
    requires |box| == MAX_RELAY
  {
    Or8(StatBit(box[0]), StatBit(box[1]), StatBit(box[2]), StatBit(box[3]),
        StatBit(box[4]), StatBit(box[5]), StatBit(box[6]), StatBit(box[7]))
  }

  function StatBit(b: Box): bv8 { b.stat as bv8 }

  function Or8(a: bv8, b: bv8, c: bv8, d: bv8, e: bv8, f: bv8, g: bv8, h: bv8): bv8 {
    a | (b << 1) | (c << 2) | (d << 3) | (e << 4) | (f << 5) | (g << 6) | (h << 7)
  }

  function StatText(s: State, com: Text): string
    requires Shape(s) && Find(com, CMDS[GET_STAT]) != -1
  {
    var rest := Rest(com, GET_STAT);
    if IndexOf(rest, ' ') == |rest| then com + " : " + Hex2(Mask(s.box) as int) + "\r\n"
    else
      var k := Atoi(After(rest)) - 1;
      if 0 <= k < MAX_RELAY then com + " : " + Decimal(s.box[k].stat) + "\r\n" else com + " : ERROR\r\n"
  }

  function Signed(x: int): string { if x < 0 then "-" + Decimal(-x) else Decimal(x) }

  function PinsText(pin: seq<Box>): string
    requires |pin| == MAX_PIN
  {
    "DOUTS are set to: "
    + Decimal(pin[0].stat) + Decimal(pin[1].stat) + Decimal(pin[2].stat) + Decimal(pin[3].stat) + " TMOs are: "
    + Signed(Signed32(pin[0].time)) + " " + Signed(Signed32(pin[1].time)) + " "
    + Signed(Signed32(pin[2].time)) + " " + Signed(Signed32(pin[3].time))
  }

  /** The text of the answer. `report` stands for what getgps, getver and getio print. */
  function AckText(s: State, com: Text, now: u32, report: string): string
    requires Shape(s)
  {
    var ind, e := FirstMatch(com, 0), Effect(s, com, now);
    if ind == -1 then "Error cmd"
    else if ind in {GETGPS, GETVER, GETIO} then report
    else if ind in {SET_ALL, SET_ON, SET_OFF} then com + (if e.Some? then " : OK\r\n" else " : ERROR\r\n")
    else if ind == GET_STAT then StatText(s, com)
    else if ind == SETDIGOUT1 then if e.Some? then PinsText(e.value.pin) else com + " : Error cmd"
    else if ind == DO_REPORT then "#OK"
    else if ind == CPURESET then "restart now"
    else "All Records Deleted"
  }

  lemma DecimalOf(n: nat, k: nat)
    requires (k == 3 && n < 256) || (k == 10 && n < 0x1_0000_0000)
    ensures |Decimal(n)| <= k
  {
    TenDigits();
    assert Power10(3) == 1000;
    if k == 3 { DecimalLength(n, 3, 1000); } else { DecimalLength(n, 10, 10000000000); }
  }

  lemma PinsTextFits(pin: seq<Box>)
    requires |pin| == MAX_PIN
    ensures |PinsText(pin)| <= 100
  {
    hide Decimal;
    forall k | 0 <= k < MAX_PIN
      ensures |Decimal(pin[k].stat)| <= 3 && |Signed(Signed32(pin[k].time))| <= 11
    {
      DecimalOf(pin[k].stat, 3);
      DecimalOf(Abs(Signed32(pin[k].time)), 10);
    }
    hide Signed;
  }

  /** The answer's text always fits the 384-byte answer buffer. */
  lemma AckTextFits(s: State, com: Text, now: u32, report: string)
    requires Shape(s) && |report| <= 383
    ensures |AckText(s, com, now, report)| <= 383
  {
    hide Effect, FirstMatch, Find, PinsText, Decimal, Hex2, Mask, Rest;
    var e := Effect(s, com, now);
    if e.Some? { PinsTextFits(e.value.pin); }
    forall b: Box ensures |Decimal(b.stat)| <= 3 { DecimalOf(b.stat, 3); }
  }

  // ----- messages -----

  function CharBytes(s: string): (r: seq<byte>)
    ensures |r| == |s|
  {
    seq(|s|, i requires 0 <= i < |s| => s[i] as int % 256)
  }

  /** The four bytes that follow the text in the answer buffer: its terminator, then what it did not overwrite. */
  function Leftover(initial: string, n: nat): (r: seq<byte>)
    ensures |r| == 4
  {
    seq(4, i requires 0 <= i < 4 => if i > 0 && n + i < |initial| then initial[n + i] as int % 256 else 0)
  }

  /** The body of an answer. In Codec 13 four bytes more than the text are copied. */
  function Body(ind: int, text: string): (r: seq<byte>)
    ensures |r| == |text| + (if CodecOf(ind) == 13 then 4 else 0)
  {
    CharBytes(text) + (if CodecOf(ind) == 13 then Leftover(DefaultText(ind), |text|) else [])
  }

  /** Codec id, count, type, body length, time stamp in Codec 13, body, count. */
  function Message(cid: byte, ct: byte, unix: u32, body: seq<byte>): (r: seq<byte>)
    ensures |r| == 8 + |body| + (if cid == 13 then 4 else 0)
  {
    [cid, 1, ct] + PutBe(|body|, 4) + (if cid == 13 then PutBe(unix, 4) else []) + body + [1]
  }

  /** The answer parse_cmd builds to a command of type ct. */
  function Reply(s: State, ct: byte, com: Text, now: u32, unix: u32, report: string): (r: seq<byte>)
    requires Shape(s) && |report| <= 383
    ensures |r| <= 420
  {
    AckTextFits(s, com, now, report);
    var ind := FirstMatch(com, 0);
    Frame(Message(CodecOf(ind), Wrap8(ct + 1), unix, Body(ind, AckText(s, com, now, report))))
  }

  /** What the inner size delimits: after a time stamp in Codec 13 the text, and what follows it in the message. */
  function ReadMessage(m: seq<byte>): Parsed<seq<byte>> {
    if |m| < 8 then Malformed
    else
      var size, head := GetBe(m[3..7]), if m[0] == 13 then 4 else 0;
      if size < head || |m| < 7 + size then Malformed else Parsed(m[7 + head..7 + size], m[7 + size..])
  }

  /** What parse_cmd puts between the text and the closing count: nothing, or in Codec 13 four bytes of its buffer. */
  function Stale(ind: int, text: string): seq<byte> {
    if CodecOf(ind) == 13 then Leftover(DefaultText(ind), |text|) else []
  }

  /**
   * In both codecs the frame gives the message and the inner size gives exactly the text. The closing count follows
   * the text at once, as both formats want it, if and only if the codec is 12.
   */
  lemma ReplyIsReadable(s: State, ct: byte, com: Text, now: u32, unix: u32, report: string)
    requires Shape(s) && |report| <= 383
    ensures var ind, text := FirstMatch(com, 0), AckText(s, com, now, report);
      var p := ParseFrame(Reply(s, ct, com, now, unix, report)); var rest := Stale(ind, text) + [1];
      && p.Parsed? && p.rest == [] && p.value[0] == CodecOf(ind)
      && ReadMessage(p.value) == Parsed(CharBytes(text), rest)
      && (rest[0] == p.value[1] <==> CodecOf(ind) == 12) && (|rest| == 1 <==> CodecOf(ind) == 12)
  {
    hide FirstMatch, AckText, Frame, ParseFrame, Message, Body, Stale, ReadMessage;
    AckTextFits(s, com, now, report);
    var ind, text := FirstMatch(com, 0), AckText(s, com, now, report);
    var m := Message(CodecOf(ind), Wrap8(ct + 1), unix, Body(ind, text));
    FrameRoundTrip(Frame(m), m);
    MessageIsReadable(ind, Wrap8(ct + 1), unix, text);
  }

  lemma MessageIsReadable(ind: int, ct: byte, unix: u32, text: string)
    requires |text| <= 383
    ensures var m := Message(CodecOf(ind), ct, unix, Body(ind, text)); var rest := Stale(ind, text) + [1];
      && m[0] == CodecOf(ind) && m[1] == 1
      && ReadMessage(m) == Parsed(CharBytes(text), rest)
      && (rest[0] == 1 <==> CodecOf(ind) == 12) && (|rest| == 1 <==> CodecOf(ind) == 12)
  {
    hide PutBe, CharBytes;
    var m := Message(CodecOf(ind), ct, unix, Body(ind, text));
    var head := if CodecOf(ind) == 13 then 4 else 0;
    Widths();
    PutGet(|text| + head, 4);
    assert m[3..7] == PutBe(|text| + head, 4);
    assert m[7 + head..7 + head + |text|] == CharBytes(text);
    assert m[7 + head + |text|..] == Stale(ind, text) + [1];
  }

  /**
   * The head of every answer's message: the codec, 13 for the four relay commands and 12 for everything else; one answer;
   * the command's type plus 1; the size; and in Codec 13 the time.
   */
  lemma AnswerHead(s: State, ct: byte, com: Text, now: u32, unix: u32, report: string)
    requires Shape(s) && |report| <= 383
    ensures var r, ind := Reply(s, ct, com, now, unix, report), FirstMatch(com, 0);
      var relays := ind != -1 && CMDS[ind] in {"SET_ALL", "GET_STAT", "SET_ON", "SET_OFF"};
      && |r| >= 20 && r[..4] == [0, 0, 0, 0] && GetBe(r[4..8]) == |r| - 12
      && r[8] == (if relays then 13 else 12) && r[9] == 1 && r[10] == (if ct == 255 then 0 else ct + 1)
      && GetBe(r[11..15]) == |AckText(s, com, now, report)| + (if relays then 4 else 0)
      && (relays ==> |r| >= 24 && GetBe(r[15..19]) == unix)
  {
    hide FirstMatch, AckText, Frame, Message, Body;
    AckTextFits(s, com, now, report);
    var ind, text := FirstMatch(com, 0), AckText(s, com, now, report);
    RelayCommands(ind);
    var m := Message(CodecOf(ind), Wrap8(ct + 1), unix, Body(ind, text));
    MessageHead(CodecOf(ind), Wrap8(ct + 1), unix, Body(ind, text));
    FrameHead(m);
    InsideFrame(Frame(m), m);
  }

  lemma InsideFrame(f: seq<byte>, m: seq<byte>)
    requires |f| == |m| + 12 && f[8..8 + |m|] == m && |m| >= 8
    ensures f[8] == m[0] && f[9] == m[1] && f[10] == m[2] && f[11..15] == m[3..7]
    ensures |m| >= 12 ==> f[15..19] == m[7..11]
  {
    var n := 8 + |m|;
    Slice(f, 8, n, 3, 7);
    if |m| >= 12 { Slice(f, 8, n, 7, 11); }
  }

  lemma Slice(f: seq<byte>, a: nat, b: nat, c: nat, d: nat)
    requires a <= b <= |f| && c <= d <= b - a
    ensures f[a..b][c..d] == f[a + c..a + d]
  {
    forall i | 0 <= i < d - c ensures f[a..b][c..d][i] == f[a + c..a + d][i] {}
  }

  lemma RelayCommands(ind: int)
    requires -1 <= ind < MAX_CMDS
    ensures CodecOf(ind) == 13 <==> ind != -1 && CMDS[ind] in {"SET_ALL", "GET_STAT", "SET_ON", "SET_OFF"}
  {
    assert CMDS[0][0] == 'g' && CMDS[1][0] == 'd' && CMDS[2][0] == 'g' && CMDS[3][0] == 'g';
    assert CMDS[6][0] == 's' && CMDS[7][0] == 's' && CMDS[8][0] == '#' && CMDS[11][0] == 'c';
  }

  lemma MessageHead(cid: byte, ct: byte, unix: u32, body: seq<byte>)
    requires |body| < 0x1_0000_0000
    ensures var m := Message(cid, ct, unix, body);
      && |m| == 8 + |body| + (if cid == 13 then 4 else 0) && m[0] == cid && m[1] == 1 && m[2] == ct && GetBe(m[3..7]) == |body|
      && (cid == 13 ==> GetBe(m[7..11]) == unix)
  {
    hide PutBe;
    var m := Message(cid, ct, unix, body);
    Widths();
    PutGet(|body|, 4);
    assert m[3..7] == PutBe(|body|, 4);
    if cid == 13 {
      PutGet(unix, 4);
      assert m[7..11] == PutBe(unix, 4);
    }
  }

  lemma FrameHead(m: seq<byte>)
    requires |m| < 0x1_0000_0000
    ensures var f := Frame(m);
      f[..4] == [0, 0, 0, 0] && GetBe(f[4..8]) == |m| && f[8..8 + |m|] == m && |f| == |m| + 12
  {
    hide PutBe, ChecksumField;
    var f := Frame(m);
    Widths();
    PutGet(|m|, 4);
    assert f[4..8] == PutBe(|m|, 4);
  }

  /** The four bytes after the text: zeros after a SET_ALL, and after the state byte what is left of the default answer. */
  lemma StaleBytes(text: string)
    ensures Stale(SET_ALL, text) == [0, 0, 0, 0]
    ensures |text| == 15 ==> Stale(GET_STAT, text) == [0, 84, 95, 83]
    ensures Stale(GETGPS, text) == [] && Stale(SETDIGOUT1, text) == []
  {
    assert DefaultText(SET_ALL) == "";
    var d := "Error command GET_STAT";
    assert d[16] as int == 84 && d[17] as int == 95 && d[18] as int == 83;
  }
}
