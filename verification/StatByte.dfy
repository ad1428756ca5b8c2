/** The byte a GET_STAT answers: when its bits are the states of the relays, and which commands can spoil it. */
module StatByte {
  import opened Words
  import opened CStr
  import opened Commands
  import opened TrackerModel
  import opened Scenario
  import opened Replies

  // ----- bits -----

  /** Whether bit k of a byte is set. */
  predicate BitSet(m: bv8, k: nat)
    requires k < 8
  {
    (m >> k) & 1 == 1
  }

  /** Bit k of the mask comes from bit k of relay 1, bit k-1 of relay 2, and so on. */
  lemma BitsOfOr8(a: bv8, b: bv8, c: bv8, d: bv8, e: bv8, f: bv8, g: bv8, h: bv8)
    ensures var m := Or8(a, b, c, d, e, f, g, h);
      && (BitSet(m, 0) <==> BitSet(a, 0))
      && (BitSet(m, 1) <==> BitSet(a, 1) || BitSet(b, 0))
      && (BitSet(m, 2) <==> BitSet(a, 2) || BitSet(b, 1) || BitSet(c, 0))
      && (BitSet(m, 3) <==> BitSet(a, 3) || BitSet(b, 2) || BitSet(c, 1) || BitSet(d, 0))
      && (BitSet(m, 4) <==> BitSet(a, 4) || BitSet(b, 3) || BitSet(c, 2) || BitSet(d, 1) || BitSet(e, 0))
      && (BitSet(m, 5) <==> BitSet(a, 5) || BitSet(b, 4) || BitSet(c, 3) || BitSet(d, 2) || BitSet(e, 1) || BitSet(f, 0))
      && (BitSet(m, 6) <==> BitSet(a, 6) || BitSet(b, 5) || BitSet(c, 4) || BitSet(d, 3) || BitSet(e, 2) || BitSet(f, 1)
                            || BitSet(g, 0))
      && (BitSet(m, 7) <==> BitSet(a, 7) || BitSet(b, 6) || BitSet(c, 5) || BitSet(d, 4) || BitSet(e, 3) || BitSet(f, 2)
                            || BitSet(g, 1) || BitSet(h, 0))
  {}

  /** Bit i of the state a relay has stored. */
  predicate StatHas(b: Box, i: nat)
    requires i < 8
  {
    BitSet(StatBit(b), i)
  }

  /** Some relay up to j puts a bit in place k. */
  predicate Reaches(box: seq<Box>, j: nat, k: nat)
    requires j <= k < MAX_RELAY && |box| == MAX_RELAY
  {
    StatHas(box[j], k - j) || (j > 0 && Reaches(box, j - 1, k))
  }

  lemma {:induction false} ReachesIs(box: seq<Box>, j: nat, k: nat)
    requires j <= k < MAX_RELAY && |box| == MAX_RELAY
    ensures Reaches(box, j, k) <==> exists i :: 0 <= i <= j && StatHas(box[i], k - i)
    decreases j
  {
    hide StatHas;
    if j > 0 { ReachesIs(box, j - 1, k); }
  }

  lemma MaskBits(box: seq<Box>, k: nat)
    requires |box| == MAX_RELAY && k < MAX_RELAY
    ensures BitSet(Mask(box), k) <==> exists j :: 0 <= j <= k && StatHas(box[j], k - j)
  {
    hide StatBit, Or8, BitSet;
    ReachesIs(box, k, k);
    BitsOfOr8(StatBit(box[0]), StatBit(box[1]), StatBit(box[2]), StatBit(box[3]),
              StatBit(box[4]), StatBit(box[5]), StatBit(box[6]), StatBit(box[7]));
    Unfolded(box, k);
  }

  lemma Unfolded(box: seq<Box>, k: nat)
    requires |box| == MAX_RELAY && k < MAX_RELAY
    ensures Reaches(box, k, k) <==>
      || StatHas(box[0], k) || (k >= 1 && StatHas(box[1], k - 1)) || (k >= 2 && StatHas(box[2], k - 2))
      || (k >= 3 && StatHas(box[3], k - 3)) || (k >= 4 && StatHas(box[4], k - 4)) || (k >= 5 && StatHas(box[5], k - 5))
      || (k >= 6 && StatHas(box[6], k - 6)) || (k >= 7 && StatHas(box[7], k - 7))
  {
    hide StatHas;
    if k >= 7 { assert Reaches(box, 7, k) <==> StatHas(box[7], k - 7) || Reaches(box, 6, k); }
    if k >= 6 { assert Reaches(box, 6, k) <==> StatHas(box[6], k - 6) || Reaches(box, 5, k); }
    if k >= 5 { assert Reaches(box, 5, k) <==> StatHas(box[5], k - 5) || Reaches(box, 4, k); }
    if k >= 4 { assert Reaches(box, 4, k) <==> StatHas(box[4], k - 4) || Reaches(box, 3, k); }
    if k >= 3 { assert Reaches(box, 3, k) <==> StatHas(box[3], k - 3) || Reaches(box, 2, k); }
    if k >= 2 { assert Reaches(box, 2, k) <==> StatHas(box[2], k - 2) || Reaches(box, 1, k); }
    if k >= 1 { assert Reaches(box, 1, k) <==> StatHas(box[1], k - 1) || Reaches(box, 0, k); }
  }

  /** A state of 0 or 1 has itself as its lowest bit and no other. */
  lemma SmallStat(b: Box, i: nat)
    requires b.stat <= 1 && i < 8
    ensures StatHas(b, i) <==> i == 0 && b.stat == 1
  {
    var v := StatBit(b);
    assert v == if b.stat == 1 then 1 else 0;
    hide StatBit;
    ShiftOfOne(v, i);
  }

  lemma ShiftOfOne(v: bv8, i: nat)
    requires (v == 0 || v == 1) && i < 8
    ensures BitSet(v, i) <==> i == 0 && v == 1
  {
    match i case 0 => case 1 => case 2 => case 3 => case 4 => case 5 => case 6 => case 7 =>
  }

  // ----- when the byte is right -----

  /** Every relay is shown as what it is. */
  ghost predicate ShownRight(box: seq<Box>)
    requires |box| == MAX_RELAY
  {
    forall k :: 0 <= k < MAX_RELAY ==> (BitSet(Mask(box), k) <==> box[k].stat != 0)
  }

  /**
   * The state of this relay spoils nothing: its higher bits fall on relays that are on, and if it is on with its lowest
   * bit clear, a lower relay's state covers for it.
   */
  ghost predicate Harmless(box: seq<Box>, j: nat)
    requires |box| == MAX_RELAY && j < MAX_RELAY
  {
    && (forall i :: 1 <= i < MAX_RELAY - j && StatHas(box[j], i) ==> box[j + i].stat != 0)
    && (box[j].stat != 0 && !StatHas(box[j], 0) ==> exists h :: 0 <= h < j && StatHas(box[h], j - h))
  }

  /** All states are shown right if and only if each is harmless. */
  lemma ShownRightExactly(box: seq<Box>)
    requires |box| == MAX_RELAY
    ensures ShownRight(box) <==> forall j :: 0 <= j < MAX_RELAY ==> Harmless(box, j)
  {
    hide Mask, StatHas, BitSet;
    forall k | 0 <= k < MAX_RELAY
      ensures BitSet(Mask(box), k) <==> exists j :: 0 <= j <= k && StatHas(box[j], k - j)
    {
      MaskBits(box, k);
    }
    if ShownRight(box) {
      forall j | 0 <= j < MAX_RELAY ensures Harmless(box, j) {
        forall i | 1 <= i < MAX_RELAY - j && StatHas(box[j], i) ensures box[j + i].stat != 0 {
          assert StatHas(box[j], (j + i) - j);
        }
      }
    }
    if forall j :: 0 <= j < MAX_RELAY ==> Harmless(box, j) {
      forall k | 0 <= k < MAX_RELAY ensures BitSet(Mask(box), k) <==> box[k].stat != 0 {
        assert Harmless(box, k);
        if j :| 0 <= j <= k && StatHas(box[j], k - j) {
          assert Harmless(box, j);
          if j == k { OffHasNoBit(box[k]); }
        }
        if box[k].stat != 0 && StatHas(box[k], 0) { assert StatHas(box[k], k - k); }
      }
    }
  }

  lemma OffHasNoBit(b: Box)
    ensures StatHas(b, 0) ==> b.stat != 0
  {
    if b.stat == 0 { SmallStat(b, 0); }
  }

  ghost predicate OnOff(box: seq<Box>) {
    forall b :: b in box ==> b.stat <= 1
  }

  /** In particular relays that are only on or off are shown right. */
  lemma OnOffIsShownRight(box: seq<Box>)
    requires |box| == MAX_RELAY && OnOff(box)
    ensures ShownRight(box)
  {
    hide StatHas, Mask, ShownRight;
    forall j | 0 <= j < MAX_RELAY ensures Harmless(box, j) {
      assert box[j] in box;
      forall i | 0 <= i < 8 ensures StatHas(box[j], i) <==> i == 0 && box[j].stat == 1 { SmallStat(box[j], i); }
    }
    ShownRightExactly(box);
  }

  // ----- the answer -----

  function HexValue(c: char): nat {
    if '0' <= c <= '9' then c as int - '0' as int else if 'A' <= c <= 'F' then c as int - 'A' as int + 10 else 0
  }

  function ReadHex2(s: string): nat
    requires |s| == 2
  {
    16 * HexValue(s[0]) + HexValue(s[1])
  }

  lemma Hex2RoundTrip(n: nat)
    requires n < 256
    ensures ReadHex2(Hex2(n)) == n
  {}

  lemma MaskValue(m: bv8)
    ensures (m as int) as bv8 == m && 0 <= m as int < 256
  {}

  lemma GetStatIsRecognised(com: string)
    requires com == "GET_STAT"
    ensures FirstMatch(com, 0) == GET_STAT && Rest(com, GET_STAT) == ""
  {
    hide Find, FirstMatch;
    NoneOfFirstFour(com);
    NotFound(com, "SET_ALL", 'L') by { assert "SET_ALL"[5] == 'L'; }
    FoundAtStart(com, "GET_STAT");
    MatchStep(com, SET_ALL);
    MatchStep(com, GET_STAT);
  }

  lemma StatAnswer(t: State, com: Text, now: u32, report: string)
    requires Shape(t) && com == "GET_STAT"
    ensures AckText(t, com, now, report) == com + " : " + Hex2(Mask(t.box) as int) + "\r\n"
  {
    GetStatIsRecognised(com);
    hide FirstMatch, Find, Effect, Hex2, Mask, Rest;
  }

  /** The byte a GET_STAT answer shows. */
  function ShownByte(text: string): nat
    requires |text| == 15
  {
    ReadHex2(text[11..13])
  }

  lemma AnswerShowsMask(com: string, m: bv8, text: string)
    requires com == "GET_STAT" && text == com + " : " + Hex2(m as int) + "\r\n"
    ensures |text| == 15 && ShownByte(text) == m as int
  {
    assert text[11..13] == Hex2(m as int);
    Hex2RoundTrip(m as int);
  }

  /** Bit k of the byte in the answer to a GET_STAT. */
  predicate Shows(s: State, query: Text, now: u32, report: string, k: nat)
    requires Shape(s) && k < MAX_RELAY
  {
    var text := AckText(s, query, now, report);
    |text| == 15 && ShownByte(text) < 256 && BitSet(ShownByte(text) as bv8, k)
  }

  lemma AnswerIsMask(s: State, query: Text, now: u32, report: string, k: nat)
    requires Shape(s) && query == "GET_STAT" && k < MAX_RELAY
    ensures Shows(s, query, now, report, k) <==> BitSet(Mask(s.box), k)
  {
    hide AckText, Mask, BitSet, ShownByte, Hex2;
    StatAnswer(s, query, now, report);
    MaskValue(Mask(s.box));
    AnswerShowsMask(query, Mask(s.box), AckText(s, query, now, report));
  }

  /** In any state: GET_STAT shows every relay as what it is if and only if the state of each is harmless. */
  lemma GetStatIsRight(s: State, query: Text, now: u32, report: string)
    requires Shape(s) && query == "GET_STAT"
    ensures (forall k :: 0 <= k < MAX_RELAY ==> (Shows(s, query, now, report, k) <==> s.box[k].stat != 0))
      <==> forall j :: 0 <= j < MAX_RELAY ==> Harmless(s.box, j)
  {
    hide Shows, Mask, BitSet, Harmless;
    forall k | 0 <= k < MAX_RELAY ensures Shows(s, query, now, report, k) <==> BitSet(Mask(s.box), k) {
      AnswerIsMask(s, query, now, report, k);
    }
    ShownRightExactly(s.box);
  }

  // ----- after a SET_ALL -----

  /** What a printed SET_ALL makes of the relay states. */
  function NewStat(b: Box, o: Order): byte { if o.Off? then 0 else if o.On? then 1 else b.stat }

  lemma AfterSetAll(s: State, os: seq<Order>, now: u32)
    requires Shape(s) && |os| == MAX_RELAY
    requires |SetAllText(os)| <= 255 && FirstMatch(SetAllText(os), 0) == SET_ALL
    requires ParseAll(SetAllText(os)) == Some(Meanings(os))
    ensures var t := CommandStep(s, SetAllText(os), now);
      |t.box| == MAX_RELAY && forall k :: 0 <= k < MAX_RELAY ==> t.box[k].stat == NewStat(s.box[k], os[k])
  {
    hide FirstMatch, ParseAll, SetAllText, Find, Ignition;
  }

  /**
   * SET_ALL and GET_STAT fit together: when the relays a printed SET_ALL leaves alone are only on or off, the byte in
   * the answer to GET_STAT has the new state of every relay in its bit, those left alone keeping theirs.
   */
  lemma SetAllReadBack(s: State, os: seq<Order>, now: u32, query: Text, later: u32, report: string, k: nat)
    requires Shape(s) && |os| == MAX_RELAY && k < MAX_RELAY && query == "GET_STAT"
    requires forall j :: 0 <= j < MAX_RELAY && os[j].Leave? ==> s.box[j].stat <= 1
    ensures |SetAllText(os)| <= 255
    ensures Shows(CommandStep(s, SetAllText(os), now), query, later, report, k) <==> NewStat(s.box[k], os[k]) != 0
  {
    hide SetAllText, CommandStep, FirstMatch, ParseAll, Shows, Mask, BitSet, Shape;
    SetAllRoundTrip(os);
    var t := CommandStep(s, SetAllText(os), now);
    AfterSetAll(s, os, now);
    OnOffIsShownRight(t.box);
    AnswerIsMask(t, query, later, report, k);
  }

  // ----- a state above 1 -----

  function SpoilText(os: seq<Order>): string { "SET_ALL 2,0 " + OrdersText(os) }

  lemma SpoilIsParsed(os: seq<Order>)
    requires |os| == MAX_RELAY - 1
    ensures |SpoilText(os)| <= 255 && FirstMatch(SpoilText(os), 0) == SET_ALL
    ensures ParseAll(SpoilText(os)) == Some([Set(2, 0)] + Meanings(os))
  {
    hide OrdersText, ParseEntries, FirstMatch, Find, SpoilText, SkipBlank, Rest;
    SpoilIsRecognised(os);
    SpoilParses(os);
  }

  lemma SpoilIsRecognised(os: seq<Order>)
    requires |os| == MAX_RELAY - 1
    ensures |SpoilText(os)| <= 255 && FirstMatch(SpoilText(os), 0) == SET_ALL
    ensures SkipBlank(Rest(SpoilText(os), SET_ALL)) == "2,0 " + OrdersText(os)
  {
    hide OrdersText, FirstMatch, Find, SkipBlank, Rest;
    var text := "2,0 " + OrdersText(os);
    assert SpoilText(os) == "SET_ALL " + text;
    OrdersCharacters(os);
    OrdersLength(os);
    SetAllIsRecognised(SpoilText(os), text);
  }

  lemma SpoilParses(os: seq<Order>)
    requires |os| == MAX_RELAY - 1
    ensures ParseEntries("2,0 " + OrdersText(os), MAX_RELAY) == Some([Set(2, 0)] + Meanings(os))
  {
    hide OrdersText, ParseEntries, ParseEntry, Word, After;
    EntriesRoundTrip(os);
    WordOf("2,0", OrdersText(os));
    assert "2,0 " + OrdersText(os) == "2,0" + " " + OrdersText(os);
    TwoIsParsed();
    ParseOneMore("2,0 " + OrdersText(os), os);
  }

  lemma ParseOneMore(text: string, os: seq<Order>)
    requires |os| == MAX_RELAY - 1 && Word(text) == "2,0" && After(text) == OrdersText(os)
    requires ParseEntry("2,0") == Some(Set(2, 0)) && ParseEntries(OrdersText(os), |os|) == Some(Meanings(os))
    ensures ParseEntries(text, MAX_RELAY) == Some([Set(2, 0)] + Meanings(os))
  {
    hide ParseEntry, Word, After, OrdersText;
  }

  lemma TwoIsParsed()
    ensures ParseEntry("2,0") == Some(Set(2, 0))
  {
    IndexOfCat("2", ",0", ',');
    assert "2,0" == "2" + ",0" && "2,0"[..3] == "2,0" && "2,0"[..1] == "2" && "2,0"[2..] == "0";
    AtoiOfDecimal(2);
    AtoiOfDecimal(0);
    assert Decimal(2) == "2" && Decimal(0) == "0";
  }

  /** SET_ALL 2,0 0,0 and anything for the other relays: relay 1 is on and relay 2 off, and the byte shows the opposite. */
  lemma TwoIsShownWrong(s: State, os: seq<Order>, now: u32, query: Text, later: u32, report: string)
    requires Shape(s) && |os| == MAX_RELAY - 1 && os[0].Off? && query == "GET_STAT"
    ensures |SpoilText(os)| <= 255
    ensures var t := CommandStep(s, SpoilText(os), now);
      && t.box[0].stat != 0 && !Shows(t, query, later, report, 0)
      && t.box[1].stat == 0 && Shows(t, query, later, report, 1)
  {
    hide SpoilText, FirstMatch, ParseAll, Shows, Mask, BitSet, Find, Ignition, StatHas;
    SpoilIsParsed(os);
    var t := CommandStep(s, SpoilText(os), now);
    assert t.box[0] == Box(2, 0) && t.box[1] == Box(0, 0);
    AnswerIsMask(t, query, later, report, 0);
    AnswerIsMask(t, query, later, report, 1);
    MaskBits(t.box, 0);
    MaskBits(t.box, 1);
    BitsOfTwo(t.box[0]);
    assert StatHas(t.box[0], 1 - 0);
  }

  lemma BitsOfTwo(b: Box)
    requires b.stat == 2
    ensures !StatHas(b, 0) && StatHas(b, 1)
  {
    assert StatBit(b) == 2;
    hide StatBit;
  }

  // ----- which commands can do that -----

  /** Not an accepted SET_ALL that stores a state above 1. */
  predicate Tame(e: Event) {
    e.Command? && FirstMatch(e.com, 0) == SET_ALL && ParseAll(e.com).Some? ==>
      forall k :: 0 <= k < MAX_RELAY && ParseAll(e.com).value[k].Set? ==> Wrap8(ParseAll(e.com).value[k].bit) <= 1
  }

  ghost predicate SmallStats(box: seq<Box>) {
    forall k :: 0 <= k < |box| ==> box[k].stat <= 1
  }

  lemma SmallIsOnOff(box: seq<Box>)
    ensures SmallStats(box) <==> OnOff(box)
  {
    if SmallStats(box) {
      forall b | b in box ensures b.stat <= 1 {
        var k :| 0 <= k < |box| && box[k] == b;
      }
    }
    if OnOff(box) {
      forall k | 0 <= k < |box| ensures box[k].stat <= 1 { assert box[k] in box; }
    }
  }

  /** From relays that are only on or off, one event keeps them so exactly when it is tame. */
  lemma TameKeepsOnOff(s: State, e: Event, cfg: Config)
    requires Shape(s) && SmallStats(s.box)
    ensures SmallStats(Step(s, e, cfg).box) <==> Tame(e)
  {
    hide FirstMatch, Find, ParseOne, ParsePins, Ignition, Arm, Rest, SkipBlank, Wrap8, Wrap32, ParseAll, DriveRecord;
    OneIsOne();
    if e.Command? && FirstMatch(e.com, 0) == SET_ALL && ParseAll(e.com).Some? {
      SetAllStats(s, e.com, e.now);
    }
  }

  lemma OneIsOne()
    ensures Wrap8(1) == 1 && Wrap8(0) == 0
  {}

  lemma SetAllStats(s: State, com: Text, now: u32)
    requires Shape(s) && FirstMatch(com, 0) == SET_ALL && ParseAll(com).Some?
    ensures var t := CommandStep(s, com, now); var es := ParseAll(com).value;
      |t.box| == MAX_RELAY
      && forall k :: 0 <= k < MAX_RELAY ==> t.box[k].stat == if es[k].Keep? then s.box[k].stat else Wrap8(es[k].bit)
  {
    hide FirstMatch, Find, Ignition, Arm, Wrap8, Wrap32, ParseAll;
  }

  lemma {:induction false} TameRun(s: State, es: seq<Event>, cfg: Config)
    requires Shape(s) && SmallStats(s.box) && forall e :: e in es ==> Tame(e)
    ensures SmallStats(RunEvents(s, es, cfg).box)
    decreases |es|
  {
    hide Step, Tame, SmallStats, Shape;
    if es != [] {
      TameKeepsOnOff(s, es[0], cfg);
      TameRun(Step(s, es[0], cfg), es[1..], cfg);
    }
  }

  lemma PrintedIsTame(os: seq<Order>, now: u32)
    requires |os| == MAX_RELAY
    ensures |SetAllText(os)| <= 255 && Tame(Command(SetAllText(os), now))
  {
    hide SetAllText, FirstMatch, ParseAll;
    SetAllRoundTrip(os);
  }

  /** From power-on, with no SET_ALL but printed ones, GET_STAT shows every relay right after any run. */
  lemma PrintedCommandsAreShown(latitude: u32, longitude: u32, cfg: Config, es: seq<Event>, query: Text, now: u32,
                                report: string, k: nat)
    requires query == "GET_STAT" && k < MAX_RELAY
    requires forall e :: e in es && e.Command? && FirstMatch(e.com, 0) == SET_ALL ==>
      exists os: seq<Order> :: |os| == MAX_RELAY && e.com == SetAllText(os)
    ensures var t := RunEvents(Initial(latitude, longitude, cfg), es, cfg);
      Shows(t, query, now, report, k) <==> t.box[k].stat != 0
  {
    hide RunEvents, SetAllText, FirstMatch, ParseAll, Tame, Shows, Mask, BitSet, ShownRight;
    forall e | e in es ensures Tame(e) {
      if e.Command? && FirstMatch(e.com, 0) == SET_ALL {
        var os: seq<Order> :| |os| == MAX_RELAY && e.com == SetAllText(os);
        PrintedIsTame(os, e.now);
      } else {
        OthersAreTame(e);
      }
    }
    var s := Initial(latitude, longitude, cfg);
    TameRun(s, es, cfg);
    var t := RunEvents(s, es, cfg);
    SmallIsOnOff(t.box);
    OnOffIsShownRight(t.box);
    RightFor(t.box, k);
    AnswerIsMask(t, query, now, report, k);
  }

  lemma OthersAreTame(e: Event)
    requires !(e.Command? && FirstMatch(e.com, 0) == SET_ALL)
    ensures Tame(e)
  {}

  lemma RightFor(box: seq<Box>, k: nat)
    requires |box| == MAX_RELAY && ShownRight(box) && k < MAX_RELAY
    ensures BitSet(Mask(box), k) <==> box[k].stat != 0
  {
    hide Mask, BitSet;
  }

  /** The two digits of the byte, in capitals, the higher first. */
  lemma HexDigits(n: nat)
    requires n < 256
    ensures |Hex2(n)| == 2 && Hex2(n)[0] == "0123456789ABCDEF"[n / 16] && Hex2(n)[1] == "0123456789ABCDEF"[n % 16]
  {}
}
