/** The commands for single relays and for pins: what a server prints is what the tracker does. */
module CommandTexts {
  import opened Words
  import opened Mirror
  import opened CStr
  import opened Commands
  import opened TrackerModel
  import opened Replies

  // ----- SET_ON and SET_OFF -----

  function SetOnText(k: nat, time: u32): string { "SET_ON " + Decimal(k) + " " + Decimal(time) }

  function SetOffText(k: nat): string { "SET_OFF " + Decimal(k) }

  /** Which texts name a relay: an odd number of characters before the blank, the first a digit from 1 to 8. */
  lemma RelayIsNamed(s: string)
    ensures ParseOne(s).Some? <==> |Word(s)| % 2 == 1 && '1' <= s[0] <= '8'
    ensures ParseOne(s).Some? ==> ParseOne(s).value.0 == s[0] as int - '1' as int
  {
    var word := Word(s);
    if |word| % 2 == 1 {
      assert word[..1] == [s[0]] && word[0] == s[0];
      AtoiOfOne(s[0]);
    } else {
      assert word[..0] == "";
    }
  }

  lemma AtoiOfOne(c: char)
    ensures Atoi([c]) == DigitValue(c)
  {
    assert [c][1..] == "" && Digits("", 0) == 0 && Digits("", DigitValue(c)) == DigitValue(c);
  }

  lemma OneDigit(k: nat)
    requires k < 10
    ensures Decimal(k) == [Digit(k)] && '0' <= Digit(k) <= '9' && Digit(k) as int == '0' as int + k
  {}

  lemma OneRoundTrip(k: nat, time: nat)
    requires 1 <= k <= MAX_RELAY
    ensures ParseOne(Decimal(k) + " " + Decimal(time)) == Some((k - 1, time)) && ParseOne(Decimal(k)) == Some((k - 1, 0))
  {
    OneDigit(k);
    WordOf(Decimal(k), Decimal(time));
    RelayIsNamed(Decimal(k));
    RelayIsNamed(Decimal(k) + " " + Decimal(time));
    AtoiOfDecimal(time);
  }

  /** The names of the next five commands each have a letter that single-relay commands lack. */
  lemma NoneOfNextFive(com: string)
    requires 'd' !in com && 'A' !in com && '#' !in com
    ensures FirstMatch(com, SET_ALL) == FirstMatch(com, SET_ON)
  {
    hide Find, FirstMatch;
    NotFound(com, "SET_ALL", 'A') by { assert "SET_ALL"[4] == 'A'; }
    NotFound(com, "GET_STAT", 'A') by { assert "GET_STAT"[6] == 'A'; }
    NotFound(com, "setdigout", 'd') by { assert "setdigout"[3] == 'd'; }
    NotFound(com, "#DO REPORT", '#') by { assert "#DO REPORT"[0] == '#'; }
    MatchStep(com, 4);
    MatchStep(com, 5);
    MatchStep(com, 6);
    MatchStep(com, 7);
    MatchStep(com, 8);
  }

  lemma SetOnIsRecognised(com: string, text: string)
    requires com == "SET_ON " + text && forall c :: c in text ==> IsDigit(c) || c == ' '
    ensures FirstMatch(com, 0) == SET_ON && SkipBlank(Rest(com, SET_ON)) == text
  {
    hide Find, FirstMatch;
    NoneOfFirstFour(com);
    NoneOfNextFive(com);
    assert com[..6] == "SET_ON";
    FoundAtStart(com, "SET_ON");
    MatchStep(com, SET_ON);
    assert com[6..] == " " + text && (" " + text)[1..] == text;
  }

  lemma SetOffIsRecognised(com: string, text: string)
    requires com == "SET_OFF " + text && forall c :: c in text ==> IsDigit(c) || c == ' '
    ensures FirstMatch(com, 0) == SET_OFF && SkipBlank(Rest(com, SET_OFF)) == text
  {
    hide Find, FirstMatch;
    NoneOfFirstFour(com);
    NoneOfNextFive(com);
    NotFound(com, "SET_ON", 'N') by { assert "SET_ON"[5] == 'N'; }
    assert com[..7] == "SET_OFF";
    FoundAtStart(com, "SET_OFF");
    MatchStep(com, SET_ON);
    MatchStep(com, SET_OFF);
    assert com[7..] == " " + text && (" " + text)[1..] == text;
  }

  /** What a recognised command for one relay does. */
  lemma OneSets(s: State, com: Text, ind: int, k: nat, time: u32, now: u32)
    requires Shape(s) && k < MAX_RELAY && ind in {SET_ON, SET_OFF} && FirstMatch(com, 0) == ind
    requires ParseOne(SkipBlank(Rest(com, ind))) == Some((k, time as int))
    ensures var t, b := CommandStep(s, com, now), SetOne((k, time), ind == SET_ON);
      t.box == s.box[k := b] && t.tmrBox == s.tmrBox[k := Arm(b, now)] && t.pin == s.pin && t.tmrPin == s.tmrPin
  {
    hide FirstMatch, Find, ParseOne, SkipBlank, Rest, Ignition, Arm, SetOne;
  }

  /** A printed SET_ON switches the relay on, arms its timer for the time, and touches no other relay. */
  lemma SetOnTakesEffect(s: State, k: nat, time: u32, now: u32)
    requires Shape(s) && 1 <= k <= MAX_RELAY
    ensures |SetOnText(k, time)| <= 255
    ensures var t := CommandStep(s, SetOnText(k, time), now);
      t.box == s.box[k - 1 := Box(1, time)] && t.tmrBox == s.tmrBox[k - 1 := Arm(Box(1, time), now)]
      && t.pin == s.pin && t.tmrPin == s.tmrPin
  {
    hide FirstMatch, Find, ParseOne, SkipBlank, Rest, SetOnText, CommandStep, Shape, Decimal, Arm;
    SetOnRoundTrip(k, time);
    OneSets(s, SetOnText(k, time), SET_ON, k - 1, time, now);
  }

  lemma SetOnRoundTrip(k: nat, time: u32)
    requires 1 <= k <= MAX_RELAY
    ensures var com := SetOnText(k, time);
      |com| <= 255 && FirstMatch(com, 0) == SET_ON && ParseOne(SkipBlank(Rest(com, SET_ON))) == Some((k - 1, time as int))
  {
    hide FirstMatch, Find, ParseOne, SkipBlank, Rest, Decimal;
    var text := Decimal(k) + " " + Decimal(time);
    OneDigit(k);
    DecimalOf(time, 10);
    assert SetOnText(k, time) == "SET_ON " + text;
    SetOnIsRecognised("SET_ON " + text, text);
    OneRoundTrip(k, time);
  }

  /** A printed SET_OFF switches the relay off, clears its timer, and touches no other relay. */
  lemma SetOffTakesEffect(s: State, k: nat, now: u32)
    requires Shape(s) && 1 <= k <= MAX_RELAY
    ensures |SetOffText(k)| <= 255
    ensures var t := CommandStep(s, SetOffText(k), now);
      t.box == s.box[k - 1 := Box(0, 0)] && t.tmrBox == s.tmrBox[k - 1 := 0] && t.pin == s.pin && t.tmrPin == s.tmrPin
  {
    hide FirstMatch, Find, ParseOne, SkipBlank, Rest, Decimal, CommandStep, Shape;
    OneDigit(k);
    SetOffIsRecognised(SetOffText(k), Decimal(k));
    OneRoundTrip(k, 0);
    OneSets(s, SetOffText(k), SET_OFF, k - 1, 0, now);
  }

  // ----- SET_ALL -----

  /** What a printed order makes of a relay. */
  function NewBox(b: Box, o: Order): Box {
    match o
    case Off(_) => Box(0, 0)
    case On(time) => Box(1, time)
    case Leave(_) => b
  }

  lemma OrderSets(b: Box, o: Order)
    ensures SetBox(b, o.Meaning()) == NewBox(b, o)
  {}

  /**
   * A printed SET_ALL: a relay ordered off is off with no timer, one ordered on is on and timed, one left alone keeps its
   * state and is timed anew; pins and their timers stay. The ignition goes on with relays 7 and 8 both on and off with
   * both off.
   */
  lemma SetAllTakesEffect(s: State, os: seq<Order>, now: u32, k: nat)
    requires Shape(s) && |os| == MAX_RELAY && k < MAX_RELAY
    ensures |SetAllText(os)| <= 255
    ensures var t := CommandStep(s, SetAllText(os), now); var b := NewBox(s.box[k], os[k]);
      && t.box[k] == b && t.tmrBox[k] == (if b.stat != 0 && b.time > 0 then Wrap32(now + 10 * b.time) else 0)
      && t.pin == s.pin && t.tmrPin == s.tmrPin
  {
    hide SetAllText, FirstMatch, Find, ParseAll, CommandStep, NewBox, SetBox, Shape;
    SetAllRoundTrip(os);
    AllAreSet(s, SetAllText(os), Meanings(os), now);
    OrderSets(s.box[k], os[k]);
    ArmAgain(NewBox(s.box[k], os[k]), now);
  }

  lemma AllAreSet(s: State, com: Text, es: seq<Entry>, now: u32)
    requires Shape(s) && FirstMatch(com, 0) == SET_ALL && ParseAll(com) == Some(es)
    ensures var t := CommandStep(s, com, now);
      && |t.box| == |t.tmrBox| == |s.box| == |es| == MAX_RELAY && t.pin == s.pin && t.tmrPin == s.tmrPin
      && forall k :: 0 <= k < MAX_RELAY ==> t.box[k] == SetBox(s.box[k], es[k]) && t.tmrBox[k] == Arm(t.box[k], now)
  {
    hide FirstMatch, Find, ParseAll, SetBox, Ignition, Arm;
  }

  lemma ArmAgain(b: Box, now: u32)
    ensures Arm(b, now) == if b.stat != 0 && b.time > 0 then Wrap32(now + 10 * b.time) else 0
  {}

  // ----- the ignition -----

  /** The rule for the ignition and its input, from the states of relays 7 and 8. */
  ghost predicate IgnitionRule(before: Mirror, after: Mirror, r7: byte, r8: byte) {
    && (r7 != 0 && r8 != 0 ==> after.ignition == 1 && after.din1 == 1)
    && (r7 == 0 && r8 == 0 ==> after.ignition == 0 && after.din1 == 0)
    && ((r7 == 0) != (r8 == 0) ==> after.ignition == before.ignition && after.din1 == before.din1)
  }

  ghost predicate SameIgnition(before: Mirror, after: Mirror) {
    after.ignition == before.ignition && after.din1 == before.din1
  }

  /** A command that names relay 7 or 8. */
  ghost predicate NamesKey(com: string, ind: int)
    requires 0 <= ind < MAX_CMDS && Find(com, CMDS[ind]) != -1
  {
    var text := SkipBlank(Rest(com, ind)); text != "" && '7' <= text[0] <= '8'
  }

  lemma RuleOfIgnition(m: Mirror, box: seq<Box>)
    requires |box| == MAX_RELAY
    ensures IgnitionRule(m, Ignition(m, box), box[6].stat, box[7].stat)
  {}

  /**
   * The ignition: an accepted SET_ALL, and an accepted SET_ON or SET_OFF for relay 7 or 8, switch it on when both are on
   * and off when both are off; no other command touches it.
   */
  lemma IgnitionFollows(s: State, com: Text, now: u32)
    requires Shape(s)
    ensures var t, ind := CommandStep(s, com, now), FirstMatch(com, 0); var m := t.drive.m;
      if !Rejected(com) && (ind == SET_ALL || ((ind == SET_ON || ind == SET_OFF) && NamesKey(com, ind)))
      then IgnitionRule(s.drive.m, m, t.box[6].stat, t.box[7].stat)
      else SameIgnition(s.drive.m, m)
  {
    hide FirstMatch, Find, Rejected, CommandStep, IgnitionRule, SameIgnition, NamesKey, Effect;
    RejectedExactly(s, com, now);
    var ind := FirstMatch(com, 0);
    if Rejected(com) {
      NothingIsSame(s, com, now);
    } else if ind == SET_ALL {
      IgnitionOfAll(s, com, now);
    } else if ind == SET_ON || ind == SET_OFF {
      IgnitionOfOne(s, com, ind, now);
    } else {
      IgnitionOfOthers(s, com, now);
    }
  }

  lemma NothingIsSame(s: State, com: Text, now: u32)
    requires Shape(s) && CommandStep(s, com, now) == s.(info := s.drive.m.gps)
    ensures SameIgnition(s.drive.m, CommandStep(s, com, now).drive.m)
  {
    hide CommandStep;
  }

  lemma IgnitionOfAll(s: State, com: Text, now: u32)
    requires Shape(s) && FirstMatch(com, 0) == SET_ALL && Effect(s, com, now).Some?
    ensures var t := CommandStep(s, com, now);
      IgnitionRule(s.drive.m, t.drive.m, t.box[6].stat, t.box[7].stat)
  {
    hide FirstMatch, Find, ParseAll, SetBox, Arm, Ignition, IgnitionRule;
    RuleOfIgnition(s.drive.m, Applied(s.box, ParseAll(com).value));
  }

  lemma IgnitionOfOne(s: State, com: Text, ind: int, now: u32)
    requires Shape(s) && FirstMatch(com, 0) == ind && (ind == SET_ON || ind == SET_OFF) && Effect(s, com, now).Some?
    ensures var t := CommandStep(s, com, now);
      if NamesKey(com, ind) then IgnitionRule(s.drive.m, t.drive.m, t.box[6].stat, t.box[7].stat)
      else SameIgnition(s.drive.m, t.drive.m)
  {
    hide FirstMatch, Find, Rest, SkipBlank, ParseOne, SetOne, Arm, Ignition, IgnitionRule;
    var text := SkipBlank(Rest(com, ind));
    RelayIsNamed(text);
    var one := ParseOne(text).value;
    var box := s.box[one.0 := SetOne(one, ind == SET_ON)];
    RuleOfIgnition(s.drive.m, box);
  }

  lemma IgnitionOfOthers(s: State, com: Text, now: u32)
    requires Shape(s) && FirstMatch(com, 0) !in {SET_ALL, SET_ON, SET_OFF}
    ensures SameIgnition(s.drive.m, CommandStep(s, com, now).drive.m)
  {
    hide FirstMatch, Find, ParsePins;
  }

  // ----- what is answered -----

  /** SET_ALL, SET_ON and SET_OFF are answered with the command and whether it was rejected. */
  lemma AnswersOk(s: State, com: Text, now: u32, report: string)
    requires Shape(s) && FirstMatch(com, 0) in {SET_ALL, SET_ON, SET_OFF}
    ensures AckText(s, com, now, report) == com + (if Rejected(com) then " : ERROR\r\n" else " : OK\r\n")
  {
    hide FirstMatch, Rejected, Effect;
    RejectedExactly(s, com, now);
  }

  /** A rejected setdigout, an unknown command, and those whose answer never changes. */
  lemma FixedAnswers(s: State, com: Text, now: u32, report: string)
    requires Shape(s)
    ensures var ind, text := FirstMatch(com, 0), AckText(s, com, now, report);
      && (ind == SETDIGOUT1 && Rejected(com) ==> text == com + " : Error cmd")
      && (ind == -1 ==> text == "Error cmd") && (ind == DO_REPORT ==> text == "#OK")
      && (ind == CPURESET ==> text == "restart now") && (ind == 1 ==> text == "All Records Deleted")
      && (ind == 0 || ind == 2 || ind == 3 ==> text == report)
  {
    hide FirstMatch, Rejected, Effect, PinsText, StatText;
    RejectedExactly(s, com, now);
  }

  /** GET_STAT with a relay's number, 1 to 8, is answered with that relay's stored state; with another, with an error. */
  lemma OneStat(s: State, com: Text, k: nat, now: u32, report: string)
    requires Shape(s) && k <= 1000 && com == "GET_STAT " + Decimal(k)
    ensures AckText(s, com, now, report)
      == com + (if 1 <= k <= 8 then " : " + Decimal(s.box[k - 1].stat) + "\r\n" else " : ERROR\r\n")
  {
    hide Decimal, FirstMatch, Find, Hex2, Mask;
    OneStatIsRecognised(com, Decimal(k));
    WordOf("", Decimal(k));
    assert " " + Decimal(k) == "" + " " + Decimal(k);
    AtoiOfDecimal(k);
  }

  lemma OneStatIsRecognised(com: string, text: string)
    requires com == "GET_STAT " + text && forall c :: c in text ==> IsDigit(c)
    ensures FirstMatch(com, 0) == GET_STAT && Rest(com, GET_STAT) == " " + text
  {
    hide Find, FirstMatch;
    NoneOfFirstFour(com);
    NotFound(com, "SET_ALL", 'L') by { assert "SET_ALL"[5] == 'L'; }
    assert com[..8] == "GET_STAT";
    FoundAtStart(com, "GET_STAT");
    MatchStep(com, SET_ALL);
    MatchStep(com, GET_STAT);
  }

  // ----- setdigout -----

  /** One character for each pin: 1, 0, or X for no change. */
  ghost predicate PinCodes(codes: string) {
    |codes| == MAX_PIN && forall c :: c in codes ==> c == '0' || c == '1' || c == 'X'
  }

  function TimesText(times: seq<u32>): string {
    if times == [] then "" else if |times| == 1 then Decimal(times[0]) else Decimal(times[0]) + " " + TimesText(times[1..])
  }

  function SetPinsText(codes: string, times: seq<u32>): string { "setdigout " + codes + " " + TimesText(times) }

  function NewPin(b: Box, code: char, time: u32): Box {
    var stat := if code == 'X' then b.stat else if code == '1' then 1 else 0;
    Box(stat, if stat != 0 then time else 0)
  }

  function NewPins(was: seq<Box>, codes: string, times: seq<u32>): (r: seq<Box>)
    requires |was| == |codes| == |times|
    ensures |r| == |was|
  {
    seq(|was|, k requires 0 <= k < |was| => NewPin(was[k], codes[k], times[k]))
  }

  lemma {:induction false} SkipWords(times: seq<u32>, k: nat)
    requires k < |times|
    ensures Skip(TimesText(times), k) == TimesText(times[k..]) && Word(Skip(TimesText(times), k)) == Decimal(times[k])
    decreases k
  {
    hide Decimal, Word, After;
    if k > 0 {
      SkipWords(times, k - 1);
      WordOf(Decimal(times[k - 1]), TimesText(times[k..]));
      assert times[k - 1..][1..] == times[k..];
    } else {
      assert times[0..] == times;
    }
    WordOf(Decimal(times[k]), TimesText(times[k..][1..]));
  }

  lemma TimeRoundTrip(times: seq<u32>, k: nat)
    requires k < |times|
    ensures Wrap32(Atoi(Word(Skip(TimesText(times), k)))) == times[k]
  {
    hide Decimal, Word, Skip, Atoi;
    SkipWords(times, k);
    AtoiOfDecimal(times[k]);
  }

  lemma CodeRoundTrip(was: Box, codes: string, time: u32, k: nat)
    requires PinCodes(codes) && k < MAX_PIN
    ensures PinStat(was.stat, codes, k) == NewPin(was, codes[k], time).stat
  {
    assert codes[k] in codes;
  }

  lemma PinsRoundTrip(codes: string, times: seq<u32>, was: seq<Box>)
    requires PinCodes(codes) && |times| == MAX_PIN && |was| == MAX_PIN
    ensures PinTimes(TimesText(times), PinStats(was, codes)) == NewPins(was, codes, times)
  {
    hide Skip, Word, Atoi, TimesText, PinStat, NewPin;
    forall k | 0 <= k < MAX_PIN
      ensures PinTimes(TimesText(times), PinStats(was, codes))[k] == NewPin(was[k], codes[k], times[k])
    {
      TimeRoundTrip(times, k);
      CodeRoundTrip(was[k], codes, times[k], k);
      NewPinTime(was[k], codes[k], times[k]);
    }
  }

  lemma NewPinTime(b: Box, code: char, time: u32)
    ensures NewPin(b, code, time) == Box(NewPin(b, code, time).stat, if NewPin(b, code, time).stat != 0 then time else 0)
  {}

  /** A pattern does not occur where its first letter is never followed by its second. */
  lemma {:induction false} NeverFollowed(s: string, pattern: string)
    requires |pattern| >= 2
    requires forall i :: 0 <= i < |s| && s[i] == pattern[0] ==> i + 1 < |s| && s[i + 1] != pattern[1]
    ensures Find(s, pattern) == -1
    decreases |s|
  {
    if pattern <= s {
      FirstTwo(s, pattern);
      assert false;
    }
    if s != "" {
      forall i | 0 <= i < |s[1..]| && s[1..][i] == pattern[0]
        ensures i + 1 < |s[1..]| && s[1..][i + 1] != pattern[1]
      {
        assert s[i + 1] == pattern[0];
      }
      NeverFollowed(s[1..], pattern);
    }
  }

  lemma FirstTwo(s: string, pattern: string)
    requires |pattern| >= 2 && pattern <= s
    ensures s[0] == pattern[0] && s[1] == pattern[1]
  {}

  lemma SetPinsIsRecognised(com: string, text: string)
    requires com == "setdigout " + text && forall c :: c in text ==> IsDigit(c) || c == ' ' || c == 'X'
    ensures FirstMatch(com, 0) == SETDIGOUT1 && SkipBlank(Rest(com, SETDIGOUT1)) == text
  {
    hide Find, FirstMatch;
    NoneBeforeSetPins(com, text);
    assert com[..9] == "setdigout";
    FoundAtStart(com, "setdigout");
    MatchStep(com, SETDIGOUT1);
    assert com[9..] == " " + text && (" " + text)[1..] == text;
  }

  /** The one g in the command is followed by an o. */
  lemma NotGetio(com: string, text: string)
    requires com == "setdigout " + text && forall c :: c in text ==> IsDigit(c) || c == ' ' || c == 'X'
    ensures Find(com, "getio") == -1
  {
    hide Find;
    assert forall i :: 10 <= i < |com| ==> com[i] in text;
    NeverFollowed(com, "getio");
  }

  lemma NoneBeforeSetPins(com: string, text: string)
    requires com == "setdigout " + text && forall c :: c in text ==> IsDigit(c) || c == ' ' || c == 'X'
    ensures FirstMatch(com, 0) == FirstMatch(com, SETDIGOUT1)
  {
    hide Find, FirstMatch;
    assert forall c :: c in com ==> c in "setdigout " || c in text;
    NotFound(com, "getgps", 'p') by { assert "getgps"[4] == 'p'; }
    NotFound(com, "deleterecords", 'l') by { assert "deleterecords"[2] == 'l'; }
    NotFound(com, "getver", 'v') by { assert "getver"[3] == 'v'; }
    NotGetio(com, text);
    MatchStep(com, 0);
    MatchStep(com, 1);
    MatchStep(com, 2);
    MatchStep(com, 3);
    NoCapitals(com, text);
  }

  lemma NoCapitals(com: string, text: string)
    requires com == "setdigout " + text && forall c :: c in text ==> IsDigit(c) || c == ' ' || c == 'X'
    ensures FirstMatch(com, SET_ALL) == FirstMatch(com, SETDIGOUT1)
  {
    hide Find, FirstMatch;
    assert forall c :: c in com ==> c in "setdigout " || c in text;
    NotFound(com, "SET_ALL", 'L') by { assert "SET_ALL"[5] == 'L'; }
    NotFound(com, "GET_STAT", 'G') by { assert "GET_STAT"[0] == 'G'; }
    MatchStep(com, SET_ALL);
    MatchStep(com, GET_STAT);
  }

  lemma {:induction false} TimesCharacters(times: seq<u32>)
    ensures forall c :: c in TimesText(times) ==> IsDigit(c) || c == ' '
    ensures |TimesText(times)| <= 11 * |times|
    decreases |times|
  {
    if times != [] {
      DecimalOf(times[0], 10);
      hide Decimal;
      if |times| > 1 { TimesCharacters(times[1..]); }
    }
  }

  lemma SetPinsRoundTrip(codes: string, times: seq<u32>, was: seq<Box>)
    requires PinCodes(codes) && |times| == MAX_PIN && |was| == MAX_PIN
    ensures var com := SetPinsText(codes, times);
      && |com| <= 255 && FirstMatch(com, 0) == SETDIGOUT1
      && ParsePins(com, was) == Some(NewPins(was, codes, times))
  {
    var text := codes + " " + TimesText(times);
    TimesCharacters(times);
    assert SetPinsText(codes, times) == "setdigout " + text;
    SetPinsIsRecognised("setdigout " + text, text);
    WordOf(codes, TimesText(times));
    PinsRoundTrip(codes, times, was);
    hide FirstMatch, Find, SkipBlank, Rest, Word, After, PinTimes, PinStats, TimesText;
  }

  /** A printed setdigout sets exactly the pins it names, their timers and outputs, and the answer shows the new states. */
  lemma SetPinsTakesEffect(s: State, codes: string, times: seq<u32>, now: u32, report: string, k: nat)
    requires Shape(s) && PinCodes(codes) && |times| == MAX_PIN && k < MAX_PIN
    ensures |SetPinsText(codes, times)| <= 255
    ensures var t := CommandStep(s, SetPinsText(codes, times), now); var b := NewPin(s.pin[k], codes[k], times[k]);
      && t.pin[k] == b && t.tmrPin[k] == Arm(b, now) && t.box == s.box && t.tmrBox == s.tmrBox
      && [t.drive.m.dout1, t.drive.m.dout2, t.drive.m.dout3, t.drive.m.dout4][k] == b.stat
      && AckText(s, SetPinsText(codes, times), now, report) == PinsText(t.pin)
  {
    hide FirstMatch, Find, ParsePins, SetPinsText, NewPin, Arm, PinsText, CommandStep, AckText;
    SetPinsRoundTrip(codes, times, s.pin);
    PinsAreSet(s, SetPinsText(codes, times), NewPins(s.pin, codes, times), now, report, k);
  }

  lemma PinsAreSet(s: State, com: Text, pins: seq<Box>, now: u32, report: string, k: nat)
    requires Shape(s) && k < MAX_PIN && FirstMatch(com, 0) == SETDIGOUT1 && ParsePins(com, s.pin) == Some(pins)
    ensures var t := CommandStep(s, com, now);
      && t.pin == pins && t.tmrPin[k] == Arm(pins[k], now) && t.box == s.box && t.tmrBox == s.tmrBox
      && [t.drive.m.dout1, t.drive.m.dout2, t.drive.m.dout3, t.drive.m.dout4][k] == pins[k].stat
      && AckText(s, com, now, report) == PinsText(pins)
  {
    hide FirstMatch, Find, ParsePins, Arm, PinsText;
  }

  /** The states in the answer stand where the codes stood in the command. */
  lemma PinsAreShown(pin: seq<Box>, k: nat)
    requires |pin| == MAX_PIN && k < MAX_PIN && forall b :: b in pin ==> b.stat < 10
    ensures |PinsText(pin)| > 22 && PinsText(pin)[18..22][k] as int == '0' as int + pin[k].stat
  {
    hide Decimal, Digit, Signed, Signed32;
    assert pin[0] in pin && pin[1] in pin && pin[2] in pin && pin[3] in pin;
    OneDigit(pin[0].stat);
    OneDigit(pin[1].stat);
    OneDigit(pin[2].stat);
    OneDigit(pin[3].stat);
    FourShown(Digit(pin[0].stat), Digit(pin[1].stat), Digit(pin[2].stat), Digit(pin[3].stat),
      Signed(Signed32(pin[0].time)), Signed(Signed32(pin[1].time)),
      Signed(Signed32(pin[2].time)), Signed(Signed32(pin[3].time)), PinsText(pin));
  }

  /** The four times in the answer, each in its place, as far as they are not negative when printed. */
  lemma TimesAreShown(pin: seq<Box>, k: nat)
    requires |pin| == MAX_PIN && k < MAX_PIN && forall b :: b in pin ==> b.stat < 10 && b.time < 0x8000_0000
    ensures |PinsText(pin)| > 33 && Atoi(Word(Skip(PinsText(pin)[33..], k))) == pin[k].time
  {
    hide Decimal, Digit, Signed, Signed32, Word, Skip, Atoi, PinsText;
    var times := [pin[0].time, pin[1].time, pin[2].time, pin[3].time];
    assert pin[0] in pin && pin[1] in pin && pin[2] in pin && pin[3] in pin;
    TimesOfText(pin);
    SkipWords(times, k);
    AtoiOfDecimal(times[k]);
  }

  lemma TimesOfText(pin: seq<Box>)
    requires |pin| == MAX_PIN && forall b :: b in pin ==> b.stat < 10 && b.time < 0x8000_0000
    ensures |PinsText(pin)| > 33
    ensures PinsText(pin)[33..] == TimesText([pin[0].time, pin[1].time, pin[2].time, pin[3].time])
  {
    hide Decimal, Digit;
    assert pin[0] in pin && pin[1] in pin && pin[2] in pin && pin[3] in pin;
    OneDigit(pin[0].stat);
    OneDigit(pin[1].stat);
    OneDigit(pin[2].stat);
    OneDigit(pin[3].stat);
    PlainTime(pin[0].time);
    PlainTime(pin[1].time);
    PlainTime(pin[2].time);
    PlainTime(pin[3].time);
    hide Signed, Signed32;
    TimesFrom33(Digit(pin[0].stat), Digit(pin[1].stat), Digit(pin[2].stat), Digit(pin[3].stat),
      Decimal(pin[0].time), Decimal(pin[1].time), Decimal(pin[2].time), Decimal(pin[3].time), PinsText(pin));
    FourTimes(pin[0].time, pin[1].time, pin[2].time, pin[3].time);
  }

  lemma PlainTime(time: u32)
    requires time < 0x8000_0000
    ensures Signed(Signed32(time)) == Decimal(time) && Decimal(time) != ""
  {
    hide Decimal, Signed32;
    NotNegative(time);
    AtLeastOneDigit(time);
  }

  lemma NotNegative(time: u32)
    requires time < 0x8000_0000
    ensures Signed32(time) == time
  {}

  lemma AtLeastOneDigit(n: nat)
    ensures |Decimal(n)| >= 1
  {}

  lemma FourTimes(a: u32, b: u32, c: u32, d: u32)
    ensures TimesText([a, b, c, d]) == Decimal(a) + " " + Decimal(b) + " " + Decimal(c) + " " + Decimal(d)
  {
    hide Decimal;
    assert [a, b, c, d] == [a] + [b, c, d] && [b, c, d] == [b] + [c, d] && [c, d] == [c] + [d];
    TimesFirst(a, [b, c, d]);
    TimesFirst(b, [c, d]);
    TimesFirst(c, [d]);
    hide TimesText;
    RightToLeft(Decimal(a), Decimal(b), Decimal(c), Decimal(d));
  }

  lemma TimesFirst(a: u32, more: seq<u32>)
    requires more != []
    ensures TimesText([a] + more) == Decimal(a) + " " + TimesText(more)
    ensures |more| == 1 ==> TimesText(more) == Decimal(more[0])
  {
    hide Decimal;
    assert ([a] + more)[1..] == more;
  }

  lemma RightToLeft(a: string, b: string, c: string, d: string)
    ensures a + " " + (b + " " + (c + " " + d)) == a + " " + b + " " + c + " " + d
  {}

  lemma TimesFrom33(a: char, b: char, c: char, d: char, t0: string, t1: string, t2: string, t3: string, text: string)
    requires text == "DOUTS are set to: " + [a] + [b] + [c] + [d] + " TMOs are: "
                     + t0 + " " + t1 + " " + t2 + " " + t3
    ensures |text| >= 33 && text[33..] == t0 + " " + t1 + " " + t2 + " " + t3
    ensures t0 != "" ==> |text| > 33
  {
    var head := "DOUTS are set to: " + [a] + [b] + [c] + [d] + " TMOs are: ";
    assert |head| == 33;
    assert text == head + (t0 + " " + t1 + " " + t2 + " " + t3);
  }

  lemma FourShown(a: char, b: char, c: char, d: char, t0: string, t1: string, t2: string, t3: string, text: string)
    requires text == "DOUTS are set to: " + [a] + [b] + [c] + [d] + " TMOs are: "
                     + t0 + " " + t1 + " " + t2 + " " + t3
    ensures text[18..22] == [a, b, c, d]
  {}

  // ----- a setdigout with too few codes -----

  function Dout(m: Mirror, k: nat): byte
    requires k < MAX_PIN
  {
    if k == 0 then m.dout1 else if k == 1 then m.dout2 else if k == 2 then m.dout3 else m.dout4
  }

  lemma PinStatIs208(was: byte, token: string, k: nat)
    ensures PinStat(was, token, k) == 208 <==>
      k >= |token| || (token[k] == 'X' && was == 208) || (token[k] != 'X' && token[k] as int % 256 == 0)
  {
    DigitIs208(if k < |token| then token[k] as int else 0);
  }

  lemma DigitIs208(c: nat)
    ensures Wrap8(c - 48) == 208 <==> c % 256 == 0
  {}

  lemma KnownCodes(was: byte, codes: string, k: nat)
    requires k < |codes| && codes[k] in "01X"
    ensures PinStat(was, codes, k) == 208 <==> codes[k] == 'X' && was == 208
  {}

  /**
   * What follows the blank after "setdigout" is taken as codes up to the next blank. Every pin beyond the codes is set
   * to 208, with the time of its word, and so is the output in the mirror; a pin that has a code of '0', '1' or 'X' is
   * 208 only if it was and is left alone.
   */
  lemma ShortTokenSets208(s: State, com: Text, now: u32, k: nat)
    requires Shape(s) && FirstMatch(com, 0) == SETDIGOUT1 && k < MAX_PIN
    requires ' ' in SkipBlank(Rest(com, SETDIGOUT1))
    ensures var text := SkipBlank(Rest(com, SETDIGOUT1)); var codes := Word(text); var t := CommandStep(s, com, now);
      && t.tmrPin[k] == Arm(t.pin[k], now) && Dout(t.drive.m, k) == t.pin[k].stat
      && (k >= |codes| ==> t.pin[k] == Box(208, Wrap32(Atoi(Word(Skip(After(text), k))))))
      && (k < |codes| && codes[k] in "01X" ==> (t.pin[k].stat == 208 <==> codes[k] == 'X' && s.pin[k].stat == 208))
  {
    hide FirstMatch, Find, Rest, SkipBlank, Word, Skip, After, PinStat, Arm, Atoi;
    var text := SkipBlank(Rest(com, SETDIGOUT1));
    WordEnds(text);
    if k >= |Word(text)| {
      PinStatIs208(s.pin[k].stat, Word(text), k);
    } else if Word(text)[k] in "01X" {
      KnownCodes(s.pin[k].stat, Word(text), k);
    }
    assert ParsePins(com, s.pin) == Some(PinTimes(After(text), PinStats(s.pin, Word(text))));
    PinsAreSet(s, com, PinTimes(After(text), PinStats(s.pin, Word(text))), now, "", k);
    DoutsAre(CommandStep(s, com, now).drive.m, k);
  }

  lemma DoutsAre(m: Mirror, k: nat)
    requires k < MAX_PIN
    ensures Dout(m, k) == [m.dout1, m.dout2, m.dout3, m.dout4][k]
  {}

  /** The first word is the whole text exactly when there is no blank. */
  lemma WordEnds(s: string)
    ensures |Word(s)| == |s| <==> ' ' !in s
  {
    if |Word(s)| < |s| { assert s[IndexOf(s, ' ')] == ' '; } else { assert s[..|s|] == s; }
  }

  /** The command "setdigout 1 0": pin 1 goes on, the three others go to 208, in any state, and the answer says so. */
  lemma SetdigoutOne(s: State, com: Text, now: u32, report: string)
    requires Shape(s) && com == "setdigout " + "1 0"
    ensures var t := CommandStep(s, com, now);
      && t.pin == [Box(1, 0), Box(208, 0), Box(208, 0), Box(208, 0)] && t.tmrPin == [0, 0, 0, 0]
      && t.drive.m.dout1 == 1 && t.drive.m.dout2 == t.drive.m.dout3 == t.drive.m.dout4 == 208
      && AckText(s, com, now, report) == PinsText(t.pin)
  {
    hide FirstMatch, Find, ParsePins, CommandStep, AckText, PinsText;
    SetdigoutOneIsParsed(com, s.pin);
    PinsBecome(s, com, [Box(1, 0), Box(208, 0), Box(208, 0), Box(208, 0)], now, report);
  }

  lemma PinsBecome(s: State, com: Text, pins: seq<Box>, now: u32, report: string)
    requires Shape(s) && FirstMatch(com, 0) == SETDIGOUT1 && ParsePins(com, s.pin) == Some(pins)
    requires forall b :: b in pins ==> b.time == 0
    ensures var t := CommandStep(s, com, now); var m := t.drive.m;
      && t.pin == pins && t.tmrPin == [0, 0, 0, 0]
      && [m.dout1, m.dout2, m.dout3, m.dout4] == [pins[0].stat, pins[1].stat, pins[2].stat, pins[3].stat]
      && AckText(s, com, now, report) == PinsText(pins)
  {
    hide FirstMatch, Find, ParsePins, PinsText, CommandStep, AckText;
    forall k | 0 <= k < MAX_PIN ensures CommandStep(s, com, now).tmrPin[k] == 0 {
      assert pins[k] in pins;
      PinsAreSet(s, com, pins, now, report, k);
    }
    PinsAreSet(s, com, pins, now, report, 0);
    PinsAreSet(s, com, pins, now, report, 1);
    PinsAreSet(s, com, pins, now, report, 2);
    PinsAreSet(s, com, pins, now, report, 3);
  }

  lemma SetdigoutOneIsParsed(com: string, was: seq<Box>)
    requires com == "setdigout " + "1 0" && |was| == MAX_PIN
    ensures FirstMatch(com, 0) == SETDIGOUT1
    ensures ParsePins(com, was) == Some([Box(1, 0), Box(208, 0), Box(208, 0), Box(208, 0)])
  {
    hide FirstMatch, Find, SkipBlank, Rest, Word, After, PinTimes, PinStats;
    SetPinsIsRecognised(com, "1 0");
    assert "1 0" == "1" + " " + "0";
    WordOf("1", "0");
    PinsOfOne(was);
  }

  lemma PinsOfOne(was: seq<Box>)
    requires |was| == MAX_PIN
    ensures PinTimes("0", PinStats(was, "1")) == [Box(1, 0), Box(208, 0), Box(208, 0), Box(208, 0)]
  {
    var stats := PinStats(was, "1");
    assert stats == [1, 208, 208, 208];
    assert Word("0") == "0" && After("0") == "" && Word("") == "" && After("") == "";
    assert Skip("0", 0) == "0" && Skip("0", 1) == "" && Skip("0", 2) == "" && Skip("0", 3) == "";
    assert Atoi("0") == 0 && Atoi("") == 0;
  }

  // ----- when a command is rejected -----

  lemma {:induction false} SkipShift(s: string, k: nat)
    ensures Skip(After(s), k) == Skip(s, k + 1)
    decreases k
  {
    hide After;
    if k > 0 { SkipShift(s, k - 1); } else { assert Skip(s, 0) == s; }
  }

  /** The characters of a word that are copied. */
  function Cut(word: string): string { word[..|word| % 32] }

  predicate NoComma(s: string, i: nat) { ',' !in Cut(Word(Skip(s, i))) }

  lemma {:induction false} EntriesParsed(s: string, n: nat)
    ensures ParseEntries(s, n).None? <==> exists i :: 0 <= i < n && NoComma(s, i)
    decreases n
  {
    hide Word, After, Skip, ParseEntry;
    if n > 0 {
      EntriesParsed(After(s), n - 1);
      assert Skip(s, 0) == s by { SkipNone(s); }
      EntryParsed(Word(s));
      forall i | 0 <= i < n - 1 ensures NoComma(After(s), i) <==> NoComma(s, i + 1) { SkipShift(s, i); }
      if i :| 0 <= i < n && NoComma(s, i) {
        if i > 0 { assert NoComma(After(s), i - 1); }
      }
      if ParseEntry(Word(s)).None? { assert NoComma(s, 0); }
    }
  }

  lemma SkipNone(s: string)
    ensures Skip(s, 0) == s
  {}

  lemma EntryParsed(word: string)
    ensures ParseEntry(word).None? <==> ',' !in Cut(word)
  {
    var token := Cut(word);
    assert token[..|token|] == token;
  }

  /** What makes the tracker reject a command. */
  ghost predicate Rejected(com: string) {
    var ind := FirstMatch(com, 0);
    if ind == SET_ALL then exists i :: 0 <= i < MAX_RELAY && NoComma(SkipBlank(Rest(com, ind)), i)
    else if ind == SET_ON || ind == SET_OFF then
      var text := SkipBlank(Rest(com, ind)); !(|Word(text)| % 2 == 1 && '1' <= text[0] <= '8')
    else ind == SETDIGOUT1 && ' ' !in SkipBlank(Rest(com, ind))
  }

  /**
   * A command is rejected, and changes neither relay nor pin nor timer nor mirror, exactly if it is a SET_ALL one of
   * whose first eight words has no comma among the characters copied, a SET_ON or SET_OFF that names no relay, or a
   * setdigout with no blank after its codes.
   */
  lemma RejectedExactly(s: State, com: Text, now: u32)
    requires Shape(s)
    ensures Effect(s, com, now).None? <==> Rejected(com)
    ensures Rejected(com) ==> CommandStep(s, com, now) == s.(info := s.drive.m.gps)
  {
    hide FirstMatch, Find, Rest, SkipBlank, Word, After, ParseEntries, ParseOne, Ignition, Arm, NoComma;
    var ind := FirstMatch(com, 0);
    if ind == SET_ALL {
      EntriesParsed(SkipBlank(Rest(com, ind)), MAX_RELAY);
    } else if ind == SET_ON || ind == SET_OFF {
      RelayIsNamed(SkipBlank(Rest(com, ind)));
    } else if ind == SETDIGOUT1 {
      WordEnds(SkipBlank(Rest(com, ind)));
    }
  }
}
