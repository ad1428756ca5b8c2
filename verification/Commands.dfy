/** The text commands: recognition, parsing, and their effect on relays, pins, timers and ignition. */
module Commands {
  import opened Words
  import opened CStr
  import opened Clock
  import opened Mirror

  const MAX_RELAY: nat := 8
  const MAX_PIN: nat := 4
  const MAX_CMDS: nat := 12

  datatype Option<+T> = None | Some(value: T)

  datatype Box = Box(stat: byte, time: u32)

  const CMDS: seq<string> := [
    "getgps", "deleterecords", "getver", "getio", "SET_ALL", "GET_STAT", "setdigout", "setdigout",
    "#DO REPORT", "SET_ON", "SET_OFF", "cpureset"]

  const GETGPS: int := 0
  const GETVER: int := 2
  const GETIO: int := 3
  const SET_ALL: int := 4
  const GET_STAT: int := 5
  const SETDIGOUT1: int := 6
  const DO_REPORT: int := 8
  const SET_ON: int := 9
  const SET_OFF: int := 10
  const CPURESET: int := 11

  /** The first command, from number i on, whose name occurs in the text; -1 if there is none. */
  function FirstMatch(com: string, i: nat): (r: int)
    requires i <= MAX_CMDS
    ensures r == -1 || (i <= r < MAX_CMDS && Find(com, CMDS[r]) != -1)
    ensures forall j :: i <= j < (if r == -1 then MAX_CMDS else r) ==> Find(com, CMDS[j]) == -1
    decreases MAX_CMDS - i
  {
    if i == MAX_CMDS then -1 else if Find(com, CMDS[i]) != -1 then i else FirstMatch(com, i + 1)
  }

  /** What follows the command's name. */
  function Rest(com: string, ind: int): string
    requires 0 <= ind < MAX_CMDS && Find(com, CMDS[ind]) != -1
  {
    com[Find(com, CMDS[ind]) + |CMDS[ind]|..]
  }

  function SkipBlank(s: string): string { if s != "" && s[0] == ' ' then s[1..] else s }

  function Word(s: string): string { s[..IndexOf(s, ' ')] }

  /** What follows the first blank; past the end of the text there are only terminators. */
  function After(s: string): string {
    var i := IndexOf(s, ' ');
    if i < |s| then s[i + 1..] else ""
  }

  /** The deadline of a relay that has just been set. */
  function Arm(b: Box, now: u32): u32 {
    if b.stat != 0 && b.time > 0 then GetTmr(now, Wrap32(b.time * ONE_SECOND)) else 0
  }

  // ----- SET_ALL -----

  datatype Entry = Keep | Set(bit: int, time: int)

  /** One token `bit,time`, of which only the length modulo 32 is copied. */
  function ParseEntry(word: string): Option<Entry> {
    var token := word[..|word| % 32];
    var comma := IndexOf(token, ',');
    if comma == |token| then None
    else
      var name, bit := token[..comma], Atoi(token[..comma]);
      if 'X' in name then Some(Keep) else Some(Set(bit, if bit == 0 then 0 else Atoi(token[comma + 1..])))
  }

  function ParseEntries(s: string, count: nat): (r: Option<seq<Entry>>)
    ensures r.Some? ==> |r.value| == count
    decreases count
  {
    if count == 0 then Some([])
    else
      var e, more := ParseEntry(Word(s)), ParseEntries(After(s), count - 1);
      if e.None? || more.None? then None else Some([e.value] + more.value)
  }

  function SetBox(b: Box, e: Entry): Box {
    if e.Keep? then b else Box(Wrap8(e.bit), Wrap32(e.time))
  }

  function ParseAll(com: string): (r: Option<seq<Entry>>)
    requires Find(com, CMDS[SET_ALL]) != -1
    ensures r.Some? ==> |r.value| == MAX_RELAY
  {
    ParseEntries(SkipBlank(Rest(com, SET_ALL)), MAX_RELAY)
  }

  // ----- SET_ON and SET_OFF -----

  /** The relay number (from 0) and the time; the number is read from one character, and only if its token is odd-sized. */
  function ParseOne(s: string): Option<(nat, int)> {
    var word := Word(s);
    var k := Atoi(word[..|word| % 2]) - 1;
    if 0 <= k < MAX_RELAY then Some((k, if |word| == |s| then 0 else Atoi(After(s)))) else None
  }

  function SetOne(one: (nat, int), on: bool): Box {
    if on then Box(1, Wrap32(one.1)) else Box(0, 0)
  }

  // ----- setdigout -----

  /** Pin states from the first four characters of a token; a missing character counts as a terminator. */
  function PinStat(was: byte, token: string, k: nat): byte {
    var c := if k < |token| then token[k] as int else 0;
    if c == 'X' as int then was else Wrap8(c - '0' as int)
  }

  function PinStats(was: seq<Box>, token: string): (r: seq<byte>)
    ensures |r| == |was|
  {
    seq(|was|, k requires 0 <= k < |was| => PinStat(was[k].stat, token, k))
  }

  /** What is left of a text after k words. */
  function Skip(s: string, k: nat): string { if k == 0 then s else After(Skip(s, k - 1)) }

  /** Each pin's time comes from its own word; a pin that is off gets none. */
  function PinBox(s: string, stats: seq<byte>, k: nat): Box
    requires k < |stats|
  {
    Box(stats[k], if stats[k] != 0 then Wrap32(Atoi(Word(Skip(s, k)))) else 0)
  }

  function PinTimes(s: string, stats: seq<byte>): (r: seq<Box>)
    ensures |r| == |stats|
  {
    seq(|stats|, k requires 0 <= k < |stats| => PinBox(s, stats, k))
  }

  function ParsePins(com: string, was: seq<Box>): (r: Option<seq<Box>>)
    requires Find(com, CMDS[SETDIGOUT1]) != -1 && |was| == MAX_PIN
    ensures r.Some? ==> |r.value| == MAX_PIN
  {
    var s := SkipBlank(Rest(com, SETDIGOUT1));
    var word := Word(s);
    if |word| == |s| then None
    else Some(PinTimes(After(s), PinStats(was, word)))
  }

  // ----- mirror side effects -----

  /** Relays 7 and 8 together switch the ignition; one alone leaves it as it is. */
  function Ignition(m: Mirror, box: seq<Box>): Mirror
    requires |box| == MAX_RELAY
  {
    if box[6].stat != 0 && box[7].stat != 0 then m.(din1 := 1, ignition := 1)
    else if box[6].stat == 0 && box[7].stat == 0 then m.(din1 := 0, ignition := 0)
    else m
  }

  function Douts(m: Mirror, pin: seq<Box>): Mirror
    requires |pin| == MAX_PIN
  {
    m.(dout1 := pin[0].stat, dout2 := pin[1].stat, dout3 := pin[2].stat, dout4 := pin[3].stat)
  }

  // ----- SET_ALL: print and parse -----

  /** One word of a SET_ALL as a server prints it: a relay is switched off or on or left alone, and a time. */
  datatype Order = Off(time: u32) | On(time: u32) | Leave(time: u32)
  {
    function Text(): string {
      (if Off? then "0" else if On? then "1" else "X") + "," + Decimal(time)
    }

    /** The time counts only for a relay that is switched on. */
    function Meaning(): Entry {
      if Off? then Set(0, 0) else if On? then Set(1, time) else Keep
    }
  }

  function OrdersText(os: seq<Order>): string {
    if os == [] then "" else if |os| == 1 then os[0].Text() else os[0].Text() + " " + OrdersText(os[1..])
  }

  function Meanings(os: seq<Order>): (es: seq<Entry>)
    ensures |es| == |os|
  {
    seq(|os|, k requires 0 <= k < |os| => os[k].Meaning())
  }

  lemma {:induction false} WordOf(a: string, b: string)
    requires ' ' !in a
    ensures Word(a) == a && After(a) == ""
    ensures Word(a + " " + b) == a && After(a + " " + b) == b
  {
    IndexOfCat(a, "", ' ');
    assert a + "" == a;
    IndexOfCat(a, " " + b, ' ');
    assert a + " " + b == a + (" " + b);
  }

  lemma {:induction false} IndexOfCat(a: string, b: string, c: char)
    requires c !in a && (b == "" || b[0] == c)
    ensures IndexOf(a + b, c) == |a|
    decreases |a|
  {
    if a == "" {
      assert a + b == b;
    } else {
      assert (a + b)[1..] == a[1..] + b;
      IndexOfCat(a[1..], b, c);
    }
  }

  lemma {:induction false} DecimalLength(n: nat, k: nat, bound: nat)
    requires k > 0 && n < bound && bound == Power10(k)
    ensures |Decimal(n)| <= k
    decreases k
  {
    if n >= 10 {
      DecimalLength(n / 10, k - 1, Power10(k - 1));
    }
  }

  function Power10(k: nat): nat { if k == 0 then 1 else 10 * Power10(k - 1) }

  lemma OrderRoundTrip(o: Order)
    ensures ParseEntry(o.Text()) == Some(o.Meaning()) && ' ' !in o.Text()
  {
    var name, time := if o.Off? then "0" else if o.On? then "1" else "X", Decimal(o.time);
    OrderLength(o);
    var token := o.Text();
    assert token == name + ("," + time);
    IndexOfCat(name, "," + time, ',');
    assert |token| % 32 == |token| && token[..|token|] == token;
    assert token[..1] == name && token[2..] == time;
    NameIsNumber(name);
    AtoiOfDecimal(o.time);
  }

  lemma NameIsNumber(name: string)
    ensures name == "0" ==> Atoi(name) == 0
    ensures name == "1" ==> Atoi(name) == 1
  {
    AtoiOfDecimal(0);
    AtoiOfDecimal(1);
    assert Decimal(0) == "0" && Decimal(1) == "1";
  }

  lemma OrderLength(o: Order)
    ensures 3 <= |o.Text()| <= 12
  {
    TenDigits();
    DecimalLength(o.time, 10, 10000000000);
  }

  lemma TenDigits()
    ensures Power10(10) == 10000000000
  {}

  lemma ParseFirst(o: Order, more: string, es: seq<Entry>)
    requires ParseEntries(more, |es|) == Some(es)
    ensures ParseEntries(o.Text() + " " + more, |es| + 1) == Some([o.Meaning()] + es)
  {
    hide ParseEntry, Order.Text, Order.Meaning, Word, After;
    OrderRoundTrip(o);
    WordOf(o.Text(), more);
  }

  lemma ParseLast(o: Order)
    ensures ParseEntries(o.Text(), 1) == Some([o.Meaning()])
  {
    hide ParseEntry, Order.Text, Order.Meaning, Word, After;
    OrderRoundTrip(o);
    WordOf(o.Text(), "");
    var none: seq<Entry> := [];
    assert ParseEntries(After(o.Text()), 0) == Some(none);
    assert [o.Meaning()] + none == [o.Meaning()];
  }

  /** Parsing what a server prints gives what it means, the times of relays switched off or left alone dropped. */
  lemma {:induction false} EntriesRoundTrip(os: seq<Order>)
    ensures ParseEntries(OrdersText(os), |os|) == Some(Meanings(os))
    decreases |os|
  {
    hide ParseEntry, Order.Text, Order.Meaning, Word, After;
    if |os| == 1 {
      ParseLast(os[0]);
      assert Meanings(os) == [os[0].Meaning()];
    } else if |os| > 1 {
      EntriesRoundTrip(os[1..]);
      ParseFirst(os[0], OrdersText(os[1..]), Meanings(os[1..]));
      assert Meanings(os) == [os[0].Meaning()] + Meanings(os[1..]);
    }
  }

  // ----- the whole SET_ALL text -----

  function SetAllText(os: seq<Order>): string { "SET_ALL " + OrdersText(os) }

  /** A pattern with a character the text does not have does not occur in it. */
  lemma {:induction false} NotFound(s: string, pattern: string, c: char)
    requires c in pattern && c !in s
    ensures Find(s, pattern) == -1
    decreases |s|
  {
    var i :| 0 <= i < |pattern| && pattern[i] == c;
    if s != [] { NotFound(s[1..], pattern, c); }
  }

  lemma {:induction false} OrdersCharacters(os: seq<Order>)
    ensures forall c :: c in OrdersText(os) ==> IsDigit(c) || c == 'X' || c == ',' || c == ' '
    decreases |os|
  {
    hide Decimal;
    if |os| > 1 { OrdersCharacters(os[1..]); }
  }

  lemma {:induction false} OrdersLength(os: seq<Order>)
    ensures |OrdersText(os)| <= 13 * |os|
    decreases |os|
  {
    hide Order.Text;
    if os != [] { OrderLength(os[0]); }
    if |os| > 1 { OrdersLength(os[1..]); }
  }

  /** The printed SET_ALL of any eight orders fits a command, is recognised, and parses to what they mean. */
  lemma SetAllRoundTrip(os: seq<Order>)
    requires |os| == MAX_RELAY
    ensures |SetAllText(os)| <= 255 && FirstMatch(SetAllText(os), 0) == SET_ALL
    ensures ParseAll(SetAllText(os)) == Some(Meanings(os))
  {
    hide OrdersText, ParseEntries;
    OrdersCharacters(os);
    OrdersLength(os);
    EntriesRoundTrip(os);
    SetAllIsRecognised(SetAllText(os), OrdersText(os));
  }

  lemma SetAllIsRecognised(com: string, text: string)
    requires com == "SET_ALL " + text && 'g' !in text && 'd' !in text
    ensures FirstMatch(com, 0) == SET_ALL && SkipBlank(Rest(com, SET_ALL)) == text
  {
    hide FirstMatch, Find;
    assert 'g' !in com && 'd' !in com;
    NoneOfFirstFour(com);
    assert com[..7] == "SET_ALL";
    FoundAtStart(com, "SET_ALL");
    MatchStep(com, SET_ALL);
    assert com[7..] == " " + text && (" " + text)[1..] == text;
  }

  lemma MatchStep(com: string, i: nat)
    requires i < MAX_CMDS
    ensures FirstMatch(com, i) == if Find(com, CMDS[i]) != -1 then i else FirstMatch(com, i + 1)
  {}

  lemma FoundAtStart(s: string, pattern: string)
    requires pattern <= s
    ensures Find(s, pattern) == 0
  {}

  /** The names of the first four commands each have a letter that commands in capitals lack. */
  lemma NoneOfFirstFour(com: string)
    requires 'g' !in com && 'd' !in com
    ensures FirstMatch(com, 0) == FirstMatch(com, SET_ALL)
  {
    hide Find, FirstMatch;
    NotFound(com, "getgps", 'g') by { assert "getgps"[0] == 'g'; }
    NotFound(com, "deleterecords", 'd') by { assert "deleterecords"[0] == 'd'; }
    NotFound(com, "getver", 'g') by { assert "getver"[0] == 'g'; }
    NotFound(com, "getio", 'g') by { assert "getio"[0] == 'g'; }
    MatchStep(com, 0);
    MatchStep(com, 1);
    MatchStep(com, 2);
    MatchStep(com, 3);
  }
}
