/** End to end: from the bytes of a command on the connection to the relay it switches and the answer that goes back. */
module DeviceRuns {
  import opened Words
  import opened Mirror
  import opened Commands
  import opened Scenario
  import opened TrackerModel
  import opened TrackerRuns
  import opened CommandTexts
  import opened Codec8
  import opened Replies
  import opened CStr
  import opened Receiver
  import opened Framing
  import opened Device
  import Session
  import SessionRuns

  // ----- one pass -----

  /** What a pass sends does not depend on the command it receives. */
  lemma SendPartSame(dev: Device, i: In, cfg: Config, waitSec: u32)
    requires Shape(dev.car)
    ensures Session.SendPart(dev.link, EnvOf(dev, i, cfg, waitSec), waitSec)
         == Session.SendPart(dev.link, EnvBefore(dev, i, cfg), waitSec)
  {
    hide CommandStep, CommandText, FirstMatch, RecordStep;
  }

  /** A live pass that sends no record into a partly received unit. */
  ghost predicate Quiet(dev: Device, i: In, cfg: Config, waitSec: u32)
    requires Shape(dev.car)
  {
    var (t, log) := Session.SendPart(dev.link, EnvOf(dev, i, cfg, waitSec), waitSec);
    dev.link.faza == 2 && !dev.link.vixod && !t.vixod && (log != [] ==> dev.link.kept == [])
  }

  function FrameOf(u: Option<Unit>): Option<seq<byte>> {
    if u.Some? && u.value.Framed? then Some(u.value.bytes) else None
  }

  lemma QuietPass(dev: Device, i: In, cfg: Config, waitSec: u32)
    requires Shape(dev.car) && Quiet(dev, i, cfg, waitSec)
    ensures Completed(dev, i, cfg, waitSec) == if i.recv.Byte? then FrameOf(Accept(dev.link.kept, i.recv.b).1) else None
    ensures Pass(dev, i, cfg, waitSec).link.kept == if i.recv.Byte? then Accept(dev.link.kept, i.recv.b).0 else dev.link.kept
  {
    hide Accept, Session.SendPart, Session.ReceivePart, Shape, Events, EnvBefore;
    var e := EnvOf(dev, i, cfg, waitSec);
    EnvHasInputs(dev, i, cfg, waitSec);
    SendPartSame(dev, i, cfg, waitSec);
    SessionRuns.SendPartIsQuiet(dev.link, e, waitSec);
    SessionRuns.StepHears(dev.link, e, waitSec);
  }

  lemma EnvHasInputs(dev: Device, i: In, cfg: Config, waitSec: u32)
    requires Shape(dev.car)
    ensures var e := EnvOf(dev, i, cfg, waitSec);
      e.recv == i.recv && e.now == i.now && e.later == i.later && e.built == i.built && e.recordSent == i.recordSent
      && e.replySent == i.replySent
  {
    hide CommandStep, CommandText, FirstMatch, RecordStep, Completed;
  }

  // ----- the commands of a run are the frames of its stream -----

  function Texts(us: seq<Unit>): seq<string> {
    if us == [] then []
    else (if us[0].Framed? then [CommandText(us[0].bytes)] else []) + Texts(us[1..])
  }

  function CommandsIn(es: seq<Event>): seq<string> {
    if es == [] then [] else (if es[0].Command? then [es[0].com] else []) + CommandsIn(es[1..])
  }

  function Received(ins: seq<In>): seq<byte> {
    if ins == [] then [] else (if ins[0].recv.Byte? then [ins[0].recv.b] else []) + Received(ins[1..])
  }

  /** Every pass is a live one and sends no record into a partly received unit. */
  ghost predicate AllQuiet(dev: Device, ins: seq<In>, cfg: Config, waitSec: u32)
    requires Shape(dev.car)
    decreases |ins|
  {
    ins != [] ==> Quiet(dev, ins[0], cfg, waitSec) && AllQuiet(Pass(dev, ins[0], cfg, waitSec), ins[1..], cfg, waitSec)
  }

  lemma {:induction false} CommandsCat(a: seq<Event>, b: seq<Event>)
    ensures CommandsIn(a + b) == CommandsIn(a) + CommandsIn(b)
    decreases |a|
  {
    if a == [] {
      assert a + b == b;
    } else {
      assert (a + b)[0] == a[0] && (a + b)[1..] == a[1..] + b;
      CommandsCat(a[1..], b);
    }
  }

  lemma CommandsOfPass(dev: Device, i: In, cfg: Config, waitSec: u32)
    ensures var f := Completed(dev, i, cfg, waitSec);
      CommandsIn(Events(dev, i, cfg, waitSec)) == if f.Some? then [CommandText(f.value)] else []
  {
    hide Completed, CommandText, RecordOf, Due;
    var f := Completed(dev, i, cfg, waitSec);
    var a := if Due(dev.link, i.now) && i.built then [Event.Record(RecordOf(dev, i, cfg, waitSec))] else [];
    var b := if f.Some? then [Command(CommandText(f.value), i.now)] else [];
    CommandsCat(a + b, [Sweep(i.later)]);
    CommandsCat(a, b);
    assert forall e: Event :: [e][1..] == [];
  }

  lemma TextsStep(u: Option<Unit>, us: seq<Unit>)
    ensures Texts((if u.Some? then [u.value] else []) + us)
      == (if FrameOf(u).Some? then [CommandText(FrameOf(u).value)] else []) + Texts(us)
  {
    hide CommandText;
    if u.Some? {
      assert ([u.value] + us)[1..] == us;
      if u.value.Ack? { assert [] + Texts(us) == Texts(us); }
    } else {
      assert [] + us == us && [] + Texts(us) == Texts(us);
    }
  }

  /** The tracker executes exactly the commands in the frames of the stream, in order, however its bytes are spread. */
  lemma {:induction false} CommandsAreFrames(dev: Device, ins: seq<In>, cfg: Config, waitSec: u32)
    requires Shape(dev.car) && AllQuiet(dev, ins, cfg, waitSec)
    ensures var (rest, us) := Units(dev.link.kept, Received(ins));
      && RunAll(dev, ins, cfg, waitSec).link.kept == rest
      && CommandsIn(AllEvents(dev, ins, cfg, waitSec)) == Texts(us)
    decreases |ins|
  {
    hide Pass, Quiet, Shape, Accept, Completed, Events, CommandText, FrameOf;
    if ins != [] {
      var i, next := ins[0], Pass(dev, ins[0], cfg, waitSec);
      var more := Received(ins[1..]);
      QuietPass(dev, i, cfg, waitSec);
      CommandsAreFrames(next, ins[1..], cfg, waitSec);
      CommandsOfPass(dev, i, cfg, waitSec);
      NotEnded(dev, i, cfg, waitSec);
      CommandsCat(Events(dev, i, cfg, waitSec), AllEvents(next, ins[1..], cfg, waitSec));
      var us := Units(next.link.kept, more).1;
      if i.recv.Byte? {
        var b := i.recv.b;
        assert ([b] + more)[0] == b && ([b] + more)[1..] == more;
        TextsStep(Accept(dev.link.kept, b).1, us);
      } else {
        assert [] + more == more && [] + Texts(us) == Texts(us);
      }
    }
  }

  lemma NotEnded(dev: Device, i: In, cfg: Config, waitSec: u32)
    requires Shape(dev.car) && Quiet(dev, i, cfg, waitSec)
    ensures !dev.link.vixod
  {}

  // ----- one command -----

  /** A quiet pass that has part of a unit builds no record. */
  lemma NoRecordInside(dev: Device, i: In, cfg: Config, waitSec: u32)
    requires Shape(dev.car) && Quiet(dev, i, cfg, waitSec) && dev.link.kept != []
    ensures !(Due(dev.link, i.now) && i.built) && CarAfterRecord(dev, i, cfg, waitSec) == dev.car
  {
    EnvHasInputs(dev, i, cfg, waitSec);
    hide EnvOf, RecordOf, RecordStep;
  }

  /** A command as a Codec 12 frame. */
  function CommandFrame(text: string, ct: byte): seq<byte> { Frame(Message(12, ct, 0, CharBytes(text))) }

  lemma CommandFrameIsUnit(text: string, ct: byte)
    requires |text| <= 255
    ensures WellFormed(Framed(CommandFrame(text, ct))) && |CommandFrame(text, ct)| == 20 + |text|
  {
    hide Frame, Message, WellFormed;
    TextFrame(text, ct);
    FrameIsUnit(Message(12, ct, 0, CharBytes(text)));
  }

  lemma LastOfFrame(text: string, ct: byte, part: seq<byte>, b: byte)
    requires |text| <= 255 && part + [b] == CommandFrame(text, ct)
    ensures part != [] && Units([], part) == (part, []) && Accept(part, b) == ([], Some(Framed(part + [b])))
  {
    hide CommandFrame, Accept, WellFormed;
    var u := Framed(CommandFrame(text, ct));
    CommandFrameIsUnit(text, ct);
    assert u.bytes[..|part|] == part && u.bytes[|part|] == b;
    InsideUnit(u, |part|);
    AcceptInside(u, |part|);
  }

  lemma TypeArrives(text: string, ct: byte)
    requires |text| <= 255
    ensures TypeOf(CommandFrame(text, ct)) == ct
  {
    hide Frame, Message;
    TextFrame(text, ct);
  }

  /**
   * The bytes of a framed command, spread over any passes: the last of them executes the command and nothing else, and
   * sends the answer to it, unless the command is a reset or the connection fails.
   */
  lemma CommandIsExecuted(dev: Device, ins: seq<In>, last: In, text: string, ct: byte, cfg: Config, waitSec: u32)
    requires Shape(dev.car) && Plain(text) && Find(text, "\r\n") == -1 && |text| <= 255
    requires AllQuiet(dev, ins, cfg, waitSec) && Quiet(RunAll(dev, ins, cfg, waitSec), last, cfg, waitSec)
    requires dev.link.kept == [] && last.recv.Byte? && Received(ins) + [last.recv.b] == CommandFrame(text, ct)
    ensures var d := RunAll(dev, ins, cfg, waitSec);
      && Events(d, last, cfg, waitSec) == [Command(text, last.now), Sweep(last.later)]
      && Sent(d, last, cfg, waitSec)
         == if last.replySent && !CommandStep(d.car, text, last.now).restart
            then [Answer(Reply(d.car, ct, text, last.now, last.unix, last.report))] else []
  {
    hide RunAll, AllQuiet, Quiet, CommandText, CommandFrame, TypeOf, Accept, Shape, CommandStep, RecordOf, Units, Received,
      Due, CarAfterRecord, Completed, Reply;
    var d := RunAll(dev, ins, cfg, waitSec);
    CommandsAreFrames(dev, ins, cfg, waitSec);
    LastOfFrame(text, ct, Received(ins), last.recv.b);
    QuietPass(d, last, cfg, waitSec);
    NotEnded(d, last, cfg, waitSec);
    NoRecordInside(d, last, cfg, waitSec);
    ArrivesAs(text, ct);
    TypeArrives(text, ct);
    assert [] + [Command(text, last.now)] + [Sweep(last.later)] == [Command(text, last.now), Sweep(last.later)];
  }

  lemma ArrivesAs(text: string, ct: byte)
    requires Plain(text) && Find(text, "\r\n") == -1 && |text| <= 255
    ensures CommandText(CommandFrame(text, ct)) == text
  {
    CommandArrives(text, ct);
  }

  // ----- a relay switched on from the server -----

  lemma SetOnIsPlain(k: nat, time: u32)
    requires 1 <= k <= MAX_RELAY
    ensures var text := SetOnText(k, time); |text| <= 255 && Plain(text) && Find(text, "\r\n") == -1
    ensures FirstMatch(SetOnText(k, time), 0) == SET_ON
  {
    hide FirstMatch, Find, ParseOne, SkipBlank, Rest, Decimal;
    SetOnRoundTrip(k, time);
    var text := SetOnText(k, time);
    assert forall c :: c in text ==> c in "SET_ON " || IsDigit(c);
    forall i | 0 <= i < |text| ensures 0 < text[i] as int < 256 {
      assert text[i] in text;
      assert '0' as int == 48 && '9' as int == 57;
    }
    NotFound(text, "\r\n", '\r') by { assert "\r\n"[0] == '\r'; }
  }

  /** A SET_ON is no reset. */
  lemma SetOnIsNoReset(s: State, k: nat, time: u32, now: u32)
    requires Shape(s) && 1 <= k <= MAX_RELAY && |SetOnText(k, time)| <= 255
    ensures CommandStep(s, SetOnText(k, time), now).restart == s.restart
  {
    hide FirstMatch, Find, ParseOne, SkipBlank, Rest, SetOnText, Ignition, Arm;
    SetOnRoundTrip(k, time);
  }

  ghost predicate NoCommands(es: seq<Event>) {
    forall i :: 0 <= i < |es| ==> !es[i].Command?
  }

  lemma {:induction false} NoCommandsTouchNothing(s: State, es: seq<Event>, cfg: Config, w: Switch)
    requires Shape(s) && NoCommands(es)
    ensures Untouched(s, es, cfg, w)
    decreases |es|
  {
    hide Step;
    if es != [] { NoCommandsTouchNothing(Step(s, es[0], cfg), es[1..], cfg, w); }
  }

  lemma {:induction false} CommandsAreNone(es: seq<Event>)
    ensures CommandsIn(es) == [] <==> NoCommands(es)
    decreases |es|
  {
    if es != [] {
      CommandsAreNone(es[1..]);
      assert forall i :: 0 <= i < |es| ==> es[i] == if i == 0 then es[0] else es[1..][i - 1];
    }
  }

  lemma TimedByCommand(s: State, k: nat, time: u32, now: u32, es: seq<Event>, cfg: Config)
    requires Shape(s) && 1 <= k <= MAX_RELAY && |SetOnText(k, time)| <= 255
    requires time > 0 && now + 10 * time < 0x1_0000_0000 && NoCommands(es)
    ensures RunEvents(s, [Command(SetOnText(k, time), now)] + es, cfg).box[k - 1].stat != 0 <==> !SweptAfter(es, now + 10 * time)
  {
    hide CommandStep, SetOnText, RunEvents, SweptAfter, FirstMatch, Find, ParseOne, SkipBlank, Rest, Arm;
    var e, w := Command(SetOnText(k, time), now), Relay(k - 1);
    SetOnRoundTrip(k, time);
    SetOnTakesEffect(s, k, time, now);
    var t := Step(s, e, cfg);
    assert BoxOf(t, w) == Box(1, time);
    NoCommandsTouchNothing(t, es, cfg, w);
    TimedSwitch(s, e, es, cfg, w);
  }

  /**
   * From the server's bytes to the relay: the frame of "SET_ON k time", in any pieces, and then any passes in which no
   * other command is complete. The answer is the one to that command, and at the end relay k is on if and only if no
   * pass from the one that executed it on had its sweep at or past its tick plus 10 time.
   */
  lemma SetOnEndToEnd(dev: Device, ins: seq<In>, last: In, more: seq<In>, k: nat, time: u32, ct: byte, cfg: Config,
                      waitSec: u32)
    requires Shape(dev.car) && 1 <= k <= MAX_RELAY && time > 0 && last.now + 10 * time < 0x1_0000_0000
    requires |SetOnText(k, time)| <= 255
    requires AllQuiet(dev, ins, cfg, waitSec) && Quiet(RunAll(dev, ins, cfg, waitSec), last, cfg, waitSec)
    requires dev.link.kept == [] && last.recv.Byte? && Received(ins) + [last.recv.b] == CommandFrame(SetOnText(k, time), ct)
    requires CommandsIn(AllEvents(Pass(RunAll(dev, ins, cfg, waitSec), last, cfg, waitSec), more, cfg, waitSec)) == []
    ensures var d := RunAll(dev, ins, cfg, waitSec); var e := Pass(d, last, cfg, waitSec);
      && (last.replySent && !d.car.restart ==>
            Sent(d, last, cfg, waitSec) == [Answer(Reply(d.car, ct, SetOnText(k, time), last.now, last.unix, last.report))])
      && (RunAll(e, more, cfg, waitSec).car.box[k - 1].stat != 0
          <==> !SweptAfter([Sweep(last.later)] + AllEvents(e, more, cfg, waitSec), last.now + 10 * time))
  {
    hide RunAll, AllQuiet, Quiet, CommandFrame, CommandStep, SetOnText, Received, Events, AllEvents, Sent, Shape, Reply,
      RunEvents, SweptAfter, NoCommands, CommandsIn, Find, Plain;
    var d := RunAll(dev, ins, cfg, waitSec);
    var text := SetOnText(k, time);
    SetOnIsPlain(k, time);
    SetOnIsNoReset(d.car, k, time, last.now);
    CommandIsExecuted(dev, ins, last, text, ct, cfg, waitSec);
    var e := Pass(d, last, cfg, waitSec);
    NotEnded(d, last, cfg, waitSec);
    var es := AllEvents(e, more, cfg, waitSec);
    RunIsBoth(e, more, cfg, waitSec);
    EventsCat(d.car, Events(d, last, cfg, waitSec), es, cfg);
    assert [Command(text, last.now), Sweep(last.later)] + es == [Command(text, last.now)] + ([Sweep(last.later)] + es);
    CommandsAreNone(es);
    SweepIsNoCommand(last.later, es);
    TimedByCommand(d.car, k, time, last.now, [Sweep(last.later)] + es, cfg);
  }

  lemma SweepIsNoCommand(at: u32, es: seq<Event>)
    requires NoCommands(es)
    ensures NoCommands([Sweep(at)] + es)
  {}

  // ----- relays switched on together -----

  /**
   * A relay that a printed SET_ALL orders on for T seconds at tick t is on, over any run in which nothing else sets it,
   * if and only if no sweep came at or past t + 10 T.
   */
  lemma SetAllTimes(s: State, os: seq<Order>, k: nat, now: u32, es: seq<Event>, cfg: Config)
    requires Shape(s) && |os| == MAX_RELAY && k < MAX_RELAY && os[k].On? && |SetAllText(os)| <= 255
    requires os[k].time > 0 && now + 10 * os[k].time < 0x1_0000_0000
    requires Untouched(CommandStep(s, SetAllText(os), now), es, cfg, Relay(k))
    ensures RunEvents(s, [Command(SetAllText(os), now)] + es, cfg).box[k].stat != 0
      <==> !SweptAfter(es, now + 10 * os[k].time)
  {
    hide CommandStep, SetAllText, RunEvents, SweptAfter, FirstMatch, Find, ParseAll, Untouched, Arm;
    var e, w := Command(SetAllText(os), now), Relay(k);
    SetAllRoundTrip(os);
    SetAllTakesEffect(s, os, now, k);
    var t := Step(s, e, cfg);
    assert BoxOf(t, w) == Box(1, os[k].time);
    TimedSwitch(s, e, es, cfg, w);
  }

  // ----- a reset, and a report, from the server -----

  lemma IsPlain(com: string)
    requires forall c :: c in com ==> 'A' <= c <= 'Z' || 'a' <= c <= 'z' || c == ' ' || c == '#'
    ensures Plain(com) && Find(com, "\r\n") == -1
  {
    hide Find;
    forall i | 0 <= i < |com| ensures 0 < com[i] as int < 256 {
      assert com[i] in com;
      assert 'Z' as int == 90 && 'z' as int == 122;
    }
    NotFound(com, "\r\n", '\r') by { assert "\r\n"[0] == '\r'; }
  }

  lemma ResetIsRecognised(com: string)
    requires com == "cpureset"
    ensures FirstMatch(com, 0) == CPURESET
  {
    hide FirstMatch, Find;
    NoneOfFirstFour(com);
    NoneOfNextFive(com);
    NotFound(com, "SET_ON", 'S') by { assert "SET_ON"[0] == 'S'; }
    NotFound(com, "SET_OFF", 'S') by { assert "SET_OFF"[0] == 'S'; }
    FoundAtStart(com, "cpureset");
    MatchStep(com, SET_ON);
    MatchStep(com, SET_OFF);
    MatchStep(com, CPURESET);
  }

  lemma ReportIsRecognised(com: string)
    requires com == "#DO REPORT"
    ensures FirstMatch(com, 0) == DO_REPORT
  {
    hide FirstMatch, Find;
    NoneOfFirstFour(com);
    NotFound(com, "SET_ALL", 'A') by { assert "SET_ALL"[4] == 'A'; }
    NotFound(com, "GET_STAT", 'A') by { assert "GET_STAT"[6] == 'A'; }
    NotFound(com, "setdigout", 'd') by { assert "setdigout"[3] == 'd'; }
    FoundAtStart(com, "#DO REPORT");
    MatchStep(com, 4);
    MatchStep(com, 5);
    MatchStep(com, 6);
    MatchStep(com, 7);
    MatchStep(com, 8);
  }

  lemma ResetRestarts(s: State, com: Text, now: u32)
    requires Shape(s)
    ensures CommandStep(s, com, now).restart == (s.restart || FirstMatch(com, 0) == CPURESET)
  {
    hide FirstMatch, Find, ParseAll, ParseOne, ParsePins, Rest, SkipBlank, Ignition, Douts, Arm, SetOne;
  }

  /** The bytes of a framed cpureset, in any pieces: nothing is answered, and the session ends with the reset error. */
  lemma ResetEndToEnd(dev: Device, ins: seq<In>, last: In, com: string, ct: byte, cfg: Config, waitSec: u32)
    requires Shape(dev.car) && com == "cpureset"
    requires AllQuiet(dev, ins, cfg, waitSec) && Quiet(RunAll(dev, ins, cfg, waitSec), last, cfg, waitSec)
    requires dev.link.kept == [] && last.recv.Byte? && Received(ins) + [last.recv.b] == CommandFrame(com, ct)
    ensures var d := RunAll(dev, ins, cfg, waitSec); var e := Pass(d, last, cfg, waitSec);
      Sent(d, last, cfg, waitSec) == [] && e.link.vixod && Session.ResetError in e.link.err && e.car.restart
  {
    hide RunAll, AllQuiet, Quiet, CommandFrame, CommandStep, Received, Sent, Shape, Plain, Find, FirstMatch, CommandText, Events;
    IsPlain(com);
    ResetIsRecognised(com);
    CommandIsExecuted(dev, ins, last, com, ct, cfg, waitSec);
    var d := RunAll(dev, ins, cfg, waitSec);
    ResetRestarts(d.car, com, last.now);
    LastCompletes(dev, ins, last, com, ct, cfg, waitSec);
    NotEnded(d, last, cfg, waitSec);
    ResetPass(d, last, CommandFrame(com, ct), cfg, waitSec);
    RestartStays(d, last, com, cfg, waitSec);
  }

  /** What the last byte of a frame completes. */
  lemma LastCompletes(dev: Device, ins: seq<In>, last: In, text: string, ct: byte, cfg: Config, waitSec: u32)
    requires Shape(dev.car) && Plain(text) && Find(text, "\r\n") == -1 && |text| <= 255
    requires AllQuiet(dev, ins, cfg, waitSec) && Quiet(RunAll(dev, ins, cfg, waitSec), last, cfg, waitSec)
    requires dev.link.kept == [] && last.recv.Byte? && Received(ins) + [last.recv.b] == CommandFrame(text, ct)
    ensures var d := RunAll(dev, ins, cfg, waitSec);
      && Completed(d, last, cfg, waitSec) == Some(CommandFrame(text, ct)) && CommandText(CommandFrame(text, ct)) == text
      && CarAfterRecord(d, last, cfg, waitSec) == d.car && d.link.kept != [] && d.link.faza == 2
  {
    hide RunAll, AllQuiet, Quiet, CommandText, CommandFrame, Accept, Shape, RecordOf, Units, Received, Due,
      CarAfterRecord, Completed;
    var d := RunAll(dev, ins, cfg, waitSec);
    CommandsAreFrames(dev, ins, cfg, waitSec);
    LastOfFrame(text, ct, Received(ins), last.recv.b);
    QuietPass(d, last, cfg, waitSec);
    InData(d, last, cfg, waitSec);
    NoRecordInside(d, last, cfg, waitSec);
    ArrivesAs(text, ct);
  }

  lemma InData(dev: Device, i: In, cfg: Config, waitSec: u32)
    requires Shape(dev.car) && Quiet(dev, i, cfg, waitSec)
    ensures dev.link.faza == 2
  {}

  lemma ResetPass(dev: Device, i: In, f: seq<byte>, cfg: Config, waitSec: u32)
    requires Shape(dev.car) && !dev.link.vixod && Completed(dev, i, cfg, waitSec) == Some(f)
    requires EnvOf(dev, i, cfg, waitSec).reset
    ensures var e := Pass(dev, i, cfg, waitSec); e.link.vixod && Session.ResetError in e.link.err
  {
    hide Accept, Session.SendPart, Events, RecordStep, CommandStep, CommandText, FirstMatch, Shape;
    EnvHasInputs(dev, i, cfg, waitSec);
    SendPartSame(dev, i, cfg, waitSec);
  }

  lemma RestartStays(dev: Device, i: In, com: Text, cfg: Config, waitSec: u32)
    requires Shape(dev.car) && !dev.link.vixod && Events(dev, i, cfg, waitSec) == [Command(com, i.now), Sweep(i.later)]
    requires CommandStep(dev.car, com, i.now).restart
    ensures Pass(dev, i, cfg, waitSec).car.restart
  {
    hide CommandStep, Session.Step, EnvOf, Events;
    var es := [Command(com, i.now), Sweep(i.later)];
    assert es[1..] == [Sweep(i.later)] && [Sweep(i.later)][1..] == [];
    var t := CommandStep(dev.car, com, i.now);
    assert RunEvents(t, [Sweep(i.later)], cfg) == SweepStep(t, i.later);
  }

  /**
   * The bytes of a framed report request, in any pieces: it is answered "#OK", the next record is due 20 ticks later and
   * carries priority 1.
   */
  lemma ReportEndToEnd(dev: Device, ins: seq<In>, last: In, com: string, ct: byte, cfg: Config, waitSec: u32)
    requires Shape(dev.car) && com == "#DO REPORT" && last.now + 20 < 0x1_0000_0000 && last.replySent
    requires AllQuiet(dev, ins, cfg, waitSec) && Quiet(RunAll(dev, ins, cfg, waitSec), last, cfg, waitSec)
    requires dev.link.kept == [] && last.recv.Byte? && Received(ins) + [last.recv.b] == CommandFrame(com, ct)
    requires !RunAll(dev, ins, cfg, waitSec).car.restart
    ensures var d := RunAll(dev, ins, cfg, waitSec); var e := Pass(d, last, cfg, waitSec);
      && Sent(d, last, cfg, waitSec) == [Answer(Reply(d.car, ct, com, last.now, last.unix, last.report))]
      && AckText(d.car, com, last.now, last.report) == "#OK"
      && e.link.tmrSend == last.now + 20 && e.car.prio == 1
  {
    hide RunAll, AllQuiet, Quiet, CommandFrame, CommandStep, Received, Sent, Shape, Plain, Find, FirstMatch, CommandText, Events,
      Reply, AckText, SessionRuns.AnswersReport;
    IsPlain(com);
    ReportIsRecognised(com);
    CommandIsExecuted(dev, ins, last, com, ct, cfg, waitSec);
    var d := RunAll(dev, ins, cfg, waitSec);
    ResetRestarts(d.car, com, last.now);
    FixedAnswers(d.car, com, last.now, last.report);
    LastCompletes(dev, ins, last, com, ct, cfg, waitSec);
    NotEnded(d, last, cfg, waitSec);
    ReportPass(d, last, CommandFrame(com, ct), cfg, waitSec);
    SessionRuns.ReportBringsRecord(d.link, EnvOf(d, last, cfg, waitSec), EnvOf(d, last, cfg, waitSec), waitSec);
    EnvHasInputs(d, last, cfg, waitSec);
    PrioStays(d, last, com, cfg, waitSec);
  }

  lemma ReportPass(dev: Device, i: In, f: seq<byte>, cfg: Config, waitSec: u32)
    requires Shape(dev.car) && !dev.link.vixod && dev.link.faza == 2 && Completed(dev, i, cfg, waitSec) == Some(f)
    requires CarAfterRecord(dev, i, cfg, waitSec) == dev.car && !CommandStep(dev.car, CommandText(f), i.now).restart
    requires FirstMatch(CommandText(f), 0) == DO_REPORT && i.replySent
    ensures SessionRuns.AnswersReport(dev.link, EnvOf(dev, i, cfg, waitSec), waitSec)
    ensures Pass(dev, i, cfg, waitSec).link == Session.Step(dev.link, EnvOf(dev, i, cfg, waitSec), waitSec).0
  {
    hide Accept, Session.SendPart, Session.Step, Events, RecordStep, CommandStep, CommandText, FirstMatch, Shape;
    EnvHasInputs(dev, i, cfg, waitSec);
    SendPartSame(dev, i, cfg, waitSec);
  }

  lemma PrioStays(dev: Device, i: In, com: Text, cfg: Config, waitSec: u32)
    requires Shape(dev.car) && !dev.link.vixod && Events(dev, i, cfg, waitSec) == [Command(com, i.now), Sweep(i.later)]
    requires FirstMatch(com, 0) == DO_REPORT
    ensures Pass(dev, i, cfg, waitSec).car.prio == 1
  {
    hide Step, Session.Step, EnvOf, Events, FirstMatch, Shape;
    var es := [Command(com, i.now), Sweep(i.later)];
    assert es[1..] == [Sweep(i.later)] && [Sweep(i.later)][1..] == [];
    var t := Step(dev.car, es[0], cfg);
    assert RunEvents(t, [Sweep(i.later)], cfg) == Step(t, Sweep(i.later), cfg);
    PrioStep(dev.car, es[0], cfg);
    PrioStep(t, Sweep(i.later), cfg);
  }

  // ----- the samples of a packet -----

  /**
   * A pass that sends a record sends a packet with as many records as the session says it sends, 1 to 3: the count goes
   * up by one every 600 ticks, and from 3 to 1.
   */
  lemma SamplesMatch(dev: Device, i: In, cfg: Config, waitSec: u32)
    requires Shape(dev.car) && SessionRuns.Inv(dev.link) && !dev.link.vixod
    requires Due(dev.link, i.now) && i.built && i.recordSent
    ensures var n := if i.now < dev.link.tmrTwo then dev.link.kolPack else dev.link.kolPack % 3 + 1;
      var out := Sent(dev, i, cfg, waitSec);
      && Session.SendPart(dev.link, EnvOf(dev, i, cfg, waitSec), waitSec).1 == [Session.SentRecord(n)] && 1 <= n <= 3
      && out != [] && out[0].Packet? && Decode(out[0].bytes).Parsed? && |Decode(out[0].bytes).value| == n
  {
    hide Decode, Sent, EnvOf, Shape, Session.SendPart, TrackerModel.Packet, SessionRuns.Sends, SessionRuns.Inv, RecordOf,
      EnvBefore, Due;
    EnvHasInputs(dev, i, cfg, waitSec);
    DueSends(dev.link, EnvOf(dev, i, cfg, waitSec), waitSec);
    OneToThree(dev.link);
    SessionRuns.SampleCount(dev.link, EnvOf(dev, i, cfg, waitSec), waitSec);
    CountOfRecord(dev, i, cfg, waitSec);
    PacketIsSent(dev, i, cfg, waitSec);
    RecordPacketDecodes(dev.car, RecordOf(dev, i, cfg, waitSec), cfg);
  }

  lemma OneToThree(s: Session.State)
    requires SessionRuns.Inv(s)
    ensures 1 <= s.kolPack <= 3
  {}

  lemma CountOfRecord(dev: Device, i: In, cfg: Config, waitSec: u32)
    requires Shape(dev.car)
    ensures var k := Session.SendPart(dev.link, EnvOf(dev, i, cfg, waitSec), waitSec).0.kolPack;
      1 <= k <= 3 ==> ClampPk(RecordOf(dev, i, cfg, waitSec).kolpack) == k
  {
    hide Session.SendPart, EnvOf, EnvBefore, Shape;
    SendPartSame(dev, i, cfg, waitSec);
  }

  lemma PacketIsSent(dev: Device, i: In, cfg: Config, waitSec: u32)
    requires Shape(dev.car) && !dev.link.vixod && Due(dev.link, i.now) && i.built && i.recordSent
    ensures var out := Sent(dev, i, cfg, waitSec);
      out != [] && out[0] == Out.Packet(TrackerModel.Packet(dev.car, RecordOf(dev, i, cfg, waitSec), cfg))
  {
    hide EnvOf, RecordOf, Completed, CommandText, Reply, TrackerModel.Packet, TypeOf, CarAfterRecord, Shape;
  }

  lemma DueSends(s: Session.State, e: Session.Env, waitSec: u32)
    requires SessionRuns.Inv(s) && !s.vixod && Due(s, e.now) && e.built && e.recordSent
    ensures SessionRuns.Sends(s, e, waitSec)
  {}
}
