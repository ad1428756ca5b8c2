/** The tracker's state and what each event does to it: a record, a text command, a sweep of the relay timers. */
module TrackerModel {
  import opened Words
  import opened CStr
  import opened Clock
  import opened Codec8
  import opened Mirror
  import opened Scenario
  import opened Commands

  /** A command text: at most 255 characters and no terminator. */
  type Text = s: string | |s| <= 255

  /** The clock readings of one record: a time stamp for each possible sample and one left in the mirror. */
  type Stamps = s: seq<u64> | |s| == MAX_PK + 1 witness [0, 0, 0, 0]

  datatype State = State(drive: Drive, info: Gps, box: seq<Box>, tmrBox: seq<u32>, pin: seq<Box>, tmrPin: seq<u32>,
                         prio: byte, restart: bool)

  ghost predicate Shape(s: State) {
    |s.box| == |s.tmrBox| == MAX_RELAY && |s.pin| == |s.tmrPin| == MAX_PIN && s.drive.cdut < 4
  }

  /** Power-on: everything off, at the start of the scenario. */
  function Initial(latitude: u32, longitude: u32, cfg: Config): (s: State)
    ensures Shape(s)
  {
    State(Drive(PowerOn(latitude, longitude), 1, 0, 3, cfg.spMove, 0, 0), Gps(0, 0, 0, 0, 0, 0),
      seq(MAX_RELAY, _ => Box(0, 0)), seq(MAX_RELAY, _ => 0), seq(MAX_PIN, _ => Box(0, 0)), seq(MAX_PIN, _ => 0), 0, false)
  }

  // ----- record -----

  /** kolpack samples; `scenario` is work mode 1; `way` is the distance driven; `sat` a fresh satellite count, if due. */
  datatype RecordIn = RecordIn(kolpack: byte, scenario: bool, way: u32, stamps: Stamps, sat: Option<byte>)

  /** The mirror as it is sent: satellites, movement flag, time stamp and priority brought up to date. */
  function Finish(m: Mirror, prio: byte, ts: u64, sat: Option<byte>): Mirror {
    var gps := if sat.Some? then m.gps.(satellites := sat.value) else m.gps;
    m.(gps := gps, moves := if m.gps.speed != 0 || m.ioSpeed != 0 then 1 else 0, ts := ts, prio := prio)
  }

  function DriveRecord(d: Drive, r: RecordIn, cfg: Config): Drive {
    if r.scenario then Record1(d, r.way, cfg) else d.(period := cfg.spPark)
  }

  function RecordStep(s: State, r: RecordIn, cfg: Config): (t: State)
    ensures Shape(s) ==> Shape(t)
  {
    var d := DriveRecord(s.drive, r, cfg);
    var m := Finish(d.m, s.prio, r.stamps[ClampPk(r.kolpack)], r.sat);
    s.(drive := d.(m := m), info := m.gps, prio := 0)
  }

  /** The packet a record sends: the new mirror, each sample with its own time stamp. */
  function Packet(s: State, r: RecordIn, cfg: Config): seq<byte> {
    Frame(PacketData(RecordStep(s, r, cfg).drive.m, r.stamps[..ClampPk(r.kolpack)]))
  }

  // ----- relay timers -----

  predicate Expired(tmr: u32, now: u32) { tmr > 0 && CheckTmr(now, tmr) }

  function SweptBoxes(box: seq<Box>, tmr: seq<u32>, now: u32): (r: seq<Box>)
    requires |box| == |tmr|
    ensures |r| == |box|
  {
    seq(|box|, k requires 0 <= k < |box| => if Expired(tmr[k], now) then Box(0, 0) else box[k])
  }

  function SweptTimers(tmr: seq<u32>, now: u32): (r: seq<u32>)
    ensures |r| == |tmr|
  {
    seq(|tmr|, k requires 0 <= k < |tmr| => if Expired(tmr[k], now) then 0 else tmr[k])
  }

  function SweptDouts(m: Mirror, tmr: seq<u32>, now: u32): Mirror
    requires |tmr| == MAX_PIN
  {
    m.(dout1 := if Expired(tmr[0], now) then 0 else m.dout1, dout2 := if Expired(tmr[1], now) then 0 else m.dout2,
       dout3 := if Expired(tmr[2], now) then 0 else m.dout3, dout4 := if Expired(tmr[3], now) then 0 else m.dout4)
  }

  function SweepStep(s: State, now: u32): (t: State)
    requires Shape(s)
    ensures Shape(t)
  {
    s.(box := SweptBoxes(s.box, s.tmrBox, now), tmrBox := SweptTimers(s.tmrBox, now),
       pin := SweptBoxes(s.pin, s.tmrPin, now), tmrPin := SweptTimers(s.tmrPin, now),
       drive := s.drive.(m := SweptDouts(s.drive.m, s.tmrPin, now)))
  }

  // ----- commands -----

  function Applied(box: seq<Box>, es: seq<Entry>): (r: seq<Box>)
    requires |box| == |es|
    ensures |r| == |box|
  {
    seq(|box|, k requires 0 <= k < |box| => SetBox(box[k], es[k]))
  }

  function Armed(box: seq<Box>, now: u32): (r: seq<u32>)
    ensures |r| == |box|
  {
    seq(|box|, k requires 0 <= k < |box| => Arm(box[k], now))
  }

  function SetAllStep(s: State, com: Text, now: u32): (r: Option<State>)
    requires Shape(s) && Find(com, CMDS[SET_ALL]) != -1
    ensures r.Some? ==> Shape(r.value)
  {
    var es := ParseAll(com);
    if es.None? then None
    else
      var box := Applied(s.box, es.value);
      Some(s.(box := box, tmrBox := Armed(box, now), drive := s.drive.(m := Ignition(s.drive.m, box))))
  }

  function SetOneStep(s: State, com: Text, ind: int, now: u32): (r: Option<State>)
    requires Shape(s) && (ind == SET_ON || ind == SET_OFF) && Find(com, CMDS[ind]) != -1
    ensures r.Some? ==> Shape(r.value)
  {
    var one := ParseOne(SkipBlank(Rest(com, ind)));
    if one.None? then None
    else
      var k, b := one.value.0, SetOne(one.value, ind == SET_ON);
      var box := s.box[k := b];
      var m := if k == 6 || k == 7 then Ignition(s.drive.m, box) else s.drive.m;
      Some(s.(box := box, tmrBox := s.tmrBox[k := Arm(b, now)], drive := s.drive.(m := m)))
  }

  function SetPinsStep(s: State, com: Text, now: u32): (r: Option<State>)
    requires Shape(s) && Find(com, CMDS[SETDIGOUT1]) != -1
    ensures r.Some? ==> Shape(r.value)
  {
    var pin := ParsePins(com, s.pin);
    if pin.None? then None
    else
      Some(s.(pin := pin.value, tmrPin := Armed(pin.value, now),
              drive := s.drive.(m := Douts(s.drive.m, pin.value))))
  }

  /** The state after the command proper; None if the command is rejected. */
  function Effect(s: State, com: Text, now: u32): (r: Option<State>)
    requires Shape(s)
    ensures r.Some? ==> Shape(r.value)
  {
    var ind := FirstMatch(com, 0);
    if ind == SET_ALL then SetAllStep(s, com, now)
    else if ind == SET_ON || ind == SET_OFF then SetOneStep(s, com, ind, now)
    else if ind == SETDIGOUT1 then SetPinsStep(s, com, now)
    else if ind == DO_REPORT then Some(s.(prio := 1))
    else if ind == CPURESET then Some(s.(restart := true))
    else Some(s)
  }

  function CommandStep(s: State, com: Text, now: u32): (t: State)
    requires Shape(s)
    ensures Shape(t)
  {
    var e := Effect(s, com, now);
    var t := if e.Some? then e.value else s;
    t.(info := t.drive.m.gps)
  }

  // ----- events -----

  datatype Event = Record(rec: RecordIn) | Command(com: Text, now: u32) | Sweep(at: u32)

  function Step(s: State, e: Event, cfg: Config): (t: State)
    requires Shape(s)
    ensures Shape(t)
  {
    match e
    case Record(r) => RecordStep(s, r, cfg)
    case Command(com, now) => CommandStep(s, com, now)
    case Sweep(now) => SweepStep(s, now)
  }

  function RunEvents(s: State, es: seq<Event>, cfg: Config): (t: State)
    requires Shape(s)
    ensures Shape(t)
    decreases |es|
  {
    if es == [] then s else RunEvents(Step(s, es[0], cfg), es[1..], cfg)
  }
}
