/** The tracker itself: state updated in place, one method per event, each proved to do what the model says. */
module Tracker {
  import opened Words
  import opened Wire
  import opened CStr
  import opened Clock
  import opened Codec8
  import opened Mirror
  import opened Scenario
  import opened Commands
  import opened TrackerModel
  import opened Replies

  class Tracker {
    var mirror: Mirror
    var info: Gps
    const box: array<Box>
    const tmrBox: array<u32>
    const pin: array<Box>
    const tmrPin: array<u32>
    var scenaIndex: int
    var scenaKols: int
    var cdut: nat
    var sendPeriod: u32
    var moveFlag: byte
    var stopFlag: byte
    var prio: byte
    var restartFlag: bool
    const cfg: Config

    ghost predicate Valid()
      reads this
    {
      && box.Length == tmrBox.Length == MAX_RELAY && pin.Length == tmrPin.Length == MAX_PIN
      && box != pin && tmrBox != tmrPin && cdut < 4
    }

    /** The drive state around a working copy of the mirror. */
    ghost function At(m: Mirror): Drive
      reads this
    {
      Drive(m, scenaIndex, scenaKols, cdut, sendPeriod, moveFlag, stopFlag)
    }

    ghost function Model(): (s: State)
      requires Valid()
      reads this, box, tmrBox, pin, tmrPin
      ensures Shape(s)
    {
      State(At(mirror), info, box[..], tmrBox[..], pin[..], tmrPin[..], prio, restartFlag)
    }

    constructor (legs: seq<Leg>, spPark: u32, spMove: u32, latitude: u32, longitude: u32)
      ensures Valid() && fresh(box) && fresh(tmrBox) && fresh(pin) && fresh(tmrPin)
      ensures cfg == Config(legs, spPark, spMove) && Model() == Initial(latitude, longitude, cfg)
    {
      mirror, info := PowerOn(latitude, longitude), Gps(0, 0, 0, 0, 0, 0);
      box, tmrBox := new Box[MAX_RELAY](_ => Box(0, 0)), new u32[MAX_RELAY](_ => 0);
      pin, tmrPin := new Box[MAX_PIN](_ => Box(0, 0)), new u32[MAX_PIN](_ => 0);
      scenaIndex, scenaKols, cdut, sendPeriod, moveFlag, stopFlag := 1, 0, 3, spMove, 0, 0;
      prio, restartFlag, cfg := 0, false, Config(legs, spPark, spMove);
    }

    // ----- the legs of make_record -----

    method Parked(start: Mirror) returns (mirs: Mirror)
      modifies `scenaKols, `sendPeriod, `moveFlag
      ensures At(mirs) == Park1(old(At(start)), cfg.spPark)
    {
      mirs := start;
      moveFlag := 0;
      sendPeriod := cfg.spPark;
      mirs := mirs.(gps := mirs.gps.(speed := 0), ioSpeed := 0);
      scenaKols := 1;
      mirs := mirs.(din2 := 1, din3 := 1, din4 := 1, hood := 1200, tach := 326, odo := 0);
      if mirs.dout1 != 0 {
        mirs := mirs.(din1 := 1, ignition := 1);
        var bit16 := mirs.fuel;
        if bit16 > (MIN_FUEL_TANK - MAX_FUEL_TANK) / 2 {
          bit16 := bit16 - (MIN_FUEL_TANK - MAX_FUEL_TANK) / 2;
          if bit16 < MAX_FUEL_TANK { bit16 := MAX_FUEL_TANK; }
          mirs := mirs.(fuel := bit16);
        } else {
          mirs := mirs.(din4 := 0);
          sendPeriod := 2;
          scenaKols := 255;
          mirs := mirs.(tach := 1536);
          moveFlag := 1;
          mirs := mirs.(externalVolt := 12950);
        }
      }
    }

    method Stopped(start: Mirror) returns (mirs: Mirror)
      modifies `scenaKols, `sendPeriod, `moveFlag
      ensures At(mirs) == Stop1(old(At(start)), cfg.spPark)
    {
      mirs := start;
      moveFlag := 0;
      if scenaKols == 1 {
        mirs := mirs.(din1 := 0, ignition := 0);
        mirs := mirs.(din2 := 0, din3 := 0, din4 := 0, hood := 234);
      } else {
        mirs := mirs.(din2 := 1, din3 := 1, din4 := 1, hood := 1250);
      }
      if scenaKols == 3 { scenaKols := scenaKols - 1; }
      mirs := mirs.(gps := mirs.gps.(speed := 0), ioSpeed := 0);
      sendPeriod := cfg.spPark;
      mirs := mirs.(tach := 21, externalVolt := 12050, odo := 0);
      if mirs.dout1 == 0 { scenaKols := 255; }
    }

    /** The end of every moving case: period, fuel divider and flags. */
    method Burn(start: Mirror) returns (mirs: Mirror)
      requires cdut < 4
      modifies `sendPeriod, `cdut, `stopFlag, `moveFlag
      ensures At(mirs) == Burn1(old(At(start)), cfg.spMove) && cdut < 4
    {
      mirs := start;
      sendPeriod := cfg.spMove;
      cdut := (cdut + 255) % 256 % 4;
      if cdut == 0 {
        var bit16 := Wrap16(mirs.fuel + 1);
        mirs := mirs.(fuel := bit16);
        if bit16 >= MIN_FUEL_TANK - MIN_FUEL_TANK / 10 { stopFlag := 1; }
      }
      moveFlag := 1;
    }

    static method NorthSouth(start: Mirror, one: Leg, kols: int, way: u32) returns (mirs: Mirror)
      requires one.dir.North? || one.dir.South?
      ensures mirs == Moved(start, one, kols, way)
    {
      var delta: int := one.delta;
      if delta < 0 { delta := delta * -1; }
      var tach, speed := Wrap16(start.tach - 28), Wrap16(kols + 8);
      var total := Wrap32(way + start.totalOdo);
      var bit15: int, lat: int, angle: u16 := start.gps.altitude, start.gps.latitude, speed;
      if one.dir.North? {
        lat := Wrap32(lat + delta);
        angle := 0;
        bit15 := Wrap16(bit15 - 1);
      } else if one.dir.South? {
        lat := Wrap32(lat - delta);
        angle := 180;
        bit15 := Wrap16(bit15 + 1);
      }
      var gps := start.gps.(latitude := lat, altitude := bit15, angle := angle, speed := speed);
      mirs := start.(gps := gps, tach := tach, ioSpeed := speed, odo := way, totalOdo := total);
    }

    static method EastWest(start: Mirror, one: Leg, kols: int, way: u32) returns (mirs: Mirror)
      requires one.dir.East? || one.dir.West?
      ensures mirs == Moved(start, one, kols, way)
    {
      var delta: int := one.delta;
      if delta < 0 { delta := delta * -1; }
      var tach, speed := Wrap16(start.tach + 56), Wrap16(kols + 5);
      var total := Wrap32(way + start.totalOdo);
      var bit15: int, lon: int, angle: u16 := start.gps.altitude, start.gps.longitude, speed;
      if one.dir.West? {
        lon := Wrap32(lon - delta);
        angle := 270;
        bit15 := Wrap16(bit15 - 1);
      } else if one.dir.East? {
        lon := Wrap32(lon + delta);
        angle := 90;
        bit15 := Wrap16(bit15 + 1);
      }
      var gps := start.gps.(longitude := lon, altitude := bit15, angle := angle, speed := speed);
      mirs := start.(gps := gps, tach := tach, ioSpeed := speed, odo := way, totalOdo := total);
    }

    static method Diagonal(start: Mirror, one: Leg, kols: int, way: u32) returns (mirs: Mirror)
      requires one.dir.NorthEast? || one.dir.NorthWest? || one.dir.SouthEast? || one.dir.SouthWest?
      ensures mirs == Moved(start, one, kols, way)
    {
      var delta: int := one.delta;
      if delta < 0 { delta := delta * -1; }
      var lat: int, tach: int := start.gps.latitude, start.tach;
      if one.dir.NorthWest? || one.dir.NorthEast? {
        lat := Wrap32(lat + delta);
        tach := Wrap16(tach - 18);
      } else if one.dir.SouthWest? || one.dir.SouthEast? {
        lat := Wrap32(lat - delta);
        tach := Wrap16(tach - 32);
      }
      assert delta == Abs(one.delta);
      assert lat == Wrap32(start.gps.latitude + NorthSign(one.dir) * Abs(one.delta));
      assert tach == Wrap16(start.tach + TachChange(one.dir));
      var speed, total := Wrap16(kols + 8), Wrap32(way + start.totalOdo);
      var bit15: int, lon: int, angle: u16 := start.gps.altitude, start.gps.longitude, speed;
      if one.dir.NorthWest? { angle := 315; }
      else if one.dir.SouthWest? { angle := 225; }
      else if one.dir.NorthEast? { angle := 45; }
      else if one.dir.SouthEast? { angle := 135; }
      if one.dir.NorthWest? || one.dir.SouthWest? {
        lon := Wrap32(lon - delta);
        bit15 := Wrap16(bit15 - 1);
      } else if one.dir.NorthEast? || one.dir.SouthEast? {
        lon := Wrap32(lon + delta);
        bit15 := Wrap16(bit15 + 1);
      }
      assert lon == Wrap32(start.gps.longitude + EastSign(one.dir) * Abs(one.delta));
      assert bit15 == Wrap16(start.gps.altitude + Climb(one.dir)) && angle == Heading(one.dir);
      var gps := Gps(lon, lat, bit15, angle, start.gps.satellites, speed);
      mirs := start.(gps := gps, tach := tach, ioSpeed := speed, odo := way, totalOdo := total);
    }

    /** The switch over the leg's direction and the step to the next leg. */
    method RideLeg(start: Mirror, way: u32) returns (mirs: Mirror)
      requires cdut < 4
      modifies `scenaIndex, `scenaKols, `sendPeriod, `cdut, `stopFlag, `moveFlag
      ensures At(mirs) == Record1(old(At(start)), way, cfg) && cdut < 4
    {
      hide Park1, Stop1, Burn1, Moved;
      mirs := start;
      if 1 <= scenaIndex <= |cfg.legs| {
        var one := cfg.legs[scenaIndex - 1];
        scenaKols := scenaKols + 1;
        match one.dir {
          case Park => mirs := Parked(mirs);
          case Stop => mirs := Stopped(mirs);
          case North | South =>
            mirs := NorthSouth(mirs, one, scenaKols, way);
            mirs := Burn(mirs);
          case East | West =>
            mirs := EastWest(mirs, one, scenaKols, way);
            mirs := Burn(mirs);
          case _ =>
            mirs := Diagonal(mirs, one, scenaKols, way);
            mirs := Burn(mirs);
        }
        if scenaKols >= one.kols {
          scenaKols := 0;
          scenaIndex := scenaIndex + 1;
          if scenaIndex > |cfg.legs| { scenaIndex := 1; }
          sendPeriod := cfg.spMove;
        }
      }
    }

    /** The part of make_record every mode has: satellites, movement flag, priority. */
    static method BringUpToDate(m: Mirror, prio: byte, sat: Option<byte>) returns (mirs: Mirror)
      ensures mirs == Finish(m, prio, m.ts, sat)
    {
      mirs := m;
      if sat.Some? { mirs := mirs.(gps := mirs.gps.(satellites := sat.value)); }
      if mirs.gps.speed != 0 || mirs.ioSpeed != 0 {
        mirs := mirs.(moves := 1);
      } else {
        mirs := mirs.(moves := 0);
      }
      mirs := mirs.(prio := prio);
    }

    /** The state part of make_record: advance the scenario and bring the mirror up to date. */
    method Advance(r: RecordIn)
      requires Valid()
      modifies `mirror, `info, `prio, `scenaIndex, `scenaKols, `sendPeriod, `cdut, `stopFlag, `moveFlag
      ensures Valid() && Model() == RecordStep(old(Model()), r, cfg)
    {
      hide Record1;
      var mirs := mirror;
      if r.scenario {
        mirs := RideLeg(mirs, r.way);
      } else {
        sendPeriod := cfg.spPark;
      }
      mirs := BringUpToDate(mirs, prio, r.sat);
      prio := 0;
      mirs := mirs.(ts := r.stamps[ClampPk(r.kolpack)]);
      mirror := mirs;
      info := mirs.gps;
    }

    /** make_record: the new state, and the packet of it in the buffer. */
    method MakeRecord(buf: array<byte>, r: RecordIn) returns (ret: nat)
      requires Valid() && buf.Length == BUF_SIZE
      modifies buf, `mirror, `info, `prio, `scenaIndex, `scenaKols, `sendPeriod, `cdut, `stopFlag, `moveFlag
      ensures Valid() && Model() == RecordStep(old(Model()), r, cfg)
      ensures buf[..] == Padded(Packet(old(Model()), r, cfg)) && ret == |Packet(old(Model()), r, cfg)|
    {
      hide RecordStep, Padded, PacketData, Frame;
      var pk: nat := r.kolpack;
      if pk == 0 { pk := 1; } else if pk > MAX_PK { pk := MAX_PK; }
      Advance(r);
      ret := LayOut(mirror, r.stamps[..pk], buf);
    }

    /** The sweep over relay and pin timers at the end of every session iteration. */
    method SweepTimers(now: u32)
      requires Valid()
      modifies `mirror, box, tmrBox, pin, tmrPin
      ensures Valid() && Model() == SweepStep(old(Model()), now)
    {
      hide SweptDouts;
      SweepBoxes(box, tmrBox, now);
      SweepPins(now);
    }

    /** The loop over the pins: an expired timer also clears the pin's output in the mirror. */
    method SweepPins(now: u32)
      requires Valid()
      modifies `mirror, pin, tmrPin
      ensures pin[..] == SweptBoxes(old(pin[..]), old(tmrPin[..]), now)
      ensures tmrPin[..] == SweptTimers(old(tmrPin[..]), now)
      ensures mirror == SweptDouts(old(mirror), old(tmrPin[..]), now)
    {
      ghost var start, timers := mirror, tmrPin[..];
      var j := 0;
      while j < MAX_PIN
        invariant 0 <= j <= MAX_PIN
        invariant forall k :: 0 <= k < MAX_PIN ==>
          tmrPin[k] == (if k < j && Expired(timers[k], now) then 0 else timers[k]) &&
          pin[k] == (if k < j && Expired(timers[k], now) then Box(0, 0) else old(pin[k]))
        invariant mirror == SweptDouts(start, seq(MAX_PIN, k requires 0 <= k < MAX_PIN => if k < j then timers[k] else 0), now)
      {
        if tmrPin[j] > 0 && now >= tmrPin[j] {
          tmrPin[j] := 0;
          pin[j] := Box(0, 0);
          match j {
            case 0 => mirror := mirror.(dout1 := 0);
            case 1 => mirror := mirror.(dout2 := 0);
            case 2 => mirror := mirror.(dout3 := 0);
            case _ => mirror := mirror.(dout4 := 0);
          }
        }
        j := j + 1;
      }
    }

    /** The same loop over the relays, which have no place in the mirror. */
    static method SweepBoxes(b: array<Box>, t: array<u32>, now: u32)
      requires b.Length == t.Length
      modifies b, t
      ensures b[..] == SweptBoxes(old(b[..]), old(t[..]), now) && t[..] == SweptTimers(old(t[..]), now)
    {
      var j := 0;
      while j < b.Length
        invariant 0 <= j <= b.Length
        invariant forall k :: 0 <= k < b.Length ==>
          t[k] == (if k < j && Expired(old(t[k]), now) then 0 else old(t[k])) &&
          b[k] == (if k < j && Expired(old(t[k]), now) then Box(0, 0) else old(b[k]))
      {
        if t[j] > 0 && now >= t[j] {
          t[j] := 0;
          b[j] := Box(0, 0);
        }
        j := j + 1;
      }
    }

    // ----- the cases of parse_cmd -----

    /** The commit loop of SET_ALL: timers from the new states. */
    static method ArmAll(bx: array<Box>, t: array<u32>, now: u32)
      requires bx.Length == t.Length
      modifies t
      ensures t[..] == Armed(bx[..], now)
    {
      for k := 0 to bx.Length
        invariant forall i :: 0 <= i < k ==> t[i] == Arm(bx[i], now)
      {
        if bx[k].stat != 0 {
          t[k] := if bx[k].time > 0 then GetTmr(now, Wrap32(bx[k].time * ONE_SECOND)) else 0;
        } else {
          t[k] := 0;
        }
      }
    }

    static method CopyBoxes(from: array<Box>, to: array<Box>)
      requires from.Length == to.Length && from != to
      modifies to
      ensures to[..] == from[..]
    {
      for k := 0 to from.Length
        invariant to[..k] == from[..k]
      {
        to[k] := from[k];
      }
    }

    static method ParseToken(word: string) returns (e: Option<Entry>)
      ensures e == ParseEntry(word)
    {
      var tmp := word[..|word| % 32];
      var comma := IndexOf(tmp, ',');
      if comma == |tmp| { return None; }
      var tim, name := Atoi(tmp[comma + 1..]), tmp[..comma];
      if 'X' in name { return Some(Keep); }
      var bit := Atoi(name);
      if bit == 0 { tim := 0; }
      return Some(Set(bit, tim));
    }

    /** The token loop of SET_ALL over a working copy of the relays; it stops at the first bad token. */
    static method ParseTokens(text: string, bx: array<Box>) returns (erc: bool)
      requires bx.Length == MAX_RELAY
      modifies bx
      ensures var es := ParseEntries(text, MAX_RELAY);
        erc == es.None? && (es.Some? ==> bx[..] == Applied(old(bx[..]), es.value))
    {
      hide ParseEntry, Word, After;
      erc := false;
      var uks, k := text, 0;
      ghost var was, done: seq<Entry> := bx[..], [];
      PrependNone(ParseEntries(text, MAX_RELAY));
      while k < MAX_RELAY
        invariant 0 <= k <= MAX_RELAY && |done| == k
        invariant ParseEntries(text, MAX_RELAY) == Prepend(done, ParseEntries(uks, MAX_RELAY - k))
        invariant forall i :: 0 <= i < k ==> bx[i] == SetBox(was[i], done[i])
        invariant forall i :: k <= i < MAX_RELAY ==> bx[i] == was[i]
      {
        var e := ParseToken(Word(uks));
        if e.None? {
          erc := true;
          return;
        }
        if e.value.Set? { bx[k] := Box(Wrap8(e.value.bit), Wrap32(e.value.time)); }
        PrependNext(done, e.value, ParseEntries(After(uks), MAX_RELAY - k - 1));
        done := done + [e.value];
        uks := After(uks);
        k := k + 1;
      }
    }

    method SwitchIgnition(bx: seq<Box>)
      requires |bx| == MAX_RELAY
      modifies `mirror
      ensures mirror == Ignition(old(mirror), bx)
    {
      if bx[6].stat != 0 && bx[7].stat != 0 {
        mirror := mirror.(din1 := 1, ignition := 1);
      } else if bx[6].stat == 0 && bx[7].stat == 0 {
        mirror := mirror.(din1 := 0, ignition := 0);
      }
    }

    method SetAll(com: Text, now: u32) returns (erc: bool)
      requires Valid() && Find(com, CMDS[SET_ALL]) != -1
      modifies `mirror, box, tmrBox
      ensures Valid() && erc == SetAllStep(old(Model()), com, now).None?
      ensures Model() == if erc then old(Model()) else SetAllStep(old(Model()), com, now).value
    {
      hide Find, ParseEntries, Applied, Armed, Ignition, Rest;
      var uks := SkipBlank(Rest(com, SET_ALL));
      var bx := new Box[MAX_RELAY];
      CopyBoxes(box, bx);
      erc := ParseTokens(uks, bx);
      if !erc {
        ArmAll(bx, tmrBox, now);
        SwitchIgnition(bx[..]);
        CopyBoxes(bx, box);
      }
    }

    method SetOneRelay(com: Text, ind: int, now: u32) returns (erc: bool)
      requires Valid() && (ind == SET_ON || ind == SET_OFF) && Find(com, CMDS[ind]) != -1
      modifies `mirror, box, tmrBox
      ensures Valid() && erc == SetOneStep(old(Model()), com, ind, now).None?
      ensures Model() == if erc then old(Model()) else SetOneStep(old(Model()), com, ind, now).value
    {
      hide Find, Ignition, Rest;
      erc := true;
      var uks := SkipBlank(Rest(com, ind));
      var uke, tim := IndexOf(uks, ' '), -1;
      if uke == |uks| { tim := 0; }
      var k := Atoi(uks[..uke % 2]) - 1;
      assert uks[..uke][..uke % 2] == uks[..uke % 2];
      if 0 <= k < MAX_RELAY {
        var bit := if ind == SET_ON then 1 else 0;
        if tim != 0 { tim := Atoi(After(uks)); }
        if bit == 0 { tim := 0; }
        box[k] := Box(bit, Wrap32(tim));
        tmrBox[k] := if bit != 0 && box[k].time > 0 then GetTmr(now, Wrap32(box[k].time * ONE_SECOND)) else 0;
        erc := false;
        if k == 6 || k == 7 { SwitchIgnition(box[..]); }
      }
    }

    method SetDigOut(com: Text, now: u32) returns (erc: bool)
      requires Valid() && Find(com, CMDS[SETDIGOUT1]) != -1
      modifies `mirror, pin, tmrPin
      ensures Valid() && erc == SetPinsStep(old(Model()), com, now).None?
      ensures Model() == if erc then old(Model()) else SetPinsStep(old(Model()), com, now).value
    {
      hide Find, Rest, Armed, PinTimes, PinStats;
      var uks := SkipBlank(Rest(com, SETDIGOUT1));
      var uke := IndexOf(uks, ' ');
      erc := uke == |uks|;
      if !erc {
        var pn := new Box[MAX_PIN];
        ReadPinStates(pin[..], uks[..uke], pn);
        ReadPinTimes(After(uks), pn, PinStats(pin[..], uks[..uke]));
        ArmAll(pn, tmrPin, now);
        mirror := mirror.(dout1 := pn[0].stat, dout2 := pn[1].stat, dout3 := pn[2].stat, dout4 := pn[3].stat);
        CopyBoxes(pn, pin);
      }
    }

    /** The first loop of setdigout: pin states from the characters of a word. */
    static method ReadPinStates(was: seq<Box>, word: string, pn: array<Box>)
      requires |was| == pn.Length
      modifies pn
      ensures forall k :: 0 <= k < pn.Length ==> pn[k].stat == PinStats(was, word)[k]
    {
      for k := 0 to pn.Length
        invariant forall i :: 0 <= i < k ==> pn[i].stat == PinStat(was[i].stat, word, i)
      {
        var c := if k < |word| then word[k] as int else 0;
        pn[k] := if c == 'X' as int then was[k] else Box(Wrap8(c - '0' as int), 0);
      }
    }

    /** The second loop of setdigout: one time for each pin from the words of a text. */
    static method ReadPinTimes(text: string, pn: array<Box>, ghost stats: seq<byte>)
      requires |stats| == pn.Length && forall k :: 0 <= k < pn.Length ==> pn[k].stat == stats[k]
      modifies pn
      ensures pn[..] == PinTimes(text, stats)
    {
      hide Word, After, Atoi;
      var uks, k := text, 0;
      while k < pn.Length
        invariant 0 <= k <= pn.Length && uks == Skip(text, k)
        invariant forall i :: 0 <= i < k ==> pn[i] == PinBox(text, stats, i)
        invariant forall i :: k <= i < pn.Length ==> pn[i].stat == stats[i]
      {
        pn[k] := Box(pn[k].stat, if pn[k].stat != 0 then Wrap32(Atoi(Word(uks))) else 0);
        uks := After(uks);
        k := k + 1;
      }
    }

    // ----- parse_cmd -----

    static method Recognise(com: Text) returns (ind: int)
      ensures ind == FirstMatch(com, 0)
    {
      hide Find;
      ind := -1;
      for i := 0 to MAX_CMDS
        invariant FirstMatch(com, 0) == FirstMatch(com, i)
      {
        if Find(com, CMDS[i]) != -1 { return i; }
      }
    }

    /** The switch over the command: the new state, and the text of the answer. */
    method Execute(com: Text, ind: int, now: u32, report: string) returns (ack: string)
      requires Valid() && ind == FirstMatch(com, 0)
      modifies `mirror, `prio, `restartFlag, box, tmrBox, pin, tmrPin
      ensures Valid()
      ensures var e := Effect(old(Model()), com, now); Model() == if e.Some? then e.value else old(Model())
      ensures ack == AckText(old(Model()), com, now, report)
    {
      hide SetAllStep, SetOneStep, SetPinsStep, Find, PinsText, StatText;
      if ind == -1 {
        ack := "Error cmd";
      } else if ind in {GETGPS, GETVER, GETIO} {
        ack := report;
      } else if ind == SET_ALL {
        var erc := SetAll(com, now);
        ack := com + (if erc then " : ERROR\r\n" else " : OK\r\n");
      } else if ind == SET_ON || ind == SET_OFF {
        var erc := SetOneRelay(com, ind, now);
        ack := com + (if erc then " : ERROR\r\n" else " : OK\r\n");
      } else if ind == GET_STAT {
        ack := GetStat(com);
      } else if ind == SETDIGOUT1 {
        var erc := SetDigOut(com, now);
        ack := if erc then com + " : Error cmd" else PinsText(pin[..]);
        assert !erc ==> pin[..] == Model().pin;
      } else if ind == DO_REPORT {
        prio := 1;
        ack := "#OK";
      } else if ind == CPURESET {
        restartFlag := true;
        ack := "restart now";
      } else {
        ack := "All Records Deleted";
      }
    }

    /** GET_STAT: one relay, or all of them or-ed into a byte. */
    method GetStat(com: Text) returns (ack: string)
      requires Valid() && Find(com, CMDS[GET_STAT]) != -1
      ensures ack == StatText(Model(), com)
    {
      hide Find, Rest, Or8;
      var uks := Rest(com, GET_STAT);
      if IndexOf(uks, ' ') < |uks| {
        var k := Atoi(After(uks)) - 1;
        ack := if 0 <= k < MAX_RELAY then com + " : " + Decimal(box[k].stat) + "\r\n" else com + " : ERROR\r\n";
      } else {
        ack := com + " : " + Hex2(Mask(box[..]) as int) + "\r\n";
      }
    }

    /** The frame of an answer, piece by piece into the output buffer. */
    static method Answer(out: array<byte>, cid: byte, ct: byte, unix: u32, body: seq<byte>) returns (ret: nat)
      requires out.Length == BUF_SIZE && (cid == 12 || cid == 13) && |body| <= 1024
      modifies out
      ensures out[..] == Padded(Frame(Message(cid, Wrap8(ct + 1), unix, body)))
      ensures ret == |Frame(Message(cid, Wrap8(ct + 1), unix, body))|
    {
      hide Padded, PutBe, PutLe, Hton, Frame;
      var i := |body|;
      var len := 15 - 8 + i + 1 + (if cid == 13 then 4 else 0);
      ghost var data := Message(cid, Wrap8(ct + 1), unix, body);
      StoredIsBigEndian(len, 4);
      StoredIsBigEndian(i, 4);
      StoredIsBigEndian(unix, 4);
      Clear(out);
      var head := [0, 0, 0, 0] + PutLe(Hton(len, 4), 4) + [cid, 1, Wrap8(ct + 1)] + PutLe(Hton(i, 4), 4);
      var uki := Append(out, 0, head, []);
      assert [] + head == head;
      var stamp: seq<byte> := if cid == 13 then PutLe(Hton(unix, 4), 4) else [];
      uki := Append(out, uki, stamp, head);
      uki := Append(out, uki, body, head + stamp);
      uki := Append(out, uki, [1, 0, 0], head + stamp + body);
      assert head + stamp + body + [1, 0, 0] == [0, 0, 0, 0] + PutBe(len, 4) + data + [0, 0];
      ret := AppendKsum(out, uki, data);
      FrameLength(data);
    }

    /** parse_cmd: recognise the command, carry it out, write the answer. */
    method ParseCmd(ct: byte, com: Text, out: array<byte>, now: u32, unix: u32, report: string)
      returns (ret: nat, ci: int)
      requires Valid() && out.Length == BUF_SIZE && |report| <= 383
      modifies out, `mirror, `info, `prio, `restartFlag, box, tmrBox, pin, tmrPin
      ensures Valid() && Model() == CommandStep(old(Model()), com, now) && ci == FirstMatch(com, 0)
      ensures out[..] == Padded(Reply(old(Model()), ct, com, now, unix, report))
      ensures ret == |Reply(old(Model()), ct, com, now, unix, report)|
    {
      hide Effect, FirstMatch, AckText, Padded, Frame, Message;
      ci := Recognise(com);
      AckTextFits(Model(), com, now, report);
      var ack := Execute(com, ci, now, report);
      info := mirror.gps;
      ret := Answer(out, CodecOf(ci), ct, unix, Body(ci, ack));
    }
  }

  ghost function Prepend(done: seq<Entry>, more: Option<seq<Entry>>): Option<seq<Entry>> {
    if more.None? then None else Some(done + more.value)
  }

  lemma PrependNone(more: Option<seq<Entry>>)
    ensures Prepend([], more) == more
  {
    if more.Some? { assert [] + more.value == more.value; }
  }

  lemma PrependNext(done: seq<Entry>, e: Entry, more: Option<seq<Entry>>)
    ensures Prepend(done + [e], more) == Prepend(done, if more.None? then None else Some([e] + more.value))
  {
    if more.Some? { assert done + [e] + more.value == done + ([e] + more.value); }
  }
}
