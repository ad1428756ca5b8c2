/** The session loop in place: one pass over the connection, the tracker and the buffers, proved equal to the model's. */
module Emulator {
  import opened Words
  import opened Clock
  import opened Mirror
  import opened Commands
  import opened Scenario
  import opened TrackerModel
  import TrackerRuns
  import opened Replies
  import opened Receiver
  import opened Framing
  import opened Device
  import Session
  import Tracker

  // ----- the parts of a pass -----

  /** The tracker at the end of a pass. */
  function CarAfterPass(dev: Device, i: In, cfg: Config, waitSec: u32): State
    requires Shape(dev.car)
  {
    var car, f := CarAfterRecord(dev, i, cfg, waitSec), Completed(dev, i, cfg, waitSec);
    SweepStep(if f.Some? then CommandStep(car, CommandText(f.value), i.now) else car, i.later)
  }

  lemma EventsInPass(dev: Device, i: In, cfg: Config, waitSec: u32)
    requires Shape(dev.car)
    ensures RunEvents(dev.car, Events(dev, i, cfg, waitSec), cfg) == CarAfterPass(dev, i, cfg, waitSec)
  {
    hide RecordStep, CommandStep, SweepStep, Completed, CommandText, Due, RecordOf, Shape;
    var f := Completed(dev, i, cfg, waitSec);
    var a := if Due(dev.link, i.now) && i.built then [Event.Record(RecordOf(dev, i, cfg, waitSec))] else [];
    var b := if f.Some? then [Command(CommandText(f.value), i.now)] else [];
    OneEvent(cfg);
    TrackerRuns.EventsCat(dev.car, a + b, [Sweep(i.later)], cfg);
    TrackerRuns.EventsCat(dev.car, a, b, cfg);
  }

  lemma OneEvent(cfg: Config)
    ensures forall s: State, e: Event | Shape(s) :: RunEvents(s, [e], cfg) == Step(s, e, cfg)
    ensures forall s: State | Shape(s) :: RunEvents(s, [], cfg) == s
  {
    hide Step, Shape;
    forall s: State, e: Event | Shape(s) ensures RunEvents(s, [e], cfg) == Step(s, e, cfg) {
      assert [e][1..] == [];
      assert RunEvents(Step(s, e, cfg), [], cfg) == Step(s, e, cfg);
    }
  }

  /** A pass outside the data phase executes nothing. */
  lemma OtherPass(dev: Device, i: In, cfg: Config, waitSec: u32)
    requires Shape(dev.car) && dev.link.faza != 2 && !dev.link.vixod
    ensures EnvOf(dev, i, cfg, waitSec) == EnvBefore(dev, i, cfg) && EnvBefore(dev, i, cfg).period == dev.car.drive.period
    ensures CarAfterPass(dev, i, cfg, waitSec) == SweepStep(dev.car, i.later) && Sent(dev, i, cfg, waitSec) == []
  {
    hide RecordStep, CommandStep, SweepStep, CommandText, Session.SendPart;
    var nothing: seq<Out> := [];
    assert nothing + nothing == [];
  }

  /** The session in a pass of the data phase, part by part. */
  function LinkAfterSend(dev: Device, i: In, cfg: Config, waitSec: u32): Session.State {
    Session.SendPart(dev.link, EnvBefore(dev, i, cfg), waitSec).0
  }

  lemma DataPass(dev: Device, i: In, cfg: Config, waitSec: u32)
    requires Shape(dev.car) && dev.link.faza == 2 && !dev.link.vixod
    ensures var e0, e := EnvBefore(dev, i, cfg), EnvOf(dev, i, cfg, waitSec); var l1 := LinkAfterSend(dev, i, cfg, waitSec);
      var (l2, f, log) := Session.HearPart(l1, e0);
      && Completed(dev, i, cfg, waitSec) == (if l1.vixod then None else f)
      && Session.Step(dev.link, e, waitSec).0
         == Session.Timeout(if l1.vixod then l1 else if f.None? then l2 else Session.ConcludePart(l2, f.value, e).0, e0)
  {
    hide RecordStep, CommandStep, CommandText, Accept, FirstMatch, Session.SendPart;
    var e0, e := EnvBefore(dev, i, cfg), EnvOf(dev, i, cfg, waitSec);
    SendIgnores(dev.link, e0, e.reset, e.report, waitSec);
    Session.ReceiveIsParts(LinkAfterSend(dev, i, cfg, waitSec), e);
  }

  lemma SendIgnores(s: Session.State, e: Session.Env, reset: bool, report: bool, waitSec: u32)
    ensures Session.SendPart(s, e.(reset := reset, report := report), waitSec) == Session.SendPart(s, e, waitSec)
  {}

  /** How many samples a record that is due has. */
  lemma SamplesOf(s: Session.State, e: Session.Env, waitSec: u32)
    requires !s.waitAck && CheckTmr(e.now, s.tmrSend)
    ensures Session.SendPart(s, e, waitSec).0.kolPack
      == if e.now >= s.tmrTwo then (if s.kolPack + 1 > MAX_PK then 1 else s.kolPack + 1) else s.kolPack
  {}

  lemma PacketInBuffer(s: State, r: RecordIn, cfg: Config, buffer: seq<byte>)
    requires Shape(s) && |buffer| == BUF_SIZE && buffer == Padded(TrackerModel.Packet(s, r, cfg))
    ensures var p := TrackerModel.Packet(s, r, cfg); |p| <= BUF_SIZE && buffer[..|p|] == p
  {
  }

  lemma InBuffer(p: seq<byte>, buffer: seq<byte>)
    requires |p| <= BUF_SIZE && buffer == Padded(p)
    ensures buffer[..|p|] == p
  {}

  lemma SamePeriod(s: State, r: RecordIn, kol: byte, cfg: Config)
    ensures RecordStep(s, r.(kolpack := kol), cfg).drive.period == RecordStep(s, r, cfg).drive.period
  {
    hide Record1;
  }

  // ----- the pass in place -----

  class Emulator {
    const conn: Session.Connection
    const car: Tracker.Tracker
    const toServer: array<byte>

    ghost predicate Valid()
      reads this, conn, conn.rx, conn.rx.buf, car
    {
      conn.Valid() && car.Valid() && toServer.Length == BUF_SIZE && toServer != conn.rx.buf
    }

    ghost function Model(): (d: Device)
      requires Valid()
      reads this, conn, conn.rx, conn.rx.buf, car, car.box, car.tmrBox, car.pin, car.tmrPin
      ensures Shape(d.car)
    {
      Device(conn.Model(), car.Model())
    }

    constructor (legs: seq<Leg>, spPark: u32, spMove: u32, latitude: u32, longitude: u32, now: u32, waitAckSec: u32)
      ensures Valid() && conn.waitSec == waitAckSec && car.cfg == Config(legs, spPark, spMove)
      ensures Model() == Device(Session.Start(now, waitAckSec), Initial(latitude, longitude, Config(legs, spPark, spMove)))
    {
      conn := new Session.Connection(now, waitAckSec);
      car := new Tracker.Tracker(legs, spPark, spMove, latitude, longitude);
      toServer := new byte[BUF_SIZE](_ => 0);
    }

    /** make_record, when one is due and can be built; the packet and its length are in the buffer. */
    method BuildRecord(i: In) returns (ret: nat)
      requires Valid() && conn.faza == 2 && !conn.vixod
      modifies toServer, car`mirror, car`info, car`prio, car`scenaIndex, car`scenaKols, car`sendPeriod, car`cdut,
        car`stopFlag, car`moveFlag
      ensures Valid() && conn.Model() == old(conn.Model())
      ensures var d := old(Model());
        && car.Model() == CarAfterRecord(d, i, car.cfg, conn.waitSec)
        && car.sendPeriod == EnvBefore(d, i, car.cfg).period
        && (Due(d.link, i.now) && i.built ==>
              var p := TrackerModel.Packet(d.car, RecordOf(d, i, car.cfg, conn.waitSec), car.cfg);
              ret == |p| <= BUF_SIZE && toServer[..ret] == p)
    {
      hide RecordStep, TrackerModel.Packet, Padded;
      ghost var d := Model();
      ret := 0;
      if !conn.waitAck && i.now >= conn.tmrSend && i.built {
        var kol := if i.now < conn.tmrTwo then conn.kolPack else if conn.kolPack + 1 > MAX_PK then 1 else conn.kolPack + 1;
        SamplesOf(d.link, EnvBefore(d, i, car.cfg), conn.waitSec);
        var rec := i.rec.(kolpack := Wrap8(kol));
        ret := car.MakeRecord(toServer, rec);
        PacketInBuffer(d.car, rec, car.cfg, toServer[..]);
        SamePeriod(d.car, i.rec, Wrap8(kol), car.cfg);
      }
    }

    /** parse_cmd on a received frame; the answer and its length are in the buffer. */
    method ExecuteCommand(f: seq<byte>, i: In) returns (ret: nat, ci: int)
      requires Valid()
      modifies toServer, car`mirror, car`info, car`prio, car`restartFlag, car.box, car.tmrBox, car.pin, car.tmrPin
      ensures Valid() && conn.Model() == old(conn.Model()) && ci == FirstMatch(CommandText(f), 0)
      ensures var s := old(car.Model()); var p := Reply(s, TypeOf(f), CommandText(f), i.now, i.unix, i.report);
        car.Model() == CommandStep(s, CommandText(f), i.now) && ret == |p| <= BUF_SIZE && toServer[..ret] == p
    {
      hide CommandText, Padded, CommandStep, Reply, FirstMatch;
      ghost var s := car.Model();
      var com := CommandText(f);
      ret, ci := car.ParseCmd(TypeOf(f), com, toServer, i.now, i.unix, i.report);
      InBuffer(Reply(s, TypeOf(f), com, i.now, i.unix, i.report), toServer[..]);
    }

    /** What a complete command leads to: it is executed, and answered unless it was a reset. */
    method Respond(f: seq<byte>, i: In, e: Session.Env) returns (outs: seq<Out>)
      requires Valid() && e.replySent == i.replySent
      modifies conn`vixod, conn`err, conn`tmrSend, toServer
      modifies car`mirror, car`info, car`prio, car`restartFlag, car.box, car.tmrBox, car.pin, car.tmrPin
      ensures Valid()
      ensures var s := old(car.Model()); var com := CommandText(f); var t := CommandStep(s, com, i.now);
        var e1 := e.(reset := t.restart, report := FirstMatch(com, 0) == DO_REPORT);
        && car.Model() == t && conn.Model() == Session.ConcludePart(old(conn.Model()), f, e1).0
        && outs == if !t.restart && i.replySent then [Answer(Reply(s, TypeOf(f), com, i.now, i.unix, i.report))] else []
    {
      hide CommandText, Reply, CommandStep, Session.ConcludePart, FirstMatch, TypeOf, Shape;
      var ret, ci := ExecuteCommand(f, i);
      var e1 := e.(reset := car.restartFlag, report := ci == DO_REPORT);
      var log := conn.Conclude(f, e1);
      outs := if !e1.reset && i.replySent then [Answer(toServer[..ret])] else [];
    }

    /** The data phase of a pass, up to the check of the timers. */
    method DataPhase(i: In) returns (outs: seq<Out>)
      requires Valid() && conn.faza == 2 && !conn.vixod && conn.rx.ind < BUF_SIZE
      modifies conn, conn.rx, conn.rx.buf, car, car.box, car.tmrBox, car.pin, car.tmrPin, toServer
      ensures Valid()
      ensures var d, cfg, w := old(Model()), car.cfg, conn.waitSec;
        && outs == Sent(d, i, cfg, w)
        && SweepStep(car.Model(), i.later) == CarAfterPass(d, i, cfg, w)
        && Session.Timeout(conn.Model(), EnvBefore(d, i, cfg)) == Session.Step(d.link, EnvOf(d, i, cfg, w), w).0
    {
      hide CommandText, Reply, CommandStep, SweepStep, RecordStep, TrackerModel.Packet, Session.SendPart, Session.HearPart,
        Session.ConcludePart, Session.Step, Session.Timeout, FirstMatch, TypeOf, Shape;
      ghost var d, cfg, w := Model(), car.cfg, conn.waitSec;
      DataPass(d, i, cfg, w);
      var due := !conn.waitAck && i.now >= conn.tmrSend;
      var ret := BuildRecord(i);
      outs := if due && i.built && i.recordSent then [Out.Packet(toServer[..ret])] else [];
      var e := Session.Env(i.now, i.later, i.loginSent, i.recv, i.built, i.recordSent, car.sendPeriod, i.replySent,
                           false, false);
      var log := conn.DoSend(e);
      if !conn.vixod {
        var frame;
        frame, log := conn.Hear(e);
        if frame.Some? {
          var answer := Respond(frame.value, i, e);
          outs := outs + answer;
        }
      }
    }

    /** One pass of the session loop: the phase's part, the acknowledgement timer, the relay timers. */
    method OnePass(i: In) returns (outs: seq<Out>)
      requires Valid() && !conn.vixod && conn.rx.ind < BUF_SIZE
      modifies conn, conn.rx, conn.rx.buf, car, car.box, car.tmrBox, car.pin, car.tmrPin, toServer
      ensures Valid() && Model() == Pass(old(Model()), i, car.cfg, conn.waitSec)
      ensures outs == Sent(old(Model()), i, car.cfg, conn.waitSec)
    {
      hide SweepStep, Session.Step, Sent, EnvOf, Events, CarAfterPass, Shape;
      ghost var d, cfg, w := Model(), car.cfg, conn.waitSec;
      EventsInPass(d, i, cfg, w);
      var e := Session.Env(i.now, i.later, i.loginSent, i.recv, i.built, i.recordSent, car.sendPeriod, i.replySent,
                           false, false);
      if conn.faza != 2 {
        OtherPass(d, i, cfg, w);
        outs := [];
        var log := conn.Iterate(e);
      } else {
        outs := DataPhase(i);
        conn.CheckAck(e);
      }
      car.SweepTimers(i.later);
    }
  }
}
