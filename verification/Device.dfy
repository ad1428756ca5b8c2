/** Session and tracker together: what a pass of the session loop makes of both. */
module Device {
  import opened Words
  import opened Clock
  import opened Mirror
  import opened Commands
  import opened Scenario
  import opened TrackerModel
  import TrackerRuns
  import opened Replies
  import opened Receiver
  import opened Framing
  import Session

  type Report = s: string | |s| <= 383

  /** What the outside contributes to one pass; whether a command was a reset or a report request is for the tracker to say. */
  datatype In = In(now: u32, later: u32, loginSent: bool, recv: Session.Recv, built: bool, recordSent: bool,
                   replySent: bool, rec: RecordIn, unix: u32, report: Report)

  datatype Device = Device(link: Session.State, car: State)

  datatype Out = Packet(bytes: seq<byte>) | Answer(bytes: seq<byte>)

  /** A session in its data phase whose record is due. */
  predicate Due(link: Session.State, now: u32) {
    link.faza == 2 && !link.waitAck && CheckTmr(now, link.tmrSend)
  }

  /** The environment as far as it does not depend on a command. */
  function EnvBefore(dev: Device, i: In, cfg: Config): Session.Env {
    var car := if Due(dev.link, i.now) && i.built then RecordStep(dev.car, i.rec, cfg) else dev.car;
    Session.Env(i.now, i.later, i.loginSent, i.recv, i.built, i.recordSent, car.drive.period, i.replySent, false, false)
  }

  /** The record a pass builds: as many samples as the session asks for. */
  function RecordOf(dev: Device, i: In, cfg: Config, waitSec: u32): RecordIn {
    i.rec.(kolpack := Wrap8(Session.SendPart(dev.link, EnvBefore(dev, i, cfg), waitSec).0.kolPack))
  }

  function CarAfterRecord(dev: Device, i: In, cfg: Config, waitSec: u32): State {
    if Due(dev.link, i.now) && i.built then RecordStep(dev.car, RecordOf(dev, i, cfg, waitSec), cfg) else dev.car
  }

  /** The command frame a pass completes, if any. */
  function Completed(dev: Device, i: In, cfg: Config, waitSec: u32): Option<seq<byte>> {
    var link := Session.SendPart(dev.link, EnvBefore(dev, i, cfg), waitSec).0;
    if dev.link.faza != 2 || link.vixod || !i.recv.Byte? then None
    else
      match Accept(link.kept, i.recv.b).1
      case Some(Framed(f)) => Some(f)
      case _ => None
  }

  /** The events of a pass: the record, if one is built, the command, if one is complete, and the sweep. */
  function Events(dev: Device, i: In, cfg: Config, waitSec: u32): seq<Event> {
    var f := Completed(dev, i, cfg, waitSec);
    (if Due(dev.link, i.now) && i.built then [Record(RecordOf(dev, i, cfg, waitSec))] else [])
    + (if f.Some? then [Command(CommandText(f.value), i.now)] else [])
    + [Sweep(i.later)]
  }

  function EnvOf(dev: Device, i: In, cfg: Config, waitSec: u32): Session.Env
    requires Shape(dev.car)
  {
    var e, f := EnvBefore(dev, i, cfg), Completed(dev, i, cfg, waitSec);
    if f.None? then e
    else
      var com := CommandText(f.value);
      e.(reset := CommandStep(CarAfterRecord(dev, i, cfg, waitSec), com, i.now).restart,
         report := FirstMatch(com, 0) == DO_REPORT)
  }

  /** The type byte of a command frame. */
  function TypeOf(frame: seq<byte>): byte { (frame + seq(BUF_SIZE, _ => 0))[10] }

  /** One pass of the loop; an ended session does nothing. */
  function Pass(dev: Device, i: In, cfg: Config, waitSec: u32): (r: Device)
    requires Shape(dev.car)
    ensures Shape(r.car)
  {
    if dev.link.vixod then dev
    else
      Device(Session.Step(dev.link, EnvOf(dev, i, cfg, waitSec), waitSec).0,
             RunEvents(dev.car, Events(dev, i, cfg, waitSec), cfg))
  }

  /** What a pass sends: the packet of its record, the answer to its command. */
  function Sent(dev: Device, i: In, cfg: Config, waitSec: u32): seq<Out>
    requires Shape(dev.car)
  {
    var f := Completed(dev, i, cfg, waitSec);
    if dev.link.vixod then []
    else
      (if Due(dev.link, i.now) && i.built && i.recordSent
       then [Out.Packet(TrackerModel.Packet(dev.car, RecordOf(dev, i, cfg, waitSec), cfg))] else [])
      + (if f.Some? && i.replySent && !EnvOf(dev, i, cfg, waitSec).reset
         then [Answer(Reply(CarAfterRecord(dev, i, cfg, waitSec), TypeOf(f.value), CommandText(f.value),
                            i.now, i.unix, i.report))]
         else [])
  }

  // ----- runs -----

  function RunAll(dev: Device, ins: seq<In>, cfg: Config, waitSec: u32): (r: Device)
    requires Shape(dev.car)
    ensures Shape(r.car)
    decreases |ins|
  {
    if ins == [] then dev else RunAll(Pass(dev, ins[0], cfg, waitSec), ins[1..], cfg, waitSec)
  }

  function AllEvents(dev: Device, ins: seq<In>, cfg: Config, waitSec: u32): seq<Event>
    requires Shape(dev.car)
    decreases |ins|
  {
    if ins == [] then []
    else
      (if dev.link.vixod then [] else Events(dev, ins[0], cfg, waitSec))
      + AllEvents(Pass(dev, ins[0], cfg, waitSec), ins[1..], cfg, waitSec)
  }

  function Envs(dev: Device, ins: seq<In>, cfg: Config, waitSec: u32): (es: seq<Session.Env>)
    requires Shape(dev.car)
    ensures |es| == |ins|
    decreases |ins|
  {
    if ins == [] then []
    else [EnvOf(dev, ins[0], cfg, waitSec)] + Envs(Pass(dev, ins[0], cfg, waitSec), ins[1..], cfg, waitSec)
  }

  /** In a run the session and the tracker each do what they do alone, on what the other one makes of the inputs. */
  lemma {:induction false} RunIsBoth(dev: Device, ins: seq<In>, cfg: Config, waitSec: u32)
    requires Shape(dev.car)
    ensures RunAll(dev, ins, cfg, waitSec).link == Session.Run(dev.link, Envs(dev, ins, cfg, waitSec), waitSec).0
    ensures RunAll(dev, ins, cfg, waitSec).car == RunEvents(dev.car, AllEvents(dev, ins, cfg, waitSec), cfg)
    decreases |ins|
  {
    hide Session.Switch, Session.Timeout, EnvOf, Events, Shape, Step;
    if ins != [] {
      var next := Pass(dev, ins[0], cfg, waitSec);
      RunIsBoth(next, ins[1..], cfg, waitSec);
      assert Envs(dev, ins, cfg, waitSec)[1..] == Envs(next, ins[1..], cfg, waitSec);
      if dev.link.vixod {
        assert [] + AllEvents(next, ins[1..], cfg, waitSec) == AllEvents(next, ins[1..], cfg, waitSec);
      } else {
        TrackerRuns.EventsCat(dev.car, Events(dev, ins[0], cfg, waitSec), AllEvents(next, ins[1..], cfg, waitSec), cfg);
      }
    }
  }
}
