/** The session loop: login, stop-and-wait record sending, receiving, and the ways a session ends. */
module Session {
  import opened Words
  import opened Clock
  import opened Commands
  import opened Mirror
  import opened Receiver

  /** The error bits of a session: 0x01, 0x02, 0x04, 0x08, 0x10, 0x20 and 0x40 in this order. */
  datatype Error = ImeiError | ClosedError | RejectedError | TimeoutError | InternalError | SendError | ResetError

  const TMR_TWO: u32 := 600

  datatype Recv = Nothing | Closed | Byte(b: byte)

  /**
   * What the outside contributes to one iteration: the clock before and after the switch, whether the sends go
   * through, what the socket has, whether a packet could be built, the send period afterwards, and whether an executed
   * command was a report request or a reset.
   */
  datatype Env = Env(now: u32, later: u32, loginSent: bool, recv: Recv, built: bool, recordSent: bool, period: u32,
                     replySent: bool, reset: bool, report: bool)

  datatype Act = SentLogin | Granted | SentRecord(samples: nat) | GotAck | GotCommand(bytes: seq<byte>) | SentReply

  datatype State = State(faza: nat, grant: bool, err: set<Error>, first: bool, vixod: bool, waitAck: bool, kolPack: nat,
                         tmrAck: u32, tmrTwo: u32, tmrSend: u32, kept: seq<byte>)

  /** The state a new connection starts from. */
  function Start(now: u32, waitSec: u32): State {
    State(0, false, {}, true, false, false, 1, GetTmr(now, waitSec), GetTmr(now, TMR_TWO), 0, [])
  }

  function Fail(s: State, bit: Error): State { s.(err := s.err + {bit}, vixod := true) }

  // ----- the three phases -----

  function Login(s: State, e: Env, waitSec: u32): (State, seq<Act>) {
    if s.first && !e.loginSent then
      (Fail(s.(first := false, waitAck := true, tmrAck := GetTmr(e.now, waitSec)), ImeiError), [])
    else
      var t := if s.first then s.(first := false, waitAck := true, tmrAck := GetTmr(e.now, waitSec)) else s;
      var log := if s.first then [SentLogin] else [];
      if !t.waitAck then (t, log)
      else
        match e.recv
        case Nothing => (t, log)
        case Closed => (Fail(t, ClosedError), log)
        case Byte(b) =>
          if b == 1 then (t.(waitAck := false, grant := true, faza := 1), log + [Granted])
          else (Fail(t.(waitAck := false), RejectedError), log)
  }

  function Init(s: State, e: Env): (State, seq<Act>) {
    if s.grant then (s.(tmrSend := GetTmr(e.now, 0), faza := 2, kept := [], waitAck := false), [])
    else (Fail(s, InternalError), [])
  }

  /** The send half of the data phase: nothing is sent while an acknowledgement is outstanding. */
  function SendPart(s: State, e: Env, waitSec: u32): (State, seq<Act>) {
    if s.waitAck || !CheckTmr(e.now, s.tmrSend) then (s, [])
    else
      var t := s.(tmrSend := GetTmr(e.now, e.period));
      var u := if CheckTmr(e.now, t.tmrTwo)
        then t.(kolPack := if t.kolPack + 1 > MAX_PK then 1 else t.kolPack + 1, tmrTwo := GetTmr(e.now, TMR_TWO)) else t;
      if !e.built then (u, [])
      else if !e.recordSent then (Fail(u, SendError), [])
      else (u.(waitAck := true, kept := [], tmrAck := GetTmr(e.now, waitSec)), [SentRecord(u.kolPack)])
  }

  function ReceivePart(s: State, e: Env): (State, seq<Act>) {
    match e.recv
    case Nothing => (s, [])
    case Closed => (Fail(s, ClosedError), [])
    case Byte(b) =>
      var (kept, unit) := Accept(s.kept, b);
      var t := s.(kept := kept);
      match unit
      case None => (t, [])
      case Some(Ack(_)) => (t.(waitAck := false), [GotAck])
      case Some(Framed(f)) =>
        if e.reset then (Fail(t, ResetError), [GotCommand(f)])
        else if !e.replySent then (Fail(t, SendError), [GotCommand(f)])
        else (if e.report then t.(tmrSend := GetTmr(e.now, 20)) else t, [GotCommand(f), SentReply])
  }

  /** The receive half up to a complete command frame, and what is done once the command has been executed. */
  function HearPart(s: State, e: Env): (State, Option<seq<byte>>, seq<Act>) {
    match e.recv
    case Nothing => (s, None, [])
    case Closed => (Fail(s, ClosedError), None, [])
    case Byte(b) =>
      var (kept, unit) := Accept(s.kept, b);
      var t := s.(kept := kept);
      match unit
      case None => (t, None, [])
      case Some(Ack(_)) => (t.(waitAck := false), None, [GotAck])
      case Some(Framed(f)) => (t, Some(f), [])
  }

  function ConcludePart(s: State, f: seq<byte>, e: Env): (State, seq<Act>) {
    if e.reset then (Fail(s, ResetError), [GotCommand(f)])
    else if !e.replySent then (Fail(s, SendError), [GotCommand(f)])
    else (if e.report then s.(tmrSend := GetTmr(e.now, 20)) else s, [GotCommand(f), SentReply])
  }

  lemma ReceiveIsParts(s: State, e: Env)
    ensures ReceivePart(s, e)
      == var (t, f, log) := HearPart(s, e); if f.None? then (t, log) else ConcludePart(t, f.value, e)
  {
    hide Accept;
  }

  function Data(s: State, e: Env, waitSec: u32): (State, seq<Act>) {
    var (t, log) := SendPart(s, e, waitSec);
    if t.vixod then (t, log)
    else
      var (u, more) := ReceivePart(t, e);
      (u, log + more)
  }

  function Switch(s: State, e: Env, waitSec: u32): (State, seq<Act>) {
    if s.faza == 0 then Login(s, e, waitSec) else if s.faza == 1 then Init(s, e) else Data(s, e, waitSec)
  }

  function Timeout(s: State, e: Env): State {
    if s.waitAck && CheckTmr(e.later, s.tmrAck) then Fail(s, TimeoutError) else s
  }

  /** One iteration of the loop; an ended session does nothing more. */
  function Step(s: State, e: Env, waitSec: u32): (State, seq<Act>) {
    if s.vixod then (s, [])
    else
      var (t, log) := Switch(s, e, waitSec);
      (Timeout(t, e), log)
  }

  function Run(s: State, es: seq<Env>, waitSec: u32): (State, seq<Act>)
    decreases |es|
  {
    if es == [] then (s, [])
    else
      var (t, log) := Step(s, es[0], waitSec);
      var (u, more) := Run(t, es[1..], waitSec);
      (u, log + more)
  }

  // ----- the loop body in place -----

  class Connection {
    var faza: nat
    var grant: bool
    var err: set<Error>
    var first: bool
    var vixod: bool
    var waitAck: bool
    var kolPack: nat
    var tmrAck: u32
    var tmrTwo: u32
    var tmrSend: u32
    const rx: Receiver
    const waitSec: u32

    ghost predicate Valid()
      reads this, rx, rx.buf
    {
      rx.Valid()
    }

    ghost function Model(): State
      requires Valid()
      reads this, rx, rx.buf
    {
      State(faza, grant, err, first, vixod, waitAck, kolPack, tmrAck, tmrTwo, tmrSend, rx.Kept())
    }

    constructor (now: u32, waitAckSec: u32)
      ensures Valid() && fresh(rx) && fresh(rx.buf) && waitSec == waitAckSec && Model() == Start(now, waitSec)
    {
      rx := new Receiver();
      faza, grant, err, first, vixod, waitAck, kolPack := 0, false, {}, true, false, false, 1;
      tmrAck, tmrTwo, tmrSend, waitSec := GetTmr(now, waitAckSec), GetTmr(now, TMR_TWO), 0, waitAckSec;
    }

    /** Case 0 of the switch: send the IMEI once, then wait for one byte. */
    method DoLogin(e: Env) returns (log: seq<Act>)
      requires Valid()
      modifies `first, `waitAck, `tmrAck, `err, `vixod, `grant, `faza
      ensures Valid() && (Model(), log) == Login(old(Model()), e, waitSec)
    {
      log := [];
      if first {
        first := false;
        tmrAck := GetTmr(e.now, waitSec);
        waitAck := true;
        if !e.loginSent {
          err := err + {ImeiError};
          vixod := true;
          return;
        }
        log := [SentLogin];
      }
      if waitAck {
        match e.recv {
          case Nothing =>
          case Closed =>
            err := err + {ClosedError};
            vixod := true;
          case Byte(b) =>
            waitAck := false;
            if b == 1 {
              grant := true;
              faza := 1;
              log := log + [Granted];
            } else {
              vixod := true;
              err := err + {RejectedError};
            }
        }
      }
    }

    /** The send half of case 2. */
    method DoSend(e: Env) returns (log: seq<Act>)
      requires Valid()
      modifies `tmrSend, `kolPack, `tmrTwo, `vixod, `err, `waitAck, `tmrAck, rx`ind, rx`lenr, rx`lenrWait
      ensures Valid() && (Model(), log) == SendPart(old(Model()), e, waitSec)
      ensures rx.ind <= old(rx.ind)
    {
      log := [];
      if !waitAck {
        if e.now >= tmrSend {
          tmrSend := GetTmr(e.now, e.period);
          if e.now >= tmrTwo {
            kolPack := kolPack + 1;
            if kolPack > MAX_PK { kolPack := 1; }
            tmrTwo := GetTmr(e.now, TMR_TWO);
          }
          if e.built {
            if !e.recordSent {
              vixod := true;
              err := err + {SendError};
            } else {
              waitAck := true;
              rx.Restart();
              tmrAck := GetTmr(e.now, waitSec);
              log := [SentRecord(kolPack)];
            }
          }
        }
      }
    }

    /** The receive half of case 2, up to the command that is complete, if any. */
    method Hear(e: Env) returns (frame: Option<seq<byte>>, log: seq<Act>)
      requires Valid() && rx.ind < BUF_SIZE
      modifies `waitAck, `vixod, `err, rx, rx.buf
      ensures Valid() && (Model(), frame, log) == HearPart(old(Model()), e)
    {
      hide Accept;
      frame, log := None, [];
      match e.recv {
        case Nothing =>
        case Closed =>
          err := err + {ClosedError};
          vixod := true;
        case Byte(b) =>
          var unit := rx.Receive(b);
          match unit {
            case None =>
            case Some(Ack(_)) =>
              waitAck := false;
              log := [GotAck];
            case Some(Framed(f)) =>
              frame := Some(f);
          }
      }
    }

    /** What follows the execution of a command. */
    method Conclude(f: seq<byte>, e: Env) returns (log: seq<Act>)
      requires Valid()
      modifies `vixod, `err, `tmrSend
      ensures Valid() && (Model(), log) == ConcludePart(old(Model()), f, e)
    {
      log := [GotCommand(f)];
      if !e.reset {
        if !e.replySent {
          vixod := true;
          err := err + {SendError};
        } else {
          log := [GotCommand(f), SentReply];
          if e.report { tmrSend := GetTmr(e.now, 2 * ONE_SECOND); }
        }
      } else {
        vixod := true;
        err := err + {ResetError};
      }
    }

    /** The receive half of case 2. */
    method DoReceive(e: Env) returns (log: seq<Act>)
      requires Valid() && rx.ind < BUF_SIZE
      modifies `waitAck, `vixod, `err, `tmrSend, rx, rx.buf
      ensures Valid() && (Model(), log) == ReceivePart(old(Model()), e)
    {
      hide HearPart, ConcludePart, ReceivePart;
      ReceiveIsParts(Model(), e);
      var frame;
      frame, log := Hear(e);
      if frame.Some? { log := Conclude(frame.value, e); }
    }

    /** The check of the acknowledgement timer. */
    method CheckAck(e: Env)
      requires Valid()
      modifies `vixod, `err
      ensures Valid() && Model() == Timeout(old(Model()), e)
    {
      if waitAck {
        if e.later >= tmrAck {
          err := err + {TimeoutError};
          vixod := true;
        }
      }
    }

    /** One iteration of the session loop. */
    method Iterate(e: Env) returns (log: seq<Act>)
      requires Valid() && !vixod && rx.ind < BUF_SIZE
      modifies this, rx, rx.buf
      ensures Valid() && (Model(), log) == Step(old(Model()), e, waitSec)
    {
      hide Login, SendPart, ReceivePart, Timeout;
      if faza == 0 {
        log := DoLogin(e);
      } else if faza == 1 {
        log := [];
        if grant {
          tmrSend := GetTmr(e.now, 0);
          faza := 2;
          rx.ClearAll();
          waitAck := false;
        } else {
          err := err + {InternalError};
          vixod := true;
        }
      } else {
        log := DoSend(e);
        if !vixod {
          var more := DoReceive(e);
          log := log + more;
        }
      }
      CheckAck(e);
    }
  }
}
