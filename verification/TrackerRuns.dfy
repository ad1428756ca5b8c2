/** Theorems about arbitrary runs of records, commands and timer sweeps. */
module TrackerRuns {
  import opened Words
  import opened CStr
  import opened Mirror
  import opened Scenario
  import opened ScenarioRuns
  import opened Commands
  import opened TrackerModel

  // ----- coherence of relays, pins and mirror -----

  /** An armed timer belongs to a relay or pin that is on. */
  ghost predicate ArmedMeansOn(box: seq<Box>, tmr: seq<u32>)
    requires |box| == |tmr|
  {
    forall k :: 0 <= k < |box| && tmr[k] > 0 ==> box[k].stat != 0
  }

  ghost predicate Coherent(s: State)
    requires Shape(s)
  {
    var m := s.drive.m;
    && ArmedMeansOn(s.box, s.tmrBox) && ArmedMeansOn(s.pin, s.tmrPin)
    && m.dout1 == s.pin[0].stat && m.dout2 == s.pin[1].stat && m.dout3 == s.pin[2].stat && m.dout4 == s.pin[3].stat
    && m.din1 == m.ignition
    && m.gps.speed == m.ioSpeed
    && m.moves == (if m.gps.speed != 0 then 1 else 0)
  }

  lemma Record1KeepsCoherence(d: Drive, way: u32, cfg: Config)
    requires d.m.din1 == d.m.ignition && d.m.gps.speed == d.m.ioSpeed
    ensures var m := Record1(d, way, cfg).m;
      && m.din1 == m.ignition && m.gps.speed == m.ioSpeed
      && m.dout1 == d.m.dout1 && m.dout2 == d.m.dout2 && m.dout3 == d.m.dout3 && m.dout4 == d.m.dout4
  {}

  lemma RecordKeepsCoherence(s: State, r: RecordIn, cfg: Config)
    requires Shape(s) && Coherent(s)
    ensures Coherent(RecordStep(s, r, cfg)) && RecordStep(s, r, cfg).info == RecordStep(s, r, cfg).drive.m.gps
  {
    hide Record1;
    Record1KeepsCoherence(s.drive, r.way, cfg);
  }

  lemma SweepKeepsCoherence(s: State, now: u32)
    requires Shape(s) && Coherent(s)
    ensures Coherent(SweepStep(s, now))
  {}

  lemma CommandKeepsCoherence(s: State, com: Text, now: u32)
    requires Shape(s) && Coherent(s)
    ensures Coherent(CommandStep(s, com, now))
    ensures CommandStep(s, com, now).info == CommandStep(s, com, now).drive.m.gps
  {
    hide SetAllStep, SetOneStep, SetPinsStep, FirstMatch, Find;
    var ind := FirstMatch(com, 0);
    if ind == SET_ALL { SetAllKeepsCoherence(s, com, now); }
    if ind == SET_ON || ind == SET_OFF { SetOneKeepsCoherence(s, com, ind, now); }
    if ind == SETDIGOUT1 { SetPinsKeepsCoherence(s, com, now); }
  }

  lemma SetAllKeepsCoherence(s: State, com: Text, now: u32)
    requires Shape(s) && Coherent(s) && Find(com, CMDS[SET_ALL]) != -1
    ensures SetAllStep(s, com, now).Some? ==> Coherent(SetAllStep(s, com, now).value)
  {
    hide ParseAll, Find, SetBox, Wrap32;
  }

  lemma SetOneKeepsCoherence(s: State, com: Text, ind: int, now: u32)
    requires Shape(s) && Coherent(s) && (ind == SET_ON || ind == SET_OFF) && Find(com, CMDS[ind]) != -1
    ensures SetOneStep(s, com, ind, now).Some? ==> Coherent(SetOneStep(s, com, ind, now).value)
  {
    hide ParseOne, Find, Wrap32, Rest, SkipBlank;
  }

  lemma SetPinsKeepsCoherence(s: State, com: Text, now: u32)
    requires Shape(s) && Coherent(s) && Find(com, CMDS[SETDIGOUT1]) != -1
    ensures SetPinsStep(s, com, now).Some? ==> Coherent(SetPinsStep(s, com, now).value)
  {
    hide ParsePins, Find, Wrap32;
  }

  /** In every reachable state the mirror agrees with relays, pins and itself, and only live relays have timers. */
  lemma {:induction false} RunKeepsCoherence(s: State, es: seq<Event>, cfg: Config)
    requires Shape(s) && Coherent(s)
    ensures Coherent(RunEvents(s, es, cfg))
    decreases |es|
  {
    hide Coherent, Step, Shape;
    if es != [] {
      StepKeepsCoherence(s, es[0], cfg);
      RunKeepsCoherence(Step(s, es[0], cfg), es[1..], cfg);
    }
  }

  lemma StepKeepsCoherence(s: State, e: Event, cfg: Config)
    requires Shape(s) && Coherent(s)
    ensures Coherent(Step(s, e, cfg))
    ensures !e.Sweep? ==> Step(s, e, cfg).info == Step(s, e, cfg).drive.m.gps
  {
    hide Coherent, RecordStep, CommandStep, SweepStep, Shape;
    match e
    case Record(r) => RecordKeepsCoherence(s, r, cfg);
    case Command(com, now) => CommandKeepsCoherence(s, com, now);
    case Sweep(now) => SweepKeepsCoherence(s, now);
  }

  // ----- timed relays -----

  /** A relay (0 to 7) or a pin (0 to 3). */
  datatype Switch = Relay(k: nat) | Pin(k: nat)

  predicate IsSwitch(w: Switch) { w.k < (if w.Relay? then MAX_RELAY else MAX_PIN) }

  function BoxOf(s: State, w: Switch): Box
    requires Shape(s) && IsSwitch(w)
  {
    if w.Relay? then s.box[w.k] else s.pin[w.k]
  }

  function TimerOf(s: State, w: Switch): u32
    requires Shape(s) && IsSwitch(w)
  {
    if w.Relay? then s.tmrBox[w.k] else s.tmrPin[w.k]
  }

  /** An accepted command that sets this switch, or every relay, or every pin. */
  predicate Sets(e: Event, s: State, w: Switch)
    requires Shape(s)
  {
    e.Command? && var ind := FirstMatch(e.com, 0);
    if ind == SET_ALL then w.Relay? && ParseAll(e.com).Some?
    else if ind == SET_ON || ind == SET_OFF then
      var one := ParseOne(SkipBlank(Rest(e.com, ind))); one.Some? && w == Relay(one.value.0)
    else ind == SETDIGOUT1 && w.Pin? && ParsePins(e.com, s.pin).Some?
  }

  /** A command that sets a switch arms it from its new state; any other command leaves it alone. */
  lemma CommandOnSwitch(s: State, e: Event, cfg: Config, w: Switch)
    requires Shape(s) && e.Command? && IsSwitch(w)
    ensures Sets(e, s, w) ==> TimerOf(Step(s, e, cfg), w) == Arm(BoxOf(Step(s, e, cfg), w), e.now)
    ensures !Sets(e, s, w) ==> BoxOf(Step(s, e, cfg), w) == BoxOf(s, w) && TimerOf(Step(s, e, cfg), w) == TimerOf(s, w)
  {
    hide ParseAll, ParseOne, ParsePins, FirstMatch, Find, Ignition, Arm, Rest, SkipBlank, SetBox, SetOne;
  }

  lemma OtherOnSwitch(s: State, e: Event, cfg: Config, w: Switch)
    requires Shape(s) && !e.Command? && IsSwitch(w)
    ensures var t := Step(s, e, cfg);
      if e.Sweep? && Expired(TimerOf(s, w), e.at) then BoxOf(t, w) == Box(0, 0) && TimerOf(t, w) == 0
      else BoxOf(t, w) == BoxOf(s, w) && TimerOf(t, w) == TimerOf(s, w)
  {
    hide DriveRecord;
  }

  /** No event of the run sets the switch. */
  ghost predicate Untouched(s: State, es: seq<Event>, cfg: Config, w: Switch)
    requires Shape(s)
    decreases |es|
  {
    es != [] ==> !Sets(es[0], s, w) && Untouched(Step(s, es[0], cfg), es[1..], cfg, w)
  }

  /** Some sweep of the run sees the deadline reached. */
  ghost predicate SweptAfter(es: seq<Event>, deadline: u32) {
    exists i :: 0 <= i < |es| && es[i].Sweep? && es[i].at >= deadline
  }

  lemma SweptFirst(es: seq<Event>, deadline: u32)
    requires es != []
    ensures SweptAfter(es, deadline) <==> (es[0].Sweep? && es[0].at >= deadline) || SweptAfter(es[1..], deadline)
  {
    if SweptAfter(es, deadline) && !(es[0].Sweep? && es[0].at >= deadline) {
      var i :| 0 <= i < |es| && es[i].Sweep? && es[i].at >= deadline;
      assert es[1..][i - 1] == es[i];
    }
    if SweptAfter(es[1..], deadline) {
      var i :| 0 <= i < |es[1..]| && es[1..][i].Sweep? && es[1..][i].at >= deadline;
      assert es[i + 1] == es[1..][i];
    }
  }

  lemma {:induction false} OffStaysOff(s: State, es: seq<Event>, cfg: Config, w: Switch)
    requires Shape(s) && IsSwitch(w) && TimerOf(s, w) == 0 && Untouched(s, es, cfg, w)
    ensures BoxOf(RunEvents(s, es, cfg), w) == BoxOf(s, w) && TimerOf(RunEvents(s, es, cfg), w) == 0
    decreases |es|
  {
    hide Step, Sets, BoxOf, TimerOf, Shape;
    if es != [] {
      if es[0].Command? { CommandOnSwitch(s, es[0], cfg, w); } else { OtherOnSwitch(s, es[0], cfg, w); }
      OffStaysOff(Step(s, es[0], cfg), es[1..], cfg, w);
    }
  }

  /** An armed switch that no later command sets goes off at the first sweep at or past its deadline, and only then. */
  lemma {:induction false} ArmedSwitch(s: State, es: seq<Event>, cfg: Config, w: Switch)
    requires Shape(s) && IsSwitch(w) && TimerOf(s, w) > 0 && Untouched(s, es, cfg, w)
    ensures var t := RunEvents(s, es, cfg);
      if SweptAfter(es, TimerOf(s, w)) then BoxOf(t, w) == Box(0, 0) && TimerOf(t, w) == 0
      else BoxOf(t, w) == BoxOf(s, w) && TimerOf(t, w) == TimerOf(s, w)
    decreases |es|
  {
    hide Step, Sets, BoxOf, TimerOf, Shape, SweptAfter;
    if es == [] {
      assert !SweptAfter(es, TimerOf(s, w)) by { NoSweep(TimerOf(s, w)); }
    } else {
      var t := Step(s, es[0], cfg);
      SweptFirst(es, TimerOf(s, w));
      if es[0].Command? { CommandOnSwitch(s, es[0], cfg, w); } else { OtherOnSwitch(s, es[0], cfg, w); }
      if TimerOf(t, w) == 0 {
        OffStaysOff(t, es[1..], cfg, w);
      } else {
        ArmedSwitch(t, es[1..], cfg, w);
      }
    }
  }

  lemma NoSweep(deadline: u32)
    ensures !SweptAfter([], deadline)
  {}

  /**
   * A switch turned on with time T > 0 at tick t is on until the first sweep at or past t + 10 T and off from then on,
   * over any run in which no later accepted command sets it, provided the deadline does not wrap.
   */
  lemma TimedSwitch(s: State, e: Event, es: seq<Event>, cfg: Config, w: Switch)
    requires Shape(s) && e.Command? && IsSwitch(w) && Sets(e, s, w)
    requires var b := BoxOf(Step(s, e, cfg), w); b.stat != 0 && b.time > 0 && e.now + 10 * b.time < 0x1_0000_0000
    requires Untouched(Step(s, e, cfg), es, cfg, w)
    ensures var b := BoxOf(Step(s, e, cfg), w);
      (BoxOf(RunEvents(s, [e] + es, cfg), w).stat != 0 <==> !SweptAfter(es, e.now + 10 * b.time))
  {
    hide Step, Sets, BoxOf, TimerOf, Shape, SweptAfter, Arm, Untouched, RunEvents;
    var t := Step(s, e, cfg);
    var b := BoxOf(t, w);
    CommandOnSwitch(s, e, cfg, w);
    ArmIs(b, e.now);
    ArmedSwitch(t, es, cfg, w);
    RunFromFirst(s, e, es, cfg);
  }

  lemma RunFromFirst(s: State, e: Event, es: seq<Event>, cfg: Config)
    requires Shape(s)
    ensures RunEvents(s, [e] + es, cfg) == RunEvents(Step(s, e, cfg), es, cfg)
  {
    hide Step, Shape;
    assert ([e] + es)[0] == e && ([e] + es)[1..] == es;
  }

  /**
   * The next sweep, at any tick from now on, keeps a freshly armed switch on exactly while its time has not passed,
   * if and only if the deadline does not wrap, or wraps to 0, which disarms it.
   */
  lemma DeadlineWrap(b: Box, now: u32)
    requires b.stat != 0 && b.time > 0
    ensures (forall at: u32 :: at >= now ==> (Expired(Arm(b, now), at) <==> at >= now + 10 * b.time))
      <==> now + 10 * b.time < 0x1_0000_0000 || (now + 10 * b.time) % 0x1_0000_0000 == 0
  {
    hide Arm;
    ArmIsModular(b, now);
    WrappedDeadline(Arm(b, now), now + 10 * b.time, now);
  }

  lemma WrappedDeadline(tmr: u32, d: nat, now: u32)
    requires d > now && tmr == d % 0x1_0000_0000
    ensures (forall at: u32 :: at >= now ==> (Expired(tmr, at) <==> at >= d)) <==> d < 0x1_0000_0000 || tmr == 0
  {
    if d >= 0x1_0000_0000 && tmr != 0 {
      assert Expired(tmr, 0xFFFF_FFFF) && 0xFFFF_FFFF < d;
    }
  }

  lemma ArmIsModular(b: Box, now: u32)
    requires b.stat != 0 && b.time > 0
    ensures Arm(b, now) == (now + 10 * b.time) % 0x1_0000_0000
  {
    Wrap32Add(10 * b.time, now);
  }

  /** An accepted SET_ALL with an X for this relay. */
  predicate Keeps(e: Event, w: Switch) {
    && e.Command? && w.Relay? && w.k < MAX_RELAY && FirstMatch(e.com, 0) == SET_ALL
    && ParseAll(e.com).Some? && ParseAll(e.com).value[w.k].Keep?
  }

  lemma KeptRelay(s: State, x: Event, cfg: Config, w: Switch)
    requires Shape(s) && Keeps(x, w)
    ensures Sets(x, s, w) && BoxOf(Step(s, x, cfg), w) == BoxOf(s, w)
    ensures TimerOf(Step(s, x, cfg), w) == Arm(BoxOf(s, w), x.now)
  {
    hide ParseAll, FirstMatch, Find, Ignition, Arm;
  }

  /** The state after a command that sets the switch and a run that does not. */
  function Before(s: State, e: Event, es: seq<Event>, cfg: Config): (t: State)
    requires Shape(s)
    ensures Shape(t)
  {
    RunEvents(Step(s, e, cfg), es, cfg)
  }

  /** Over any run in which nothing sets it, the switch is on until the first sweep at or past the deadline. */
  ghost predicate OnUntil(s: State, cfg: Config, w: Switch, deadline: u32)
    requires Shape(s) && IsSwitch(w)
  {
    forall es: seq<Event> :: Untouched(s, es, cfg, w) ==>
      (BoxOf(RunEvents(s, es, cfg), w).stat != 0 <==> !SweptAfter(es, deadline))
  }

  lemma ArmedIsOnUntil(s: State, cfg: Config, w: Switch)
    requires Shape(s) && IsSwitch(w) && TimerOf(s, w) > 0 && BoxOf(s, w).stat != 0
    ensures OnUntil(s, cfg, w, TimerOf(s, w))
  {
    hide Untouched, RunEvents, BoxOf, TimerOf, Shape, SweptAfter;
    forall es: seq<Event> | Untouched(s, es, cfg, w)
      ensures BoxOf(RunEvents(s, es, cfg), w).stat != 0 <==> !SweptAfter(es, TimerOf(s, w))
    {
      ArmedSwitch(s, es, cfg, w);
    }
  }

  /** There is only one deadline a switch can be on until, among those the tick counter can show. */
  lemma OneDeadline(s: State, cfg: Config, w: Switch, d1: u32, d2: u32)
    requires Shape(s) && IsSwitch(w) && OnUntil(s, cfg, w, d1) && OnUntil(s, cfg, w, d2)
    ensures d1 == d2
  {
    if d1 != d2 {
      var at := if d1 < d2 then d1 else d2;
      var es := [Sweep(at)];
      assert es[1..] == [] && es[0].Sweep?;
      assert Untouched(Step(s, es[0], cfg), [], cfg, w);
      assert Untouched(s, es, cfg, w);
      assert false;
    }
  }

  /**
   * A relay is turned on at tick t for T seconds, and then, before a sweep has seen t + 10 T, an accepted SET_ALL at
   * tick u leaves it alone with an X. From then on it is on until u + 10 T, and so until t + 10 T exactly when u = t.
   */
  lemma KeepRestartsTimer(s: State, e: Event, es: seq<Event>, x: Event, cfg: Config, w: Switch)
    requires Shape(s) && e.Command? && x.Command? && IsSwitch(w) && Sets(e, s, w) && Keeps(x, w)
    requires var b := BoxOf(Step(s, e, cfg), w);
      && b.stat != 0 && b.time > 0 && e.now + 10 * b.time < 0x1_0000_0000 && x.now + 10 * b.time < 0x1_0000_0000
      && !SweptAfter(es, e.now + 10 * b.time)
    requires Untouched(Step(s, e, cfg), es, cfg, w)
    ensures var time := BoxOf(Step(s, e, cfg), w).time; var t := Step(Before(s, e, es, cfg), x, cfg);
      && OnUntil(t, cfg, w, x.now + 10 * time)
      && (OnUntil(t, cfg, w, e.now + 10 * time) <==> x.now == e.now)
  {
    hide Step, Sets, BoxOf, TimerOf, Shape, SweptAfter, OnUntil, Keeps, Untouched;
    var t0 := Step(s, e, cfg);
    var b := BoxOf(t0, w);
    CommandOnSwitch(s, e, cfg, w);
    ArmIs(b, e.now);
    ArmedSwitch(t0, es, cfg, w);
    var t := Step(Before(s, e, es, cfg), x, cfg);
    KeptRelay(Before(s, e, es, cfg), x, cfg, w);
    ArmIs(b, x.now);
    ArmedIsOnUntil(t, cfg, w);
    if OnUntil(t, cfg, w, e.now + 10 * b.time) {
      OneDeadline(t, cfg, w, e.now + 10 * b.time, x.now + 10 * b.time);
    }
  }

  lemma ArmIs(b: Box, now: u32)
    requires b.stat != 0 && b.time > 0 && now + 10 * b.time < 0x1_0000_0000
    ensures Arm(b, now) == now + 10 * b.time
  {}

  // ----- the scenario inside a run of events -----

  function TouchOf(m: Mirror): Touch {
    Touch(m.dout1, m.dout2, m.dout3, m.dout4, m.din1, m.ignition, m.ts, m.prio, m.gps.satellites, m.moves)
  }

  function TouchedDrive(d: Drive, t: Touch): Drive { d.(m := Touched(d.m, t)) }

  lemma SecondTouchWins(m: Mirror, t: Touch, u: Touch)
    ensures Touched(Touched(m, t), u) == Touched(m, u) && Touched(m, TouchOf(m)) == m
  {}

  lemma TouchBeforeTurns(d: Drive, t: Touch, turns: seq<Turn>, last: Touch, cfg: Config)
    ensures TouchedDrive(Run(TouchedDrive(d, t), turns, cfg), last) == TouchedDrive(Run(d, turns, cfg), last)
  {
    hide Touched, Record1;
    if turns == [] {
      SecondTouchWins(d.m, t, last);
    } else {
      SecondTouchWins(d.m, t, turns[0].touch);
      assert Turn1(TouchedDrive(d, t), turns[0], cfg) == Turn1(d, turns[0], cfg);
    }
  }

  /** Commands and sweeps change the drive only where a touch may. */
  lemma OthersOnlyTouch(s: State, e: Event, cfg: Config)
    requires Shape(s) && !e.Record?
    ensures Step(s, e, cfg).drive == TouchedDrive(s.drive, TouchOf(Step(s, e, cfg).drive.m))
  {
    hide ParseAll, ParseOne, ParsePins, FirstMatch, Find, Arm, Rest, SkipBlank, SetBox, SetOne, CMDS;
    match e
    case Command(com, now) => CommandOnlyTouches(s, com, now);
    case Sweep(now) =>
  }

  lemma CommandOnlyTouches(s: State, com: Text, now: u32)
    requires Shape(s)
    ensures CommandStep(s, com, now).drive == TouchedDrive(s.drive, TouchOf(CommandStep(s, com, now).drive.m))
  {
    hide ParseAll, ParseOne, ParsePins, FirstMatch, Find, Arm, Rest, SkipBlank, SetBox, SetOne;
  }

  lemma RecordIsTurn(s: State, r: RecordIn, cfg: Config)
    requires r.scenario
    ensures RecordStep(s, r, cfg).drive
      == TouchedDrive(Turn1(s.drive, Turn(TouchOf(s.drive.m), r.way), cfg), TouchOf(RecordStep(s, r, cfg).drive.m))
  {
    hide Record1;
    SecondTouchWins(s.drive.m, TouchOf(s.drive.m), TouchOf(s.drive.m));
  }

  ghost predicate ScenarioMode(es: seq<Event>) {
    forall i :: 0 <= i < |es| && es[i].Record? ==> es[i].rec.scenario
  }

  function Records(es: seq<Event>): nat {
    if es == [] then 0 else (if es[0].Record? then 1 else 0) + Records(es[1..])
  }

  /** The records of a run with what they find: each its distance, and the outputs as they stand when it comes. */
  function Turns(s: State, es: seq<Event>, cfg: Config): (turns: seq<Turn>)
    requires Shape(s)
    ensures |turns| == Records(es)
    decreases |es|
  {
    if es == [] then []
    else
      var more := Turns(Step(s, es[0], cfg), es[1..], cfg);
      if es[0].Record? then [Turn(TouchOf(s.drive.m), es[0].rec.way)] + more else more
  }

  /** A run of events in scenario mode drives the car exactly as its records alone would, up to a last touch. */
  lemma {:induction false} EventsAreTurns(s: State, es: seq<Event>, cfg: Config)
    requires Shape(s) && ScenarioMode(es)
    ensures var d := RunEvents(s, es, cfg).drive; d == TouchedDrive(Run(s.drive, Turns(s, es, cfg), cfg), TouchOf(d.m))
    decreases |es|
  {
    hide Step, Turn1, Touched, Shape;
    if es == [] {
      SecondTouchWins(s.drive.m, TouchOf(s.drive.m), TouchOf(s.drive.m));
    } else {
      var t := Step(s, es[0], cfg);
      assert ScenarioMode(es[1..]);
      EventsAreTurns(t, es[1..], cfg);
      var touch, turns := TouchOf(t.drive.m), Turns(t, es[1..], cfg);
      var last := TouchOf(RunEvents(s, es, cfg).drive.m);
      if es[0].Record? {
        StepOfRecord(s, es[0], cfg);
        RecordIsTurn(s, es[0].rec, cfg);
        var turn := Turn(TouchOf(s.drive.m), es[0].rec.way);
        TouchBeforeTurns(Turn1(s.drive, turn, cfg), touch, turns, last, cfg);
        assert ([turn] + turns)[1..] == turns;
      } else {
        OthersOnlyTouch(s, es[0], cfg);
        TouchBeforeTurns(s.drive, touch, turns, last, cfg);
      }
    }
  }

  lemma StepOfRecord(s: State, e: Event, cfg: Config)
    requires Shape(s) && e.Record?
    ensures Step(s, e, cfg) == RecordStep(s, e.rec, cfg)
  {}

  /** The tour theorem for the whole tracker: only the number of records counts, not what happens between them. */
  lemma TrackerTour(s: State, es: seq<Event>, cfg: Config)
    requires Shape(s) && ScenarioMode(es) && AllMoving(cfg) && s.drive.index == 1 && s.drive.kols == 0
    requires Records(es) == Total(cfg.legs)
    ensures var d := RunEvents(s, es, cfg).drive;
      d.index == 1 && d.kols == 0 && Displaced(s.drive, d, NorthSum(cfg.legs), EastSum(cfg.legs))
  {
    hide Run, RunEvents, AllMoving;
    EventsAreTurns(s, es, cfg);
    Tour(s.drive, Turns(s, es, cfg), cfg);
  }

  /** In every reachable state the place in the list is a real leg and its count is short of the leg's length. */
  lemma TrackerKeepsPlace(s: State, es: seq<Event>, cfg: Config)
    requires Shape(s) && ScenarioMode(es) && InScenario(s.drive, cfg)
    ensures InScenario(RunEvents(s, es, cfg).drive, cfg)
  {
    hide Run, RunEvents, Touched;
    EventsAreTurns(s, es, cfg);
    RunKeepsPlace(s.drive, Turns(s, es, cfg), cfg);
  }

  lemma PlaceIsLeg(d: Drive, cfg: Config)
    requires InScenario(d, cfg)
    ensures 1 <= d.index <= |cfg.legs|
  {}

  // ----- the pump pin and the scenario -----

  /** Every record of the run finds pin 1 on (or, if not `on`, off). */
  ghost predicate PumpStays(s: State, es: seq<Event>, cfg: Config, on: bool)
    requires Shape(s)
    decreases |es|
  {
    es != [] ==> (es[0].Record? ==> ((s.pin[0].stat != 0) == on)) && PumpStays(Step(s, es[0], cfg), es[1..], cfg, on)
  }

  lemma {:induction false} PumpInTurns(s: State, es: seq<Event>, cfg: Config, on: bool)
    requires Shape(s) && Coherent(s) && PumpStays(s, es, cfg, on)
    ensures forall i :: 0 <= i < |Turns(s, es, cfg)| ==> ((Turns(s, es, cfg)[i].touch.dout1 != 0) == on)
    decreases |es|
  {
    hide Step, Shape;
    if es != [] {
      StepKeepsCoherence(s, es[0], cfg);
      PumpInTurns(Step(s, es[0], cfg), es[1..], cfg, on);
    }
  }

  lemma TouchKeepsPlace(d: Drive, t: Touch)
    ensures TouchedDrive(d, t).index == d.index && TouchedDrive(d, t).kols == d.kols
    ensures TouchedDrive(d, t).m.fuel == d.m.fuel
  {}

  /**
   * Whatever commands and sweeps come in between: while every record finds pin 1 on, a Park leg of 2 to 255 counts
   * ends at exactly the record number max(1, ceil(fuel/1275)).
   */
  lemma TrackerParks(s: State, es: seq<Event>, cfg: Config)
    requires Shape(s) && Coherent(s) && ScenarioMode(es) && InScenario(s.drive, cfg) && PumpStays(s, es, cfg, true)
    requires cfg.legs[s.drive.index - 1].dir.Park? && 2 <= cfg.legs[s.drive.index - 1].kols <= 255
    requires Records(es) <= ParkRecords(s.drive.m.fuel)
    ensures var d := RunEvents(s, es, cfg).drive;
      if Records(es) == ParkRecords(s.drive.m.fuel) then d.kols == 0 && d.index == NextIndex(s.drive.index, |cfg.legs|)
      else d.index == s.drive.index
  {
    hide Run, RunEvents, Touched, TouchedDrive, Turns, Coherent, Shape, PumpStays, InScenario, ParkRecords;
    EventsAreTurns(s, es, cfg);
    PumpInTurns(s, es, cfg, true);
    PlaceIsLeg(s.drive, cfg);
    var turns := Turns(s, es, cfg);
    ParkTakes(s.drive, turns, cfg);
    TouchKeepsPlace(Run(s.drive, turns, cfg), TouchOf(RunEvents(s, es, cfg).drive.m));
  }

  /** While pin 1 is off at every record, a Park leg of at least 2 counts is not left, whatever else happens. */
  lemma TrackerStaysParked(s: State, es: seq<Event>, cfg: Config)
    requires Shape(s) && Coherent(s) && ScenarioMode(es) && InScenario(s.drive, cfg) && PumpStays(s, es, cfg, false)
    requires cfg.legs[s.drive.index - 1].dir.Park? && 2 <= cfg.legs[s.drive.index - 1].kols
    ensures RunEvents(s, es, cfg).drive.index == s.drive.index && RunEvents(s, es, cfg).drive.m.fuel == s.drive.m.fuel
  {
    hide Run, RunEvents, Touched, TouchedDrive, Turns, Coherent, Shape, PumpStays, InScenario;
    EventsAreTurns(s, es, cfg);
    PumpInTurns(s, es, cfg, false);
    PlaceIsLeg(s.drive, cfg);
    var turns := Turns(s, es, cfg);
    BlockedStaysParked(s.drive, turns, cfg);
    TouchKeepsPlace(Run(s.drive, turns, cfg), TouchOf(RunEvents(s, es, cfg).drive.m));
  }

  lemma {:induction false} BlockedStaysParked(d: Drive, turns: seq<Turn>, cfg: Config)
    requires 1 <= d.index <= |cfg.legs| && cfg.legs[d.index - 1].dir.Park? && 2 <= cfg.legs[d.index - 1].kols
    requires forall i :: 0 <= i < |turns| ==> turns[i].touch.dout1 == 0
    ensures Run(d, turns, cfg).index == d.index && Run(d, turns, cfg).m.fuel == d.m.fuel
    decreases |turns|
  {
    if turns != [] {
      var e := Turn1(d, turns[0], cfg);
      assert e.index == d.index && e.m.fuel == d.m.fuel;
      hide Turn1;
      BlockedStaysParked(e, turns[1..], cfg);
    }
  }

  /** The fuel balance for the whole tracker. */
  lemma TrackerFuel(s: State, es: seq<Event>, cfg: Config)
    requires Shape(s) && ScenarioMode(es)
    ensures var turns := Turns(s, es, cfg);
      RunEvents(s, es, cfg).drive.m.fuel
      == Wrap16(s.drive.m.fuel + Burnt(s.drive.cdut, Moves(s.drive, turns, cfg)) - RefuelSum(s.drive, turns, cfg))
  {
    hide Run, RunEvents, Touched, TouchedDrive, Turns, Moves, RefuelSum, Burnt;
    EventsAreTurns(s, es, cfg);
    var turns := Turns(s, es, cfg);
    FuelBalance(s.drive, turns, cfg);
    TouchKeepsPlace(Run(s.drive, turns, cfg), TouchOf(RunEvents(s, es, cfg).drive.m));
  }

  // ----- odometer -----

  /** The odometers in the packets of a run. */
  function SentOdometers(s: State, es: seq<Event>, cfg: Config): nat
    requires Shape(s)
    decreases |es|
  {
    if es == [] then 0
    else
      var t := Step(s, es[0], cfg);
      (if es[0].Record? then t.drive.m.odo else 0) + SentOdometers(t, es[1..], cfg)
  }

  /** One record keeps the books exactly when it drives a leg, or when the odometer it repeats is 0. */
  lemma RecordOdometer(s: State, r: RecordIn, cfg: Config)
    requires Shape(s)
    ensures var m := RecordStep(s, r, cfg).drive.m;
      m.totalOdo == Wrap32(s.drive.m.totalOdo + m.odo)
      <==> (r.scenario && 1 <= s.drive.index <= |cfg.legs|) || s.drive.m.odo == 0
  {
    hide OnLeg;
    if r.scenario && 1 <= s.drive.index <= |cfg.legs| {
      LegAccounts(s.drive.(kols := s.drive.kols + 1), cfg.legs[s.drive.index - 1], r.way, cfg);
    } else {
      SameModulo(s.drive.m.totalOdo, s.drive.m.odo);
    }
  }

  /** Over any events in scenario mode the total odometer is its start plus the odometers in the packets sent. */
  lemma {:induction false} TrackerOdometer(s: State, es: seq<Event>, cfg: Config)
    requires Shape(s) && ScenarioMode(es) && InScenario(s.drive, cfg)
    ensures RunEvents(s, es, cfg).drive.m.totalOdo == Wrap32(s.drive.m.totalOdo + SentOdometers(s, es, cfg))
    decreases |es|
  {
    hide Step, Shape, InScenario, Touched;
    if es != [] {
      var t := Step(s, es[0], cfg);
      assert ScenarioMode(es[1..]);
      StepPlace(s, es[0], cfg);
      TrackerOdometer(t, es[1..], cfg);
      if es[0].Record? {
        StepOfRecord(s, es[0], cfg);
        RecordOdometer(s, es[0].rec, cfg);
        PlaceIsLeg(s.drive, cfg);
        Wrap32Add(s.drive.m.totalOdo + t.drive.m.odo, SentOdometers(t, es[1..], cfg));
      } else {
        OthersOnlyTouch(s, es[0], cfg);
        TouchKeepsOdometer(s.drive, TouchOf(t.drive.m));
      }
    }
  }

  lemma TouchKeepsOdometer(d: Drive, t: Touch)
    ensures TouchedDrive(d, t).m.totalOdo == d.m.totalOdo
  {}

  lemma StepPlace(s: State, e: Event, cfg: Config)
    requires Shape(s) && InScenario(s.drive, cfg) && (e.Record? ==> e.rec.scenario)
    ensures InScenario(Step(s, e, cfg).drive, cfg)
  {
    assert [e][1..] == [];
    assert RunEvents(s, [e], cfg) == Step(s, e, cfg);
    hide Step, InScenario, Shape;
    TrackerKeepsPlace(s, [e], cfg);
  }

  // ----- from power-on -----

  /** Every state reachable from power-on is coherent, and in scenario mode its place in the list is a real leg. */
  lemma Reachable(latitude: u32, longitude: u32, cfg: Config, es: seq<Event>)
    ensures var t := RunEvents(Initial(latitude, longitude, cfg), es, cfg);
      Coherent(t) && (cfg.legs != [] && ScenarioMode(es) ==> InScenario(t.drive, cfg))
  {
    hide RunEvents;
    var s := Initial(latitude, longitude, cfg);
    assert Coherent(s);
    RunKeepsCoherence(s, es, cfg);
    if cfg.legs != [] && ScenarioMode(es) {
      assert InScenario(s.drive, cfg);
      TrackerKeepsPlace(s, es, cfg);
    }
  }

  // ----- the odometer from power-on -----

  ghost predicate OneMode(es: seq<Event>, scenario: bool) {
    forall i :: 0 <= i < |es| && es[i].Record? ==> es[i].rec.scenario == scenario
  }

  /** Without a scenario to drive, because of the mode or of the list, the odometers stay at 0. */
  lemma {:induction false} StandingStill(s: State, es: seq<Event>, cfg: Config)
    requires Shape(s) && (OneMode(es, false) || cfg.legs == []) && s.drive.m.odo == 0
    ensures RunEvents(s, es, cfg).drive.m.totalOdo == s.drive.m.totalOdo && SentOdometers(s, es, cfg) == 0
    decreases |es|
  {
    hide Step, Shape;
    if es != [] {
      var t := Step(s, es[0], cfg);
      if es[0].Record? {
        StepOfRecord(s, es[0], cfg);
        StandsStill(s, es[0].rec, cfg);
      } else {
        OthersOnlyTouch(s, es[0], cfg);
        TouchKeepsOdometer(s.drive, TouchOf(t.drive.m));
      }
      StandingStill(t, es[1..], cfg);
    }
  }

  lemma StandsStill(s: State, r: RecordIn, cfg: Config)
    requires (!r.scenario || cfg.legs == []) && s.drive.m.odo == 0
    ensures RecordStep(s, r, cfg).drive.m.odo == 0 && RecordStep(s, r, cfg).drive.m.totalOdo == s.drive.m.totalOdo
  {}

  /**
   * From power-on, in a mode that does not change, with any legs or none: the total odometer is the sum of the odometers
   * in all the packets sent.
   */
  lemma OdometerFromPowerOn(latitude: u32, longitude: u32, cfg: Config, es: seq<Event>, scenario: bool)
    requires OneMode(es, scenario)
    ensures var s := Initial(latitude, longitude, cfg);
      RunEvents(s, es, cfg).drive.m.totalOdo == Wrap32(SentOdometers(s, es, cfg))
  {
    hide RunEvents, SentOdometers;
    var s := Initial(latitude, longitude, cfg);
    if scenario && cfg.legs != [] {
      assert InScenario(s.drive, cfg);
      TrackerOdometer(s, es, cfg);
    } else {
      StandingStill(s, es, cfg);
    }
  }

  /** The distances of the records of a run that found a moving leg. */
  function Driven(s: State, es: seq<Event>, cfg: Config): nat
    requires Shape(s)
    decreases |es|
  {
    if es == [] then 0
    else (if es[0].Record? then DrivenBy(s.drive, es[0].rec, cfg) else 0) + Driven(Step(s, es[0], cfg), es[1..], cfg)
  }

  function DrivenBy(d: Drive, r: RecordIn, cfg: Config): nat {
    if r.scenario && 1 <= d.index <= |cfg.legs| && !cfg.legs[d.index - 1].dir.Park? && !cfg.legs[d.index - 1].dir.Stop?
    then r.way else 0
  }

  lemma RecordDrives(s: State, r: RecordIn, cfg: Config)
    ensures RecordStep(s, r, cfg).drive.m.totalOdo == Wrap32(s.drive.m.totalOdo + DrivenBy(s.drive, r, cfg))
    ensures r.scenario && 1 <= s.drive.index <= |cfg.legs| ==>
      RecordStep(s, r, cfg).drive.m.odo == DrivenBy(s.drive, r, cfg)
  {
    hide Turn1, Wrap32;
    SecondTouchWins(s.drive.m, TouchOf(s.drive.m), TouchOf(s.drive.m));
    if r.scenario {
      RecordIsTurn(s, r, cfg);
      RecordShowsWay(s.drive, Turn(TouchOf(s.drive.m), r.way), cfg);
    } else {
      SameModulo(s.drive.m.totalOdo, 0);
    }
  }

  /** Over any events, in any mode: the total odometer counts the distances of the records that found a moving leg. */
  lemma {:induction false} TrackerDistance(s: State, es: seq<Event>, cfg: Config)
    requires Shape(s)
    ensures RunEvents(s, es, cfg).drive.m.totalOdo == Wrap32(s.drive.m.totalOdo + Driven(s, es, cfg))
    decreases |es|
  {
    hide Step, Shape, DrivenBy;
    if es != [] {
      var t := Step(s, es[0], cfg);
      TrackerDistance(t, es[1..], cfg);
      if es[0].Record? {
        StepOfRecord(s, es[0], cfg);
        RecordDrives(s, es[0].rec, cfg);
        Wrap32Add(s.drive.m.totalOdo + DrivenBy(s.drive, es[0].rec, cfg), Driven(t, es[1..], cfg));
      } else {
        OthersOnlyTouch(s, es[0], cfg);
        TouchKeepsOdometer(s.drive, TouchOf(t.drive.m));
      }
    }
  }

  /** From power-on the total odometer is the distance driven, and the drive begins at the configured place. */
  lemma DistanceFromPowerOn(latitude: u32, longitude: u32, cfg: Config, es: seq<Event>)
    ensures var s := Initial(latitude, longitude, cfg);
      && RunEvents(s, es, cfg).drive.m.totalOdo == Wrap32(Driven(s, es, cfg))
      && s.drive.m.gps.latitude == (if latitude != 0 then latitude else 547_002_200)
      && s.drive.m.gps.longitude == (if longitude != 0 then longitude else 205_145_416)
      && s.drive.m.fuel == 750
  {
    hide RunEvents, Driven;
    TrackerDistance(Initial(latitude, longitude, cfg), es, cfg);
  }

  // ----- the report command -----

  /** Whether a report has been asked for since the last record. */
  function ReportAsked(es: seq<Event>): bool {
    if es == [] then false
    else
      var e := es[|es| - 1];
      if e.Record? then false
      else (e.Command? && FirstMatch(e.com, 0) == DO_REPORT) || ReportAsked(es[..|es| - 1])
  }

  lemma PrioStep(s: State, e: Event, cfg: Config)
    requires Shape(s)
    ensures Step(s, e, cfg).prio
      == if e.Record? then 0 else if e.Command? && FirstMatch(e.com, 0) == DO_REPORT then 1 else s.prio
    ensures e.Record? ==> Step(s, e, cfg).drive.m.prio == s.prio
  {
    hide ParseAll, ParseOne, ParsePins, FirstMatch, Find, Arm, Rest, SkipBlank, Ignition, Douts, DriveRecord;
  }

  lemma {:induction false} PrioOfRun(s: State, es: seq<Event>, cfg: Config)
    requires Shape(s) && s.prio == 0
    ensures RunEvents(s, es, cfg).prio == if ReportAsked(es) then 1 else 0
    decreases |es|
  {
    hide Step, Shape, FirstMatch;
    if es != [] {
      var init, e := es[..|es| - 1], es[|es| - 1];
      PrioOfRun(s, init, cfg);
      RunSnocEvent(s, init, e, cfg);
      assert es == init + [e];
      PrioStep(RunEvents(s, init, cfg), e, cfg);
    }
  }

  lemma {:induction false} EventsCat(s: State, a: seq<Event>, b: seq<Event>, cfg: Config)
    requires Shape(s)
    ensures RunEvents(s, a + b, cfg) == RunEvents(RunEvents(s, a, cfg), b, cfg)
    decreases |a|
  {
    hide Step;
    if a == [] {
      assert a + b == b;
    } else {
      assert (a + b)[0] == a[0] && (a + b)[1..] == a[1..] + b;
      EventsCat(Step(s, a[0], cfg), a[1..], b, cfg);
    }
  }

  lemma RunSnocEvent(s: State, es: seq<Event>, e: Event, cfg: Config)
    requires Shape(s)
    ensures RunEvents(s, es + [e], cfg) == Step(RunEvents(s, es, cfg), e, cfg)
  {
    hide Step;
    EventsCat(s, es, [e], cfg);
    assert [e][1..] == [];
    assert RunEvents(RunEvents(s, es, cfg), [e], cfg) == Step(RunEvents(s, es, cfg), e, cfg);
  }

  /** A record carries priority 1 exactly when a report has been asked for since the one before it, over every run. */
  lemma ReportIsCarriedOnce(latitude: u32, longitude: u32, cfg: Config, es: seq<Event>, r: RecordIn)
    ensures RunEvents(Initial(latitude, longitude, cfg), es + [Record(r)], cfg).drive.m.prio == if ReportAsked(es) then 1 else 0
  {
    hide Step, RunEvents, ReportAsked;
    var s := Initial(latitude, longitude, cfg);
    PrioOfRun(s, es, cfg);
    RunSnocEvent(s, es, Record(r), cfg);
    PrioStep(RunEvents(s, es, cfg), Record(r), cfg);
  }

  // ----- what every record does to the mirror -----

  /**
   * After any record: fresh satellites, if they are due; the flag that says whether the car moves; the last time stamp;
   * and the position on display. Outside scenario mode nothing else changes but the period, which is that for parking.
   */
  lemma EveryRecord(s: State, r: RecordIn, cfg: Config)
    ensures var t := RecordStep(s, r, cfg); var m := t.drive.m;
      && m.gps.satellites == (if r.sat.Some? then r.sat.value else s.drive.m.gps.satellites)
      && m.moves == (if m.gps.speed == 0 && m.ioSpeed == 0 then 0 else 1)
      && m.ts == r.stamps[if r.kolpack == 0 then 1 else if r.kolpack > 3 then 3 else r.kolpack]
      && t.info == m.gps && t.prio == 0 && m.prio == s.prio
      && t.box == s.box && t.tmrBox == s.tmrBox && t.pin == s.pin && t.tmrPin == s.tmrPin
    ensures !r.scenario ==> var d, t := s.drive, RecordStep(s, r, cfg).drive;
      && t.index == d.index && t.kols == d.kols && t.cdut == d.cdut && t.period == cfg.spPark
      && t.m.gps.latitude == d.m.gps.latitude && t.m.gps.longitude == d.m.gps.longitude
      && t.m.fuel == d.m.fuel && t.m.odo == d.m.odo && t.m.totalOdo == d.m.totalOdo
  {
    if r.scenario {
      KeepsSatellites(s.drive, r.way, cfg);
      hide Record1;
    }
  }

  lemma KeepsSatellites(d: Drive, way: u32, cfg: Config)
    ensures Record1(d, way, cfg).m.gps.satellites == d.m.gps.satellites
  {}
}
