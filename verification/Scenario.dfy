/** The driving scenario: what one record does to position, fuel, odometer and the place in the list of legs. */
module Scenario {
  import opened Words
  import opened Codec8
  import opened Mirror

  const MAX_FUEL_TANK: nat := 750
  const MIN_FUEL_TANK: nat := 3300
  /** Half of the sensor's range: one refuelling step, and the level below which the car may leave. */
  const HALF_TANK: nat := 1275

  datatype Dir = Park | North | East | South | West | NorthEast | NorthWest | SouthEast | SouthWest | Stop {
    predicate Moving() { !Park? && !Stop? }
  }

  datatype Leg = Leg(dir: Dir, delta: i32, kols: i32)

  datatype Config = Config(legs: seq<Leg>, spPark: u32, spMove: u32)

  /** The state a record advances. `kols` counts the records spent on leg number `index`, the first being 1. */
  datatype Drive = Drive(m: Mirror, index: int, kols: int, cdut: nat, period: u32, moveFlag: byte, stopFlag: byte)

  // ----- geometry of a direction -----

  function NorthSign(d: Dir): int {
    match d
    case North | NorthEast | NorthWest => 1
    case South | SouthEast | SouthWest => -1
    case _ => 0
  }

  function EastSign(d: Dir): int {
    match d
    case East | NorthEast | SouthEast => 1
    case West | NorthWest | SouthWest => -1
    case _ => 0
  }

  function Heading(d: Dir): u16 {
    match d
    case NorthEast => 45
    case East => 90
    case SouthEast => 135
    case South => 180
    case SouthWest => 225
    case West => 270
    case NorthWest => 315
    case _ => 0
  }

  /** Climb per record: with east-west motion eastward is up, without it southward is up. */
  function Climb(d: Dir): int {
    if EastSign(d) != 0 then EastSign(d) else -NorthSign(d)
  }

  function TachChange(d: Dir): int {
    if NorthSign(d) == 0 then 56 else if EastSign(d) == 0 then -28 else if NorthSign(d) == 1 then -18 else -32
  }

  function SpeedBase(d: Dir): int { if NorthSign(d) == 0 then 5 else 8 }

  // ----- one record -----

  function MoveGps(g: Gps, leg: Leg, speed: u16): Gps {
    Gps(Wrap32(g.longitude + EastSign(leg.dir) * Abs(leg.delta)),
        Wrap32(g.latitude + NorthSign(leg.dir) * Abs(leg.delta)),
        Wrap16(g.altitude + Climb(leg.dir)), Heading(leg.dir), g.satellites, speed)
  }

  /** The mirror after a record on a moving leg, fuel apart. */
  function Moved(m: Mirror, leg: Leg, kols: int, way: u32): Mirror {
    var speed := Wrap16(kols + SpeedBase(leg.dir));
    m.(gps := MoveGps(m.gps, leg, speed), ioSpeed := speed, tach := Wrap16(m.tach + TachChange(leg.dir)),
       odo := way, totalOdo := Wrap32(way + m.totalOdo))
  }

  /** Every fourth moving record uses one unit of fuel (the sensor value grows as the tank empties). */
  function Burn1(d: Drive, spMove: u32): Drive {
    var cdut := (d.cdut + 3) % 4;
    var fuel := if cdut == 0 then Wrap16(d.m.fuel + 1) else d.m.fuel;
    d.(m := d.m.(fuel := fuel), cdut := cdut, period := spMove, moveFlag := 1,
       stopFlag := if cdut == 0 && fuel >= MIN_FUEL_TANK - MIN_FUEL_TANK / 10 then 1 else d.stopFlag)
  }

  function Drive1(d: Drive, leg: Leg, way: u32, spMove: u32): Drive
    requires leg.dir.Moving()
  {
    Burn1(d.(m := Moved(d.m, leg, d.kols, way)), spMove)
  }

  function Refuelled(fuel: u16): u16
    requires fuel > HALF_TANK
  {
    Max(fuel - HALF_TANK, MAX_FUEL_TANK)
  }

  /** Parked: with the pump unblocked the car refuels until the tank is more than half full, and then starts. */
  function Park1(d: Drive, spPark: u32): Drive {
    var m := d.m.(gps := d.m.gps.(speed := 0), ioSpeed := 0, din2 := 1, din3 := 1, din4 := 1,
                  hood := 1200, tach := 326, odo := 0);
    var parked := d.(m := m, kols := 1, period := spPark, moveFlag := 0);
    if m.dout1 == 0 then parked
    else if m.fuel > HALF_TANK then parked.(m := m.(din1 := 1, ignition := 1, fuel := Refuelled(m.fuel)))
    else
      parked.(m := m.(din1 := 1, ignition := 1, din4 := 0, tach := 1536, externalVolt := 12950),
              kols := 255, period := 2, moveFlag := 1)
  }

  /** Stopped: doors open on the first record and close after it; a blocked pump ends the stop. */
  function Stop1(d: Drive, spPark: u32): Drive {
    var first := d.kols == 1;
    var m := d.m.(gps := d.m.gps.(speed := 0), ioSpeed := 0, odo := 0, tach := 21, externalVolt := 12050,
                  din1 := if first then 0 else d.m.din1, ignition := if first then 0 else d.m.ignition,
                  din2 := if first then 0 else 1, din3 := if first then 0 else 1, din4 := if first then 0 else 1,
                  hood := if first then 234 else 1250);
    d.(m := m, kols := if m.dout1 == 0 then 255 else if d.kols == 3 then 2 else d.kols,
       period := spPark, moveFlag := 0)
  }

  function OnLeg(d: Drive, leg: Leg, way: u32, cfg: Config): Drive {
    match leg.dir
    case Park => Park1(d, cfg.spPark)
    case Stop => Stop1(d, cfg.spPark)
    case _ => Drive1(d, leg, way, cfg.spMove)
  }

  function NextIndex(index: int, total: nat): int { if index + 1 > total then 1 else index + 1 }

  /** One record in scenario mode; without a leg of that number nothing happens. */
  function Record1(d: Drive, way: u32, cfg: Config): Drive {
    if 1 <= d.index <= |cfg.legs| then
      var leg := cfg.legs[d.index - 1];
      var e := OnLeg(d.(kols := d.kols + 1), leg, way, cfg);
      if e.kols >= leg.kols
      then e.(kols := 0, index := NextIndex(e.index, |cfg.legs|), period := cfg.spMove)
      else e
    else d
  }

  // ----- runs of records, with anything a command or a relay timer can do in between -----

  /** What may change between two records: the outputs, the ignition and its input, and the housekeeping fields. */
  datatype Touch = Touch(dout1: byte, dout2: byte, dout3: byte, dout4: byte, din1: byte, ignition: byte,
                         ts: u64, prio: byte, satellites: byte, moves: byte)

  datatype Turn = Turn(touch: Touch, way: u32)

  function Touched(m: Mirror, t: Touch): Mirror {
    m.(dout1 := t.dout1, dout2 := t.dout2, dout3 := t.dout3, dout4 := t.dout4, din1 := t.din1, ignition := t.ignition,
       ts := t.ts, prio := t.prio, gps := m.gps.(satellites := t.satellites), moves := t.moves)
  }

  function Turn1(d: Drive, t: Turn, cfg: Config): Drive {
    Record1(d.(m := Touched(d.m, t.touch)), t.way, cfg)
  }

  function Run(d: Drive, turns: seq<Turn>, cfg: Config): Drive
    decreases |turns|
  {
    if turns == [] then d else Run(Turn1(d, turns[0], cfg), turns[1..], cfg)
  }

  lemma {:induction false} RunCat(d: Drive, a: seq<Turn>, b: seq<Turn>, cfg: Config)
    ensures Run(d, a + b, cfg) == Run(Run(d, a, cfg), b, cfg)
    decreases |a|
  {
    hide Turn1;
    if a == [] {
      assert a + b == b;
    } else {
      assert (a + b)[1..] == a[1..] + b;
      RunCat(Turn1(d, a[0], cfg), a[1..], b, cfg);
    }
  }

  // ----- the place in the list -----

  /** The place is a real leg, and the count is 0 or short of the leg's length. */
  ghost predicate InScenario(d: Drive, cfg: Config) {
    && 1 <= d.index <= |cfg.legs|
    && 0 <= d.kols
    && (d.kols == 0 || d.kols < cfg.legs[d.index - 1].kols)
    && (cfg.legs[d.index - 1].dir.Park? && 2 <= cfg.legs[d.index - 1].kols <= 255 ==> d.kols <= 1)
    && (cfg.legs[d.index - 1].dir.Stop? && 3 <= cfg.legs[d.index - 1].kols <= 255 ==> d.kols <= 2)
  }

  lemma TurnKeepsPlace(d: Drive, t: Turn, cfg: Config)
    requires InScenario(d, cfg)
    ensures InScenario(Turn1(d, t, cfg), cfg)
  {}

  /** In every reachable state of every scenario, moving legs or not, the place is a real leg. */
  lemma {:induction false} RunKeepsPlace(d: Drive, turns: seq<Turn>, cfg: Config)
    requires InScenario(d, cfg)
    ensures InScenario(Run(d, turns, cfg), cfg)
    decreases |turns|
  {
    hide InScenario, Turn1;
    if turns != [] {
      TurnKeepsPlace(d, turns[0], cfg);
      RunKeepsPlace(Turn1(d, turns[0], cfg), turns[1..], cfg);
    }
  }
}
