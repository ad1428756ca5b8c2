/** Theorems about whole scenario runs: the cycle over moving legs, the park/stop interlock, odometer and fuel. */
module ScenarioRuns {
  import opened Words
  import opened Mirror
  import opened Scenario

  // ----- arithmetic modulo 2^32 and 2^16 -----

  lemma Wrap32Add(x: int, y: int)
    ensures Wrap32(Wrap32(x) + y) == Wrap32(x + y)
  {}

  // ----- the cycle -----

  ghost predicate AllMoving(cfg: Config) {
    cfg.legs != [] && forall i :: 0 <= i < |cfg.legs| ==> cfg.legs[i].dir.Moving()
  }

  /** The number of records a moving leg takes. */
  function Len(leg: Leg): (n: nat)
    ensures n >= 1
  {
    Max(1, leg.kols)
  }

  function Total(legs: seq<Leg>): nat {
    if legs == [] then 0 else Len(legs[0]) + Total(legs[1..])
  }

  /** Signed displacement of a tour: each leg contributes its records times its step. */
  function NorthSum(legs: seq<Leg>): int {
    if legs == [] then 0 else Len(legs[0]) * NorthStep(legs[0]) + NorthSum(legs[1..])
  }

  function EastSum(legs: seq<Leg>): int {
    if legs == [] then 0 else Len(legs[0]) * EastStep(legs[0]) + EastSum(legs[1..])
  }

  /** d2 lies n steps of the given size from d1. */
  ghost predicate Displaced(d1: Drive, d2: Drive, north: int, east: int) {
    && d2.m.gps.latitude == Wrap32(d1.m.gps.latitude + north)
    && d2.m.gps.longitude == Wrap32(d1.m.gps.longitude + east)
  }

  lemma DisplacedTwice(d1: Drive, d2: Drive, d3: Drive, n1: int, e1: int, n2: int, e2: int)
    requires Displaced(d1, d2, n1, e1) && Displaced(d2, d3, n2, e2)
    ensures Displaced(d1, d3, n1 + n2, e1 + e2)
  {
    Wrap32Add(d1.m.gps.latitude + n1, n2);
    Wrap32Add(d1.m.gps.longitude + e1, e2);
  }

  function NorthStep(leg: Leg): int { NorthSign(leg.dir) * Abs(leg.delta) }

  function EastStep(leg: Leg): int { EastSign(leg.dir) * Abs(leg.delta) }

  lemma OneRecordOfLeg(d: Drive, t: Turn, cfg: Config)
    requires 1 <= d.index <= |cfg.legs| && cfg.legs[d.index - 1].dir.Moving()
    ensures var leg := cfg.legs[d.index - 1]; var e := Turn1(d, t, cfg);
      && Displaced(d, e, NorthStep(leg), EastStep(leg))
      && if d.kols + 1 >= leg.kols then e.index == NextIndex(d.index, |cfg.legs|) && e.kols == 0
         else e.index == d.index && e.kols == d.kols + 1
  {}

  lemma OneMore(n: nat, x: int)
    requires n >= 1
    ensures x + (n - 1) * x == n * x
  {}

  /** n more records on the current leg, when at least n are left: n steps, and the leg ends with its last record. */
  lemma {:induction false} RestOfLeg(d: Drive, turns: seq<Turn>, cfg: Config)
    requires 1 <= d.index <= |cfg.legs| && cfg.legs[d.index - 1].dir.Moving() && 0 <= d.kols
    requires 0 < |turns| && d.kols + |turns| <= Len(cfg.legs[d.index - 1])
    ensures var leg := cfg.legs[d.index - 1]; var e := Run(d, turns, cfg);
      && Displaced(d, e, |turns| * NorthStep(leg), |turns| * EastStep(leg))
      && if d.kols + |turns| == Len(leg) then e.index == NextIndex(d.index, |cfg.legs|) && e.kols == 0
         else e.index == d.index && e.kols == d.kols + |turns|
    decreases |turns|
  {
    hide Turn1, NorthStep, EastStep, Displaced;
    var leg, n := cfg.legs[d.index - 1], |turns|;
    var e := Turn1(d, turns[0], cfg);
    OneRecordOfLeg(d, turns[0], cfg);
    OneMore(n, NorthStep(leg));
    OneMore(n, EastStep(leg));
    if n == 1 {
      assert turns[1..] == [] && Run(d, turns, cfg) == e;
    } else {
      RestOfLeg(e, turns[1..], cfg);
      DisplacedTwice(d, e, Run(d, turns, cfg), NorthStep(leg), EastStep(leg),
        (n - 1) * NorthStep(leg), (n - 1) * EastStep(leg));
    }
  }

  /** From the start of leg number i to the end of the list. */
  lemma {:induction false} RestOfTour(d: Drive, turns: seq<Turn>, cfg: Config)
    requires AllMoving(cfg) && 1 <= d.index <= |cfg.legs| && d.kols == 0
    requires |turns| == Total(cfg.legs[d.index - 1..])
    ensures var rest := cfg.legs[d.index - 1..]; var e := Run(d, turns, cfg);
      e.index == 1 && e.kols == 0 && Displaced(d, e, NorthSum(rest), EastSum(rest))
    decreases |cfg.legs| - d.index
  {
    hide Turn1, NorthStep, EastStep, Displaced;
    var i := d.index - 1;
    var leg, rest, more := cfg.legs[i], cfg.legs[i..], cfg.legs[i + 1..];
    assert rest[1..] == more && rest[0] == leg;
    var here, after := turns[..Len(leg)], turns[Len(leg)..];
    assert turns == here + after;
    RunCat(d, here, after, cfg);
    RestOfLeg(d, here, cfg);
    var e := Run(d, here, cfg);
    var north, east := Len(leg) * NorthStep(leg), Len(leg) * EastStep(leg);
    if more == [] {
      assert after == [] && Run(e, after, cfg) == e;
      assert NorthSum(more) == 0 && EastSum(more) == 0;
    } else {
      RestOfTour(e, after, cfg);
      DisplacedTwice(d, e, Run(e, after, cfg), north, east, NorthSum(more), EastSum(more));
    }
  }

  /**
   * Over any non-empty list of moving legs, after as many records as the legs' lengths add up to the car is at the
   * start of leg 1 again, displaced by the signed sum of the legs, whatever commands and timers did in between.
   */
  lemma Tour(d: Drive, turns: seq<Turn>, cfg: Config)
    requires AllMoving(cfg) && d.index == 1 && d.kols == 0 && |turns| == Total(cfg.legs)
    ensures var e := Run(d, turns, cfg);
      e.index == 1 && e.kols == 0 && Displaced(d, e, NorthSum(cfg.legs), EastSum(cfg.legs))
  {
    assert cfg.legs[0..] == cfg.legs;
    RestOfTour(d, turns, cfg);
  }

  /** A tour whose legs cancel out brings the car back to where it was. */
  lemma ClosedTour(d: Drive, turns: seq<Turn>, cfg: Config)
    requires AllMoving(cfg) && d.index == 1 && d.kols == 0 && |turns| == Total(cfg.legs)
    ensures Run(d, turns, cfg).m.gps.latitude == d.m.gps.latitude <==> NorthSum(cfg.legs) % 0x1_0000_0000 == 0
    ensures Run(d, turns, cfg).m.gps.longitude == d.m.gps.longitude <==> EastSum(cfg.legs) % 0x1_0000_0000 == 0
  {
    hide NorthSum, EastSum, Run;
    Tour(d, turns, cfg);
    SameModulo(d.m.gps.latitude, NorthSum(cfg.legs));
    SameModulo(d.m.gps.longitude, EastSum(cfg.legs));
  }

  lemma SameModulo(x: u32, y: int)
    ensures Wrap32(x + y) == x <==> y % 0x1_0000_0000 == 0
  {}

  // ----- park and stop -----

  /** When a record leaves a Park leg, for every length and every state. */
  lemma ParkIsLeft(d: Drive, t: Turn, cfg: Config)
    requires 1 <= d.index <= |cfg.legs| && cfg.legs[d.index - 1].dir.Park?
    ensures var leg := cfg.legs[d.index - 1]; var e := Turn1(d, t, cfg);
      (e.kols == 0 && e.index == NextIndex(d.index, |cfg.legs|)
       <==> leg.kols <= 1 || (leg.kols <= 255 && t.touch.dout1 != 0 && d.m.fuel <= HALF_TANK))
    ensures var e := Turn1(d, t, cfg); e.kols != 0 ==> e.index == d.index
  {}

  /**
   * When a record leaves a Stop leg, for every length: up to 255 records it does if the pump is blocked, of two records
   * the second does, and beyond 255 only a record with the pump released that completes the count.
   */
  lemma StopIsLeft(d: Drive, t: Turn, cfg: Config)
    requires InScenario(d, cfg) && cfg.legs[d.index - 1].dir.Stop?
    ensures var leg := cfg.legs[d.index - 1]; var e := Turn1(d, t, cfg);
      (e.kols == 0 && e.index == NextIndex(d.index, |cfg.legs|)
       <==> leg.kols <= 1 || (leg.kols == 2 && d.kols == 1) || (leg.kols <= 255 && t.touch.dout1 == 0)
            || (leg.kols > 255 && t.touch.dout1 != 0 && d.kols == leg.kols - 1))
    ensures var e := Turn1(d, t, cfg); e.kols != 0 ==> e.index == d.index
  {}

  /** The place of the last record that found the pump blocked, or -1. */
  function LastBlocked(turns: seq<Turn>): (i: int)
    ensures -1 <= i < |turns|
  {
    if turns == [] then -1
    else if turns[|turns| - 1].touch.dout1 == 0 then |turns| - 1
    else LastBlocked(turns[..|turns| - 1])
  }

  /** A Stop leg's count: at most 2 while the pump is never blocked, then 255 and what was released since the last time. */
  function StopCount(turns: seq<Turn>): nat {
    var i := LastBlocked(turns);
    if i == -1 then if |turns| < 2 then |turns| else 2 else 255 + (|turns| - 1 - i)
  }

  lemma StopCountGrows(turns: seq<Turn>)
    requires turns != []
    ensures var c := StopCount(turns[..|turns| - 1]) + 1;
      StopCount(turns) == if turns[|turns| - 1].touch.dout1 == 0 then 255 else if c == 3 then 2 else c
  {}

  lemma LongStopRecord(d: Drive, t: Turn, cfg: Config)
    requires InScenario(d, cfg) && cfg.legs[d.index - 1].dir.Stop? && cfg.legs[d.index - 1].kols > 255
    ensures var c := if t.touch.dout1 == 0 then 255 else if d.kols + 1 == 3 then 2 else d.kols + 1; var e := Turn1(d, t, cfg);
      if c < cfg.legs[d.index - 1].kols then e.index == d.index && e.kols == c
      else e.index == NextIndex(d.index, |cfg.legs|) && e.kols == 0
  {}

  /**
   * A Stop leg of more than 255 records, from its first record on: it is the current leg with that count as long as the
   * count has not reached its length, and is left by the record that makes it reach it, so never without a blocked
   * record followed by exactly as many released ones as its length exceeds 255.
   */
  lemma {:induction false} LongStopTakes(d: Drive, turns: seq<Turn>, cfg: Config)
    requires InScenario(d, cfg) && cfg.legs[d.index - 1].dir.Stop? && cfg.legs[d.index - 1].kols > 255 && d.kols == 0
    requires forall n :: 0 <= n < |turns| ==> StopCount(turns[..n]) < cfg.legs[d.index - 1].kols
    ensures var e := Run(d, turns, cfg);
      if StopCount(turns) < cfg.legs[d.index - 1].kols then e.index == d.index && e.kols == StopCount(turns)
      else e.index == NextIndex(d.index, |cfg.legs|) && e.kols == 0
    decreases |turns|
  {
    if turns != [] {
      hide Turn1, InScenario, StopCount;
      var init, last := turns[..|turns| - 1], turns[|turns| - 1];
      forall n | 0 <= n < |init| ensures StopCount(init[..n]) < cfg.legs[d.index - 1].kols {
        assert init[..n] == turns[..n];
      }
      LongStopTakes(d, init, cfg);
      StopCountGrows(turns);
      RunKeepsPlace(d, init, cfg);
      LongStopRecord(Run(d, init, cfg), last, cfg);
      RunSnoc(d, init, last, cfg);
      assert turns == init + [last];
    }
  }

  lemma RunSnoc(d: Drive, init: seq<Turn>, last: Turn, cfg: Config)
    ensures Run(d, init + [last], cfg) == Turn1(Run(d, init, cfg), last, cfg)
  {
    hide Turn1;
    RunCat(d, init, [last], cfg);
    assert [last][1..] == [];
    assert Run(Turn1(Run(d, init, cfg), last, cfg), [], cfg) == Turn1(Run(d, init, cfg), last, cfg);
  }

  /** A Park leg longer than 255 records is never left: the count only ever takes the values 1 and 255. */
  lemma {:induction false} LongParkIsForEver(d: Drive, turns: seq<Turn>, cfg: Config)
    requires 1 <= d.index <= |cfg.legs| && cfg.legs[d.index - 1].dir.Park? && cfg.legs[d.index - 1].kols > 255
    ensures Run(d, turns, cfg).index == d.index
    decreases |turns|
  {
    if turns != [] {
      var e := Turn1(d, turns[0], cfg);
      assert e.index == d.index;
      hide Turn1;
      LongParkIsForEver(e, turns[1..], cfg);
    }
  }

  function CeilDiv(x: nat, y: nat): nat
    requires y > 0
  {
    (x + y - 1) / y
  }

  /** How many records a parked car with an unblocked pump needs: refuelling steps, then the start. */
  function ParkRecords(fuel: nat): (n: nat)
    ensures n >= 1
  {
    Max(1, CeilDiv(fuel, HALF_TANK))
  }

  /**
   * With the pump unblocked at every record a Park leg of 2 to 255 records takes exactly max(1, ceil(fuel/1275))
   * records: it is still the current leg after fewer, and is left by that one.
   */
  lemma {:induction false} ParkTakes(d: Drive, turns: seq<Turn>, cfg: Config)
    requires InScenario(d, cfg) && cfg.legs[d.index - 1].dir.Park? && 2 <= cfg.legs[d.index - 1].kols <= 255
    requires forall i :: 0 <= i < |turns| ==> turns[i].touch.dout1 != 0
    requires |turns| <= ParkRecords(d.m.fuel)
    ensures var e := Run(d, turns, cfg);
      if |turns| == ParkRecords(d.m.fuel) then e.kols == 0 && e.index == NextIndex(d.index, |cfg.legs|)
      else e.index == d.index && (turns == [] || e.kols == 1)
    decreases |turns|
  {
    if turns != [] {
      var e := Turn1(d, turns[0], cfg);
      if d.m.fuel > HALF_TANK {
        assert e.m.fuel == Refuelled(d.m.fuel) && e.index == d.index && e.kols == 1;
        RefuellingCounts(d.m.fuel);
        hide Turn1;
        TurnKept(d, turns[0], cfg);
        ParkTakes(e, turns[1..], cfg);
        assert Run(d, turns, cfg) == Run(e, turns[1..], cfg);
        if turns[1..] == [] { assert Run(e, [], cfg) == e; }
      } else {
        assert turns[1..] == [] && Run(e, [], cfg) == e;
      }
    }
  }

  lemma TurnKept(d: Drive, t: Turn, cfg: Config)
    requires InScenario(d, cfg)
    ensures InScenario(Turn1(d, t, cfg), cfg)
  {
    TurnKeepsPlace(d, t, cfg);
  }

  lemma RefuellingCounts(fuel: u16)
    requires fuel > HALF_TANK
    ensures ParkRecords(Refuelled(fuel)) + 1 == ParkRecords(fuel)
  {}

  // ----- the distance driven -----

  /** The distance of one record: what was driven, if it is spent on a moving leg. */
  function Way1(d: Drive, t: Turn, cfg: Config): nat {
    if 1 <= d.index <= |cfg.legs| && !cfg.legs[d.index - 1].dir.Park? && !cfg.legs[d.index - 1].dir.Stop? then t.way else 0
  }

  function WaySum(d: Drive, turns: seq<Turn>, cfg: Config): nat
    decreases |turns|
  {
    if turns == [] then 0 else Way1(d, turns[0], cfg) + WaySum(Turn1(d, turns[0], cfg), turns[1..], cfg)
  }

  /** Every record on a leg carries the distance just driven, or 0 when standing, and the total grows by just that. */
  lemma RecordShowsWay(d: Drive, t: Turn, cfg: Config)
    ensures var e := Turn1(d, t, cfg); e.m.totalOdo == Wrap32(d.m.totalOdo + Way1(d, t, cfg))
    ensures 1 <= d.index <= |cfg.legs| ==> Turn1(d, t, cfg).m.odo == Way1(d, t, cfg)
  {}

  /** Over any run the total odometer is its start plus the distances of the records spent on moving legs. */
  lemma {:induction false} OdometerIsDistance(d: Drive, turns: seq<Turn>, cfg: Config)
    ensures Run(d, turns, cfg).m.totalOdo == Wrap32(d.m.totalOdo + WaySum(d, turns, cfg))
    decreases |turns|
  {
    hide Turn1, Way1;
    if turns != [] {
      RecordShowsWay(d, turns[0], cfg);
      OdometerIsDistance(Turn1(d, turns[0], cfg), turns[1..], cfg);
      Wrap32Add(d.m.totalOdo + Way1(d, turns[0], cfg), WaySum(Turn1(d, turns[0], cfg), turns[1..], cfg));
    }
  }

  // ----- odometer and fuel -----

  /** The sum of the per-record odometers a run sends. */
  function OdoSum(d: Drive, turns: seq<Turn>, cfg: Config): nat
    decreases |turns|
  {
    if turns == [] then 0
    else var e := Turn1(d, turns[0], cfg); e.m.odo + OdoSum(e, turns[1..], cfg)
  }

  /** Fuel units used by n moving records when the divider stands at c: one at every fourth. */
  function Burnt(c: nat, n: nat): nat
    requires c < 4
  {
    (n + (4 - c) % 4) / 4
  }

  lemma DriveAccounts(d: Drive, leg: Leg, way: u32, spMove: u32)
    requires d.cdut < 4 && leg.dir.Moving()
    ensures var e := Drive1(d, leg, way, spMove);
      && e.m.totalOdo == Wrap32(d.m.totalOdo + e.m.odo)
      && e.m.fuel == Wrap16(d.m.fuel + Burnt(d.cdut, 1)) && e.cdut == (d.cdut + 3) % 4
  {
    hide Burnt, Moved;
    BurntOnce(d.cdut);
    OdometerMoves(d.m, leg, d.kols, way);
  }

  lemma OdometerMoves(m: Mirror, leg: Leg, kols: int, way: u32)
    requires leg.dir.Moving()
    ensures var n := Moved(m, leg, kols, way);
      n.totalOdo == Wrap32(m.totalOdo + n.odo) && n.fuel == m.fuel
  {}

  lemma BurntOnce(c: nat)
    requires c < 4
    ensures Burnt(c, 1) == if (c + 3) % 4 == 0 then 1 else 0
  {
    if c == 0 {} else if c == 1 {} else if c == 2 {} else {}
  }

  lemma ParkAccounts(d: Drive, spPark: u32)
    ensures var e := Park1(d, spPark);
      && e.m.totalOdo == Wrap32(d.m.totalOdo + e.m.odo) && e.cdut == d.cdut
      && e.m.fuel == if d.m.dout1 != 0 && d.m.fuel > HALF_TANK then Refuelled(d.m.fuel) else d.m.fuel
  {}

  lemma StopAccounts(d: Drive, spPark: u32)
    ensures var e := Stop1(d, spPark);
      e.m.totalOdo == Wrap32(d.m.totalOdo + e.m.odo) && e.cdut == d.cdut && e.m.fuel == d.m.fuel
  {}

  /** Odometer, divider and fuel after one record on a leg. */
  lemma LegAccounts(d: Drive, leg: Leg, way: u32, cfg: Config)
    requires d.cdut < 4
    ensures var e := OnLeg(d, leg, way, cfg);
      && e.m.totalOdo == Wrap32(d.m.totalOdo + e.m.odo)
      && e.m.fuel == (if leg.dir.Moving() then Wrap16(d.m.fuel + Burnt(d.cdut, 1))
                      else if leg.dir.Park? && d.m.dout1 != 0 && d.m.fuel > HALF_TANK then Refuelled(d.m.fuel)
                      else d.m.fuel)
      && e.cdut == (if leg.dir.Moving() then (d.cdut + 3) % 4 else d.cdut)
  {
    hide Drive1, Park1, Stop1, Wrap32, Wrap16, Burnt;
    match leg.dir
    case Park => ParkAccounts(d, cfg.spPark);
    case Stop => StopAccounts(d, cfg.spPark);
    case _ => DriveAccounts(d, leg, way, cfg.spMove);
  }

  lemma OneRecordOdometer(d: Drive, t: Turn, cfg: Config)
    requires InScenario(d, cfg) && d.cdut < 4
    ensures var e := Turn1(d, t, cfg); e.m.totalOdo == Wrap32(d.m.totalOdo + e.m.odo) && e.cdut < 4
  {
    hide OnLeg, Wrap32;
    LegAccounts(d.(m := Touched(d.m, t.touch), kols := d.kols + 1), cfg.legs[d.index - 1], t.way, cfg);
  }

  /** The total odometer is its start plus the odometers of all records sent, over any legs and any run. */
  lemma {:induction false} OdometerConserved(d: Drive, turns: seq<Turn>, cfg: Config)
    requires InScenario(d, cfg) && d.cdut < 4
    ensures Run(d, turns, cfg).m.totalOdo == Wrap32(d.m.totalOdo + OdoSum(d, turns, cfg))
    decreases |turns|
  {
    hide Turn1, InScenario;
    if turns != [] {
      var e := Turn1(d, turns[0], cfg);
      OneRecordOdometer(d, turns[0], cfg);
      TurnKeepsPlace(d, turns[0], cfg);
      OdometerConserved(e, turns[1..], cfg);
      Wrap32Add(d.m.totalOdo + e.m.odo, OdoSum(e, turns[1..], cfg));
    }
  }

  ghost predicate OnMovingLeg(d: Drive, cfg: Config) {
    1 <= d.index <= |cfg.legs| && cfg.legs[d.index - 1].dir.Moving()
  }

  /** The number of records of a run that are spent on moving legs. */
  ghost function Moves(d: Drive, turns: seq<Turn>, cfg: Config): nat
    decreases |turns|
  {
    if turns == [] then 0
    else (if OnMovingLeg(d, cfg) then 1 else 0) + Moves(Turn1(d, turns[0], cfg), turns[1..], cfg)
  }

  /** What one record takes off the fuel sensor by refuelling. */
  function Refuel(d: Drive, t: Turn, cfg: Config): nat {
    if 1 <= d.index <= |cfg.legs| && cfg.legs[d.index - 1].dir.Park? && t.touch.dout1 != 0 && d.m.fuel > HALF_TANK
    then d.m.fuel - Refuelled(d.m.fuel) else 0
  }

  function RefuelSum(d: Drive, turns: seq<Turn>, cfg: Config): nat
    decreases |turns|
  {
    if turns == [] then 0 else Refuel(d, turns[0], cfg) + RefuelSum(Turn1(d, turns[0], cfg), turns[1..], cfg)
  }

  lemma OneRecordFuel(d: Drive, t: Turn, cfg: Config)
    requires d.cdut < 4
    ensures var e := Turn1(d, t, cfg); var moved := if OnMovingLeg(d, cfg) then 1 else 0;
      && e.cdut == (d.cdut + 3 * moved) % 4 && e.cdut < 4
      && e.m.fuel == Wrap16(d.m.fuel + Burnt(d.cdut, moved) - Refuel(d, t, cfg))
  {
    hide OnLeg;
    if 1 <= d.index <= |cfg.legs| {
      LegAccounts(d.(m := Touched(d.m, t.touch), kols := d.kols + 1), cfg.legs[d.index - 1], t.way, cfg);
    }
  }

  lemma BurntAdds(c: nat, moved: nat, n: nat)
    requires c < 4 && moved <= 1
    ensures Burnt(c, moved + n) == Burnt(c, moved) + Burnt((c + 3 * moved) % 4, n)
  {}

  lemma FuelAdds(fuel: int, burnt1: int, refuel1: int, burnt2: int, refuel2: int)
    ensures Wrap16(Wrap16(fuel + burnt1 - refuel1) + burnt2 - refuel2)
      == Wrap16(fuel + (burnt1 + burnt2) - (refuel1 + refuel2))
  {}

  /** Fuel balance of any run over any legs: the start, plus a unit for every fourth move, minus what was refuelled. */
  lemma {:induction false} FuelBalance(d: Drive, turns: seq<Turn>, cfg: Config)
    requires d.cdut < 4
    ensures Run(d, turns, cfg).m.fuel
      == Wrap16(d.m.fuel + Burnt(d.cdut, Moves(d, turns, cfg)) - RefuelSum(d, turns, cfg))
    decreases |turns|
  {
    hide Turn1, Refuel, OnMovingLeg, Burnt, Wrap16;
    if turns == [] {
      NothingBurnt(d.cdut, d.m.fuel);
    } else {
      var t, rest := turns[0], turns[1..];
      var e := Turn1(d, t, cfg);
      OneRecordFuel(d, t, cfg);
      FuelBalance(e, rest, cfg);
      var moved, n := if OnMovingLeg(d, cfg) then 1 else 0, Moves(e, rest, cfg);
      BurntAdds(d.cdut, moved, n);
      FuelAdds(d.m.fuel, Burnt(d.cdut, moved), Refuel(d, t, cfg), Burnt(e.cdut, n), RefuelSum(e, rest, cfg));
    }
  }

  lemma NothingBurnt(c: nat, fuel: u16)
    requires c < 4
    ensures Burnt(c, 0) == 0 && Wrap16(fuel) == fuel
  {
    var k := (4 - c) % 4;
    assert 0 <= k < 4;
  }

  /** Over n moving records from the initial divider the fuel value rises by floor((n+1)/4). */
  lemma {:induction false} FuelOfMovingRun(d: Drive, turns: seq<Turn>, cfg: Config)
    requires AllMoving(cfg) && InScenario(d, cfg) && d.cdut == 3
    ensures Run(d, turns, cfg).m.fuel == Wrap16(d.m.fuel + (|turns| + 1) / 4)
  {
    FuelBalance(d, turns, cfg);
    AllRecordsMove(d, turns, cfg);
  }

  lemma {:induction false} AllRecordsMove(d: Drive, turns: seq<Turn>, cfg: Config)
    requires AllMoving(cfg) && InScenario(d, cfg)
    ensures Moves(d, turns, cfg) == |turns| && RefuelSum(d, turns, cfg) == 0
    decreases |turns|
  {
    if turns != [] {
      TurnKeepsPlace(d, turns[0], cfg);
      hide Turn1;
      AllRecordsMove(Turn1(d, turns[0], cfg), turns[1..], cfg);
    }
  }

  // ----- what a record shows -----

  /** The heading of a direction points the way its position moves: north and east of it, and halfway on a diagonal. */
  lemma HeadingPointsAhead(dir: Dir)
    requires dir.Moving()
    ensures var h := Heading(dir);
      && h < 360 && h % 45 == 0
      && (NorthSign(dir) == 1 <==> h < 90 || h > 270) && (NorthSign(dir) == -1 <==> 90 < h < 270)
      && (EastSign(dir) == 1 <==> 0 < h < 180) && (EastSign(dir) == -1 <==> 180 < h)
  {}

  /** North and south are latitude, east and west longitude, and the diagonals both. */
  lemma Directions()
    ensures [NorthSign(North), NorthSign(East), NorthSign(South), NorthSign(West), NorthSign(NorthEast),
             NorthSign(NorthWest), NorthSign(SouthEast), NorthSign(SouthWest)] == [1, 0, -1, 0, 1, 1, -1, -1]
    ensures [EastSign(North), EastSign(East), EastSign(South), EastSign(West), EastSign(NorthEast),
             EastSign(NorthWest), EastSign(SouthEast), EastSign(SouthWest)] == [0, 1, 0, -1, 1, -1, 1, -1]
  {}

  /**
   * A record on a moving leg: its heading; a speed that counts the records of the leg, from 9 on, or from 6 to the east
   * and the west; the height, which rises by 1 to the east and to the south and falls by 1 to the west and to the north;
   * the tachometer; and the period for driving.
   */
  lemma MovingRecord(d: Drive, t: Turn, cfg: Config)
    requires 1 <= d.index <= |cfg.legs| && cfg.legs[d.index - 1].dir.Moving()
    ensures var dir, e, g := cfg.legs[d.index - 1].dir, Turn1(d, t, cfg), d.m.gps; var straight := dir.East? || dir.West?;
      && e.m.gps.angle == Heading(dir) && e.period == cfg.spMove
      && e.m.gps.speed == e.m.ioSpeed == Wrap16(d.kols + (if straight then 6 else 9))
      && e.m.gps.altitude
         == Wrap16(g.altitude + if dir.East? || dir.South? || dir.NorthEast? || dir.SouthEast? then 1 else -1)
      && e.m.tach == Wrap16(d.m.tach + (if dir.North? || dir.South? then -28 else if straight then 56
                                       else if dir.NorthEast? || dir.NorthWest? then -18 else -32))
      && e.moveFlag == 1 && e.stopFlag == (if d.cdut % 4 == 1 && e.m.fuel >= 2970 then 1 else d.stopFlag)
  {}

  /**
   * A record on a Park leg: standing, doors, trunk and hood closed, parked until it starts. With the pump released the
   * ignition is on, and a record takes 1275 off the fuel sensor, but not below 750 (full), until it shows at most 1275;
   * then the engine starts.
   */
  lemma ParkRecord(d: Drive, t: Turn, cfg: Config)
    requires 1 <= d.index <= |cfg.legs| && cfg.legs[d.index - 1].dir.Park?
    ensures var e, on := Turn1(d, t, cfg), t.touch.dout1 != 0; var starts := on && d.m.fuel <= 1275;
      && e.m.gps.speed == e.m.ioSpeed == 0 && e.m.din2 == e.m.din3 == 1 && e.m.hood == 1200
      && e.m.din4 == (if starts then 0 else 1) && e.m.tach == (if starts then 1536 else 326)
      && e.m.externalVolt == (if starts then 12950 else d.m.externalVolt)
      && e.m.ignition == (if on then 1 else t.touch.ignition) && e.m.din1 == (if on then 1 else t.touch.din1)
      && e.m.fuel == (if !on || starts then d.m.fuel else if d.m.fuel < 2025 then 750 else d.m.fuel - 1275)
      && e.period == (if e.kols == 0 then cfg.spMove else if starts then 2 else cfg.spPark)
      && e.moveFlag == (if starts then 1 else 0)
      && e.m.gps.latitude == d.m.gps.latitude && e.m.gps.longitude == d.m.gps.longitude
  {}

  /** A record on a Stop leg: standing; at the first everything is open and the ignition off, later all is closed. */
  lemma StopRecord(d: Drive, t: Turn, cfg: Config)
    requires InScenario(d, cfg) && cfg.legs[d.index - 1].dir.Stop?
    ensures var e, first := Turn1(d, t, cfg), d.kols == 0; var shut := if first then 0 else 1;
      && e.m.gps.speed == e.m.ioSpeed == 0 && e.m.tach == 21 && e.m.externalVolt == 12050
      && e.m.din2 == e.m.din3 == e.m.din4 == shut && e.m.hood == (if first then 234 else 1250)
      && e.m.ignition == (if first then 0 else t.touch.ignition) && e.m.din1 == (if first then 0 else t.touch.din1)
      && e.period == (if e.kols == 0 then cfg.spMove else cfg.spPark) && e.moveFlag == 0
      && e.m.gps.latitude == d.m.gps.latitude && e.m.gps.longitude == d.m.gps.longitude
  {}
}
