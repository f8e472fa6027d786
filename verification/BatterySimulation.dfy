/**
 The two battery simulators: `_simulate` of ems/replay.py, under arbitrary per-slot intents, and
 `_simulate_auto_battery` of ems/finance.py. Powers are watts, energies kWh, one slot a quarter-hour.
*/
module BatterySimulation {
  import opened Prelude
  import opened Domain
  import DayFinance

  const SLOT_H := 0.25

  /** Battery parameters after clamping: `eta` is the one-way efficiency, the root of the round trip. */
  datatype Battery = Battery(eta: real, usable: real, reserve: real, target: real, maxCharge: real, maxDischarge: real)

  ghost predicate Sound(b: Battery) {
    && 0.0 < b.eta <= 1.0 && 0.0 <= b.reserve <= b.usable && 0.0 <= b.target <= b.usable
    && b.maxCharge >= 0.0 && b.maxDischarge >= 0.0
  }

  datatype Slot = Slot(load: real, solar: real, intent: Option<Intent>)

  /** AC watts that would store, or that would deliver, a given amount of pack energy in one slot. */
  function ChargeWattsFor(kwh: real, eta: real): real
    requires eta > 0.0
  {
    kwh / eta / SLOT_H * 1000.0
  }

  function DischargeWattsFor(kwh: real, eta: real): real { kwh * eta / SLOT_H * 1000.0 }

  function MaxChargeAc(b: Battery, soc: real): real
    requires b.eta > 0.0
  {
    Min(b.maxCharge, ChargeWattsFor(Max(0.0, b.usable - soc), b.eta))
  }

  function MaxDischargeAc(b: Battery, soc: real): real {
    Min(b.maxDischarge, DischargeWattsFor(Max(0.0, soc - b.reserve), b.eta))
  }

  /** Self-consumption: discharge the deficit, soak up the surplus, within what inverter and pack allow. */
  function TrackHouse(b: Battery, soc: real, net: real): real
    requires b.eta > 0.0
  {
    if net > 0.0 then Min(net, MaxDischargeAc(b, soc))
    else if net < 0.0 then -Min(-net, MaxChargeAc(b, soc))
    else 0.0
  }

  /** Battery watts of one slot: positive discharges, negative charges. */
  function BatteryWatts(b: Battery, soc: real, s: Slot): real
    requires b.eta > 0.0
  {
    match s.intent
    case Some(GridChargeToTarget) => -Min(MaxChargeAc(b, soc), ChargeWattsFor(Max(0.0, b.target - soc), b.eta))
    case Some(HoldReserve) => 0.0
    case _ => TrackHouse(b, soc, s.load - s.solar)
  }

  /** Pack energy one slot of charging at, or of discharging at, the given AC watts puts in or takes out. */
  function Gained(watts: real, eta: real): real { watts * eta * SLOT_H / 1000.0 }

  function Drawn(watts: real, eta: real): real
    requires eta > 0.0
  {
    watts / eta * SLOT_H / 1000.0
  }

  /** Pack energy after one slot, before the final clamp. */
  function Stepped(b: Battery, soc: real, watts: real): real
    requires b.eta > 0.0
  {
    if watts < 0.0 then soc + Gained(-watts, b.eta) else if watts > 0.0 then soc - Drawn(watts, b.eta) else soc
  }

  function NextSoc(b: Battery, soc: real, s: Slot): real
    requires b.eta > 0.0
  {
    Clamp(Stepped(b, soc, BatteryWatts(b, soc, s)), 0.0, b.usable)
  }

  /** Pack energy after the first n slots. */
  function Soc(b: Battery, start: real, slots: seq<Slot>, n: nat): real
    requires b.eta > 0.0 && n <= |slots|
  {
    if n == 0 then start else NextSoc(b, Soc(b, start, slots, n - 1), slots[n - 1])
  }

  function Watts(b: Battery, start: real, slots: seq<Slot>, i: nat): real
    requires b.eta > 0.0 && i < |slots|
  {
    BatteryWatts(b, Soc(b, start, slots, i), slots[i])
  }

  function Grid(b: Battery, start: real, slots: seq<Slot>, i: nat): real
    requires b.eta > 0.0 && i < |slots|
  {
    slots[i].load - slots[i].solar - Watts(b, start, slots, i)
  }

  function SlotKwh(watts: real): real { Max(0.0, watts) * SLOT_H / 1000.0 }

  function Discharged(b: Battery, start: real, slots: seq<Slot>, n: nat): real
    requires b.eta > 0.0 && n <= |slots|
  {
    if n == 0 then 0.0 else Discharged(b, start, slots, n - 1) + SlotKwh(Watts(b, start, slots, n - 1))
  }

  function Charged(b: Battery, start: real, slots: seq<Slot>, n: nat): real
    requires b.eta > 0.0 && n <= |slots|
  {
    if n == 0 then 0.0 else Charged(b, start, slots, n - 1) + SlotKwh(-Watts(b, start, slots, n - 1))
  }

  function Imported(b: Battery, start: real, slots: seq<Slot>, n: nat): real
    requires b.eta > 0.0 && n <= |slots|
  {
    if n == 0 then 0.0 else Imported(b, start, slots, n - 1) + SlotKwh(Grid(b, start, slots, n - 1))
  }

  function Exported(b: Battery, start: real, slots: seq<Slot>, n: nat): real
    requires b.eta > 0.0 && n <= |slots|
  {
    if n == 0 then 0.0 else Exported(b, start, slots, n - 1) + SlotKwh(-Grid(b, start, slots, n - 1))
  }

  // --- one slot --------------------------------------------------------------------------------------------

  /** Charging by the watts computed for some room fills no more than that room. */
  lemma ChargeWithinRoom(watts: real, room: real, eta: real)
    requires 0.0 < eta <= 1.0 && room >= 0.0 && 0.0 <= watts <= ChargeWattsFor(room, eta)
    ensures 0.0 <= Gained(watts, eta) <= room
  {
    var full := ChargeWattsFor(room, eta);
    assert room / eta >= 0.0;
    assert full * SLOT_H / 1000.0 == room / eta;
    assert (room / eta) * eta == room;
    assert watts * SLOT_H / 1000.0 <= room / eta;
    assert (watts * SLOT_H / 1000.0) * eta <= (room / eta) * eta;
    assert (watts * SLOT_H / 1000.0) * eta == watts * eta * SLOT_H / 1000.0;
  }

  /** Discharging by the watts computed for some energy takes no more than that energy. */
  lemma DischargeWithinAvailable(watts: real, available: real, eta: real)
    requires 0.0 < eta <= 1.0 && available >= 0.0 && 0.0 <= watts <= DischargeWattsFor(available, eta)
    ensures 0.0 <= Drawn(watts, eta) <= available
  {
    var x := watts * SLOT_H / 1000.0;
    assert DischargeWattsFor(available, eta) * SLOT_H / 1000.0 == available * eta;
    assert 0.0 <= x <= available * eta;
    assert x / eta <= (available * eta) / eta == available;
    assert watts / eta * SLOT_H / 1000.0 == x / eta >= 0.0;
  }

  lemma ChargeStaysInRange(b: Battery, soc: real, watts: real)
    requires Sound(b) && 0.0 <= soc <= b.usable && -MaxChargeAc(b, soc) <= watts <= 0.0
    ensures soc <= Stepped(b, soc, watts) <= b.usable
  {
    if watts < 0.0 { ChargeWithinRoom(-watts, b.usable - soc, b.eta); }
  }

  lemma DischargeStaysInRange(b: Battery, soc: real, watts: real)
    requires Sound(b) && 0.0 <= soc <= b.usable && 0.0 <= watts <= MaxDischargeAc(b, soc)
    ensures Min(soc, b.reserve) <= Stepped(b, soc, watts) <= soc
  {
    if watts > 0.0 { DischargeWithinAvailable(watts, Max(0.0, soc - b.reserve), b.eta); }
  }

  lemma WattsWithinLimits(b: Battery, soc: real, s: Slot)
    requires Sound(b)
    ensures -MaxChargeAc(b, soc) <= BatteryWatts(b, soc, s) <= MaxDischargeAc(b, soc)
  {
    RoomIsNonNegative(b, soc);
  }

  /** Within one slot the pack neither overfills nor empties, and discharge stops at the reserve. */
  lemma SlotStaysInRange(b: Battery, soc: real, s: Slot)
    requires Sound(b) && 0.0 <= soc <= b.usable
    ensures 0.0 <= Stepped(b, soc, BatteryWatts(b, soc, s)) <= b.usable
    ensures Min(soc, b.reserve) <= Min(Stepped(b, soc, BatteryWatts(b, soc, s)), b.reserve)
    ensures -b.maxCharge <= BatteryWatts(b, soc, s) <= b.maxDischarge
  {
    var watts := BatteryWatts(b, soc, s);
    WattsWithinLimits(b, soc, s);
    if watts <= 0.0 { ChargeStaysInRange(b, soc, watts); } else { DischargeStaysInRange(b, soc, watts); }
  }

  lemma RoomIsNonNegative(b: Battery, soc: real)
    requires Sound(b)
    ensures MaxChargeAc(b, soc) >= 0.0 && MaxDischargeAc(b, soc) >= 0.0
    ensures ChargeWattsFor(Max(0.0, b.target - soc), b.eta) >= 0.0
  {
    assert Max(0.0, b.target - soc) / b.eta >= 0.0;
    assert Max(0.0, b.usable - soc) / b.eta >= 0.0;
    assert Max(0.0, soc - b.reserve) * b.eta >= 0.0;
  }

  // --- laws of a whole run ---------------------------------------------------------------------------------

  /** The final clamp never changes anything: the pack is always within its bounds already. */
  lemma {:induction false} ClampIsIdle(b: Battery, start: real, slots: seq<Slot>, n: nat)
    requires Sound(b) && 0.0 <= start <= b.usable && n <= |slots|
    ensures 0.0 <= Soc(b, start, slots, n) <= b.usable
    ensures n > 0 ==>
      Soc(b, start, slots, n) == Stepped(b, Soc(b, start, slots, n - 1), Watts(b, start, slots, n - 1))
  {
    if n > 0 {
      ClampIsIdle(b, start, slots, n - 1);
      SlotStaysInRange(b, Soc(b, start, slots, n - 1), slots[n - 1]);
    }
  }

  /** Below the reserve the pack never falls further, and once at or above it, it stays there. */
  lemma {:induction false} ReserveIsKept(b: Battery, start: real, slots: seq<Slot>, i: nat, n: nat)
    requires Sound(b) && 0.0 <= start <= b.usable && i <= n <= |slots|
    ensures Min(Soc(b, start, slots, i), b.reserve) <= Min(Soc(b, start, slots, n), b.reserve)
    decreases n
  {
    if i < n {
      ReserveIsKept(b, start, slots, i, n - 1);
      ClampIsIdle(b, start, slots, n - 1);
      ClampIsIdle(b, start, slots, n);
      SlotStaysInRange(b, Soc(b, start, slots, n - 1), slots[n - 1]);
    }
  }

  const BREACH_EPS := 0.000000001

  predicate Breach(b: Battery, start: real, slots: seq<Slot>, n: nat)
    requires b.eta > 0.0 && n <= |slots|
  {
    Soc(b, start, slots, n) < b.reserve - BREACH_EPS
  }

  function Breaches(b: Battery, start: real, slots: seq<Slot>, n: nat): nat
    requires b.eta > 0.0 && n <= |slots|
  {
    if n == 0 then 0 else Breaches(b, start, slots, n - 1) + if Breach(b, start, slots, n) then 1 else 0
  }

  /** Breaches are the first slots of the run and nothing after; a run started at the reserve has none. */
  lemma {:induction false} BreachesFormPrefix(b: Battery, start: real, slots: seq<Slot>, n: nat)
    requires Sound(b) && 0.0 <= start <= b.usable && n <= |slots|
    ensures Breaches(b, start, slots, n) <= n
    ensures forall i :: 0 < i <= n ==> (Breach(b, start, slots, i) <==> i <= Breaches(b, start, slots, n))
    ensures start >= b.reserve ==> Breaches(b, start, slots, n) == 0
  {
    if n > 0 {
      BreachesFormPrefix(b, start, slots, n - 1);
      ReserveIsKept(b, start, slots, 0, n);
      forall i | 0 < i <= n && Breach(b, start, slots, n) ensures Breach(b, start, slots, i) {
        ReserveIsKept(b, start, slots, i, n);
      }
      assert Breach(b, start, slots, n) && n > 1 ==> Breach(b, start, slots, n - 1);
    }
  }

  lemma SteppedSplits(b: Battery, soc: real, watts: real)
    requires b.eta > 0.0
    ensures Stepped(b, soc, watts) == soc + Times(b.eta, SlotKwh(-watts)) - Times(1.0 / b.eta, SlotKwh(watts))
  {
    var x := watts * SLOT_H / 1000.0;
    assert (-watts) * b.eta * SLOT_H / 1000.0 == b.eta * -x;
    assert watts / b.eta == (1.0 / b.eta) * watts;
    assert watts / b.eta * SLOT_H / 1000.0 == (1.0 / b.eta) * x;
  }

  /** Energy balance: the pack holds what it started with, plus eta of what was charged, less 1/eta of what was delivered. */
  lemma {:induction false} StoredEnergy(b: Battery, start: real, slots: seq<Slot>, n: nat)
    requires Sound(b) && 0.0 <= start <= b.usable && n <= |slots|
    ensures Soc(b, start, slots, n)
         == start + Times(b.eta, Charged(b, start, slots, n)) - Times(1.0 / b.eta, Discharged(b, start, slots, n))
  {
    if n > 0 {
      var watts := Watts(b, start, slots, n - 1);
      StoredEnergy(b, start, slots, n - 1);
      ClampIsIdle(b, start, slots, n);
      SteppedSplits(b, Soc(b, start, slots, n - 1), watts);
      TimesAdds(Charged(b, start, slots, n - 1), SlotKwh(-watts), b.eta);
      TimesAdds(Discharged(b, start, slots, n - 1), SlotKwh(watts), 1.0 / b.eta);
    } else {
      assert Times(b.eta, 0.0) == 0.0 == Times(1.0 / b.eta, 0.0);
    }
  }

  /** Round-trip bound: what a run started above its reserve can deliver from what it charged and had to spare. */
  lemma RoundTripBound(b: Battery, start: real, slots: seq<Slot>, n: nat)
    requires Sound(b) && b.reserve <= start <= b.usable && n <= |slots|
    ensures Discharged(b, start, slots, n)
         <= Times(Times(b.eta, b.eta), Charged(b, start, slots, n)) + Times(b.eta, start - b.reserve)
  {
    StoredEnergy(b, start, slots, n);
    ReserveIsKept(b, start, slots, 0, n);
    ScaleByEta(b.eta, Charged(b, start, slots, n), Discharged(b, start, slots, n), start - b.reserve);
  }

  lemma ScaleByEta(eta: real, c: real, d: real, spare: real)
    requires eta > 0.0 && Times(1.0 / eta, d) <= spare + Times(eta, c)
    ensures d <= Times(Times(eta, eta), c) + Times(eta, spare)
  {
    var lost := (1.0 / eta) * d;
    var gap := spare + eta * c - lost;
    assert eta * gap >= 0.0;
    assert eta * lost == d by { assert eta * (1.0 / eta) == 1.0; }
    assert eta * gap == eta * spare + eta * (eta * c) - eta * lost;
    assert eta * (eta * c) == (eta * eta) * c;
  }

  predicate TracksHouse(s: Slot) { !(s.intent == Some(GridChargeToTarget) || s.intent == Some(HoldReserve)) }

  /** Self-consumption only ever shrinks the meter: each slot imports and exports no more than without a battery. */
  lemma SelfUseShrinksMeter(b: Battery, start: real, slots: seq<Slot>, i: nat)
    requires Sound(b) && i < |slots| && TracksHouse(slots[i])
    ensures var net := slots[i].load - slots[i].solar;
            0.0 <= SlotKwh(Grid(b, start, slots, i)) <= SlotKwh(net)
            && 0.0 <= SlotKwh(-Grid(b, start, slots, i)) <= SlotKwh(-net)
  {
    RoomIsNonNegative(b, Soc(b, start, slots, i));
  }

  /** Charging by the watts computed for some room fills exactly that room. */
  lemma ChargeFillsRoom(room: real, eta: real)
    requires eta > 0.0
    ensures Gained(ChargeWattsFor(room, eta), eta) == room
  {
    var x := room / eta;
    assert x * eta == room;
    assert (x / SLOT_H * 1000.0) * eta * SLOT_H / 1000.0 == x * eta;
  }

  /** Discharging by the watts computed for some energy takes exactly that energy. */
  lemma DischargeTakesAll(available: real, eta: real)
    requires eta > 0.0
    ensures Drawn(DischargeWattsFor(available, eta), eta) == available
  {
    var x := available * eta;
    assert x / eta == available;
    assert (x / SLOT_H * 1000.0) / eta == x / eta / SLOT_H * 1000.0;
  }

  lemma FullDischargeReachesReserve(b: Battery, soc: real)
    requires Sound(b) && 0.0 <= soc <= b.usable
    ensures MaxDischargeAc(b, soc) < b.maxDischarge ==> Stepped(b, soc, MaxDischargeAc(b, soc)) == Min(soc, b.reserve)
  {
    DischargeTakesAll(Max(0.0, soc - b.reserve), b.eta);
    RoomIsNonNegative(b, soc);
    if MaxDischargeAc(b, soc) == 0.0 { assert Drawn(0.0, b.eta) == 0.0; }
  }

  lemma FullChargeFillsPack(b: Battery, soc: real)
    requires Sound(b) && 0.0 <= soc <= b.usable
    ensures MaxChargeAc(b, soc) < b.maxCharge ==> Stepped(b, soc, -MaxChargeAc(b, soc)) == b.usable
  {
    ChargeFillsRoom(b.usable - soc, b.eta);
    RoomIsNonNegative(b, soc);
    if MaxChargeAc(b, soc) == 0.0 { assert Gained(0.0, b.eta) == 0.0; }
  }

  /**
   * Self-consumption does all it can and nothing else: it discharges only into a deficit and charges only
   * from a surplus, and what is left on the meter is imported only with the discharge at the inverter's
   * limit or the pack down to the reserve, and exported only with the charge at the limit or the pack full.
   */
  lemma SelfUseDoesAllItCan(b: Battery, start: real, slots: seq<Slot>, i: nat)
    requires Sound(b) && 0.0 <= start <= b.usable && i < |slots| && TracksHouse(slots[i])
    ensures var w, net, grid, after :=
              Watts(b, start, slots, i), slots[i].load - slots[i].solar, Grid(b, start, slots, i), Soc(b, start, slots, i + 1);
            && (net >= 0.0 ==> 0.0 <= w <= net) && (net <= 0.0 ==> net <= w <= 0.0)
            && (grid > 0.0 ==> w == b.maxDischarge || after <= b.reserve)
            && (grid < 0.0 ==> w == -b.maxCharge || after == b.usable)
  {
    var soc := Soc(b, start, slots, i);
    ClampIsIdle(b, start, slots, i);
    ClampIsIdle(b, start, slots, i + 1);
    RoomIsNonNegative(b, soc);
    FullDischargeReachesReserve(b, soc);
    FullChargeFillsPack(b, soc);
  }

  /** A grid-charge slot never discharges and never charges past its target, and short of it charges at the inverter's limit. */
  lemma GridChargeReachesTarget(b: Battery, start: real, slots: seq<Slot>, i: nat)
    requires Sound(b) && 0.0 <= start <= b.usable && i < |slots| && slots[i].intent == Some(GridChargeToTarget)
    ensures var w, before, after := Watts(b, start, slots, i), Soc(b, start, slots, i), Soc(b, start, slots, i + 1);
            && w <= 0.0 && before <= after <= Max(before, b.target)
            && (after < b.target ==> w == -b.maxCharge)
  {
    var soc := Soc(b, start, slots, i);
    ClampIsIdle(b, start, slots, i);
    ClampIsIdle(b, start, slots, i + 1);
    RoomIsNonNegative(b, soc);
    ChargeToTarget(b, soc);
  }

  lemma ChargeToTarget(b: Battery, soc: real)
    requires Sound(b) && 0.0 <= soc <= b.usable
    ensures var w := Min(MaxChargeAc(b, soc), ChargeWattsFor(Max(0.0, b.target - soc), b.eta));
            && 0.0 <= w && soc <= Stepped(b, soc, -w) <= Max(soc, b.target)
            && (Stepped(b, soc, -w) < b.target ==> w == b.maxCharge)
  {
    var room := Max(0.0, b.target - soc);
    var w := Min(MaxChargeAc(b, soc), ChargeWattsFor(room, b.eta));
    RoomIsNonNegative(b, soc);
    ChargeWithinRoom(w, room, b.eta);
    ChargeFillsRoom(room, b.eta);
    RoomsCompare(room, b.usable - soc, b.eta);
    if w == 0.0 { assert Gained(0.0, b.eta) == 0.0; }
  }

  lemma RoomsCompare(small: real, large: real, eta: real)
    requires eta > 0.0 && small <= large
    ensures ChargeWattsFor(small, eta) <= ChargeWattsFor(large, eta)
  {
    var x, y := small / eta, large / eta;
    assert x * eta == small && y * eta == large;
    assert (y - x) * eta >= 0.0;
    assert y - x < 0.0 ==> (y - x) * eta < 0.0;
  }

  /** A hold slot leaves the pack alone and the meter as it would be without a battery. */
  lemma HoldLeavesPackAlone(b: Battery, start: real, slots: seq<Slot>, i: nat)
    requires Sound(b) && 0.0 <= start <= b.usable && i < |slots| && slots[i].intent == Some(HoldReserve)
    ensures Soc(b, start, slots, i + 1) == Soc(b, start, slots, i)
    ensures Grid(b, start, slots, i) == slots[i].load - slots[i].solar
  {
    ClampIsIdle(b, start, slots, i + 1);
  }

  function NetKwh(slots: seq<Slot>, n: nat): real
    requires n <= |slots|
  {
    if n == 0 then 0.0 else NetKwh(slots, n - 1) + (slots[n - 1].load - slots[n - 1].solar) * SLOT_H / 1000.0
  }

  /** The meter sees the house less the battery: nothing is created or lost between them. */
  lemma {:induction false} MeterConserves(b: Battery, start: real, slots: seq<Slot>, n: nat)
    requires Sound(b) && n <= |slots|
    ensures Imported(b, start, slots, n) - Exported(b, start, slots, n)
         == NetKwh(slots, n) - Discharged(b, start, slots, n) + Charged(b, start, slots, n)
  {
    if n > 0 {
      MeterConserves(b, start, slots, n - 1);
      SlotKwhSplits(Grid(b, start, slots, n - 1));
      SlotKwhSplits(Watts(b, start, slots, n - 1));
    }
  }

  lemma SlotKwhSplits(watts: real)
    ensures SlotKwh(watts) - SlotKwh(-watts) == watts * SLOT_H / 1000.0
  {
  }

  // --- the two simulators ------------------------------------------------------------------------------

  /** Replay settings; `roundTrip` enters through the one-way efficiency, its square root. */
  datatype Config = Config(roundTrip: real, usableKwh: real, minReserveSoc: real, targetSoc: Option<real>,
                           maxChargeW: real, maxDischargeW: real)

  ghost predicate RootOf(eta: real, roundTrip: real) { eta > 0.0 && eta * eta == Clamp(roundTrip, 0.000001, 1.0) }

  function Share(pct: real, kwh: real): real { Clamp(pct, 0.0, 100.0) / 100.0 * kwh }

  function BatteryOf(c: Config, eta: real): Battery {
    Battery(eta, c.usableKwh, Share(c.minReserveSoc, c.usableKwh),
            if c.targetSoc.None? then c.usableKwh else Share(c.targetSoc.value, c.usableKwh),
            c.maxChargeW, c.maxDischargeW)
  }

  const AUTO_ETA := 0.90

  /** The AUTO trajectory of ems/finance.py fixes the round trip and floors the usable capacity. */
  function AutoConfig(usableKwh: real, maxChargeW: real, maxDischargeW: real, minReserveSoc: real): Config {
    Config(AUTO_ETA, Max(0.000001, usableKwh), minReserveSoc, None, maxChargeW, maxDischargeW)
  }

  lemma ShareWithin(pct: real, kwh: real)
    requires kwh >= 0.0
    ensures 0.0 <= Share(pct, kwh) <= kwh
  {
    var f := Clamp(pct, 0.0, 100.0) / 100.0;
    assert 0.0 <= f <= 1.0;
    assert f * kwh >= 0.0;
    var rest := 1.0 - f;
    assert rest * kwh >= 0.0;
    assert rest * kwh == kwh - f * kwh;
  }

  lemma RootAtMostOne(eta: real)
    requires eta > 0.0 && eta * eta <= 1.0
    ensures eta <= 1.0
  {
    if eta > 1.0 {
      var d := eta - 1.0;
      ProductPositive(d, eta);
    }
  }

  lemma ProductPositive(d: real, eta: real)
    requires d > 0.0 && eta > 0.0
    ensures d * eta > 0.0
  {
  }

  /** Whatever percentages are configured, the battery they describe is a sound one. */
  lemma ConfiguredBatteryIsSound(c: Config, eta: real)
    requires RootOf(eta, c.roundTrip) && c.usableKwh >= 0.0 && c.maxChargeW >= 0.0 && c.maxDischargeW >= 0.0
    ensures Sound(BatteryOf(c, eta))
  {
    ShareWithin(c.minReserveSoc, c.usableKwh);
    if c.targetSoc.Some? { ShareWithin(c.targetSoc.value, c.usableKwh); }
    RootAtMostOne(eta);
  }

  /** Percentages are shares of the usable capacity; beyond 0 and 100 they count as those. */
  lemma SharesAreShares(c: Config, eta: real, pct: real)
    requires RootOf(eta, c.roundTrip)
    ensures 0.0 <= pct <= 100.0 ==> 100.0 * Share(pct, c.usableKwh) == pct * c.usableKwh
    ensures pct <= 0.0 ==> Share(pct, c.usableKwh) == 0.0
    ensures pct >= 100.0 ==> Share(pct, c.usableKwh) == c.usableKwh
    ensures BatteryOf(c, eta).reserve == Share(c.minReserveSoc, c.usableKwh) && BatteryOf(c, eta).usable == c.usableKwh
    ensures BatteryOf(c, eta).target == if c.targetSoc.Some? then Share(c.targetSoc.value, c.usableKwh) else c.usableKwh
    ensures BatteryOf(c, eta).maxCharge == c.maxChargeW && BatteryOf(c, eta).maxDischarge == c.maxDischargeW
    ensures 0.000001 <= c.roundTrip <= 1.0 ==> BatteryOf(c, eta).eta * BatteryOf(c, eta).eta == c.roundTrip
  {
    var f := Clamp(pct, 0.0, 100.0) / 100.0;
    assert 0.0 <= pct <= 100.0 ==> 100.0 * (f * c.usableKwh) == (100.0 * f) * c.usableKwh;
  }

  lemma TargetIsIrrelevantToSlot(b: Battery, target: real, soc: real, s: Slot)
    requires b.eta > 0.0 && TracksHouse(s)
    ensures BatteryWatts(b.(target := target), soc, s) == BatteryWatts(b, soc, s)
  {
    assert TrackHouse(b.(target := target), soc, s.load - s.solar) == TrackHouse(b, soc, s.load - s.solar);
  }

  lemma {:induction false} TargetIsIrrelevantToAuto(b: Battery, target: real, start: real, slots: seq<Slot>, n: nat)
    requires b.eta > 0.0 && n <= |slots| && forall i :: 0 <= i < |slots| ==> TracksHouse(slots[i])
    ensures Soc(b, start, slots, n) == Soc(b.(target := target), start, slots, n)
    ensures forall i :: 0 <= i < n ==> Watts(b, start, slots, i) == Watts(b.(target := target), start, slots, i)
  {
    if n > 0 {
      TargetIsIrrelevantToAuto(b, target, start, slots, n - 1);
      TargetIsIrrelevantToSlot(b, target, Soc(b, start, slots, n - 1), slots[n - 1]);
    }
  }

  /**
   * The two simulators agree: replay without intents and the finance AUTO comparison take one trajectory
   * whenever the replay is configured with the fixed round trip and a usable capacity above the floor,
   * whatever target the replay carries.
   */
  lemma SimulatorsAgree(c: Config, eta: real, start: real, slots: seq<Slot>, n: nat)
    requires RootOf(eta, AUTO_ETA) && c.roundTrip == AUTO_ETA && c.usableKwh >= 0.000001
    requires n <= |slots| && forall i :: 0 <= i < |slots| ==> TracksHouse(slots[i])
    ensures var auto := BatteryOf(AutoConfig(c.usableKwh, c.maxChargeW, c.maxDischargeW, c.minReserveSoc), eta);
            Soc(auto, start, slots, n) == Soc(BatteryOf(c, eta), start, slots, n)
            && forall i :: 0 <= i < n ==> Watts(auto, start, slots, i) == Watts(BatteryOf(c, eta), start, slots, i)
  {
    TargetIsIrrelevantToAuto(BatteryOf(c, eta), c.usableKwh, start, slots, n);
  }

  /** One day of slots as the dictionaries hold it: a missing load or solar reading counts as zero. */
  datatype Day = Day(slots: seq<int>, load: map<int, real>, solar: map<int, real>, price: map<int, real>)

  function Reading(m: map<int, real>, t: int): real { if t in m then m[t] else 0.0 }

  function IntentAt(intents: map<int, Intent>, t: int): Option<Intent> {
    if t in intents then Some(intents[t]) else None
  }

  /** The run a scenario simulates: no battery means every slot idles. */
  function Run(d: Day, enabled: bool, intents: map<int, Intent>): (ss: seq<Slot>)
    ensures |ss| == |d.slots|
  {
    seq(|d.slots|, i requires 0 <= i < |d.slots| =>
      Slot(Reading(d.load, d.slots[i]), Reading(d.solar, d.slots[i]),
           if enabled then IntentAt(intents, d.slots[i]) else Some(HoldReserve)))
  }

  /**
   The meter of a day is the house less its sun less the battery, each reading in its own slot and zero when
   missing; without a battery it is the house less its sun alone.
  */
  lemma MeterOfTheDay(b: Battery, start: real, d: Day, enabled: bool, intents: map<int, Intent>, i: nat)
    requires b.eta > 0.0 && i < |d.slots|
    ensures var ss, t := Run(d, enabled, intents), d.slots[i];
            var house, sun := if t in d.load then d.load[t] else 0.0, if t in d.solar then d.solar[t] else 0.0;
            && Grid(b, start, ss, i) == house - sun - Watts(b, start, ss, i)
            && (!enabled ==> Watts(b, start, ss, i) == 0.0)
            && (TracksHouse(ss[i]) <==> enabled && !(t in intents && (intents[t].GridChargeToTarget? || intents[t].HoldReserve?)))
  {
  }

  function SlotCost(t: DayFinance.Tariff, grid: real, importPrice: real, raw: real): real {
    (Max(0.0, grid) * importPrice - Max(0.0, -grid) * DayFinance.ExportCredit(t, raw)) * SLOT_H / 1000.0
  }

  /** Cost of a metered series over its priced slots, at the tariff's import price and export credit. */
  function GridCost(t: DayFinance.Tariff, slots: seq<int>, grid: seq<real>, price: map<int, real>, n: nat): real
    requires n <= |slots| == |grid|
  {
    if n == 0 then 0.0
    else GridCost(t, slots, grid, price, n - 1)
         + if slots[n - 1] in price
           then SlotCost(t, grid[n - 1], DayFinance.ImportPrice(t, price[slots[n - 1]]), price[slots[n - 1]]) else 0.0
  }

  /** Replay charges imports at the raw price: no import fee. */
  function RawTariff(t: DayFinance.Tariff): DayFinance.Tariff { t.(includesAllFees := true) }

  /** Replay buys at the slot price, without the fee finance may add, and is credited as finance is. */
  lemma ReplayPrices(t: DayFinance.Tariff, raw: real)
    ensures DayFinance.ImportPrice(RawTariff(t), raw) == raw
    ensures DayFinance.ExportCredit(RawTariff(t), raw) == DayFinance.ExportCredit(t, raw)
  {
  }

  ghost predicate AnyPriced(slots: seq<int>, price: map<int, real>, n: nat)
    requires n <= |slots|
  {
    exists i :: 0 <= i < n && slots[i] in price
  }

  function GridSeries(b: Battery, start: real, ss: seq<Slot>): seq<real>
    requires b.eta > 0.0
  {
    seq(|ss|, i requires 0 <= i < |ss| => Grid(b, start, ss, i))
  }

  /** With every slot priced alike, a run costs its import at the import price less its export at the credit. */
  lemma {:induction false} CostIsMetered(t: DayFinance.Tariff, b: Battery, start: real, ss: seq<Slot>, slots: seq<int>,
                                         price: map<int, real>, raw: real, n: nat)
    requires b.eta > 0.0 && n <= |ss| == |slots| && forall i :: 0 <= i < n ==> slots[i] in price && price[slots[i]] == raw
    ensures GridCost(t, slots, GridSeries(b, start, ss), price, n)
         == Times(Imported(b, start, ss, n), DayFinance.ImportPrice(t, raw)) - Times(Exported(b, start, ss, n), DayFinance.ExportCredit(t, raw))
  {
    var p, k := DayFinance.ImportPrice(t, raw), DayFinance.ExportCredit(t, raw);
    if n == 0 {
      assert Times(0.0, p) == 0.0 == Times(0.0, k);
    } else {
      var w := Grid(b, start, ss, n - 1);
      CostIsMetered(t, b, start, ss, slots, price, raw, n - 1);
      TimesAdds(Imported(b, start, ss, n - 1), SlotKwh(w), p);
      TimesAdds(Exported(b, start, ss, n - 1), SlotKwh(-w), k);
      SlotCostIsMetered(t, w, raw);
    }
  }

  lemma SlotCostIsMetered(t: DayFinance.Tariff, w: real, raw: real)
    ensures SlotCost(t, w, DayFinance.ImportPrice(t, raw), raw)
         == Times(SlotKwh(w), DayFinance.ImportPrice(t, raw)) - Times(SlotKwh(-w), DayFinance.ExportCredit(t, raw))
  {
    var p, k := DayFinance.ImportPrice(t, raw), DayFinance.ExportCredit(t, raw);
    var i, e := Max(0.0, w), Max(0.0, -w);
    assert Times(SlotKwh(w), p) == i * p * SLOT_H / 1000.0;
    assert Times(SlotKwh(-w), k) == e * k * SLOT_H / 1000.0;
  }

  datatype Scenario = Scenario(cost: Option<real>, imported: real, exported: real, cycles: real, breaches: nat)

  datatype Tally = Tally(soc: real, imp: real, exp: real, discharge: real, cost: real, priced: nat, breaches: nat)

  /** The loop's accumulators after n slots are the sums of the simulated run. */
  ghost predicate Tallied(b: Battery, start: real, d: Day, enabled: bool, ss: seq<Slot>, t: DayFinance.Tariff, n: nat, y: Tally)
    requires b.eta > 0.0 && n <= |ss| == |d.slots|
  {
    && (enabled ==> y.soc == Soc(b, start, ss, n))
    && y.imp == Imported(b, start, ss, n) && y.exp == Exported(b, start, ss, n)
    && y.discharge == Discharged(b, start, ss, n)
    && y.cost == GridCost(t, d.slots, GridSeries(b, start, ss), d.price, n)
    && (y.priced > 0 <==> AnyPriced(d.slots, d.price, n))
    && y.breaches == if enabled then Breaches(b, start, ss, n) else 0
  }

  lemma TallyStep(b: Battery, start: real, d: Day, enabled: bool, ss: seq<Slot>, t: DayFinance.Tariff, n: nat, y: Tally, y': Tally)
    requires b.eta > 0.0 && n < |ss| == |d.slots| && Tallied(b, start, d, enabled, ss, t, n, y)
    requires enabled ==> y'.soc == Soc(b, start, ss, n + 1)
    requires y'.imp == y.imp + SlotKwh(Grid(b, start, ss, n)) && y'.exp == y.exp + SlotKwh(-Grid(b, start, ss, n))
    requires y'.discharge == y.discharge + SlotKwh(Watts(b, start, ss, n))
    requires y'.cost == y.cost + if d.slots[n] in d.price
      then SlotCost(t, Grid(b, start, ss, n), DayFinance.ImportPrice(t, d.price[d.slots[n]]), d.price[d.slots[n]]) else 0.0
    requires y'.priced == y.priced + if d.slots[n] in d.price then 1 else 0
    requires y'.breaches == y.breaches + if enabled && Breach(b, start, ss, n + 1) then 1 else 0
    ensures Tallied(b, start, d, enabled, ss, t, n + 1, y')
  {
    PricedNext(d.slots, d.price, n);
    SeriesCostNext(b, start, ss, d, t, n);
  }

  lemma PricedNext(slots: seq<int>, price: map<int, real>, n: nat)
    requires n < |slots|
    ensures AnyPriced(slots, price, n + 1) <==> AnyPriced(slots, price, n) || slots[n] in price
  {
  }

  lemma SeriesCostNext(b: Battery, start: real, ss: seq<Slot>, d: Day, t: DayFinance.Tariff, n: nat)
    requires b.eta > 0.0 && n < |ss| == |d.slots|
    ensures GridCost(t, d.slots, GridSeries(b, start, ss), d.price, n + 1)
         == GridCost(t, d.slots, GridSeries(b, start, ss), d.price, n)
            + if d.slots[n] in d.price
              then SlotCost(t, Grid(b, start, ss, n), DayFinance.ImportPrice(t, d.price[d.slots[n]]), d.price[d.slots[n]]) else 0.0
  {
  }

  /** Replay's forward simulation of one scenario. */
  method Simulate(c: Config, eta: real, t: DayFinance.Tariff, d: Day, startSoc: real, enabled: bool, intents: map<int, Intent>)
    returns (r: Scenario)
    requires RootOf(eta, c.roundTrip)
    ensures var b, start, ss, n := BatteryOf(c, eta), Share(startSoc, c.usableKwh), Run(d, enabled, intents), |d.slots|;
            && r.imported == Imported(b, start, ss, n) && r.exported == Exported(b, start, ss, n)
            && r.cycles == Discharged(b, start, ss, n)
            && r.breaches == (if enabled then Breaches(b, start, ss, n) else 0)
            && r.cost == (if AnyPriced(d.slots, d.price, n)
                          then Some(GridCost(RawTariff(t), d.slots, GridSeries(b, start, ss), d.price, n)) else None)
  {
    var b := BatteryOf(c, eta);
    var start := Share(startSoc, c.usableKwh);
    var raw := RawTariff(t);
    ghost var ss := Run(d, enabled, intents);
    var y := Tally(start, 0.0, 0.0, 0.0, 0.0, 0, 0);
    for i := 0 to |d.slots|
      invariant Tallied(b, start, d, enabled, ss, raw, i, y)
    {
      ghost var y0 := y;
      y := SimulateSlot(b, raw, d, d.slots[i], enabled, intents, y);
      assert d.slots[i] in d.price ==> DayFinance.ImportPrice(raw, d.price[d.slots[i]]) == d.price[d.slots[i]];
      TallyStep(b, start, d, enabled, ss, raw, i, y0, y);
    }
    r := Scenario(if y.priced > 0 then Some(y.cost) else None, y.imp, y.exp, y.discharge, y.breaches);
  }

  /** The battery's part of a slot under an intent: the AC watts and the pack energy left behind. */
  method RunPack(b: Battery, soc0: real, s: Slot) returns (w: real, soc: real)
    requires b.eta > 0.0
    ensures w == BatteryWatts(b, soc0, s) && soc == NextSoc(b, soc0, s)
  {
    var net := s.load - s.solar;
    var headroom, avail := Max(0.0, b.usable - soc0), Max(0.0, soc0 - b.reserve);
    var maxChargeAc := Min(b.maxCharge, ChargeWattsFor(headroom, b.eta));
    var maxDischargeAc := Min(b.maxDischarge, DischargeWattsFor(avail, b.eta));
    w := 0.0;
    if s.intent == Some(GridChargeToTarget) {
      w := -Min(maxChargeAc, ChargeWattsFor(Max(0.0, b.target - soc0), b.eta));
    } else if s.intent == Some(HoldReserve) {
      w := 0.0;
    } else if net > 0.0 {
      w := Min(net, maxDischargeAc);
    } else if net < 0.0 {
      w := -Min(-net, maxChargeAc);
    }
    soc := soc0;
    if w < 0.0 {
      soc := soc + Gained(-w, b.eta);
    } else if w > 0.0 {
      soc := soc - Drawn(w, b.eta);
    }
    soc := Clamp(soc, 0.0, b.usable);
  }

  /** One pass of replay's slot loop. */
  method SimulateSlot(b: Battery, t: DayFinance.Tariff, d: Day, slot: int, enabled: bool, intents: map<int, Intent>, y0: Tally)
    returns (y: Tally)
    requires b.eta > 0.0
    ensures var s := Slot(Reading(d.load, slot), Reading(d.solar, slot),
                          if enabled then IntentAt(intents, slot) else Some(HoldReserve));
            var w := BatteryWatts(b, y0.soc, s);
            var grid := s.load - s.solar - w;
            && y.soc == (if enabled then NextSoc(b, y0.soc, s) else y0.soc)
            && y.imp == y0.imp + SlotKwh(grid) && y.exp == y0.exp + SlotKwh(-grid)
            && y.discharge == y0.discharge + SlotKwh(w)
            && y.cost == y0.cost + (if slot in d.price
                 then SlotCost(t, grid, d.price[slot], d.price[slot]) else 0.0)
            && y.priced == y0.priced + (if slot in d.price then 1 else 0)
            && y.breaches == y0.breaches + (if enabled && y.soc < b.reserve - BREACH_EPS then 1 else 0)
  {
    var solar, load := Reading(d.solar, slot), Reading(d.load, slot);
    var w, soc, discharge, breaches := 0.0, y0.soc, y0.discharge, y0.breaches;
    if enabled {
      w, soc := RunPack(b, soc, Slot(load, solar, IntentAt(intents, slot)));
      discharge := discharge + SlotKwh(w);
      if soc < b.reserve - BREACH_EPS { breaches := breaches + 1; }
    }
    y := MeterSlot(t, d.price, slot, load - solar - w, Tally(soc, y0.imp, y0.exp, discharge, y0.cost, y0.priced, breaches));
  }

  method MeterSlot(t: DayFinance.Tariff, prices: map<int, real>, slot: int, grid: real, y0: Tally) returns (y: Tally)
    ensures y == y0.(imp := y0.imp + SlotKwh(grid), exp := y0.exp + SlotKwh(-grid),
                     cost := y0.cost + (if slot in prices
                       then SlotCost(t, grid, prices[slot], prices[slot]) else 0.0),
                     priced := y0.priced + (if slot in prices then 1 else 0))
  {
    y := y0.(imp := y0.imp + SlotKwh(grid), exp := y0.exp + SlotKwh(-grid));
    if slot in prices {
      var raw := prices[slot];
      var credit := DayFinance.ExportCredit(t, raw);
      y := y.(cost := y.cost + (Max(0.0, grid) * raw - Max(0.0, -grid) * credit) * SLOT_H / 1000.0, priced := y.priced + 1);
    }
  }

  /** One pass of the finance simulator's slot loop. */
  method TrackHouseSlot(b: Battery, load: real, solar: real, soc0: real) returns (w: real, soc: real)
    requires b.eta > 0.0
    ensures w == BatteryWatts(b, soc0, Slot(load, solar, None)) && soc == NextSoc(b, soc0, Slot(load, solar, None))
  {
    var net := load - solar;
    var headroom, avail := Max(0.0, b.usable - soc0), Max(0.0, soc0 - b.reserve);
    var maxChargeAc := Min(b.maxCharge, ChargeWattsFor(headroom, b.eta));
    var maxDischargeAc := Min(b.maxDischarge, DischargeWattsFor(avail, b.eta));
    if net > 0.0 {
      w := Min(net, maxDischargeAc);
    } else if net < 0.0 {
      w := -Min(-net, maxChargeAc);
    } else {
      w := 0.0;
    }
    soc := soc0;
    if w < 0.0 {
      soc := soc + Gained(-w, b.eta);
    } else if w > 0.0 {
      soc := soc - Drawn(w, b.eta);
    }
    soc := Clamp(soc, 0.0, b.usable);
  }

  /** The meter and battery series of the first n slots. */
  ghost predicate Traced(b: Battery, start: real, ss: seq<Slot>, n: nat, soc: real, grid: seq<real>, battery: seq<real>)
    requires b.eta > 0.0 && n <= |ss|
  {
    && soc == Soc(b, start, ss, n) && |grid| == |battery| == n
    && forall j :: 0 <= j < n ==> grid[j] == Grid(b, start, ss, j) && battery[j] == Watts(b, start, ss, j)
  }

  /** The finance simulator: the same physics with no intents, returning the meter and battery series. */
  method SimulateAuto(d: Day, eta: real, startSoc: real, usableKwh: real, maxChargeW: real, maxDischargeW: real, minReserveSoc: real)
    returns (grid: seq<real>, battery: seq<real>)
    requires RootOf(eta, AUTO_ETA)
    ensures var b := BatteryOf(AutoConfig(usableKwh, maxChargeW, maxDischargeW, minReserveSoc), eta);
            var start, ss, n := Share(startSoc, b.usable), Run(d, true, map[]), |d.slots|;
            Traced(b, start, ss, n, Soc(b, start, ss, n), grid, battery)
  {
    var usable := Max(0.000001, usableKwh);
    var b := Battery(eta, usable, Share(minReserveSoc, usable), usable, maxChargeW, maxDischargeW);
    var soc := Share(startSoc, usable);
    grid, battery := TraceAuto(b, d, soc);
  }

  method TraceAuto(b: Battery, d: Day, start: real) returns (grid: seq<real>, battery: seq<real>)
    requires b.eta > 0.0
    ensures Traced(b, start, Run(d, true, map[]), |d.slots|, Soc(b, start, Run(d, true, map[]), |d.slots|), grid, battery)
  {
    ghost var ss := Run(d, true, map[]);
    var soc := start;
    grid, battery := [], [];
    for i := 0 to |d.slots|
      invariant Traced(b, start, ss, i, soc, grid, battery)
    {
      var solar, load := Reading(d.solar, d.slots[i]), Reading(d.load, d.slots[i]);
      ghost var soc0 := soc;
      var w;
      w, soc := TrackHouseSlot(b, load, solar, soc);
      TraceStep(b, start, ss, i, soc0, grid, battery, w, soc);
      grid, battery := grid + [load - solar - w], battery + [w];
    }
  }

  lemma TraceStep(b: Battery, start: real, ss: seq<Slot>, n: nat, soc: real, grid: seq<real>, battery: seq<real>, w: real, soc': real)
    requires b.eta > 0.0 && n < |ss| && Traced(b, start, ss, n, soc, grid, battery)
    requires w == BatteryWatts(b, soc, ss[n]) && soc' == NextSoc(b, soc, ss[n])
    ensures Traced(b, start, ss, n + 1, soc', grid + [ss[n].load - ss[n].solar - w], battery + [w])
  {
  }

  /** Pricing of a metered series: no cost at all when no slot is priced, and wear on the given discharge either way. */
  method PriceGridCost(t: DayFinance.Tariff, slots: seq<int>, grid: seq<real>, price: map<int, real>, dischargeKwh: real)
    returns (cost: Option<real>, wear: real)
    requires |slots| == |grid|
    ensures cost == if AnyPriced(slots, price, |slots|) then Some(GridCost(t, slots, grid, price, |slots|)) else None
    ensures wear == Times(dischargeKwh, t.degradation)
  {
    var total, priced := 0.0, 0;
    for i := 0 to |slots|
      invariant total == GridCost(t, slots, grid, price, i) && priced >= 0
      invariant priced > 0 <==> AnyPriced(slots, price, i)
    {
      if slots[i] in price {
        var raw := price[slots[i]];
        priced := priced + 1;
        total := total + (Max(0.0, grid[i]) * DayFinance.ImportPrice(t, raw)
                          - Max(0.0, -grid[i]) * DayFinance.ExportCredit(t, raw)) * SLOT_H / 1000.0;
        assert AnyPriced(slots, price, i + 1);
      }
    }
    cost := if priced > 0 then Some(total) else None;
    wear := Times(dischargeKwh, t.degradation);
  }
}
