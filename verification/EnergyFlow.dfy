/**
 Solar-first energy attribution (ems/energy_flow.py): every segment's energy is split into ten
 source-to-sink bands, home before car, and the bands of a window are summed into its flows.
 Powers are watts, energies kWh.
*/
module EnergyFlow {
  import opened Prelude
  import DayFinance
  import Segments

  const EPS := 0.000000001

  datatype Bands = Bands(
    solarHome: real, solarCar: real, solarBatt: real, solarGrid: real,
    gridHome: real, gridCar: real, gridBatt: real,
    battHome: real, battCar: real, battGrid: real)

  const NOTHING := Bands(0.0, 0.0, 0.0, 0.0, 0.0, 0.0, 0.0, 0.0, 0.0, 0.0)

  function Plus(a: Bands, b: Bands): Bands {
    Bands(a.solarHome + b.solarHome, a.solarCar + b.solarCar, a.solarBatt + b.solarBatt, a.solarGrid + b.solarGrid,
          a.gridHome + b.gridHome, a.gridCar + b.gridCar, a.gridBatt + b.gridBatt,
          a.battHome + b.battHome, a.battCar + b.battCar, a.battGrid + b.battGrid)
  }

  function Import(b: Bands): real { b.gridHome + b.gridCar + b.gridBatt }

  function Export(b: Bands): real { b.solarGrid + b.battGrid }

  // --- one slot ----------------------------------------------------------------------------------------------

  /** Solar serves home, car, battery, then exports; discharge serves home, car, then exports; grid the rest. */
  function Allocate(solar: real, charge: real, discharge: real, home: real, car: real): Bands {
    var solarHome := Min(solar, home);
    var solarCar := Min(solar - solarHome, car);
    var solarBatt := Min(solar - solarHome - solarCar, charge);
    var battHome := Min(discharge, home - solarHome);
    var battCar := Min(discharge - battHome, car - solarCar);
    Bands(solarHome, solarCar, solarBatt, solar - solarHome - solarCar - solarBatt,
          home - solarHome - battHome, car - solarCar - battCar, charge - solarBatt,
          battHome, battCar, discharge - battHome - battCar)
  }

  ghost predicate NonNegative(b: Bands) {
    && b.solarHome >= 0.0 && b.solarCar >= 0.0 && b.solarBatt >= 0.0 && b.solarGrid >= 0.0
    && b.gridHome >= 0.0 && b.gridCar >= 0.0 && b.gridBatt >= 0.0
    && b.battHome >= 0.0 && b.battCar >= 0.0 && b.battGrid >= 0.0
  }

  /** Sources equal sinks: every node's energy is exactly the sum of the bands touching it. */
  ghost predicate Conserves(b: Bands, solar: real, charge: real, discharge: real, home: real, car: real) {
    && b.solarHome + b.solarCar + b.solarBatt + b.solarGrid == solar
    && b.battHome + b.battCar + b.battGrid == discharge
    && b.solarBatt + b.gridBatt == charge
    && b.solarHome + b.battHome + b.gridHome == home
    && b.solarCar + b.battCar + b.gridCar == car
  }

  ghost predicate Exclusive(solar: real, charge: real, discharge: real, home: real, car: real) {
    && solar >= 0.0 && charge >= 0.0 && discharge >= 0.0 && home >= 0.0 && car >= 0.0
    && (charge == 0.0 || discharge == 0.0)
  }

  /** A slot's bands are non-negative, conserve every node, and never import and export together. */
  lemma AllocationIsSound(solar: real, charge: real, discharge: real, home: real, car: real)
    requires Exclusive(solar, charge, discharge, home, car)
    ensures var b := Allocate(solar, charge, discharge, home, car);
            && NonNegative(b) && Conserves(b, solar, charge, discharge, home, car)
            && (Import(b) == 0.0 || Export(b) == 0.0)
            && Import(b) == Max(0.0, home + car + charge - solar - discharge)
            && Export(b) == Max(0.0, solar + discharge - home - car - charge)
  {
  }

  /** Preference order of two attributions: solar to home, solar to car, solar to battery, discharge to home, to car. */
  ghost predicate NoBetter(x: Bands, b: Bands) {
    || x.solarHome < b.solarHome
    || (x.solarHome == b.solarHome
        && (|| x.solarCar < b.solarCar
            || (x.solarCar == b.solarCar
                && (|| x.solarBatt < b.solarBatt
                    || (x.solarBatt == b.solarBatt
                        && (x.battHome < b.battHome || (x.battHome == b.battHome && x.battCar < b.battCar)))))))
  }

  /**
   * Solar first, home before car, as an optimum: of all non-negative attributions of the same energies,
   * the computed one comes first in the preference order, and it alone does.
   */
  lemma AllocationIsPreferred(solar: real, charge: real, discharge: real, home: real, car: real, x: Bands)
    requires Exclusive(solar, charge, discharge, home, car)
    requires NonNegative(x) && Conserves(x, solar, charge, discharge, home, car)
    ensures x == Allocate(solar, charge, discharge, home, car) || NoBetter(x, Allocate(solar, charge, discharge, home, car))
  {
    var b := Allocate(solar, charge, discharge, home, car);
    assert x.solarHome <= b.solarHome;
    if x.solarHome == b.solarHome && x.solarCar == b.solarCar && x.solarBatt == b.solarBatt
       && x.battHome == b.battHome && x.battCar == b.battCar {
      assert x.solarGrid == b.solarGrid && x.gridHome == b.gridHome && x.gridCar == b.gridCar;
      assert x.gridBatt == b.gridBatt && x.battGrid == b.battGrid;
    }
  }

  function Kwh(watts: real, hours: real): real { Times(Max(0.0, watts), hours / 1000.0) }

  function AllocateSlot(solar: real, battery: real, home: real, car: real, hours: real): Bands {
    Allocate(Kwh(solar, hours), Kwh(-battery, hours), Kwh(battery, hours), Kwh(home, hours), Kwh(car, hours))
  }

  /** Power the attribution must take from the grid: what solar and battery leave of the loads. */
  function Needed(solar: real, battery: real, home: real, car: real): real {
    Max(0.0, home) + Max(0.0, car) - Max(0.0, solar) - battery
  }

  lemma KwhIsEnergy(watts: real, hours: real)
    requires hours >= 0.0
    ensures Kwh(watts, hours) >= 0.0 && (watts <= 0.0 ==> Kwh(watts, hours) == 0.0)
    ensures Kwh(watts, hours) - Kwh(-watts, hours) == Times(watts, hours / 1000.0)
  {
    assert Max(0.0, watts) * (hours / 1000.0) >= 0.0;
    assert Max(0.0, watts) - Max(0.0, -watts) == watts;
    TimesAdds(Max(0.0, watts), -Max(0.0, -watts), hours / 1000.0);
    assert Times(-Max(0.0, -watts), hours / 1000.0) == -Times(Max(0.0, -watts), hours / 1000.0);
  }

  lemma SlotEnergies(solar: real, battery: real, home: real, car: real, hours: real)
    requires hours >= 0.0
    ensures Exclusive(Kwh(solar, hours), Kwh(-battery, hours), Kwh(battery, hours), Kwh(home, hours), Kwh(car, hours))
  {
    KwhIsEnergy(solar, hours);
    KwhIsEnergy(battery, hours);
    KwhIsEnergy(-battery, hours);
    KwhIsEnergy(home, hours);
    KwhIsEnergy(car, hours);
  }

  lemma MaxScales(x: real, s: real)
    requires s >= 0.0
    ensures Max(0.0, Times(x, s)) == Times(Max(0.0, x), s)
  {
    if x >= 0.0 { assert x * s >= 0.0; } else { assert (-x) * s >= 0.0; }
  }

  /** The attributed import and export of a slot: the needed power and its negative, each cut off at zero. */
  lemma SlotMeter(solar: real, battery: real, home: real, car: real, hours: real)
    requires hours >= 0.0
    ensures var b, need := AllocateSlot(solar, battery, home, car, hours), Needed(solar, battery, home, car);
            NonNegative(b) && Import(b) == Kwh(need, hours) && Export(b) == Kwh(-need, hours)
  {
    var s, need := hours / 1000.0, Needed(solar, battery, home, car);
    SlotEnergies(solar, battery, home, car, hours);
    AllocationIsSound(Kwh(solar, hours), Kwh(-battery, hours), Kwh(battery, hours), Kwh(home, hours), Kwh(car, hours));
    KwhIsEnergy(battery, hours);
    TimesAdds(Max(0.0, home), Max(0.0, car), s);
    TimesAdds(Max(0.0, home) + Max(0.0, car), -Max(0.0, solar) - battery, s);
    TimesAdds(-Max(0.0, solar), -battery, s);
    Negate(Max(0.0, solar), s);
    Negate(battery, s);
    Negate(need, s);
    MaxScales(need, s);
    MaxScales(-need, s);
  }

  lemma Negate(x: real, s: real)
    ensures Times(-x, s) == -Times(x, s)
  {
  }

  /** A slot agrees with its meter exactly when the loads equal grid plus solar plus battery. */
  lemma SlotAgreesIff(grid: real, solar: real, battery: real, home: real, car: real, hours: real)
    requires hours > 0.0
    ensures var b := AllocateSlot(solar, battery, home, car, hours);
            Import(b) == Kwh(grid, hours) && Export(b) == Kwh(-grid, hours)
            <==> Max(0.0, home) + Max(0.0, car) == grid + Max(0.0, solar) + battery
  {
    var need := Needed(solar, battery, home, car);
    SlotMeter(solar, battery, home, car, hours);
    KwhIsEnergy(need, hours);
    KwhIsEnergy(grid, hours);
    if Import(AllocateSlot(solar, battery, home, car, hours)) == Kwh(grid, hours)
       && Export(AllocateSlot(solar, battery, home, car, hours)) == Kwh(-grid, hours) {
      Cancel(need, grid, hours / 1000.0);
    }
  }

  lemma Cancel(a: real, b: real, s: real)
    requires s > 0.0 && Times(a, s) == Times(b, s)
    ensures a == b
  {
    assert (a - b) * s == 0.0;
  }

  // --- labelling a charging slot ---------------------------------------------------------------------------------

  datatype ChargeKind = GridCharge | SolarCharge

  const SLOT_H := 0.25

  function KindOf(battery: real, solar: real, home: real, car: real): ChargeKind {
    var b := AllocateSlot(solar, battery, home, car, SLOT_H);
    if b.gridBatt > b.solarBatt then GridCharge else SolarCharge
  }

  /** A slot is a grid charge exactly when it charges at more than twice the sun left after home and car. */
  lemma KindInClosedForm(battery: real, solar: real, home: real, car: real)
    ensures KindOf(battery, solar, home, car) == GridCharge
       <==> -battery > 2.0 * Max(0.0, Max(0.0, solar) - Max(0.0, home) - Max(0.0, car)) && battery < 0.0
  {
    SlotEnergies(solar, battery, home, car, SLOT_H);
    assert forall w: real :: Kwh(w, SLOT_H) == Max(0.0, w) * 0.00025;
  }

  // --- a window -----------------------------------------------------------------------------------------------------

  datatype DerivedRow = DerivedRow(ts: Option<int>, total: Option<real>, nonEv: Option<real>)

  datatype Load = Load(total: real, home: real, car: real)

  predicate Usable(p: Segments.Params, r: DerivedRow) { r.ts.Some? && p.start <= r.ts.value < p.end && r.total.Some? }

  function LoadOf(r: DerivedRow): Load
    requires r.total.Some?
  {
    var home := if r.nonEv.Some? then r.nonEv.value else r.total.value;
    Load(r.total.value, home, Max(0.0, r.total.value - home))
  }

  /** The derived load at one instant: the last usable row recorded for it. */
  function DerivedAt(p: Segments.Params, rows: seq<DerivedRow>, ts: int): Option<Load> {
    if rows == [] then None
    else
      var r := rows[|rows| - 1];
      if Usable(p, r) && r.ts.value == ts then Some(LoadOf(r)) else DerivedAt(p, rows[..|rows| - 1], ts)
  }

  /** Row i is a derived load for the instant, inside the window. */
  predicate DerivedFor(p: Segments.Params, rows: seq<DerivedRow>, i: nat, ts: int) {
    i < |rows| && p.start <= ts < p.end && rows[i].ts == Some(ts) && rows[i].total.Some?
  }

  /** The derived load at an instant is the one last recorded for it, if any was. */
  lemma {:induction false} DerivedIsLatest(p: Segments.Params, rows: seq<DerivedRow>, ts: int)
    ensures DerivedAt(p, rows, ts).None? <==> forall i :: 0 <= i < |rows| ==> !DerivedFor(p, rows, i, ts)
    ensures DerivedAt(p, rows, ts).Some? ==>
              exists i :: 0 <= i < |rows| && DerivedFor(p, rows, i, ts) && DerivedAt(p, rows, ts) == Some(LoadOf(rows[i]))
                          && forall j :: i < j < |rows| ==> !DerivedFor(p, rows, j, ts)
  {
    if rows != [] {
      var n := |rows| - 1;
      var front := rows[..n];
      DerivedIsLatest(p, front, ts);
      assert forall i :: 0 <= i < n ==> (DerivedFor(p, front, i, ts) <==> DerivedFor(p, rows, i, ts));
      if DerivedFor(p, rows, n, ts) {
        assert Usable(p, rows[n]);
      } else if DerivedAt(p, front, ts).Some? {
        var i :| 0 <= i < n && DerivedFor(p, front, i, ts) && DerivedAt(p, front, ts) == Some(LoadOf(front[i]))
                 && forall j :: i < j < n ==> !DerivedFor(p, front, j, ts);
        assert DerivedFor(p, rows, i, ts) && rows[i] == front[i];
      }
    }
  }

  function MeasuredTotal(v: seq<real>): real
    requires |v| == 4
  {
    Max(0.0, v[0] + v[1] + v[2])
  }

  function Tolerance(measured: real): real { Max(100.0, measured * 0.05) }

  /** Home and car load of a segment: the derived ones when they match the measurement, else the EV reading. */
  function LoadsOf(v: seq<real>, derived: Option<Load>): (real, real)
    requires |v| == 4
  {
    var measured := MeasuredTotal(v);
    if derived.None? || Abs(derived.value.total - measured) > Tolerance(measured) then
      var car := Min(measured, Max(0.0, v[3]));
      (measured - car, car)
    else (derived.value.home, derived.value.car)
  }

  /**
   * Without a derived load near the measured one (grid plus sun plus battery, never negative) the house
   * draws exactly the measured load, of which the car takes its own reading as far as that goes.
   */
  lemma MeasuredLoads(v: seq<real>, derived: Option<Load>)
    requires |v| == 4
    ensures var measured, (home, car) := Max(0.0, v[0] + v[1] + v[2]), LoadsOf(v, derived);
            derived.None? || derived.value.total > measured + Max(100.0, measured * 0.05)
            || derived.value.total < measured - Max(100.0, measured * 0.05)
            ==> home + car == measured && home >= 0.0 && car >= 0.0
                && (v[3] <= 0.0 ==> car == 0.0) && (0.0 <= v[3] <= measured ==> car == v[3]) && (v[3] > measured ==> home == 0.0)
  {
  }

  /** A derived load near the measured one counts as it was derived: home without the car, and the car what is left. */
  lemma DerivedLoads(v: seq<real>, r: DerivedRow)
    requires |v| == 4 && r.total.Some?
    ensures var measured, (home, car) := Max(0.0, v[0] + v[1] + v[2]), LoadsOf(v, Some(LoadOf(r)));
            measured - Max(100.0, measured * 0.05) <= r.total.value <= measured + Max(100.0, measured * 0.05)
            ==> && home == (if r.nonEv.Some? then r.nonEv.value else r.total.value)
                && (home <= r.total.value ==> home + car == r.total.value) && (home >= r.total.value ==> car == 0.0)
  {
  }

  function HoursOf(s: Segments.Segment): real { (s.end - s.start) as real / 3_600_000_000.0 }

  /** A segment's energy is its watts times its microseconds, over the 3.6e12 watt-microseconds of a kWh. */
  lemma SegmentKwh(s: Segments.Segment, watts: real)
    requires watts >= 0.0
    ensures Kwh(watts, HoursOf(s)) * 3_600_000_000_000.0 == watts * ((s.end - s.start) as real)
    ensures Kwh(-watts, HoursOf(s)) == 0.0
  {
    var d := (s.end - s.start) as real;
    assert Kwh(watts, HoursOf(s)) == watts * (d / 3_600_000_000_000.0);
  }

  ghost predicate Attributable(segs: seq<Segments.Segment>) {
    forall i :: 0 <= i < |segs| ==> |segs[i].values| == 4 && segs[i].start < segs[i].end
  }

  function SegmentBands(p: Segments.Params, derived: seq<DerivedRow>, s: Segments.Segment): Bands
    requires |s.values| == 4
  {
    var (home, car) := LoadsOf(s.values, DerivedAt(p, derived, s.observedAt));
    AllocateSlot(s.values[1], s.values[2], home, car, HoursOf(s))
  }

  function AllBands(p: Segments.Params, derived: seq<DerivedRow>, segs: seq<Segments.Segment>): (bs: seq<Bands>)
    requires Attributable(segs)
    ensures |bs| == |segs| && forall i :: 0 <= i < |segs| ==> bs[i] == SegmentBands(p, derived, segs[i])
  {
    seq(|segs|, i requires 0 <= i < |segs| => SegmentBands(p, derived, segs[i]))
  }

  function SumBands(bs: seq<Bands>, n: nat): Bands
    requires n <= |bs|
  {
    if n == 0 then NOTHING else Plus(SumBands(bs, n - 1), bs[n - 1])
  }

  /** The window's attribution: the bands of all its segments together. */
  function Attributed(p: Segments.Params, derived: seq<DerivedRow>, segs: seq<Segments.Segment>): Bands
    requires Attributable(segs)
  {
    SumBands(AllBands(p, derived, segs), |segs|)
  }

  datatype Side = Positive | Negative

  /** Energy each segment's recorded power carries in one direction: its positive, or its negative, part. */
  function Energies(segs: seq<Segments.Segment>, field: nat, side: Side): (xs: seq<real>)
    requires Attributable(segs) && field < 4
    ensures |xs| == |segs| && forall i :: 0 <= i < |segs| ==>
      xs[i] == Kwh(if side.Positive? then segs[i].values[field] else -segs[i].values[field], HoursOf(segs[i]))
  {
    seq(|segs|, i requires 0 <= i < |segs| =>
      Kwh(if side.Positive? then segs[i].values[field] else -segs[i].values[field], HoursOf(segs[i])))
  }

  function Sum(xs: seq<real>, n: nat): real
    requires n <= |xs|
  {
    if n == 0 then 0.0 else Sum(xs, n - 1) + xs[n - 1]
  }

  function Integral(segs: seq<Segments.Segment>, field: nat, side: Side): real
    requires Attributable(segs) && field < 4
  {
    Sum(Energies(segs, field, side), |segs|)
  }

  /** The meter's own integrals. */
  function MeterImport(segs: seq<Segments.Segment>): real
    requires Attributable(segs)
  {
    Integral(segs, 0, Positive)
  }

  function MeterExport(segs: seq<Segments.Segment>): real
    requires Attributable(segs)
  {
    Integral(segs, 0, Negative)
  }

  /** Power by which a segment's loads miss its meter. */
  function Mismatch(p: Segments.Params, derived: seq<DerivedRow>, s: Segments.Segment): real
    requires |s.values| == 4
  {
    var (home, car) := LoadsOf(s.values, DerivedAt(p, derived, s.observedAt));
    Abs(Needed(s.values[1], s.values[2], home, car) - s.values[0])
  }

  function Misses(p: Segments.Params, derived: seq<DerivedRow>, segs: seq<Segments.Segment>): (xs: seq<real>)
    requires Attributable(segs)
    ensures |xs| == |segs|
    ensures forall i :: 0 <= i < |segs| ==> xs[i] == Times(Mismatch(p, derived, segs[i]), HoursOf(segs[i]) / 1000.0)
  {
    seq(|segs|, i requires 0 <= i < |segs| => Times(Mismatch(p, derived, segs[i]), HoursOf(segs[i]) / 1000.0))
  }

  lemma KwhIsLipschitz(a: real, b: real, hours: real)
    requires hours >= 0.0
    ensures Close(Kwh(a, hours), Kwh(b, hours), Times(Abs(a - b), hours / 1000.0))
  {
    var s := hours / 1000.0;
    var d, m := Max(0.0, a) - Max(0.0, b), Abs(a - b);
    assert -m <= d <= m;
    ProductNonNegative(m - d, s);
    ProductNonNegative(m + d, s);
    TimesAdds(Max(0.0, a), -Max(0.0, b), s);
    Negate(Max(0.0, b), s);
    TimesAdds(m, d, s);
    TimesAdds(m, -d, s);
    Negate(d, s);
  }

  /** Attributed import and export within a given energy of the segment's meter. */
  ghost predicate Near(b: Bands, s: Segments.Segment, error: real)
    requires |s.values| == 4
  {
    Close(Import(b), Kwh(s.values[0], HoursOf(s)), error) && Close(Export(b), Kwh(-s.values[0], HoursOf(s)), error)
  }

  lemma SegmentMissesMeter(p: Segments.Params, derived: seq<DerivedRow>, s: Segments.Segment)
    requires |s.values| == 4 && s.start < s.end
    ensures Near(SegmentBands(p, derived, s), s, Times(Mismatch(p, derived, s), HoursOf(s) / 1000.0))
  {
    var loads := LoadsOf(s.values, DerivedAt(p, derived, s.observedAt));
    NearMeter(s, loads.0, loads.1);
  }

  /** Whatever loads a segment is attributed to, it misses its meter by no more than they do. */
  lemma NearMeter(s: Segments.Segment, home: real, car: real)
    requires |s.values| == 4 && s.start < s.end
    ensures var v := s.values;
            Near(AllocateSlot(v[1], v[2], home, car, HoursOf(s)), s,
                 Times(Abs(Needed(v[1], v[2], home, car) - v[0]), HoursOf(s) / 1000.0))
  {
    SlotMissesMeter(s.values[0], s.values[1], s.values[2], home, car, HoursOf(s));
  }

  lemma SlotMissesMeter(grid: real, solar: real, battery: real, home: real, car: real, hours: real)
    requires hours >= 0.0
    ensures var b, error := AllocateSlot(solar, battery, home, car, hours), Abs(Needed(solar, battery, home, car) - grid);
            && Close(Import(b), Kwh(grid, hours), Times(error, hours / 1000.0))
            && Close(Export(b), Kwh(-grid, hours), Times(error, hours / 1000.0))
  {
    var need := Needed(solar, battery, home, car);
    SlotMeter(solar, battery, home, car, hours);
    KwhIsLipschitz(need, grid, hours);
    KwhIsLipschitz(-need, -grid, hours);
    assert Abs(-need - -grid) == Abs(need - grid);
  }

  lemma PlusMeters(a: Bands, b: Bands)
    ensures Import(Plus(a, b)) == Import(a) + Import(b) && Export(Plus(a, b)) == Export(a) + Export(b)
  {
  }

  predicate Close(a: real, b: real, error: real) { -error <= a - b <= error }

  ghost predicate AllClose(bs: seq<Bands>, imports: seq<real>, exports: seq<real>, errors: seq<real>) {
    && |bs| == |imports| == |exports| == |errors|
    && forall i :: 0 <= i < |bs| ==> Close(Import(bs[i]), imports[i], errors[i]) && Close(Export(bs[i]), exports[i], errors[i])
  }

  lemma {:induction false} ErrorsAdd(bs: seq<Bands>, imports: seq<real>, exports: seq<real>, errors: seq<real>, n: nat)
    requires AllClose(bs, imports, exports, errors) && n <= |bs|
    ensures Close(Import(SumBands(bs, n)), Sum(imports, n), Sum(errors, n))
    ensures Close(Export(SumBands(bs, n)), Sum(exports, n), Sum(errors, n))
  {
    if n > 0 {
      ErrorsAdd(bs, imports, exports, errors, n - 1);
      PlusMeters(SumBands(bs, n - 1), bs[n - 1]);
      assert Close(Import(bs[n - 1]), imports[n - 1], errors[n - 1]) && Close(Export(bs[n - 1]), exports[n - 1], errors[n - 1]);
    }
  }

  /** Over any window the attributed import and export miss the meter's by at most the energy its loads miss it by. */
  lemma {:induction false} AttributionErrorIsBounded(p: Segments.Params, derived: seq<DerivedRow>, segs: seq<Segments.Segment>)
    requires Attributable(segs)
    ensures Close(Import(Attributed(p, derived, segs)), MeterImport(segs), Sum(Misses(p, derived, segs), |segs|))
    ensures Close(Export(Attributed(p, derived, segs)), MeterExport(segs), Sum(Misses(p, derived, segs), |segs|))
  {
    var bs, misses := AllBands(p, derived, segs), Misses(p, derived, segs);
    var imports, exports := Energies(segs, 0, Positive), Energies(segs, 0, Negative);
    forall i | 0 <= i < |segs|
      ensures Close(Import(bs[i]), imports[i], misses[i]) && Close(Export(bs[i]), exports[i], misses[i])
    {
      SegmentMissesMeter(p, derived, segs[i]);
    }
    ErrorsAdd(bs, imports, exports, misses, |segs|);
  }

  /** A physical reading: no negative sun, and the parts add up to a load. */
  predicate Physical(v: seq<real>)
    requires |v| == 4
  {
    v[1] >= 0.0 && v[0] + v[1] + v[2] >= 0.0
  }

  /** A derived load whose parts are non-negative and add up to it. */
  predicate Split(d: Load) { 0.0 <= d.home <= d.total && d.car == d.total - d.home }

  /** How far a physical segment's loads can be from its meter: nothing on the fallback, else the accepted tolerance. */
  lemma MismatchIsTolerated(p: Segments.Params, derived: seq<DerivedRow>, s: Segments.Segment)
    requires |s.values| == 4 && Physical(s.values)
    ensures var d, measured := DerivedAt(p, derived, s.observedAt), MeasuredTotal(s.values);
            && (d.None? || Abs(d.value.total - measured) > Tolerance(measured) ==> Mismatch(p, derived, s) == 0.0)
            && (d.Some? && Split(d.value) ==> Mismatch(p, derived, s) <= Tolerance(measured))
  {
  }

  lemma {:induction false} SumOfZeros(xs: seq<real>, n: nat)
    requires n <= |xs| && forall i :: 0 <= i < |xs| ==> xs[i] == 0.0
    ensures Sum(xs, n) == 0.0
  {
    if n > 0 { SumOfZeros(xs, n - 1); }
  }

  /** Where the loads sum to the meter, attributed import and export are exactly the meter's integrals. */
  lemma AttributionAgreesWithMeter(p: Segments.Params, derived: seq<DerivedRow>, segs: seq<Segments.Segment>)
    requires Attributable(segs) && forall i :: 0 <= i < |segs| ==> Mismatch(p, derived, segs[i]) == 0.0
    ensures Import(Attributed(p, derived, segs)) == MeterImport(segs)
    ensures Export(Attributed(p, derived, segs)) == MeterExport(segs)
  {
    forall i | 0 <= i < |segs| ensures Misses(p, derived, segs)[i] == 0.0 {
      ZeroTimes(HoursOf(segs[i]) / 1000.0);
    }
    SumOfZeros(Misses(p, derived, segs), |segs|);
    AttributionErrorIsBounded(p, derived, segs);
  }

  /** Without derived rows that is every list of segments with physical readings. */
  lemma FallbackAgreesWithMeter(p: Segments.Params, segs: seq<Segments.Segment>)
    requires Attributable(segs) && forall i :: 0 <= i < |segs| ==> Physical(segs[i].values)
    ensures Import(Attributed(p, [], segs)) == MeterImport(segs)
    ensures Export(Attributed(p, [], segs)) == MeterExport(segs)
  {
    forall i | 0 <= i < |segs| ensures Mismatch(p, [], segs[i]) == 0.0 {
      MismatchIsTolerated(p, [], segs[i]);
    }
    AttributionAgreesWithMeter(p, [], segs);
  }

  lemma ZeroTimes(s: real)
    ensures Times(0.0, s) == 0.0
  {
  }

  ghost predicate NodesAgree(b: Bands, solar: real, discharge: real, charge: real) {
    && NonNegative(b) && SolarTotal(b) == solar
    && b.battHome + b.battCar + b.battGrid == discharge && b.solarBatt + b.gridBatt == charge
  }

  ghost predicate AgreesAt(bs: seq<Bands>, solar: seq<real>, discharge: seq<real>, charge: seq<real>, i: nat)
    requires i < |bs| == |solar| == |discharge| == |charge|
  {
    NodesAgree(bs[i], solar[i], discharge[i], charge[i])
  }

  /** Running totals of bands and of energies, one after each segment. */
  ghost predicate BandTotals(bs: seq<Bands>, totals: seq<Bands>) {
    && |totals| == |bs| + 1 && totals[0] == NOTHING
    && forall i :: 0 <= i < |bs| ==> totals[i + 1] == Plus(totals[i], bs[i])
  }

  ghost predicate Totals(xs: seq<real>, totals: seq<real>) {
    && |totals| == |xs| + 1 && totals[0] == 0.0
    && forall i :: 0 <= i < |xs| ==> totals[i + 1] == totals[i] + xs[i]
  }

  lemma {:induction false} NodesTotal(bs: seq<Bands>, solar: seq<real>, discharge: seq<real>, charge: seq<real>,
                                      b: seq<Bands>, s: seq<real>, d: seq<real>, c: seq<real>, n: nat)
    requires |bs| == |solar| == |discharge| == |charge| && n <= |bs|
    requires forall i :: 0 <= i < |bs| ==> AgreesAt(bs, solar, discharge, charge, i)
    requires BandTotals(bs, b) && Totals(solar, s) && Totals(discharge, d) && Totals(charge, c)
    ensures NodesAgree(b[n], s[n], d[n], c[n])
  {
    if n > 0 {
      NodesTotal(bs, solar, discharge, charge, b, s, d, c, n - 1);
      assert AgreesAt(bs, solar, discharge, charge, n - 1);
      NodesPlus(b[n - 1], bs[n - 1], s[n - 1], d[n - 1], c[n - 1], solar[n - 1], discharge[n - 1], charge[n - 1]);
      assert b[(n - 1) + 1] == Plus(b[n - 1], bs[n - 1]) && s[(n - 1) + 1] == s[n - 1] + solar[n - 1];
    }
  }

  lemma BandTotalsOf(bs: seq<Bands>) returns (totals: seq<Bands>)
    ensures BandTotals(bs, totals) && forall n :: 0 <= n <= |bs| ==> totals[n] == SumBands(bs, n)
  {
    totals := seq(|bs| + 1, n requires 0 <= n <= |bs| => SumBands(bs, n));
  }

  lemma TotalsOf(xs: seq<real>) returns (totals: seq<real>)
    ensures Totals(xs, totals) && forall n :: 0 <= n <= |xs| ==> totals[n] == Sum(xs, n)
  {
    totals := seq(|xs| + 1, n requires 0 <= n <= |xs| => Sum(xs, n));
  }

  lemma NodesAdd(bs: seq<Bands>, solar: seq<real>, discharge: seq<real>, charge: seq<real>)
    requires |bs| == |solar| == |discharge| == |charge|
    requires forall i :: 0 <= i < |bs| ==> AgreesAt(bs, solar, discharge, charge, i)
    ensures var n := |bs|; NodesAgree(SumBands(bs, n), Sum(solar, n), Sum(discharge, n), Sum(charge, n))
  {
    var b := BandTotalsOf(bs);
    var s := TotalsOf(solar);
    var d := TotalsOf(discharge);
    var c := TotalsOf(charge);
    NodesTotal(bs, solar, discharge, charge, b, s, d, c, |bs|);
  }

  lemma NodesPlus(a: Bands, b: Bands, solar: real, discharge: real, charge: real, solar': real, discharge': real, charge': real)
    requires NodesAgree(a, solar, discharge, charge) && NodesAgree(b, solar', discharge', charge')
    ensures NodesAgree(Plus(a, b), solar + solar', discharge + discharge', charge + charge')
  {
  }

  /** A window's bands are non-negative and its sun and battery nodes carry exactly the recorded energy. */
  lemma WindowIsSound(p: Segments.Params, derived: seq<DerivedRow>, segs: seq<Segments.Segment>)
    requires Attributable(segs)
    ensures NodesAgree(Attributed(p, derived, segs),
                       Integral(segs, 1, Positive), Integral(segs, 2, Positive), Integral(segs, 2, Negative))
  {
    var bs := AllBands(p, derived, segs);
    var solar, discharge, charge := Energies(segs, 1, Positive), Energies(segs, 2, Positive), Energies(segs, 2, Negative);
    forall i | 0 <= i < |segs| ensures AgreesAt(bs, solar, discharge, charge, i) {
      SegmentIsSound(p, derived, segs[i]);
    }
    NodesAdd(bs, solar, discharge, charge);
  }

  lemma SegmentIsSound(p: Segments.Params, derived: seq<DerivedRow>, s: Segments.Segment)
    requires |s.values| == 4 && s.start < s.end
    ensures var b, h := SegmentBands(p, derived, s), HoursOf(s);
            NodesAgree(b, Kwh(s.values[1], h), Kwh(s.values[2], h), Kwh(-s.values[2], h))
  {
    var (home, car) := LoadsOf(s.values, DerivedAt(p, derived, s.observedAt));
    SlotEnergies(s.values[1], s.values[2], home, car, HoursOf(s));
  }

  /** The Sankey's solar/grid split of a charge is the one the savings ledger books, on the same load. */
  lemma ChargeSplitMatchesFinance(m: DayFinance.Meter, home: real, car: real)
    requires m.micros >= 0 && home >= 0.0 && car >= 0.0 && home + car == Max(0.0, DayFinance.Load(m))
    ensures var b := AllocateSlot(m.solar, m.battery, home, car, DayFinance.Hours(m));
            b.solarBatt == DayFinance.SolarCharge(m) && b.gridBatt == DayFinance.GridCharge(m)
  {
    FinanceCharge(m, home + car);
    FlowCharge(m.solar, m.battery, home, car, DayFinance.Hours(m));
  }

  lemma FinanceCharge(m: DayFinance.Meter, load: real)
    requires load == Max(0.0, DayFinance.Load(m))
    ensures var h := DayFinance.Hours(m);
            && DayFinance.SolarCharge(m) == Min(Kwh(-m.battery, h), Times(Max(0.0, Max(0.0, m.solar) - load), h / 1000.0))
            && DayFinance.GridCharge(m) == Kwh(-m.battery, h) - DayFinance.SolarCharge(m)
  {
    var left, h := DayFinance.SolarLeft(m), DayFinance.Hours(m);
    assert left == Max(0.0, Max(0.0, m.solar) - load);
    Reassociate(left, h);
    Reassociate(Max(0.0, -m.battery), h);
  }

  lemma Reassociate(x: real, h: real)
    ensures x * h / 1000.0 == Times(x, h / 1000.0)
  {
  }

  lemma FlowCharge(solar: real, battery: real, home: real, car: real, hours: real)
    requires hours >= 0.0 && home >= 0.0 && car >= 0.0
    ensures var b, spare := AllocateSlot(solar, battery, home, car, hours), Max(0.0, Max(0.0, solar) - (home + car));
            && b.solarBatt == Min(Kwh(-battery, hours), Times(spare, hours / 1000.0))
            && b.gridBatt == Kwh(-battery, hours) - b.solarBatt
  {
    SlotEnergies(solar, battery, home, car, hours);
    SolarBattClosedForm(Kwh(solar, hours), Kwh(-battery, hours), Kwh(battery, hours), Kwh(home, hours), Kwh(car, hours));
    SpareSun(Max(0.0, solar), home, car, hours / 1000.0);
  }

  lemma SolarBattClosedForm(solar: real, charge: real, discharge: real, home: real, car: real)
    requires Exclusive(solar, charge, discharge, home, car)
    ensures Allocate(solar, charge, discharge, home, car).solarBatt == Min(charge, Max(0.0, solar - home - car))
    ensures Allocate(solar, charge, discharge, home, car).gridBatt == charge - Min(charge, Max(0.0, solar - home - car))
  {
  }

  lemma SpareSun(solar: real, home: real, car: real, s: real)
    requires s >= 0.0
    ensures Max(0.0, Times(solar, s) - Times(home, s) - Times(car, s)) == Times(Max(0.0, solar - (home + car)), s)
  {
    MaxScales(solar - (home + car), s);
    TimesAdds(solar, -(home + car), s);
    Negate(home + car, s);
    TimesAdds(home, car, s);
  }

  /** Energy the chosen loads of the first n segments draw, of the house and of the car. */
  function HomeKwh(p: Segments.Params, derived: seq<DerivedRow>, segs: seq<Segments.Segment>, n: nat): real
    requires n <= |segs| && Attributable(segs)
  {
    if n == 0 then 0.0
    else
      var s := segs[n - 1];
      HomeKwh(p, derived, segs, n - 1) + Kwh(LoadsOf(s.values, DerivedAt(p, derived, s.observedAt)).0, HoursOf(s))
  }

  function CarKwh(p: Segments.Params, derived: seq<DerivedRow>, segs: seq<Segments.Segment>, n: nat): real
    requires n <= |segs| && Attributable(segs)
  {
    if n == 0 then 0.0
    else
      var s := segs[n - 1];
      CarKwh(p, derived, segs, n - 1) + Kwh(LoadsOf(s.values, DerivedAt(p, derived, s.observedAt)).1, HoursOf(s))
  }

  ghost predicate LoadNodes(b: Bands, home: real, car: real) { Home(b) == home && Car(b) == car }

  lemma LoadsPlus(a: Bands, b: Bands, home: real, car: real, home': real, car': real)
    requires LoadNodes(a, home, car) && LoadNodes(b, home', car')
    ensures LoadNodes(Plus(a, b), home + home', car + car')
  {
  }

  /** The home and car nodes of a window carry the energy of their own loads. */
  lemma {:induction false} LoadNodesAgree(p: Segments.Params, derived: seq<DerivedRow>, segs: seq<Segments.Segment>, bs: seq<Bands>, n: nat)
    requires Attributable(segs) && n <= |segs| && bs == AllBands(p, derived, segs)
    ensures LoadNodes(SumBands(bs, n), HomeKwh(p, derived, segs, n), CarKwh(p, derived, segs, n))
  {
    if n > 0 {
      var s := segs[n - 1];
      var loads := LoadsOf(s.values, DerivedAt(p, derived, s.observedAt));
      LoadNodesAgree(p, derived, segs, bs, n - 1);
      SlotLoads(s.values[1], s.values[2], loads.0, loads.1, HoursOf(s));
      LoadsPlus(SumBands(bs, n - 1), bs[n - 1], HomeKwh(p, derived, segs, n - 1), CarKwh(p, derived, segs, n - 1),
                Kwh(loads.0, HoursOf(s)), Kwh(loads.1, HoursOf(s)));
    }
  }

  lemma SlotLoads(solar: real, battery: real, home: real, car: real, hours: real)
    ensures LoadNodes(AllocateSlot(solar, battery, home, car, hours), Kwh(home, hours), Kwh(car, hours))
  {
  }

  // --- the loops ------------------------------------------------------------------------------------------------------

  datatype Flows = Flows(
    hasData: bool, bands: Bands, solar: real, gridImport: real, gridExport: real, charge: real, discharge: real,
    home: real, car: real, selfSufficiency: Option<real>, selfConsumption: Option<real>)

  function Home(b: Bands): real { b.solarHome + b.battHome + b.gridHome }

  function Car(b: Bands): real { b.solarCar + b.battCar + b.gridCar }

  function SolarTotal(b: Bands): real { b.solarHome + b.solarCar + b.solarBatt + b.solarGrid }

  /** Percentage of the load not bought, and of the sun not exported. */
  ghost predicate Shares(f: Flows) {
    && (f.selfSufficiency.Some? <==> f.home + f.car > EPS)
    && (f.selfSufficiency.Some? ==>
          f.selfSufficiency.value * (f.home + f.car) == 100.0 * (f.home + f.car - f.bands.gridHome - f.bands.gridCar)
          && 0.0 <= f.selfSufficiency.value <= 100.0)
    && (f.selfConsumption.Some? <==> f.solar > EPS)
    && (f.selfConsumption.Some? ==>
          f.selfConsumption.value * f.solar == 100.0 * (f.solar - f.bands.solarGrid)
          && 0.0 <= f.selfConsumption.value <= 100.0)
  }

  /** The published totals are those of the bands, every node balances, and so does the whole diagram. */
  ghost predicate Summarises(f: Flows, tot: Bands) {
    && f.bands == tot && NonNegative(tot) && f.gridImport == Import(tot) && f.gridExport == Export(tot)
    && Conserves(tot, f.solar, f.charge, f.discharge, f.home, f.car)
    && f.solar + f.gridImport + f.discharge == f.home + f.car + f.charge + f.gridExport
    && Shares(f)
  }

  /** A part of a whole as a percentage; the cap at 100 never bites. */
  method Percent(part: real, whole: real) returns (r: Option<real>)
    requires 0.0 <= part <= whole
    ensures r.Some? <==> whole > EPS
    ensures r.Some? ==> r.value * whole == 100.0 * part && 0.0 <= r.value <= 100.0
  {
    if whole > EPS {
      PartOfWhole(part, whole);
      r := Some(Min(100.0, part / whole * 100.0));
    } else {
      r := None;
    }
  }

  lemma PartOfWhole(part: real, whole: real)
    requires 0.0 <= part <= whole && whole > 0.0
    ensures var q := part / whole * 100.0;
            q * whole == 100.0 * part && 0.0 <= q <= 100.0
  {
    var q := part / whole;
    assert q * whole == part && q >= 0.0;
    AtMostOne(q, whole);
    assert (q * 100.0) * whole == 100.0 * (q * whole);
  }

  lemma AtMostOne(q: real, whole: real)
    requires whole > 0.0 && q * whole <= whole
    ensures q <= 1.0
  {
    var x := q - 1.0;
    assert x * whole <= 0.0;
  }

  ghost predicate Indexes(p: Segments.Params, rows: seq<DerivedRow>, index: map<int, Load>) {
    forall ts :: DerivedAt(p, rows, ts) == if ts in index then Some(index[ts]) else None
  }

  method IndexDerived(p: Segments.Params, rows: seq<DerivedRow>) returns (index: map<int, Load>)
    ensures Indexes(p, rows, index)
  {
    index := map[];
    for i := 0 to |rows|
      invariant Indexes(p, rows[..i], index)
    {
      assert rows[..i + 1][..i] == rows[..i] && rows[..i + 1][i] == rows[i];
      if Usable(p, rows[i]) {
        index := index[rows[i].ts.value := LoadOf(rows[i])];
      }
    }
    assert rows[..|rows|] == rows;
  }

  /** Published flows of a window's segments: their attributed bands, over nodes that carry the recorded energy. */
  ghost predicate Reports(f: Flows, p: Segments.Params, derived: seq<DerivedRow>, segs: seq<Segments.Segment>)
    requires Attributable(segs)
  {
    && Summarises(f, Attributed(p, derived, segs)) && f.hasData == (segs != [])
    && NodesAgree(f.bands, Integral(segs, 1, Positive), Integral(segs, 2, Positive), Integral(segs, 2, Negative))
  }

  /** Home and car draw what their own loads draw. */
  ghost predicate LoadsReported(f: Flows, p: Segments.Params, derived: seq<DerivedRow>, segs: seq<Segments.Segment>)
    requires Attributable(segs)
  {
    f.home == HomeKwh(p, derived, segs, |segs|) && f.car == CarKwh(p, derived, segs, |segs|)
  }

  lemma LoadsAreReported(f: Flows, p: Segments.Params, derived: seq<DerivedRow>, segs: seq<Segments.Segment>, tot: Bands)
    requires Attributable(segs) && tot == Attributed(p, derived, segs) && LoadNodes(tot, f.home, f.car)
    ensures LoadsReported(f, p, derived, segs)
  {
    LoadNodesAgree(p, derived, segs, AllBands(p, derived, segs), |segs|);
  }

  lemma ObservedIsAttributable(p: Segments.Params, rows: seq<Segments.Row>)
    requires p.fields == 4
    ensures Attributable(Segments.Observed(p, rows))
  {
    Segments.ObservedIsChain(p, rows);
    Segments.ObservedHasFields(p, rows);
  }

  method BuildFlows(p: Segments.Params, rows: seq<Segments.Row>, derived: seq<DerivedRow>) returns (f: Flows)
    requires p.fields == 4
    ensures Attributable(Segments.Observed(p, rows)) && Reports(f, p, derived, Segments.Observed(p, rows))
    ensures LoadsReported(f, p, derived, Segments.Observed(p, rows))
  {
    var segs := Segments.ObservedSegments(p, rows);
    ObservedIsAttributable(p, rows);
    f := FlowsOf(p, derived, segs);
  }

  method FlowsOf(p: Segments.Params, derived: seq<DerivedRow>, segs: seq<Segments.Segment>) returns (f: Flows)
    requires Attributable(segs)
    ensures Reports(f, p, derived, segs) && LoadsReported(f, p, derived, segs)
  {
    var index := IndexDerived(p, derived);
    var tot := Accumulate(p, derived, index, segs);
    WindowIsSound(p, derived, segs);
    f := Summarise(tot, segs != []);
    LoadsAreReported(f, p, derived, segs, tot);
  }

  method Accumulate(p: Segments.Params, ghost derived: seq<DerivedRow>, index: map<int, Load>, segs: seq<Segments.Segment>)
    returns (tot: Bands)
    requires Attributable(segs) && Indexes(p, derived, index)
    ensures tot == Attributed(p, derived, segs)
  {
    ghost var all := AllBands(p, derived, segs);
    tot := NOTHING;
    for i := 0 to |segs|
      invariant tot == SumBands(all, i)
    {
      var bands := BandsOf(p, derived, index, segs[i]);
      tot := Plus(tot, bands);
    }
  }

  method BandsOf(p: Segments.Params, ghost derived: seq<DerivedRow>, index: map<int, Load>, s: Segments.Segment)
    returns (bands: Bands)
    requires |s.values| == 4 && Indexes(p, derived, index)
    ensures bands == SegmentBands(p, derived, s)
  {
    var v := s.values;
    var loads := LoadsOf(v, if s.observedAt in index then Some(index[s.observedAt]) else None);
    bands := AllocateSlot(v[1], v[2], loads.0, loads.1, HoursOf(s));
  }

  method Summarise(tot: Bands, hasData: bool) returns (f: Flows)
    requires NonNegative(tot)
    ensures f.hasData == hasData && Summarises(f, tot) && LoadNodes(tot, f.home, f.car)
  {
    var home, car, solar := Home(tot), Car(tot), SolarTotal(tot);
    var ss := Percent(tot.solarHome + tot.solarCar + tot.battHome + tot.battCar, home + car);
    var ssc := Percent(tot.solarHome + tot.solarCar + tot.solarBatt, solar);
    f := Flows(hasData, tot, solar, Import(tot), Export(tot), tot.solarBatt + tot.gridBatt,
               tot.battHome + tot.battCar + tot.battGrid, home, car, ss, ssc);
  }
}
