/**
 Daily finance (ems/finance.py): cost, baseline and wear over the priced segments, and the FIFO of
 charge packets behind the savings breakdown. The source's 1e-12 tolerances are taken as zero.
*/
module DayFinance {
  import opened Prelude
  import Segments

  datatype ExportModel = NetMetering | SpotMinusTax | Fixed

  datatype Tariff = Tariff(
    model: ExportModel, energyTax: real, fixedFeedIn: real, includesAllFees: bool, importFee: real, exportFee: real,
    degradation: real)

  function ImportPrice(t: Tariff, raw: real): real { raw + (if t.includesAllFees then 0.0 else t.importFee) }

  function ExportCredit(t: Tariff, raw: real): real {
    match t.model
    case NetMetering => raw - t.exportFee
    case SpotMinusTax => raw - t.exportFee - t.energyTax
    case Fixed => t.fixedFeedIn - t.exportFee
  }

  /** One segment's meter: `price` is the raw slot price, absent when the slot was never priced. */
  datatype Meter = Meter(grid: real, battery: real, solar: real, micros: int, price: Option<real>)

  datatype Source = FromSolar | FromGrid

  datatype Packet = Packet(kwh: real, unitCost: real, source: Source)

  // --- energy and money of one segment ----------------------------------------------------------------

  function Hours(m: Meter): real { m.micros as real / 3_600_000_000.0 }

  function Kwh(watts: real, m: Meter): real { Max(0.0, watts) * Hours(m) / 1000.0 }

  /** Price of a net power at import price p and export credit k. */
  function NetCost(watts: real, p: real, k: real, m: Meter): real {
    (Max(0.0, watts) * p - Max(0.0, -watts) * k) * Hours(m) / 1000.0
  }

  function Solar(m: Meter): real { Max(0.0, m.solar) }

  function Load(m: Meter): real { m.grid + Solar(m) + m.battery }

  function SolarLeft(m: Meter): real { Solar(m) - Min(Solar(m), Max(0.0, Load(m))) }

  function SolarCharge(m: Meter): real { Min(Kwh(-m.battery, m), SolarLeft(m) * Hours(m) / 1000.0) }

  function GridCharge(m: Meter): real { Kwh(-m.battery, m) - SolarCharge(m) }

  /** Packets a charging segment appends: solar at the forgone credit first, then grid at the import price. */
  function Charged(t: Tariff, m: Meter, raw: real): seq<Packet> {
    (if SolarCharge(m) > 0.0 then [Packet(SolarCharge(m), ExportCredit(t, raw), FromSolar)] else [])
    + (if GridCharge(m) > 0.0 then [Packet(GridCharge(m), ImportPrice(t, raw), FromGrid)] else [])
  }

  // --- the queue ----------------------------------------------------------------------------------------

  function Stored(q: seq<Packet>): real {
    if q == [] then 0.0 else q[0].kwh + Stored(q[1..])
  }

  function StoredCost(q: seq<Packet>): real {
    if q == [] then 0.0 else Times(q[0].kwh, q[0].unitCost) + StoredCost(q[1..])
  }

  ghost predicate Positive(q: seq<Packet>) { forall i :: 0 <= i < |q| ==> q[i].kwh > 0.0 }

  /** The packets the first `amount` kWh of the queue consist of, and the packets behind them. */
  function TakeFront(q: seq<Packet>, amount: real): (seq<Packet>, seq<Packet>)
    requires Positive(q)
  {
    if q == [] || amount <= 0.0 then ([], q)
    else if q[0].kwh <= amount then
      var (taken, left) := TakeFront(q[1..], amount - q[0].kwh);
      ([q[0]] + taken, left)
    else ([q[0].(kwh := amount)], [q[0].(kwh := q[0].kwh - amount)] + q[1..])
  }

  function Unmatched(q: seq<Packet>, amount: real): real
    requires Positive(q)
  {
    Max(0.0, amount - Stored(q))
  }

  /** What delivering taken packets now is worth, by the source they were charged from. */
  function Benefit(taken: seq<Packet>, source: Source, p: real, degradation: real): real {
    if taken == [] then 0.0
    else (if taken[0].source == source then Times(taken[0].kwh, p - taken[0].unitCost - degradation) else 0.0)
         + Benefit(taken[1..], source, p, degradation)
  }

  lemma {:induction false} StoredNonNegative(q: seq<Packet>)
    requires Positive(q)
    ensures Stored(q) >= 0.0 && (q != [] ==> Stored(q) > 0.0)
  {
    if q != [] { StoredNonNegative(q[1..]); }
  }

  lemma {:induction false} StoredAppend(q: seq<Packet>, r: seq<Packet>)
    ensures Stored(q + r) == Stored(q) + Stored(r) && StoredCost(q + r) == StoredCost(q) + StoredCost(r)
  {
    if q == [] {
      assert q + r == r;
    } else {
      StoredAppend(q[1..], r);
      assert (q + r)[1..] == q[1..] + r;
    }
  }

  /** First in, first out, and nothing lost: the front `amount` goes, the rest stays, both keep their costs. */
  lemma {:induction false} TakeFrontConserves(q: seq<Packet>, amount: real)
    requires Positive(q) && amount >= 0.0
    ensures var (taken, left) := TakeFront(q, amount);
            && Positive(taken) && Positive(left)
            && Stored(taken) == Min(amount, Stored(q))
            && Stored(taken) + Stored(left) == Stored(q)
            && StoredCost(taken) + StoredCost(left) == StoredCost(q)
  {
    StoredNonNegative(q);
    if q != [] && amount > 0.0 {
      StoredNonNegative(q[1..]);
      if q[0].kwh <= amount {
        TakeFrontConserves(q[1..], amount - q[0].kwh);
        var (taken, left) := TakeFront(q[1..], amount - q[0].kwh);
        assert ([q[0]] + taken)[1..] == taken;
      } else {
        CutFirstPacket(q, amount);
      }
    }
  }

  lemma CutFirstPacket(q: seq<Packet>, amount: real)
    requires q != [] && 0.0 < amount < q[0].kwh
    ensures var (taken, left) := ([q[0].(kwh := amount)], [q[0].(kwh := q[0].kwh - amount)] + q[1..]);
            Stored(taken) == amount && Stored(taken) + Stored(left) == Stored(q)
            && StoredCost(taken) + StoredCost(left) == StoredCost(q)
  {
    var taken, left := [q[0].(kwh := amount)], [q[0].(kwh := q[0].kwh - amount)] + q[1..];
    assert left[1..] == q[1..] && taken[1..] == [];
    TimesAdds(amount, q[0].kwh - amount, q[0].unitCost);
  }

  /** Oldest packets go whole, at most one is cut, and the rest keep their order. */
  ghost predicate FirstIn(q: seq<Packet>, taken: seq<Packet>, left: seq<Packet>) {
    && |left| <= |q| <= |taken| + |left| <= |q| + 1
    && (forall i :: 0 <= i < |q| - |left| ==> taken[i] == q[i])
    && (left != [] ==> left[1..] == q[|q| - |left| + 1..] && left[0].(kwh := 0.0) == q[|q| - |left|].(kwh := 0.0))
  }

  lemma FirstInCons(x: Packet, q: seq<Packet>, taken: seq<Packet>, left: seq<Packet>)
    requires FirstIn(q, taken, left)
    ensures FirstIn([x] + q, [x] + taken, left)
  {
    var longer := [x] + q;
    forall i | 0 <= i < |longer| - |left| ensures ([x] + taken)[i] == longer[i] {
      if i > 0 { assert taken[i - 1] == q[i - 1]; }
    }
    if left != [] { assert longer[|longer| - |left| + 1..] == q[|q| - |left| + 1..]; }
  }

  /** First in, first out. */
  lemma {:induction false} TakeFrontIsFirstIn(q: seq<Packet>, amount: real)
    requires Positive(q)
    ensures FirstIn(q, TakeFront(q, amount).0, TakeFront(q, amount).1)
  {
    if q != [] && amount > 0.0 && q[0].kwh <= amount {
      var (taken, left) := TakeFront(q[1..], amount - q[0].kwh);
      TakeFrontIsFirstIn(q[1..], amount - q[0].kwh);
      FirstInCons(q[0], q[1..], taken, left);
      assert q == [q[0]] + q[1..];
    }
  }

  lemma BenefitTerm(kwh: real, p: real, unitCost: real, degradation: real)
    ensures Times(kwh, p - unitCost - degradation) == Times(kwh, p - degradation) - Times(kwh, unitCost)
  {
  }

  lemma {:induction false} BenefitSum(taken: seq<Packet>, p: real, degradation: real)
    ensures Benefit(taken, FromSolar, p, degradation) + Benefit(taken, FromGrid, p, degradation)
         == Times(Stored(taken), p - degradation) - StoredCost(taken)
  {
    if taken == [] {
      assert Times(0.0, p - degradation) == 0.0;
    } else {
      BenefitSum(taken[1..], p, degradation);
      BenefitTerm(taken[0].kwh, p, taken[0].unitCost, degradation);
      TimesAdds(taken[0].kwh, Stored(taken[1..]), p - degradation);
    }
  }

  // --- the ledger of a day ------------------------------------------------------------------------------

  datatype Ledger = Ledger(
    imp: real, exp: real, chg: real, dis: real, disPriced: real, cost: real, baseCost: real,
    pricedMicros: int, observedMicros: int,
    solarSelfUse: real, avoidedExpensive: real, residual: real, queue: seq<Packet>)

  const EMPTY := Ledger(0.0, 0.0, 0.0, 0.0, 0.0, 0.0, 0.0, 0, 0, 0.0, 0.0, 0.0, [])

  function Measure(l: Ledger, m: Meter): Ledger {
    l.(imp := l.imp + Kwh(m.grid, m), exp := l.exp + Kwh(-m.grid, m), chg := l.chg + Kwh(-m.battery, m),
       dis := l.dis + Kwh(m.battery, m), observedMicros := l.observedMicros + m.micros)
  }

  function Price(t: Tariff, l: Ledger, m: Meter, raw: real): Ledger {
    var p, k := ImportPrice(t, raw), ExportCredit(t, raw);
    l.(cost := l.cost + NetCost(m.grid, p, k, m), baseCost := l.baseCost + NetCost(m.grid + m.battery, p, k, m),
       disPriced := l.disPriced + Kwh(m.battery, m), pricedMicros := l.pricedMicros + m.micros)
  }

  function Charge(t: Tariff, l: Ledger, m: Meter, raw: real): (l': Ledger)
    requires Positive(l.queue)
    ensures Positive(l'.queue)
  {
    if Kwh(-m.battery, m) > 0.0 then l.(queue := l.queue + Charged(t, m, raw)) else l
  }

  function Discharge(t: Tariff, l: Ledger, m: Meter, raw: real): Ledger
    requires Positive(l.queue)
  {
    var amount, p := Kwh(m.battery, m), ImportPrice(t, raw);
    var (taken, left) := TakeFront(l.queue, amount);
    l.(solarSelfUse := l.solarSelfUse + Benefit(taken, FromSolar, p, t.degradation),
       avoidedExpensive := l.avoidedExpensive + Benefit(taken, FromGrid, p, t.degradation),
       residual := l.residual + Times(Unmatched(l.queue, amount), p - t.degradation),
       queue := left)
  }

  /** One segment booked: energy always, money and packets only when the slot is priced. */
  function Post(t: Tariff, l: Ledger, m: Meter): Ledger
    requires Positive(l.queue)
  {
    var l1 := Measure(l, m);
    if m.price.None? then l1 else Discharge(t, Charge(t, Price(t, l1, m, m.price.value), m, m.price.value), m, m.price.value)
  }

  function Book(t: Tariff, ms: seq<Meter>, n: nat): (l: Ledger)
    requires n <= |ms| && forall i :: 0 <= i < |ms| ==> ms[i].micros >= 0
    ensures Positive(l.queue)
  {
    if n == 0 then EMPTY
    else
      var l := Book(t, ms, n - 1);
      PostKeepsPositive(t, l, ms[n - 1]);
      Post(t, l, ms[n - 1])
  }

  lemma KwhNonNegative(watts: real, m: Meter)
    requires m.micros >= 0
    ensures Kwh(watts, m) >= 0.0
  {
    assert Max(0.0, watts) * Hours(m) >= 0.0;
  }

  lemma PostKeepsPositive(t: Tariff, l: Ledger, m: Meter)
    requires Positive(l.queue) && m.micros >= 0
    ensures Positive(Post(t, l, m).queue)
  {
    if m.price.Some? {
      KwhNonNegative(m.battery, m);
      TakeFrontConserves(Charge(t, Price(t, Measure(l, m), m, m.price.value), m, m.price.value).queue, Kwh(m.battery, m));
    }
  }

  // --- the savings identity ---------------------------------------------------------------------------

  function Saved(t: Tariff, l: Ledger): real { l.baseCost - l.cost - Times(l.disPriced, t.degradation) }

  function Attributed(l: Ledger): real { l.solarSelfUse + l.avoidedExpensive + l.residual }

  function BatteryContribution(t: Tariff, l: Ledger): real { l.residual + (Saved(t, l) - Attributed(l)) }

  /** What one priced segment leaves unexplained: its saving, less what is booked, plus what it stores. */
  function Gap(t: Tariff, m: Meter): real {
    if m.price.None? then 0.0
    else
      var raw := m.price.value;
      if m.battery < 0.0 then Saving(t, m, raw) + StoredCost(Charged(t, m, raw))
      else Saving(t, m, raw) - Times(Kwh(m.battery, m), ImportPrice(t, raw))
  }

  function Gaps(t: Tariff, ms: seq<Meter>, n: nat): real
    requires n <= |ms|
  {
    if n == 0 then 0.0 else Gaps(t, ms, n - 1) + Gap(t, ms[n - 1])
  }

  /** What is saved but not yet booked, with the stored packets at cost. */
  function Balance(t: Tariff, l: Ledger): real { Saved(t, l) - Attributed(l) + StoredCost(l.queue) }

  lemma DischargeBalances(t: Tariff, l: Ledger, m: Meter, raw: real)
    requires Positive(l.queue) && m.micros >= 0
    ensures Balance(t, Discharge(t, l, m, raw))
         == Balance(t, l) - Times(Kwh(m.battery, m), ImportPrice(t, raw) - t.degradation)
  {
    var amount, p := Kwh(m.battery, m), ImportPrice(t, raw);
    var (taken, left) := TakeFront(l.queue, amount);
    KwhNonNegative(m.battery, m);
    TakeFrontConserves(l.queue, amount);
    DrainBalances(l.queue, taken, left, amount, p, t.degradation);
  }

  /** A drained amount is worth its packets' benefit, the cost they carried, and the unmatched rest. */
  lemma DrainBalances(q: seq<Packet>, taken: seq<Packet>, left: seq<Packet>, amount: real, p: real, degradation: real)
    requires Positive(q) && Stored(taken) == Min(amount, Stored(q)) && StoredCost(taken) + StoredCost(left) == StoredCost(q)
    ensures Benefit(taken, FromSolar, p, degradation) + Benefit(taken, FromGrid, p, degradation)
            + Times(Unmatched(q, amount), p - degradation) + StoredCost(q) - StoredCost(left)
         == Times(amount, p - degradation)
  {
    BenefitSum(taken, p, degradation);
    TimesAdds(Stored(taken), Unmatched(q, amount), p - degradation);
  }

  function Saving(t: Tariff, m: Meter, raw: real): real {
    NetCost(m.grid + m.battery, ImportPrice(t, raw), ExportCredit(t, raw), m)
    - NetCost(m.grid, ImportPrice(t, raw), ExportCredit(t, raw), m)
  }

  lemma PriceBalances(t: Tariff, l: Ledger, m: Meter, raw: real)
    ensures Balance(t, Price(t, l, m, raw)) == Balance(t, l) + Saving(t, m, raw) - Times(Kwh(m.battery, m), t.degradation)
  {
    TimesAdds(l.disPriced, Kwh(m.battery, m), t.degradation);
  }

  lemma ChargeBalances(t: Tariff, l: Ledger, m: Meter, raw: real)
    requires Positive(l.queue) && m.micros >= 0
    ensures Balance(t, Charge(t, l, m, raw))
         == Balance(t, l) + if m.battery < 0.0 then StoredCost(Charged(t, m, raw)) else 0.0
  {
    StoredAppend(l.queue, Charged(t, m, raw));
    if m.battery < 0.0 && !(Kwh(-m.battery, m) > 0.0) {
      ChargedNothing(t, m, raw);
    }
  }

  lemma ChargedNothing(t: Tariff, m: Meter, raw: real)
    requires m.micros >= 0 && m.battery < 0.0 && Kwh(-m.battery, m) <= 0.0
    ensures Charged(t, m, raw) == []
  {
    KwhNonNegative(-m.battery, m);
    assert Kwh(-m.battery, m) == 0.0;
    assert SolarLeft(m) >= 0.0;
    assert SolarLeft(m) * Hours(m) >= 0.0;
  }

  lemma NoDischargeWhileCharging(m: Meter, p: real, degradation: real)
    ensures m.battery < 0.0 ==> Times(Kwh(m.battery, m), p) == 0.0
    ensures Times(Kwh(m.battery, m), p - degradation) == Times(Kwh(m.battery, m), p) - Times(Kwh(m.battery, m), degradation)
  {
    if m.battery < 0.0 { assert Kwh(m.battery, m) == 0.0; }
  }

  /** The balance moves by exactly the segment's gap. */
  lemma PostBalances(t: Tariff, l: Ledger, m: Meter)
    requires Positive(l.queue) && m.micros >= 0
    ensures Balance(t, Post(t, l, m)) == Balance(t, l) + Gap(t, m)
  {
    if m.price.Some? {
      var raw := m.price.value;
      var priced := Price(t, Measure(l, m), m, raw);
      PriceBalances(t, Measure(l, m), m, raw);
      ChargeBalances(t, priced, m, raw);
      DischargeBalances(t, Charge(t, priced, m, raw), m, raw);
      NoDischargeWhileCharging(m, ImportPrice(t, raw), t.degradation);
    }
  }

  lemma {:induction false} BalanceIsGaps(t: Tariff, ms: seq<Meter>, n: nat)
    requires n <= |ms| && forall i :: 0 <= i < |ms| ==> ms[i].micros >= 0
    ensures Balance(t, Book(t, ms, n)) == Gaps(t, ms, n)
  {
    if n > 0 {
      BalanceIsGaps(t, ms, n - 1);
      PostBalances(t, Book(t, ms, n - 1), ms[n - 1]);
    } else {
      assert Times(0.0, t.degradation) == 0.0;
    }
  }

  /** Unconditionally: what the three booked parts miss of `saved` is the gaps less the stranded packets. */
  lemma SavingsDecompose(t: Tariff, ms: seq<Meter>, n: nat)
    requires n <= |ms| && forall i :: 0 <= i < |ms| ==> ms[i].micros >= 0
    ensures Saved(t, Book(t, ms, n)) - Attributed(Book(t, ms, n)) == Gaps(t, ms, n) - StoredCost(Book(t, ms, n).queue)
  {
    BalanceIsGaps(t, ms, n);
  }

  // --- when the identity is exact ---------------------------------------------------------------------

  /** Power the booking cannot explain: charge beyond sun and import, or discharge that is exported. */
  function Unexplained(m: Meter): real {
    if m.battery < 0.0 then Max(0.0, -m.battery - Solar(m) - Max(0.0, m.grid))
    else Max(0.0, Min(m.battery, -m.grid))
  }

  function Scale(m: Meter): real { Hours(m) / 1000.0 }

  function Rate(w: real, p: real, k: real): real { Max(0.0, w) * p - Max(0.0, -w) * k }

  lemma NetCostIsRate(w: real, p: real, k: real, m: Meter)
    ensures NetCost(w, p, k, m) == Times(Rate(w, p, k), Scale(m))
  {
  }

  /** The two charge amounts in terms of power: the solar share u, and the rest. */
  lemma ChargeShares(m: Meter)
    requires m.micros >= 0 && m.battery < 0.0
    ensures SolarCharge(m) == Times(Min(-m.battery, SolarLeft(m)), Scale(m)) >= 0.0
    ensures GridCharge(m) == Times(-m.battery - Min(-m.battery, SolarLeft(m)), Scale(m)) >= 0.0
  {
    var u, s := Min(-m.battery, SolarLeft(m)), Scale(m);
    assert Kwh(-m.battery, m) == Times(-m.battery, s);
    assert SolarLeft(m) * Hours(m) / 1000.0 == Times(SolarLeft(m), s);
    MinScales(-m.battery, SolarLeft(m), s);
    TimesAdds(u, -m.battery - u, s);
    ProductNonNegative(u, s);
    ProductNonNegative(-m.battery - u, s);
  }

  /** The packets of a charging segment: the solar share at the credit, the rest at the import price. */
  lemma ChargedCost(t: Tariff, m: Meter, raw: real)
    requires m.micros >= 0 && m.battery < 0.0
    ensures StoredCost(Charged(t, m, raw))
         == Times(Times(Min(-m.battery, SolarLeft(m)), ExportCredit(t, raw))
                  + Times(-m.battery - Min(-m.battery, SolarLeft(m)), ImportPrice(t, raw)), Scale(m))
  {
    var u, s, p, k := Min(-m.battery, SolarLeft(m)), Scale(m), ImportPrice(t, raw), ExportCredit(t, raw);
    ChargeShares(m);
    CostOfTwo(SolarCharge(m), k, GridCharge(m), p);
    Regroup(u, -m.battery - u, k, p, s);
  }

  lemma MinScales(a: real, b: real, s: real)
    requires s >= 0.0
    ensures Min(Times(a, s), Times(b, s)) == Times(Min(a, b), s)
  {
    assert (a - b) * s == Times(a, s) - Times(b, s);
    if a <= b { assert (b - a) * s >= 0.0; } else { assert (a - b) * s >= 0.0; }
  }

  lemma CostOfTwo(a: real, k: real, b: real, p: real)
    requires a >= 0.0 && b >= 0.0
    ensures StoredCost((if a > 0.0 then [Packet(a, k, FromSolar)] else []) + (if b > 0.0 then [Packet(b, p, FromGrid)] else []))
         == Times(a, k) + Times(b, p)
  {
    var x := if a > 0.0 then [Packet(a, k, FromSolar)] else [];
    var y := if b > 0.0 then [Packet(b, p, FromGrid)] else [];
    StoredAppend(x, y);
    assert a == 0.0 ==> Times(a, k) == 0.0;
    assert b == 0.0 ==> Times(b, p) == 0.0;
  }

  lemma Regroup(a: real, b: real, k: real, p: real, s: real)
    ensures Times(Times(a, s), k) + Times(Times(b, s), p) == Times(Times(a, k) + Times(b, p), s)
  {
    assert (a * s) * k == (a * k) * s && (b * s) * p == (b * p) * s;
  }

  lemma ChargingRates(g: real, s: real, b: real, u: real, p: real, k: real)
    requires b < 0.0 && s >= 0.0 && u == Min(-b, s - Min(s, Max(0.0, g + s + b)))
    ensures Rate(g + b, p, k) - Rate(g, p, k) + Times(u, k) + Times(-b - u, p)
         == Times(Max(0.0, -b - s - Max(0.0, g)), p - k)
  {
  }

  lemma DischargingRates(g: real, b: real, p: real, k: real)
    requires b >= 0.0
    ensures Rate(g + b, p, k) - Rate(g, p, k) - Times(b, p) == Times(Max(0.0, Min(b, -g)), k - p)
  {
  }

  /** The gap is the unexplained energy, valued at the spread between import price and export credit. */
  lemma GapInClosedForm(t: Tariff, m: Meter)
    requires m.micros >= 0 && m.price.Some?
    ensures var spread := ImportPrice(t, m.price.value) - ExportCredit(t, m.price.value);
            Gap(t, m) == Times(Times(Unexplained(m), if m.battery < 0.0 then spread else -spread), Scale(m))
  {
    var raw := m.price.value;
    var p, k, s := ImportPrice(t, raw), ExportCredit(t, raw), Scale(m);
    NetCostIsRate(m.grid + m.battery, p, k, m);
    NetCostIsRate(m.grid, p, k, m);
    if m.battery < 0.0 {
      var u := Min(-m.battery, SolarLeft(m));
      ChargedCost(t, m, raw);
      ChargingRates(m.grid, Solar(m), m.battery, u, p, k);
      CombineScaled(Rate(m.grid + m.battery, p, k), Rate(m.grid, p, k), Times(u, k) + Times(-m.battery - u, p), s);
    } else {
      DischargingRates(m.grid, m.battery, p, k);
      DischargedValue(m, p);
      CombineScaled(Rate(m.grid + m.battery, p, k), Rate(m.grid, p, k), -Times(m.battery, p), s);
    }
  }

  lemma DischargedValue(m: Meter, p: real)
    requires m.battery >= 0.0
    ensures Times(Kwh(m.battery, m), p) == Times(Times(m.battery, p), Scale(m))
  {
    Rotate(m.battery, Scale(m), p);
    assert Kwh(m.battery, m) == Times(m.battery, Scale(m));
  }

  lemma Rotate(a: real, b: real, c: real)
    ensures Times(Times(a, b), c) == Times(Times(a, c), b)
  {
  }

  lemma CombineScaled(a: real, b: real, c: real, s: real)
    ensures Times(a, s) - Times(b, s) + Times(c, s) == Times(a - b + c, s)
    ensures Times(-c, s) == -Times(c, s)
  {
  }

  /** A segment reconciles, whatever its prices, exactly when nothing in it is unexplained. */
  lemma GapZeroIff(t: Tariff, m: Meter)
    requires m.micros > 0 && m.price.Some?
    ensures Gap(t, m) == 0.0 <==>
              Unexplained(m) == 0.0 || ImportPrice(t, m.price.value) == ExportCredit(t, m.price.value)
  {
    GapInClosedForm(t, m);
    var spread := ImportPrice(t, m.price.value) - ExportCredit(t, m.price.value);
    ZeroProduct(Unexplained(m), if m.battery < 0.0 then spread else -spread);
    ZeroProduct(Times(Unexplained(m), if m.battery < 0.0 then spread else -spread), Scale(m));
  }

  lemma ZeroProduct(a: real, b: real)
    ensures Times(a, b) == 0.0 <==> a == 0.0 || b == 0.0
  {
  }

  /** Load at least zero, and no export while discharging: then nothing is unexplained. */
  lemma OrdinarySegmentsReconcile(m: Meter)
    requires Load(m) >= 0.0 && (m.battery > 0.0 ==> m.grid >= 0.0)
    ensures Unexplained(m) == 0.0
  {
  }

  lemma {:induction false} NoGaps(t: Tariff, ms: seq<Meter>, n: nat)
    requires n <= |ms| && forall i :: 0 <= i < |ms| ==> ms[i].micros > 0
    requires forall i :: 0 <= i < |ms| && ms[i].price.Some? ==> Unexplained(ms[i]) == 0.0
    ensures Gaps(t, ms, n) == 0.0
  {
    if n > 0 {
      NoGaps(t, ms, n - 1);
      if ms[n - 1].price.Some? { GapZeroIff(t, ms[n - 1]); }
    }
  }

  /**
   * FIFO savings identity: on a day of ordinary segments the booked parts exceed `saved` by exactly the
   * cost of the packets still queued, for any prices; the remainder shown as the battery's contribution
   * is the unmatched discharge less that stranded cost.
   */
  lemma FifoSavingsIdentity(t: Tariff, ms: seq<Meter>)
    requires forall i :: 0 <= i < |ms| ==> ms[i].micros > 0
    requires forall i :: 0 <= i < |ms| && ms[i].price.Some? ==>
               Load(ms[i]) >= 0.0 && (ms[i].battery > 0.0 ==> ms[i].grid >= 0.0)
    ensures var l := Book(t, ms, |ms|);
            Saved(t, l) - Attributed(l) == -StoredCost(l.queue)
            && BatteryContribution(t, l) == l.residual - StoredCost(l.queue)
  {
    forall i | 0 <= i < |ms| && ms[i].price.Some? ensures Unexplained(ms[i]) == 0.0 {
      OrdinarySegmentsReconcile(ms[i]);
    }
    NoGaps(t, ms, |ms|);
    SavingsDecompose(t, ms, |ms|);
  }

  /** The condition is needed: discharging 1 kW into the grid at a spread of one is off by that kWh's spread. */
  lemma ExportWhileDischargingIsUnexplained() returns (t: Tariff, m: Meter)
    ensures m.micros > 0 && m.price.Some? && Load(m) >= 0.0 && m.battery > 0.0
    ensures Gap(t, m) == -1.0
  {
    t := Tariff(SpotMinusTax, 1.0, 0.0, false, 0.0, 0.0, 0.0);
    m := Meter(-1000.0, 1000.0, 0.0, 3_600_000_000, Some(0.0));
    GapInClosedForm(t, m);
    assert Hours(m) == 1.0 && Scale(m) == 0.001;
    assert Unexplained(m) == 1000.0;
  }

  // --- energy totals and sources ------------------------------------------------------------------------

  function NetGrid(ms: seq<Meter>, n: nat): real
    requires n <= |ms|
  {
    if n == 0 then 0.0 else NetGrid(ms, n - 1) + Times(ms[n - 1].grid, Scale(ms[n - 1]))
  }

  function NetBattery(ms: seq<Meter>, n: nat): real
    requires n <= |ms|
  {
    if n == 0 then 0.0 else NetBattery(ms, n - 1) + Times(ms[n - 1].battery, Scale(ms[n - 1]))
  }

  lemma KwhSplits(watts: real, m: Meter)
    ensures Kwh(watts, m) - Kwh(-watts, m) == Times(watts, Scale(m))
    ensures watts >= 0.0 ==> Kwh(-watts, m) == 0.0
    ensures watts <= 0.0 ==> Kwh(watts, m) == 0.0
  {
    assert Max(0.0, watts) - Max(0.0, -watts) == watts;
    TimesAdds(Max(0.0, watts), -Max(0.0, -watts), Scale(m));
    assert Times(-Max(0.0, -watts), Scale(m)) == -Times(Max(0.0, -watts), Scale(m));
    assert Kwh(watts, m) == Times(Max(0.0, watts), Scale(m)) && Kwh(-watts, m) == Times(Max(0.0, -watts), Scale(m));
  }

  /** Import less export is the meter's integral, discharge less charge the battery's, priced or not; each is a one-sided part. */
  lemma {:induction false} EnergyIsMetered(t: Tariff, ms: seq<Meter>, n: nat)
    requires n <= |ms| && forall i :: 0 <= i < |ms| ==> ms[i].micros >= 0
    ensures var l := Book(t, ms, n);
            && l.imp >= 0.0 && l.exp >= 0.0 && l.imp - l.exp == NetGrid(ms, n)
            && l.dis >= 0.0 && l.chg >= 0.0 && l.dis - l.chg == NetBattery(ms, n)
            && ((forall i :: 0 <= i < n ==> ms[i].grid >= 0.0) ==> l.exp == 0.0)
            && ((forall i :: 0 <= i < n ==> ms[i].grid <= 0.0) ==> l.imp == 0.0)
            && ((forall i :: 0 <= i < n ==> ms[i].battery >= 0.0) ==> l.chg == 0.0)
            && ((forall i :: 0 <= i < n ==> ms[i].battery <= 0.0) ==> l.dis == 0.0)
  {
    if n > 0 {
      var m := ms[n - 1];
      EnergyIsMetered(t, ms, n - 1);
      PostMeasures(t, Book(t, ms, n - 1), m);
      KwhSplits(m.grid, m);
      KwhSplits(m.battery, m);
      KwhNonNegative(m.grid, m);
      KwhNonNegative(-m.grid, m);
      KwhNonNegative(m.battery, m);
      KwhNonNegative(-m.battery, m);
    }
  }

  lemma PostMeasures(t: Tariff, l: Ledger, m: Meter)
    requires Positive(l.queue)
    ensures var l' := Post(t, l, m);
            && l'.imp == l.imp + Kwh(m.grid, m) && l'.exp == l.exp + Kwh(-m.grid, m)
            && l'.dis == l.dis + Kwh(m.battery, m) && l'.chg == l.chg + Kwh(-m.battery, m)
  {
  }

  // --- the bill -----------------------------------------------------------------------------------------

  /** A tariff that includes all fees charges the slot price, any other adds its fee; export earns by the contract, less its fee. */
  lemma TariffPrices(t: Tariff, raw: real)
    ensures ImportPrice(t, raw) == raw || !t.includesAllFees
    ensures !t.includesAllFees ==> ImportPrice(t, raw) - t.importFee == raw
    ensures t.model.NetMetering? ==> ExportCredit(t, raw) + t.exportFee == raw
    ensures t.model.SpotMinusTax? ==> ExportCredit(t, raw) + t.exportFee + t.energyTax == raw
    ensures t.model.Fixed? ==> ExportCredit(t, raw) + t.exportFee == t.fixedFeedIn
  {
  }

  /** What the meter is billed over its priced segments: import energy at the import price less export energy at the credit. */
  function Billed(t: Tariff, ms: seq<Meter>, n: nat): real
    requires n <= |ms|
  {
    if n == 0 then 0.0
    else
      var m := ms[n - 1];
      Billed(t, ms, n - 1)
      + if m.price.None? then 0.0
        else Times(Kwh(m.grid, m), ImportPrice(t, m.price.value)) - Times(Kwh(-m.grid, m), ExportCredit(t, m.price.value))
  }

  /** Discharge of the priced segments. */
  function Worn(ms: seq<Meter>, n: nat): real
    requires n <= |ms|
  {
    if n == 0 then 0.0 else Worn(ms, n - 1) + if ms[n - 1].price.Some? then Kwh(ms[n - 1].battery, ms[n - 1]) else 0.0
  }

  function PricedTime(ms: seq<Meter>, n: nat): int
    requires n <= |ms|
  {
    if n == 0 then 0 else PricedTime(ms, n - 1) + if ms[n - 1].price.Some? then ms[n - 1].micros else 0
  }

  /** The same day without its battery: the meter sees what the battery took or gave. */
  function Unplugged(ms: seq<Meter>): (us: seq<Meter>)
    ensures |us| == |ms| && forall i :: 0 <= i < |ms| ==> us[i] == ms[i].(grid := ms[i].grid + ms[i].battery, battery := 0.0)
  {
    seq(|ms|, i requires 0 <= i < |ms| => ms[i].(grid := ms[i].grid + ms[i].battery, battery := 0.0))
  }

  lemma NetCostIsBilled(watts: real, p: real, k: real, m: Meter)
    ensures NetCost(watts, p, k, m) == Times(Kwh(watts, m), p) - Times(Kwh(-watts, m), k)
  {
    var i, e, h := Max(0.0, watts), Max(0.0, -watts), Hours(m) / 1000.0;
    assert Times(Kwh(watts, m), p) == (i * p) * h && Times(Kwh(-watts, m), k) == (e * k) * h;
    assert (i * p - e * k) * h == (i * p) * h - (e * k) * h;
  }

  /** The meter's bill of one segment, nothing when it is not priced. */
  function BillOf(t: Tariff, watts: real, m: Meter): real {
    if m.price.None? then 0.0 else NetCost(watts, ImportPrice(t, m.price.value), ExportCredit(t, m.price.value), m)
  }

  lemma BilledNext(t: Tariff, ms: seq<Meter>, n: nat)
    requires n < |ms|
    ensures Billed(t, ms, n + 1) == Billed(t, ms, n) + BillOf(t, ms[n].grid, ms[n])
    ensures Billed(t, Unplugged(ms), n + 1) == Billed(t, Unplugged(ms), n) + BillOf(t, ms[n].grid + ms[n].battery, ms[n])
  {
    var m := ms[n];
    if m.price.Some? {
      var p, k := ImportPrice(t, m.price.value), ExportCredit(t, m.price.value);
      NetCostIsBilled(m.grid, p, k, m);
      NetCostIsBilled(m.grid + m.battery, p, k, m);
      SameTime(m.grid + m.battery, m, Unplugged(ms)[n]);
      SameTime(-(m.grid + m.battery), m, Unplugged(ms)[n]);
    }
  }

  lemma SameTime(watts: real, m: Meter, m': Meter)
    requires m.micros == m'.micros
    ensures Kwh(watts, m) == Kwh(watts, m')
  {
  }

  /** What one segment adds to every sum of the ledger but the attributed ones. */
  ghost predicate Follows(t: Tariff, l: Ledger, l': Ledger, m: Meter) {
    && l'.imp == l.imp + Kwh(m.grid, m) && l'.exp == l.exp + Kwh(-m.grid, m)
    && l'.dis == l.dis + Kwh(m.battery, m) && l'.observedMicros == l.observedMicros + m.micros
    && l'.cost == l.cost + BillOf(t, m.grid, m) && l'.baseCost == l.baseCost + BillOf(t, m.grid + m.battery, m)
    && l'.disPriced == l.disPriced + (if m.price.Some? then Kwh(m.battery, m) else 0.0)
    && l'.pricedMicros == l.pricedMicros + (if m.price.Some? then m.micros else 0)
  }

  lemma PostFollows(t: Tariff, l: Ledger, m: Meter)
    requires Positive(l.queue)
    ensures Follows(t, l, Post(t, l, m), m)
  {
  }

  /** The ledgers of a day, one after each segment. */
  ghost predicate LedgersOf(t: Tariff, ms: seq<Meter>, ls: seq<Ledger>) {
    && |ls| == |ms| + 1 && ls[0] == EMPTY
    && forall i :: 0 <= i < |ms| ==> Follows(t, ls[i], ls[i + 1], ms[i])
  }

  lemma Ledgers(t: Tariff, ms: seq<Meter>) returns (ls: seq<Ledger>)
    requires forall i :: 0 <= i < |ms| ==> ms[i].micros >= 0
    ensures LedgersOf(t, ms, ls) && forall n :: 0 <= n <= |ms| ==> ls[n] == Book(t, ms, n)
  {
    ls := seq(|ms| + 1, n requires 0 <= n <= |ms| => Book(t, ms, n));
    forall i | 0 <= i < |ms| ensures Follows(t, ls[i], ls[i + 1], ms[i]) {
      PostFollows(t, Book(t, ms, i), ms[i]);
    }
  }

  lemma {:induction false} SumsOfLedgers(t: Tariff, ms: seq<Meter>, ls: seq<Ledger>, n: nat)
    requires LedgersOf(t, ms, ls) && n <= |ms|
    ensures ls[n].cost == Billed(t, ms, n) && ls[n].baseCost == Billed(t, Unplugged(ms), n)
    ensures ls[n].disPriced == Worn(ms, n) && ls[n].pricedMicros == PricedTime(ms, n)
  {
    if n > 0 {
      SumsOfLedgers(t, ms, ls, n - 1);
      BilledNext(t, ms, n - 1);
      assert Follows(t, ls[n - 1], ls[(n - 1) + 1], ms[n - 1]);
    }
  }

  /** The cost is the bill, the baseline the bill of the same day without its battery, and wear counts priced discharge only. */
  lemma {:induction false} CostIsBilled(t: Tariff, ms: seq<Meter>, n: nat)
    requires n <= |ms| && forall i :: 0 <= i < |ms| ==> ms[i].micros >= 0
    ensures var l := Book(t, ms, n);
            && l.cost == Billed(t, ms, n) && l.baseCost == Billed(t, Unplugged(ms), n)
            && l.disPriced == Worn(ms, n) && l.pricedMicros == PricedTime(ms, n)
  {
    var ls := Ledgers(t, ms);
    SumsOfLedgers(t, ms, ls, n);
  }

  /** What an unchanging price makes of the ledger's energies. */
  ghost predicate FlatMoney(l: Ledger, p: real, k: real) {
    && l.cost == Times(l.imp, p) - Times(l.exp, k)
    && l.disPriced == l.dis && l.pricedMicros == l.observedMicros
  }

  /** On a day priced alike throughout, the money is the day's energies times the prices, with and without the battery. */
  lemma {:induction false} FlatDayInClosedForm(t: Tariff, ms: seq<Meter>, raw: real, n: nat)
    requires n <= |ms| && forall i :: 0 <= i < |ms| ==> ms[i].micros >= 0 && ms[i].price == Some(raw)
    ensures FlatMoney(Book(t, ms, n), ImportPrice(t, raw), ExportCredit(t, raw))
    ensures var u, p, k := Book(t, Unplugged(ms), n), ImportPrice(t, raw), ExportCredit(t, raw);
            Book(t, ms, n).baseCost == Times(u.imp, p) - Times(u.exp, k)
  {
    var ls := Ledgers(t, ms);
    var us := Ledgers(t, Unplugged(ms));
    FlatLedgers(t, ms, ls, raw, n);
    FlatLedgers(t, Unplugged(ms), us, raw, n);
    SumsOfLedgers(t, ms, ls, n);
    SumsOfLedgers(t, Unplugged(ms), us, n);
  }

  lemma {:induction false} FlatLedgers(t: Tariff, ms: seq<Meter>, ls: seq<Ledger>, raw: real, n: nat)
    requires LedgersOf(t, ms, ls) && n <= |ms| && forall i :: 0 <= i < |ms| ==> ms[i].price == Some(raw)
    ensures FlatMoney(ls[n], ImportPrice(t, raw), ExportCredit(t, raw))
  {
    var p, k := ImportPrice(t, raw), ExportCredit(t, raw);
    if n == 0 {
      assert Times(0.0, p) == 0.0 == Times(0.0, k);
    } else {
      FlatLedgers(t, ms, ls, raw, n - 1);
      FlatStep(t, ls[n - 1], ls[(n - 1) + 1], ms[n - 1], raw);
    }
  }

  lemma FlatStep(t: Tariff, l: Ledger, l': Ledger, m: Meter, raw: real)
    requires FlatMoney(l, ImportPrice(t, raw), ExportCredit(t, raw)) && Follows(t, l, l', m) && m.price == Some(raw)
    ensures FlatMoney(l', ImportPrice(t, raw), ExportCredit(t, raw))
  {
    var p, k := ImportPrice(t, raw), ExportCredit(t, raw);
    NetCostIsBilled(m.grid, p, k, m);
    TimesAdds(l.imp, Kwh(m.grid, m), p);
    TimesAdds(l.exp, Kwh(-m.grid, m), k);
  }

  ghost predicate Without(q: seq<Packet>, source: Source) { forall i :: 0 <= i < |q| ==> q[i].source != source }

  lemma {:induction false} TakeFrontKeepsSources(q: seq<Packet>, amount: real, source: Source)
    requires Positive(q) && Without(q, source)
    ensures Without(TakeFront(q, amount).0, source) && Without(TakeFront(q, amount).1, source)
  {
    if q != [] && amount > 0.0 && q[0].kwh <= amount {
      TakeFrontKeepsSources(q[1..], amount - q[0].kwh, source);
    }
  }

  lemma {:induction false} NoBenefitWithout(taken: seq<Packet>, source: Source, p: real, degradation: real)
    requires Without(taken, source)
    ensures Benefit(taken, source, p, degradation) == 0.0
  {
    if taken != [] { NoBenefitWithout(taken[1..], source, p, degradation); }
  }

  function ChargedFrom(m: Meter, source: Source): real { if source.FromSolar? then SolarCharge(m) else GridCharge(m) }

  function BookedTo(l: Ledger, source: Source): real { if source.FromSolar? then l.solarSelfUse else l.avoidedExpensive }

  /** Each part of the breakdown is earned by its own source: a day that never charges from one books nothing to it. */
  lemma {:induction false} SourcesStayApart(t: Tariff, ms: seq<Meter>, n: nat, source: Source)
    requires n <= |ms| && forall i :: 0 <= i < |ms| ==> ms[i].micros >= 0
    requires forall i :: 0 <= i < |ms| && ms[i].price.Some? ==> ChargedFrom(ms[i], source) <= 0.0
    ensures BookedTo(Book(t, ms, n), source) == 0.0 && Without(Book(t, ms, n).queue, source)
  {
    if n > 0 {
      SourcesStayApart(t, ms, n - 1, source);
      PostStaysApart(t, Book(t, ms, n - 1), ms[n - 1], source);
    }
  }

  lemma PostStaysApart(t: Tariff, l: Ledger, m: Meter, source: Source)
    requires Positive(l.queue) && (m.price.Some? ==> ChargedFrom(m, source) <= 0.0)
    requires BookedTo(l, source) == 0.0 && Without(l.queue, source)
    ensures BookedTo(Post(t, l, m), source) == 0.0 && Without(Post(t, l, m).queue, source)
  {
    if m.price.Some? {
      var raw := m.price.value;
      var priced := Price(t, Measure(l, m), m, raw);
      ChargeStaysApart(t, priced, m, raw, source);
      DischargeStaysApart(t, Charge(t, priced, m, raw), m, raw, source);
    }
  }

  lemma ChargeStaysApart(t: Tariff, l: Ledger, m: Meter, raw: real, source: Source)
    requires Positive(l.queue) && Without(l.queue, source) && ChargedFrom(m, source) <= 0.0
    ensures Without(Charge(t, l, m, raw).queue, source) && BookedTo(Charge(t, l, m, raw), source) == BookedTo(l, source)
  {
  }

  lemma DischargeStaysApart(t: Tariff, l: Ledger, m: Meter, raw: real, source: Source)
    requires Positive(l.queue) && Without(l.queue, source)
    ensures Without(Discharge(t, l, m, raw).queue, source)
    ensures BookedTo(Discharge(t, l, m, raw), source) == BookedTo(l, source)
  {
    var taken := TakeFront(l.queue, Kwh(m.battery, m)).0;
    TakeFrontKeepsSources(l.queue, Kwh(m.battery, m), source);
    NoBenefitWithout(taken, source, ImportPrice(t, raw), t.degradation);
  }

  // --- the loops ----------------------------------------------------------------------------------------

  lemma {:induction false} BenefitAppend(taken: seq<Packet>, x: Packet, source: Source, p: real, degradation: real)
    ensures Benefit(taken + [x], source, p, degradation)
         == Benefit(taken, source, p, degradation)
            + if x.source == source then Times(x.kwh, p - x.unitCost - degradation) else 0.0
  {
    if taken == [] {
      assert [] + [x] == [x] && [x][1..] == [];
    } else {
      BenefitAppend(taken[1..], x, source, p, degradation);
      assert (taken + [x])[1..] == taken[1..] + [x];
    }
  }

  /** The drain loop part-way: `taken` is gone, `q` and `remaining` are still to be drained. */
  ghost predicate Draining(q0: seq<Packet>, amount: real, taken: seq<Packet>, q: seq<Packet>, remaining: real) {
    && Positive(q0) && Positive(q)
    && TakeFront(q0, amount) == (taken + TakeFront(q, remaining).0, TakeFront(q, remaining).1)
    && Unmatched(q0, amount) == Unmatched(q, remaining)
  }

  lemma DrainStep(q0: seq<Packet>, amount: real, taken: seq<Packet>, q: seq<Packet>, remaining: real)
    requires Draining(q0, amount, taken, q, remaining) && q != [] && remaining > 0.0
    ensures var take := Min(remaining, q[0].kwh);
            var rest := if q[0].kwh - take <= 0.0 then q[1..] else [q[0].(kwh := q[0].kwh - take)] + q[1..];
            Draining(q0, amount, taken + [q[0].(kwh := take)], rest, remaining - take)
  {
    var take := Min(remaining, q[0].kwh);
    var x := q[0].(kwh := take);
    StoredNonNegative(q);
    StoredNonNegative(q[1..]);
    if q[0].kwh <= remaining {
      assert x == q[0];
      assert taken + ([x] + TakeFront(q[1..], remaining - take).0) == (taken + [x]) + TakeFront(q[1..], remaining - take).0;
    } else {
      var rest := [q[0].(kwh := q[0].kwh - take)] + q[1..];
      assert rest[1..] == q[1..];
      StoredNonNegative(rest);
      assert TakeFront(rest, 0.0) == ([], rest);
      assert (taken + [x]) + [] == taken + [x];
    }
  }

  /** The inner loop of the day: discharge consumes packets from the front of the queue. */
  method DrainQueue(q0: seq<Packet>, amount: real, p: real, degradation: real)
    returns (q: seq<Packet>, solar: real, grid: real, remaining: real)
    requires Positive(q0) && amount >= 0.0
    ensures q == TakeFront(q0, amount).1 && remaining == Unmatched(q0, amount)
    ensures solar == Benefit(TakeFront(q0, amount).0, FromSolar, p, degradation)
    ensures grid == Benefit(TakeFront(q0, amount).0, FromGrid, p, degradation)
  {
    q, solar, grid, remaining := q0, 0.0, 0.0, amount;
    ghost var taken: seq<Packet> := [];
    assert [] + TakeFront(q, remaining).0 == TakeFront(q, remaining).0;
    while remaining > 0.0 && q != []
      invariant remaining >= 0.0 && Draining(q0, amount, taken, q, remaining)
      invariant solar == Benefit(taken, FromSolar, p, degradation) && grid == Benefit(taken, FromGrid, p, degradation)
      decreases |q|, remaining > 0.0
    {
      var packet := q[0];
      var take := Min(remaining, packet.kwh);
      var benefit := Times(take, p - packet.unitCost - degradation);
      DrainStep(q0, amount, taken, q, remaining);
      BenefitAppend(taken, packet.(kwh := take), FromSolar, p, degradation);
      BenefitAppend(taken, packet.(kwh := take), FromGrid, p, degradation);
      taken := taken + [packet.(kwh := take)];
      if packet.source.FromSolar? {
        solar := solar + benefit;
      } else {
        grid := grid + benefit;
      }
      remaining := remaining - take;
      q := if packet.kwh - take <= 0.0 then q[1..] else [packet.(kwh := packet.kwh - take)] + q[1..];
    }
    assert taken + [] == taken;
    StoredNonNegative(q);
  }

  /** One pass of the segment loop. */
  method BookSegment(t: Tariff, l0: Ledger, m: Meter) returns (l: Ledger)
    requires Positive(l0.queue) && m.micros >= 0
    ensures l == Post(t, l0, m)
  {
    l := Measure(l0, m);
    if m.price.Some? {
      var raw := m.price.value;
      var p := ImportPrice(t, raw);
      l := Charge(t, Price(t, l, m, raw), m, raw);
      var amount := Kwh(m.battery, m);
      KwhNonNegative(m.battery, m);
      var q, solar, grid, remaining := DrainQueue(l.queue, amount, p, t.degradation);
      l := l.(solarSelfUse := l.solarSelfUse + solar, avoidedExpensive := l.avoidedExpensive + grid,
              residual := l.residual + Times(remaining, p - t.degradation), queue := q);
    }
  }

  // --- the published day ------------------------------------------------------------------------------------

  datatype Money = Money(cost: real, batteryCost: real, baseline: real, saved: real,
                         solarSelfUse: real, avoidedExpensive: real, batteryContribution: real)

  datatype Day = Day(hasData: bool, coverage: real, sampleCoverage: real, money: Option<Money>,
                     imp: real, exp: real, chg: real, dis: real)

  /** A recorded segment (grid, battery, solar) with the price of the quarter-hour it starts in. */
  function MeterOf(s: Segments.Segment, prices: map<int, real>): Meter
    requires |s.values| == 3
  {
    var quarter := QuarterOf(s.start);
    Meter(s.values[0], s.values[1], s.values[2], s.end - s.start, if quarter in prices then Some(prices[quarter]) else None)
  }

  function MetersOf(segs: seq<Segments.Segment>, prices: map<int, real>): (ms: seq<Meter>)
    requires forall i :: 0 <= i < |segs| ==> |segs[i].values| == 3
    ensures |ms| == |segs| && forall i :: 0 <= i < |segs| ==> ms[i] == MeterOf(segs[i], prices)
  {
    seq(|segs|, i requires 0 <= i < |segs| => MeterOf(segs[i], prices))
  }

  ghost predicate Bookable(segs: seq<Segments.Segment>) {
    forall i :: 0 <= i < |segs| ==> |segs[i].values| == 3 && segs[i].start <= segs[i].end
  }

  function BookDay(t: Tariff, segs: seq<Segments.Segment>, prices: map<int, real>): Ledger
    requires Bookable(segs)
  {
    Book(t, MetersOf(segs, prices), |segs|)
  }

  function Ratio(a: int, b: int): real { if b == 0 then 0.0 else a as real / b as real }

  /** What a day report says of the ledger of its segments; money only when some of them is priced. */
  ghost predicate Reports(p: Segments.Params, rows: seq<Segments.Row>, prices: map<int, real>, t: Tariff, day: Day) {
    && Bookable(Segments.Observed(p, rows))
    && var l := BookDay(t, Segments.Observed(p, rows), prices);
    && (day.money.Some? <==> l.pricedMicros != 0)
    && (day.hasData <==> Segments.Observed(p, rows) != [])
    && day.imp == l.imp && day.exp == l.exp && day.chg == l.chg && day.dis == l.dis
    && day.coverage == Ratio(l.pricedMicros, l.observedMicros)
    && day.sampleCoverage == Ratio(l.observedMicros, MaxInt(0, p.end - p.start))
    && (day.money.Some? ==> MoneyReports(t, l, day.money.value))
  }

  /** The saving and its three attributed parts, which add up to it. */
  ghost predicate MoneyReports(t: Tariff, l: Ledger, m: Money) {
    && m.cost == l.cost && m.baseline == l.baseCost && m.batteryCost == Times(l.disPriced, t.degradation)
    && m.saved == m.baseline - m.cost - m.batteryCost
    && m.solarSelfUse == l.solarSelfUse && m.avoidedExpensive == l.avoidedExpensive
    && m.batteryContribution == BatteryContribution(t, l)
    && m.solarSelfUse + m.avoidedExpensive + m.batteryContribution == m.saved
  }

  /** A segment is metered by its fields, grid, battery and sun, for as long as it lasts, at the price of the quarter-hour it starts in. */
  lemma SegmentIsMetered(s: Segments.Segment, prices: map<int, real>, quarter: int)
    requires |s.values| == 3 && quarter % Segments.QUARTER == 0 && quarter <= s.start < quarter + Segments.QUARTER
    ensures var m := MeterOf(s, prices);
            && m.grid == s.values[0] && m.battery == s.values[1] && m.solar == s.values[2] && m.micros == s.end - s.start
            && (m.price.Some? <==> quarter in prices) && (quarter in prices ==> m.price == Some(prices[quarter]))
  {
    OneQuarter(s.start, quarter);
  }

  lemma OneQuarter(ts: int, quarter: int)
    requires quarter % Segments.QUARTER == 0 && quarter <= ts < quarter + Segments.QUARTER
    ensures QuarterOf(ts) == quarter
  {
    var q := ts / Segments.QUARTER;
    assert quarter == (quarter / Segments.QUARTER) * Segments.QUARTER;
    assert ts == q * Segments.QUARTER + ts % Segments.QUARTER;
    assert (q - quarter / Segments.QUARTER) * Segments.QUARTER < Segments.QUARTER;
    assert (q - quarter / Segments.QUARTER) * Segments.QUARTER > -Segments.QUARTER;
  }

  /** The day's energy of one recorded field, in kWh. */
  function FieldKwh(segs: seq<Segments.Segment>, f: nat, n: nat): real
    requires n <= |segs| && f < 3 && Bookable(segs)
  {
    if n == 0 then 0.0
    else FieldKwh(segs, f, n - 1) + Times(segs[n - 1].values[f], (segs[n - 1].end - segs[n - 1].start) as real / 3_600_000_000.0 / 1000.0)
  }

  /** The report is about the recorded fields: the first is the meter's power, the second the battery's. */
  lemma ReportIsMetered(p: Segments.Params, rows: seq<Segments.Row>, prices: map<int, real>, t: Tariff, day: Day)
    requires Reports(p, rows, prices, t, day)
    ensures var segs := Segments.Observed(p, rows);
            day.imp - day.exp == FieldKwh(segs, 0, |segs|) && day.dis - day.chg == FieldKwh(segs, 1, |segs|)
  {
    var segs := Segments.Observed(p, rows);
    EnergyIsMetered(t, MetersOf(segs, prices), |segs|);
    FieldsAreMetered(segs, prices, |segs|);
  }

  lemma {:induction false} FieldsAreMetered(segs: seq<Segments.Segment>, prices: map<int, real>, n: nat)
    requires n <= |segs| && Bookable(segs)
    ensures NetGrid(MetersOf(segs, prices), n) == FieldKwh(segs, 0, n) && NetBattery(MetersOf(segs, prices), n) == FieldKwh(segs, 1, n)
  {
    if n > 0 { FieldsAreMetered(segs, prices, n - 1); }
  }

  lemma FlatMoneyReports(t: Tariff, l: Ledger, day: Day, raw: real)
    requires FlatMoney(l, ImportPrice(t, raw), ExportCredit(t, raw)) && day.money.Some? && MoneyReports(t, l, day.money.value)
    requires day.imp == l.imp && day.exp == l.exp && day.dis == l.dis
    requires l.pricedMicros != 0 && day.coverage == Ratio(l.pricedMicros, l.observedMicros)
    ensures day.money.value.cost == Times(day.imp, ImportPrice(t, raw)) - Times(day.exp, ExportCredit(t, raw))
    ensures day.money.value.batteryCost == Times(day.dis, t.degradation) && day.coverage == 1.0
  {
    var x := l.observedMicros as real;
    assert x / x == 1.0;
  }

  /** On a day whose quarter-hours all have one price, the money is the reported energies at that price. */
  lemma FlatReport(p: Segments.Params, rows: seq<Segments.Row>, prices: map<int, real>, t: Tariff, day: Day, raw: real)
    requires Reports(p, rows, prices, t, day) && day.money.Some?
    requires forall i :: 0 <= i < |Segments.Observed(p, rows)| ==>
               QuarterOf(Segments.Observed(p, rows)[i].start) in prices && prices[QuarterOf(Segments.Observed(p, rows)[i].start)] == raw
    ensures day.money.value.cost == Times(day.imp, ImportPrice(t, raw)) - Times(day.exp, ExportCredit(t, raw))
    ensures day.money.value.batteryCost == Times(day.dis, t.degradation) && day.coverage == 1.0
  {
    var segs := Segments.Observed(p, rows);
    FlatDayInClosedForm(t, MetersOf(segs, prices), raw, |segs|);
    FlatMoneyReports(t, BookDay(t, segs, prices), day, raw);
  }

  method Finance(p: Segments.Params, rows: seq<Segments.Row>, prices: map<int, real>, t: Tariff) returns (day: Day)
    requires p.fields == 3
    ensures 0.0 <= day.coverage <= 1.0 && 0.0 <= day.sampleCoverage <= 1.0
    ensures Reports(p, rows, prices, t, day)
  {
    var segs := Segments.ObservedSegments(p, rows);
    Segments.ObservedIsChain(p, rows);
    Segments.ObservedHasFields(p, rows);
    var led := EMPTY;
    for i := 0 to |segs|
      invariant led == Book(t, MetersOf(segs, prices), i)
    {
      led := BookSegment(t, led, MeterOf(segs[i], prices));
    }
    CoverageBounds(t, p, rows, prices);
    var coverage := Ratio(led.pricedMicros, led.observedMicros);
    var sampleCoverage := Ratio(led.observedMicros, MaxInt(0, p.end - p.start));
    if led.pricedMicros != 0 {
      var batteryCost := Times(led.disPriced, t.degradation);
      var saved := led.baseCost - led.cost - batteryCost;
      var attributed := led.solarSelfUse + led.avoidedExpensive + led.residual;
      day := Day(true, coverage, sampleCoverage,
                 Some(Money(led.cost, batteryCost, led.baseCost, saved, led.solarSelfUse, led.avoidedExpensive,
                            led.residual + (saved - attributed))),
                 led.imp, led.exp, led.chg, led.dis);
    } else {
      day := Day(segs != [], coverage, sampleCoverage, None, led.imp, led.exp, led.chg, led.dis);
    }
  }

  // --- the window of a day ----------------------------------------------------------------------------

  const NO_DATA := Day(false, 0.0, 0.0, None, 0.0, 0.0, 0.0, 0.0)

  ghost predicate Stamped(rows: seq<Segments.Row>, ts: int) { exists i :: 0 <= i < |rows| && rows[i].ts == Some(ts) }

  function QuarterOf(ts: int): int { ts - ts % Segments.QUARTER }

  /** The latest quarter-hour no stamp lies before. */
  ghost predicate OpensAtFirst(rows: seq<Segments.Row>, start: int) {
    && (forall ts :: Stamped(rows, ts) ==> start <= ts)
    && exists ts :: Stamped(rows, ts) && start == QuarterOf(ts)
  }

  /** The earliest quarter-hour that every stamp lies before. */
  ghost predicate ClosesAfterLast(rows: seq<Segments.Row>, end: int) {
    && (forall ts :: Stamped(rows, ts) ==> ts < end)
    && exists ts :: Stamped(rows, ts) && end == QuarterOf(ts) + Segments.QUARTER
  }

  /** The least and greatest readable stamp of the first n rows. */
  ghost predicate Spanned(rows: seq<Segments.Row>, n: nat, span: Option<(int, int)>)
    requires n <= |rows|
  {
    && (forall i :: 0 <= i < n && rows[i].ts.Some? ==> span.Some? && span.value.0 <= rows[i].ts.value <= span.value.1)
    && (span.Some? ==> Stamped(rows, span.value.0) && Stamped(rows, span.value.1))
  }

  method StampSpan(rows: seq<Segments.Row>) returns (span: Option<(int, int)>)
    ensures Spanned(rows, |rows|, span)
  {
    span := None;
    for n := 0 to |rows|
      invariant Spanned(rows, n, span)
    {
      if rows[n].ts.Some? {
        var ts := rows[n].ts.value;
        span := if span.None? then Some((ts, ts)) else Some((MinInt(span.value.0, ts), MaxInt(span.value.1, ts)));
      }
    }
  }

  lemma SpanGivesWindow(rows: seq<Segments.Row>, span: (int, int))
    requires Spanned(rows, |rows|, Some(span))
    ensures OpensAtFirst(rows, QuarterOf(span.0)) && ClosesAfterLast(rows, QuarterOf(span.1) + Segments.QUARTER)
  {
  }

  /** Each end the caller leaves open is taken from the readable stamps; without any there is no window. */
  method DayWindow(rows: seq<Segments.Row>, start: Option<int>, end: Option<int>) returns (window: Option<(int, int)>)
    ensures window.None? <==> (start.None? || end.None?) && forall ts :: !Stamped(rows, ts)
    ensures window.Some? ==> if start.Some? then window.value.0 == start.value else OpensAtFirst(rows, window.value.0)
    ensures window.Some? ==> if end.Some? then window.value.1 == end.value else ClosesAfterLast(rows, window.value.1)
  {
    var span := StampSpan(rows);
    assert span.Some? <==> exists ts :: Stamped(rows, ts);
    var lo, hi := start, end;
    if span.Some? {
      SpanGivesWindow(rows, span.value);
      if start.None? { lo := Some(QuarterOf(span.value.0)); }
      if end.None? { hi := Some(QuarterOf(span.value.1) + Segments.QUARTER); }
    }
    window := if lo.Some? && hi.Some? then Some((lo.value, hi.value)) else None;
  }

  /** The whole report: an empty one without a window, and otherwise the report of that window. */
  method FinanceOfDay(rows: seq<Segments.Row>, prices: map<int, real>, t: Tariff, start: Option<int>, end: Option<int>,
                      nominal: int, maxHold: Option<int>)
    returns (day: Day, window: Option<(int, int)>)
    ensures window.None? <==> (start.None? || end.None?) && forall ts :: !Stamped(rows, ts)
    ensures window.Some? ==> if start.Some? then window.value.0 == start.value else OpensAtFirst(rows, window.value.0)
    ensures window.Some? ==> if end.Some? then window.value.1 == end.value else ClosesAfterLast(rows, window.value.1)
    ensures if window.None? then day == NO_DATA
            else Reports(Segments.Params(window.value.0, window.value.1, 3, nominal, maxHold), rows, prices, t, day)
  {
    window := DayWindow(rows, start, end);
    if window.None? {
      return NO_DATA, None;
    }
    day := Finance(Segments.Params(window.value.0, window.value.1, 3, nominal, maxHold), rows, prices, t);
  }

  /** A window taken from the stamps leaves no usable row out. */
  lemma DerivedWindowKeepsAll(rows: seq<Segments.Row>, p: Segments.Params, i: nat)
    requires OpensAtFirst(rows, p.start) && ClosesAfterLast(rows, p.end) && i < |rows|
    ensures Segments.Keeps(p, rows[i]) <==> rows[i].ts.Some? && rows[i].values.Some? && |rows[i].values.value| == p.fields
    ensures p.start % Segments.QUARTER == 0 && p.end % Segments.QUARTER == 0 && p.start < p.end
  {
    assert rows[i].ts.Some? ==> Stamped(rows, rows[i].ts.value);
    var first :| Stamped(rows, first) && p.start == QuarterOf(first);
    var last :| Stamped(rows, last) && p.end == QuarterOf(last) + Segments.QUARTER;
    QuarterAligned(first);
    QuarterAligned(last);
  }

  lemma QuarterAligned(ts: int)
    ensures QuarterOf(ts) % Segments.QUARTER == 0 && (QuarterOf(ts) + Segments.QUARTER) % Segments.QUARTER == 0
    ensures QuarterOf(ts) <= ts < QuarterOf(ts) + Segments.QUARTER
  {
    Segments.WholeQuarters(ts / Segments.QUARTER);
    Segments.WholeQuarters(ts / Segments.QUARTER + 1);
  }

  lemma {:induction false} TimeBooked(t: Tariff, segs: seq<Segments.Segment>, prices: map<int, real>, n: nat)
    requires n <= |segs| && Bookable(segs)
    ensures var l := Book(t, MetersOf(segs, prices), n);
            l.observedMicros == Segments.Total(segs[..n]) && 0 <= l.pricedMicros <= l.observedMicros
  {
    if n > 0 {
      TimeBooked(t, segs, prices, n - 1);
      assert segs[..n][..n - 1] == segs[..n - 1];
    }
  }

  lemma RatioIsShare(a: int, b: int)
    requires 0 <= a <= b
    ensures 0.0 <= Ratio(a, b) <= 1.0
  {
    if b > 0 { assert a as real / b as real <= b as real / b as real == 1.0; }
  }

  lemma CoverageBounds(t: Tariff, p: Segments.Params, rows: seq<Segments.Row>, prices: map<int, real>)
    requires Bookable(Segments.Observed(p, rows))
    ensures var l := BookDay(t, Segments.Observed(p, rows), prices);
            0.0 <= Ratio(l.pricedMicros, l.observedMicros) <= 1.0
            && 0.0 <= Ratio(l.observedMicros, MaxInt(0, p.end - p.start)) <= 1.0
  {
    var segs := Segments.Observed(p, rows);
    TimeBooked(t, segs, prices, |segs|);
    assert segs[..|segs|] == segs;
    Segments.ObservedWithinWindow(p, rows);
    var l := Book(t, MetersOf(segs, prices), |segs|);
    RatioIsShare(l.pricedMicros, l.observedMicros);
    RatioIsShare(l.observedMicros, MaxInt(0, p.end - p.start));
  }
}
