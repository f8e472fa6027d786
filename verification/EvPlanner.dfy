/**
 The car-charging planner of ems/ev_planner.py: pricing the usable slots, the greedy itself, its
 per-deadline records and the merging of allocated slots into plug-in windows. Times are UTC seconds;
 the source's 1e-9 tolerances are taken as zero.
*/
module EvPlanner {
  import opened Prelude
  import opened ChargeAllocation
  import opened Sorting

  const SLOT := 900
  const SLOT_HOURS := 0.25

  datatype ExportModel = NetMetering | SpotMinusTax | Fixed

  datatype Tariff = Tariff(model: ExportModel, energyTax: real, fixedFeedIn: real)

  datatype PriceSlot = PriceSlot(start: int, price: real)

  datatype Deadline = Deadline(readyBy: int, minPct: real)

  datatype Car = Car(socPct: real, batteryNetKwh: real, chargeEfficiency: real, powerKw: real)

  datatype Record = Record(
    readyBy: int, minPct: real, requiredKwh: real, plannedKwh: real, pendingKwh: real, shortfallKwh: real,
    alreadyMet: bool, feasible: bool)

  function ExportValue(price: real, tariff: Tariff): real {
    match tariff.model
    case NetMetering => price
    case SpotMinusTax => price - tariff.energyTax
    case Fixed => tariff.fixedFeedIn
  }

  /** battery-kWh delivered by a full slot */
  function SlotKwh(car: Car): real { car.powerKw * SLOT_HOURS * car.chargeEfficiency }

  // --- the problem a call poses -------------------------------------------------------------------

  function PriceOf(raw: PriceSlot, p50: map<int, real>, tariff: Tariff, surplusThreshold: real): Slot {
    var surplus := (if raw.start in p50 then p50[raw.start] else 0.0) >= surplusThreshold;
    Slot(raw.start, if surplus then ExportValue(raw.price, tariff) else raw.price, surplus)
  }

  function UsableSlots(now: int, raws: seq<PriceSlot>, p50: map<int, real>, tariff: Tariff, threshold: real): seq<Slot> {
    if raws == [] then []
    else
      var rest := UsableSlots(now, raws[..|raws| - 1], p50, tariff, threshold);
      var raw := raws[|raws| - 1];
      if raw.start < now then rest else rest + [PriceOf(raw, p50, tariff, threshold)]
  }

  /** The sun counts as surplus at the threshold; a slot without a forecast counts as dark. */
  predicate Sunny(start: int, p50: map<int, real>, threshold: real) {
    if start in p50 then p50[start] >= threshold else threshold <= 0.0
  }

  /** A sunny slot costs what its export would have earned under the tariff, any other slot its sticker price. */
  lemma EffectivePrice(raw: PriceSlot, p50: map<int, real>, tariff: Tariff, threshold: real)
    ensures var s, sunny := PriceOf(raw, p50, tariff, threshold), Sunny(raw.start, p50, threshold);
            && s.start == raw.start && s.surplus == sunny
            && (!sunny || tariff.model.NetMetering? ==> s.eff == raw.price)
            && (sunny && tariff.model.SpotMinusTax? ==> s.eff + tariff.energyTax == raw.price)
            && (sunny && tariff.model.Fixed? ==> s.eff == tariff.fixedFeedIn)
  {
  }

  /** The usable slots are exactly the offered ones that have not started, priced. */
  lemma {:induction false} UsableSlotsAreOffered(now: int, raws: seq<PriceSlot>, p50: map<int, real>, tariff: Tariff, threshold: real, s: Slot)
    ensures s in UsableSlots(now, raws, p50, tariff, threshold)
       <==> exists i :: 0 <= i < |raws| && raws[i].start >= now && s == PriceOf(raws[i], p50, tariff, threshold)
  {
    if raws != [] {
      var front, raw := raws[..|raws| - 1], raws[|raws| - 1];
      UsableSlotsAreOffered(now, front, p50, tariff, threshold, s);
      if i :| 0 <= i < |front| && front[i].start >= now && s == PriceOf(front[i], p50, tariff, threshold) { assert raws[i] == front[i]; }
    }
  }

  predicate EndsBy(s: Slot, readyBy: int) { s.start + SLOT <= readyBy }

  /** How many of the chronological slots end by the deadline: they form a prefix. */
  function Reach(slots: seq<Slot>, readyBy: int): (n: nat)
    ensures n <= |slots|
  {
    if slots == [] || !EndsBy(slots[0], readyBy) then 0 else 1 + Reach(slots[1..], readyBy)
  }

  function Need(car: Car, d: Deadline): real {
    Max(0.0, (d.minPct - car.socPct) / 100.0 * car.batteryNetKwh)
  }

  /** The state of charge in percent with that much more energy in the pack. */
  function PctWith(car: Car, kwh: real): real
    requires car.batteryNetKwh > 0.0
  {
    car.socPct + 100.0 * (kwh / car.batteryNetKwh)
  }

  /** That much more energy meets the minimum of each of the first k deadlines. */
  ghost predicate MeetsAll(car: Car, ds: seq<Deadline>, k: nat, kwh: real)
    requires car.batteryNetKwh > 0.0 && k <= |ds|
  {
    forall j :: 0 <= j < k ==> PctWith(car, kwh) >= ds[j].minPct
  }

  lemma OrderScales(a: real, b: real, c: real)
    requires c > 0.0
    ensures a <= b <==> a * c <= b * c
  {
    var d := b - a;
    assert d * c == b * c - a * c;
    assert d >= 0.0 ==> d * c >= 0.0;
    assert d < 0.0 ==> d * c < 0.0;
  }

  lemma NeedIsExact(car: Car, d: Deadline, kwh: real)
    requires car.batteryNetKwh > 0.0 && kwh >= 0.0
    ensures PctWith(car, kwh) >= d.minPct <==> kwh >= Need(car, d)
  {
    OrderScales((d.minPct - car.socPct) / 100.0, kwh / car.batteryNetKwh, car.batteryNetKwh);
    assert kwh / car.batteryNetKwh * car.batteryNetKwh == kwh;
  }

  /** The binding requirement is the least energy that meets the minimum of every deadline so far. */
  lemma {:induction false} BindingIsLeast(car: Car, ds: seq<Deadline>, k: nat, kwh: real)
    requires car.batteryNetKwh > 0.0 && k <= |ds| && kwh >= 0.0
    ensures MeetsAll(car, ds, k, kwh) <==> kwh >= Binding(car, ds, k) >= 0.0
  {
    if k > 0 {
      BindingIsLeast(car, ds, k - 1, kwh);
      NeedIsExact(car, ds[k - 1], kwh);
    }
  }

  /** The binding requirement R after the first k deadlines. */
  function Binding(car: Car, ds: seq<Deadline>, k: nat): (r: real)
    requires k <= |ds|
    ensures r >= 0.0
  {
    if k == 0 then 0.0 else Max(Binding(car, ds, k - 1), Need(car, ds[k - 1]))
  }

  function Goals(car: Car, slots: seq<Slot>, ds: seq<Deadline>, k: nat): (gs: seq<Goal>)
    requires k <= |ds|
    ensures |gs| == k
    ensures forall i :: 0 <= i < k ==> gs[i] == Goal(Binding(car, ds, i + 1), Reach(slots, ds[i].readyBy))
  {
    if k == 0 then [] else Goals(car, slots, ds, k - 1) + [Goal(Binding(car, ds, k), Reach(slots, ds[k - 1].readyBy))]
  }

  lemma {:induction false} ReachIsExact(slots: seq<Slot>, readyBy: int, i: nat)
    requires SortedBy(slots, (s: Slot) => s.start) && i < |slots|
    ensures slots[i].start + SLOT <= readyBy <==> i < Reach(slots, readyBy)
  {
    if EndsBy(slots[0], readyBy) {
      if i > 0 { ReachIsExact(slots[1..], readyBy, i - 1); }
    } else {
      assert slots[0].start <= slots[i].start;
    }
  }

  lemma {:induction false} ReachMonotone(slots: seq<Slot>, a: int, b: int)
    requires a <= b
    ensures Reach(slots, a) <= Reach(slots, b)
  {
    if slots != [] && EndsBy(slots[0], a) { ReachMonotone(slots[1..], a, b); }
  }

  lemma {:induction false} BindingMonotone(car: Car, ds: seq<Deadline>, j: nat, k: nat)
    requires j <= k <= |ds|
    ensures Binding(car, ds, j) <= Binding(car, ds, k)
    decreases k
  {
    if j < k { BindingMonotone(car, ds, j, k - 1); }
  }

  lemma GoalsAreNested(car: Car, slots: seq<Slot>, ds: seq<Deadline>, k: nat)
    requires k <= |ds| && SortedBy(ds, (d: Deadline) => d.readyBy)
    ensures Nested(Goals(car, slots, ds, k), |slots|)
  {
    var gs := Goals(car, slots, ds, k);
    forall i, j | 0 <= i <= j < k ensures gs[i].need <= gs[j].need && gs[i].reach <= gs[j].reach {
      BindingMonotone(car, ds, i + 1, j + 1);
      assert i == j || ds[i].readyBy <= ds[j].readyBy;
      ReachMonotone(slots, ds[i].readyBy, ds[j].readyBy);
    }
  }

  // --- one deadline -------------------------------------------------------------------------------

  /** Sort key of the candidates: effective price, then start. */
  predicate Precedes(slots: seq<Slot>, i: nat, j: nat)
    requires i < |slots| && j < |slots|
  {
    slots[i].eff < slots[j].eff || (slots[i].eff == slots[j].eff && slots[i].start <= slots[j].start)
  }

  ghost predicate Indices(order: seq<nat>, n: nat) {
    forall a :: 0 <= a < |order| ==> order[a] < n
  }

  function InsertByPrice(slots: seq<Slot>, i: nat, order: seq<nat>): (r: seq<nat>)
    requires i < |slots| && Indices(order, |slots|)
    ensures Indices(r, |slots|)
  {
    if order == [] then [i]
    else if Precedes(slots, i, order[0]) then [i] + order
    else [order[0]] + InsertByPrice(slots, i, order[1..])
  }

  /** Slots among the first k that end in time and still have room, cheapest first. */
  function Candidates(slots: seq<Slot>, x: seq<real>, c: real, readyBy: int, k: nat): (order: seq<nat>)
    requires k <= |slots| == |x|
    ensures Indices(order, |slots|)
  {
    if k == 0 then []
    else
      var order := Candidates(slots, x, c, readyBy, k - 1);
      if EndsBy(slots[k - 1], readyBy) && c - x[k - 1] > 0.0 then InsertByPrice(slots, k - 1, order) else order
  }

  ghost predicate PriceOrdered(slots: seq<Slot>, order: seq<nat>) {
    && Indices(order, |slots|)
    && (forall a, b :: 0 <= a < b < |order| ==> order[a] != order[b] && Precedes(slots, order[a], order[b]))
  }

  lemma Prepend(slots: seq<Slot>, i: nat, order: seq<nat>)
    requires i < |slots| && PriceOrdered(slots, order)
    requires forall a :: 0 <= a < |order| ==> order[a] != i && Precedes(slots, i, order[a])
    ensures PriceOrdered(slots, [i] + order)
  {
    var grown := [i] + order;
    assert forall a :: 0 < a < |grown| ==> grown[a] == order[a - 1];
  }

  lemma {:induction false} InsertElements(slots: seq<Slot>, i: nat, order: seq<nat>, j: nat)
    requires i < |slots| && Indices(order, |slots|)
    ensures j in InsertByPrice(slots, i, order) <==> j == i || j in order
  {
    if order != [] && !Precedes(slots, i, order[0]) {
      assert order == [order[0]] + order[1..];
      InsertElements(slots, i, order[1..], j);
    }
  }

  lemma {:induction false} InsertKeepsPriceOrder(slots: seq<Slot>, i: nat, order: seq<nat>)
    requires i < |slots| && i !in order && PriceOrdered(slots, order)
    ensures PriceOrdered(slots, InsertByPrice(slots, i, order))
    decreases |order|, 0
  {
    if order == [] {
    } else if Precedes(slots, i, order[0]) {
      assert forall a :: 0 <= a < |order| ==> order[a] in order && Precedes(slots, i, order[a]);
      Prepend(slots, i, order);
    } else {
      InsertBehind(slots, i, order[0], order[1..], order);
    }
  }

  lemma {:induction false} InsertBehind(slots: seq<Slot>, i: nat, first: nat, tail: seq<nat>, order: seq<nat>)
    requires i < |slots| && first < |slots| && Indices(tail, |slots|) && !Precedes(slots, i, first)
    requires order == [first] + tail && i !in order && PriceOrdered(slots, order)
    ensures PriceOrdered(slots, [first] + InsertByPrice(slots, i, tail))
    decreases |tail|, 1
  {
    assert forall a :: 0 <= a < |tail| ==> tail[a] == order[a + 1];
    var rest := InsertByPrice(slots, i, tail);
    InsertKeepsPriceOrder(slots, i, tail);
    forall a | 0 <= a < |rest| ensures rest[a] != first && Precedes(slots, first, rest[a]) {
      assert rest[a] in rest && order[0] == first;
      InsertElements(slots, i, tail, rest[a]);
      if rest[a] in tail {
        var b :| 0 <= b < |tail| && tail[b] == rest[a];
        assert order[b + 1] == rest[a];
      } else {
        assert first in order;
      }
    }
    Prepend(slots, first, rest);
  }

  lemma {:induction false} CandidatesAre(slots: seq<Slot>, x: seq<real>, c: real, readyBy: int, k: nat, j: nat)
    requires k <= |slots| == |x|
    ensures j in Candidates(slots, x, c, readyBy, k) <==> j < k && EndsBy(slots[j], readyBy) && c - x[j] > 0.0
  {
    if k > 0 {
      CandidatesAre(slots, x, c, readyBy, k - 1, j);
      if EndsBy(slots[k - 1], readyBy) && c - x[k - 1] > 0.0 {
        InsertElements(slots, k - 1, Candidates(slots, x, c, readyBy, k - 1), j);
      }
    }
  }

  lemma {:induction false} CandidatesAreOrdered(slots: seq<Slot>, x: seq<real>, c: real, readyBy: int, k: nat)
    requires k <= |slots| == |x|
    ensures PriceOrdered(slots, Candidates(slots, x, c, readyBy, k))
    ensures forall j: nat :: j in Candidates(slots, x, c, readyBy, k) <==> j < k && slots[j].start + SLOT <= readyBy && c - x[j] > 0.0
    ensures var order := Candidates(slots, x, c, readyBy, k);
            forall a, b :: 0 <= a < b < |order| ==>
              var s, t := slots[order[a]], slots[order[b]];
              s.eff < t.eff || (s.eff == t.eff && s.start <= t.start)
  {
    if k > 0 {
      CandidatesAreOrdered(slots, x, c, readyBy, k - 1);
      if EndsBy(slots[k - 1], readyBy) && c - x[k - 1] > 0.0 {
        InsertKeepsPriceOrder(slots, k - 1, Candidates(slots, x, c, readyBy, k - 1));
      }
    }
    forall j: nat ensures j in Candidates(slots, x, c, readyBy, k) <==> j < k && EndsBy(slots[j], readyBy) && c - x[j] > 0.0 {
      CandidatesAre(slots, x, c, readyBy, k, j);
    }
  }

  lemma CandidateAt(slots: seq<Slot>, x: seq<real>, c: real, readyBy: int, order: seq<nat>, a: nat)
    requires |x| == |slots| && order == Candidates(slots, x, c, readyBy, |slots|) && SortedBy(slots, (s: Slot) => s.start)
    requires a < |order|
    ensures order[a] < Reach(slots, readyBy) <= |slots| && x[order[a]] < c
    ensures forall b :: 0 <= b < |order| && b != a ==> order[b] != order[a]
  {
    CandidatesAreOrdered(slots, x, c, readyBy, |slots|);
    assert order[a] in order;
    ReachIsExact(slots, readyBy, order[a]);
  }

  /** Every slot holding energy names an instant it ends by, and only those do. */
  ghost predicate Tagged(slots: seq<Slot>, x: seq<real>, servedBy: seq<Option<int>>) {
    && |slots| == |x| == |servedBy|
    && (forall s :: 0 <= s < |x| ==> (x[s] > 0.0 <==> servedBy[s].Some?))
    && (forall s :: 0 <= s < |x| && servedBy[s].Some? ==> EndsBy(slots[s], servedBy[s].value))
  }

  /** The inner loop after k candidates: all of them full but possibly the last, the rest untouched. */
  ghost predicate Filling(slots: seq<Slot>, x0: seq<real>, x: seq<real>, c: real, order: seq<nat>, k: nat, remaining: real) {
    && |x0| == |x| == |slots| && k <= |order| && Indices(order, |slots|)
    && WithinSlots(x, c)
    && (forall s :: 0 <= s < |slots| ==> x0[s] <= x[s])
    && (forall s: nat :: s < |slots| && s !in order ==> x[s] == x0[s])
    && (forall a :: k <= a < |order| ==> x[order[a]] == x0[order[a]])
    && (forall a :: 0 <= a < k && (a + 1 < k || remaining > 0.0) ==> x[order[a]] == c)
  }

  lemma FillingStep(slots: seq<Slot>, x0: seq<real>, x: seq<real>, c: real, order: seq<nat>, k: nat, remaining: real, take: real)
    requires Filling(slots, x0, x, c, order, k, remaining) && k < |order| && remaining > 0.0
    requires forall b :: 0 <= b < |order| && b != k ==> order[b] != order[k]
    requires take == Min(c - x[order[k]], remaining)
    ensures Filling(slots, x0, x[order[k] := x[order[k]] + take], c, order, k + 1, remaining - take)
  {
  }

  ghost predicate TagsKept(x0: seq<real>, x: seq<real>, served0: seq<Option<int>>, servedBy: seq<Option<int>>, readyBy: int) {
    && |x0| == |x| == |served0| == |servedBy|
    && forall s :: 0 <= s < |x| ==>
         servedBy[s] == if x[s] > x0[s] && served0[s].None? then Some(readyBy) else served0[s]
  }

  function TagIfUnset(servedBy: seq<Option<int>>, s: nat, readyBy: int): seq<Option<int>>
    requires s < |servedBy|
  {
    if servedBy[s].None? then servedBy[s := Some(readyBy)] else servedBy
  }

  lemma TagsStep(x0: seq<real>, x: seq<real>, served0: seq<Option<int>>, servedBy: seq<Option<int>>, readyBy: int, s: nat, take: real)
    requires TagsKept(x0, x, served0, servedBy, readyBy)
    requires s < |x| && x[s] == x0[s] && take > 0.0
    ensures TagsKept(x0, x[s := x[s] + take], served0, TagIfUnset(servedBy, s, readyBy), readyBy)
  {
  }

  /** The inner loop's whole state after k candidates. */
  ghost predicate Filled(slots: seq<Slot>, x0: seq<real>, x: seq<real>, served0: seq<Option<int>>, servedBy: seq<Option<int>>,
                         c: real, readyBy: int, deficit: real, planned: real, order: seq<nat>, k: nat) {
    && Filling(slots, x0, x, c, order, k, deficit - planned)
    && TagsKept(x0, x, served0, servedBy, readyBy)
    && 0.0 <= planned <= deficit && (planned == 0.0 ==> x == x0)
    && Placed(x, Reach(slots, readyBy)) == Placed(x0, Reach(slots, readyBy)) + planned
  }

  /** The next candidate is untouched, in reach and not full, and appears once. */
  lemma NextCandidate(slots: seq<Slot>, x0: seq<real>, x: seq<real>, c: real, readyBy: int, order: seq<nat>, k: nat, remaining: real)
    requires Filling(slots, x0, x, c, order, k, remaining) && order == Candidates(slots, x0, c, readyBy, |slots|)
    requires k < |order| && SortedBy(slots, (s: Slot) => s.start)
    ensures order[k] < Reach(slots, readyBy) <= |slots| == |x| && x[order[k]] == x0[order[k]] < c
    ensures forall b :: 0 <= b < |order| && b != k ==> order[b] != order[k]
  {
    CandidateAt(slots, x0, c, readyBy, order, k);
  }

  lemma PlacedByStep(slots: seq<Slot>, x0: seq<real>, x: seq<real>, c: real, readyBy: int, deficit: real, planned: real,
                     order: seq<nat>, k: nat, take: real)
    requires Filling(slots, x0, x, c, order, k, deficit - planned) && order == Candidates(slots, x0, c, readyBy, |slots|)
    requires k < |order| && SortedBy(slots, (s: Slot) => s.start)
    requires take == Min(c - x[order[k]], deficit - planned) && 0.0 <= planned < deficit
    requires Placed(x, Reach(slots, readyBy)) == Placed(x0, Reach(slots, readyBy)) + planned
    ensures 0.0 < planned + take <= deficit
    ensures Placed(x[order[k] := x[order[k]] + take], Reach(slots, readyBy)) == Placed(x0, Reach(slots, readyBy)) + (planned + take)
  {
    NextCandidate(slots, x0, x, c, readyBy, order, k, deficit - planned);
    PlacedUpdate(x, order[k], x[order[k]] + take, Reach(slots, readyBy));
  }

  lemma TaggedByStep(slots: seq<Slot>, x0: seq<real>, x: seq<real>, served0: seq<Option<int>>, servedBy: seq<Option<int>>,
                     c: real, readyBy: int, order: seq<nat>, k: nat, remaining: real, take: real)
    requires Filling(slots, x0, x, c, order, k, remaining) && order == Candidates(slots, x0, c, readyBy, |slots|)
    requires k < |order| && SortedBy(slots, (s: Slot) => s.start) && TagsKept(x0, x, served0, servedBy, readyBy)
    requires take == Min(c - x[order[k]], remaining) && remaining > 0.0
    ensures TagsKept(x0, x[order[k] := x[order[k]] + take], served0, TagIfUnset(servedBy, order[k], readyBy), readyBy)
  {
    NextCandidate(slots, x0, x, c, readyBy, order, k, remaining);
    TagsStep(x0, x, served0, servedBy, readyBy, order[k], take);
  }

  lemma FilledByStep(slots: seq<Slot>, x0: seq<real>, x: seq<real>, c: real, readyBy: int, order: seq<nat>, k: nat, remaining: real, take: real)
    requires Filling(slots, x0, x, c, order, k, remaining) && order == Candidates(slots, x0, c, readyBy, |slots|)
    requires k < |order| && SortedBy(slots, (s: Slot) => s.start)
    requires take == Min(c - x[order[k]], remaining) && remaining > 0.0
    ensures Filling(slots, x0, x[order[k] := x[order[k]] + take], c, order, k + 1, remaining - take)
  {
    NextCandidate(slots, x0, x, c, readyBy, order, k, remaining);
    FillingStep(slots, x0, x, c, order, k, remaining, take);
  }

  lemma FilledStep(slots: seq<Slot>, x0: seq<real>, x: seq<real>, served0: seq<Option<int>>, servedBy: seq<Option<int>>,
                   c: real, readyBy: int, deficit: real, planned: real, order: seq<nat>, k: nat, take: real)
    requires Filled(slots, x0, x, served0, servedBy, c, readyBy, deficit, planned, order, k)
    requires k < |order| && planned < deficit && order == Candidates(slots, x0, c, readyBy, |slots|)
    requires SortedBy(slots, (s: Slot) => s.start)
    requires take == Min(c - x[order[k]], deficit - planned)
    ensures Filled(slots, x0, x[order[k] := x[order[k]] + take], served0, TagIfUnset(servedBy, order[k], readyBy),
                   c, readyBy, deficit, planned + take, order, k + 1)
  {
    FilledByStep(slots, x0, x, c, readyBy, order, k, deficit - planned, take);
    TaggedByStep(slots, x0, x, served0, servedBy, c, readyBy, order, k, deficit - planned, take);
    PlacedByStep(slots, x0, x, c, readyBy, deficit, planned, order, k, take);
    assert deficit - planned - take == deficit - (planned + take);
  }

  /** The inner loop: spend the deficit on the candidates, cheapest first, the last one fractionally. */
  method FillCheapest(slots: seq<Slot>, x0: seq<real>, served0: seq<Option<int>>, c: real, readyBy: int, deficit: real)
    returns (x: seq<real>, servedBy: seq<Option<int>>, planned: real)
    requires SortedBy(slots, (s: Slot) => s.start) && Tagged(slots, x0, served0)
    requires WithinSlots(x0, c) && deficit >= 0.0
    ensures Round(slots, c, x0, x, Reach(slots, readyBy), deficit, planned)
    ensures Tagged(slots, x, servedBy) && TagsKept(x0, x, served0, servedBy, readyBy)
    ensures planned >= 0.0 && (planned == 0.0 ==> x == x0)
  {
    var order := Candidates(slots, x0, c, readyBy, |slots|);
    x, servedBy, planned := x0, served0, 0.0;
    var k := 0;
    FilledStart(slots, x0, served0, c, readyBy, deficit, order);
    while k < |order| && planned < deficit
      invariant k <= |order| && Filled(slots, x0, x, served0, servedBy, c, readyBy, deficit, planned, order, k)
    {
      x, servedBy, planned := FillOne(slots, x0, x, served0, servedBy, c, readyBy, deficit, planned, order, k);
      k := k + 1;
    }
    FilledEnd(slots, x0, x, served0, servedBy, c, readyBy, deficit, planned, order, k);
  }

  /** One candidate topped up: as much as it has room for, or as the deficit still asks. */
  method FillOne(slots: seq<Slot>, ghost x0: seq<real>, x1: seq<real>, ghost served0: seq<Option<int>>, served1: seq<Option<int>>,
                 c: real, readyBy: int, deficit: real, planned1: real, order: seq<nat>, k: nat)
    returns (x: seq<real>, servedBy: seq<Option<int>>, planned: real)
    requires Filled(slots, x0, x1, served0, served1, c, readyBy, deficit, planned1, order, k)
    requires k < |order| && planned1 < deficit && order == Candidates(slots, x0, c, readyBy, |slots|)
    requires SortedBy(slots, (s: Slot) => s.start)
    ensures Filled(slots, x0, x, served0, servedBy, c, readyBy, deficit, planned, order, k + 1)
  {
    var s := order[k];
    var take := Min(c - x1[s], deficit - planned1);
    FilledStep(slots, x0, x1, served0, served1, c, readyBy, deficit, planned1, order, k, take);
    x, servedBy, planned := x1[s := x1[s] + take], TagIfUnset(served1, s, readyBy), planned1 + take;
  }

  lemma FilledStart(slots: seq<Slot>, x0: seq<real>, served0: seq<Option<int>>, c: real, readyBy: int, deficit: real, order: seq<nat>)
    requires Tagged(slots, x0, served0) && WithinSlots(x0, c) && deficit >= 0.0
    requires order == Candidates(slots, x0, c, readyBy, |slots|)
    ensures Filled(slots, x0, x0, served0, served0, c, readyBy, deficit, 0.0, order, 0)
  {
    CandidatesAreOrdered(slots, x0, c, readyBy, |slots|);
  }

  lemma FilledEnd(slots: seq<Slot>, x0: seq<real>, x: seq<real>, served0: seq<Option<int>>, servedBy: seq<Option<int>>,
                  c: real, readyBy: int, deficit: real, planned: real, order: seq<nat>, k: nat)
    requires Filled(slots, x0, x, served0, servedBy, c, readyBy, deficit, planned, order, k)
    requires order == Candidates(slots, x0, c, readyBy, |slots|) && (k == |order| || planned >= deficit)
    requires SortedBy(slots, (s: Slot) => s.start) && Tagged(slots, x0, served0) && WithinSlots(x0, c)
    ensures Round(slots, c, x0, x, Reach(slots, readyBy), deficit, planned) && Tagged(slots, x, servedBy)
  {
    FillingIsRound(slots, x0, x, c, readyBy, deficit, planned, order, k);
    FillingIsTagged(slots, x0, x, c, readyBy, served0, servedBy, order, k, deficit - planned);
  }

  lemma FillingIsTagged(slots: seq<Slot>, x0: seq<real>, x: seq<real>, c: real, readyBy: int,
                        served0: seq<Option<int>>, servedBy: seq<Option<int>>, order: seq<nat>, k: nat, remaining: real)
    requires Filling(slots, x0, x, c, order, k, remaining) && order == Candidates(slots, x0, c, readyBy, |slots|)
    requires Tagged(slots, x0, served0) && |servedBy| == |slots| && TagsKept(x0, x, served0, servedBy, readyBy)
    requires WithinSlots(x0, c)
    ensures Tagged(slots, x, servedBy)
  {
    CandidatesAreOrdered(slots, x0, c, readyBy, |slots|);
    forall s: nat | s < |x| && x[s] > x0[s] ensures EndsBy(slots[s], readyBy) {
      assert s in order;
    }
  }

  lemma FilledToTheBrim(slots: seq<Slot>, x0: seq<real>, x: seq<real>, c: real, readyBy: int, order: seq<nat>, remaining: real, s: nat)
    requires Filling(slots, x0, x, c, order, |order|, remaining) && order == Candidates(slots, x0, c, readyBy, |slots|)
    requires remaining > 0.0 && WithinSlots(x0, c) && s < Reach(slots, readyBy) && SortedBy(slots, (s: Slot) => s.start)
    ensures x[s] == c
  {
    ReachIsExact(slots, readyBy, s);
    CandidatesAreOrdered(slots, x0, c, readyBy, |slots|);
    if s in order {
      var a :| 0 <= a < |order| && order[a] == s;
    } else {
      assert x[s] == x0[s] == c;
    }
  }

  /** The candidates run out only when every slot in reach is full. */
  lemma FillingPlaces(slots: seq<Slot>, x0: seq<real>, x: seq<real>, c: real, readyBy: int, deficit: real, planned: real,
                      order: seq<nat>, k: nat)
    requires Filling(slots, x0, x, c, order, k, deficit - planned) && order == Candidates(slots, x0, c, readyBy, |slots|)
    requires SortedBy(slots, (s: Slot) => s.start) && WithinSlots(x0, c)
    requires Placed(x, Reach(slots, readyBy)) == Placed(x0, Reach(slots, readyBy)) + planned
    requires planned <= deficit && (k == |order| || planned == deficit)
    ensures planned == Min(deficit, Capacity(c, Reach(slots, readyBy)) - Placed(x0, Reach(slots, readyBy)))
  {
    var n := Reach(slots, readyBy);
    PlacedBound(x, c, n);
    if planned < deficit {
      forall s: nat | s < n ensures x[s] == c {
        FilledToTheBrim(slots, x0, x, c, readyBy, order, deficit - planned, s);
      }
      PlacedFull(x, c, n);
    }
  }

  lemma BeyondReachUntouched(slots: seq<Slot>, x0: seq<real>, x: seq<real>, c: real, readyBy: int, order: seq<nat>, k: nat, remaining: real, s: nat)
    requires Filling(slots, x0, x, c, order, k, remaining) && order == Candidates(slots, x0, c, readyBy, |slots|)
    requires SortedBy(slots, (s: Slot) => s.start) && Reach(slots, readyBy) <= s < |slots|
    ensures x[s] == x0[s]
  {
    ReachIsExact(slots, readyBy, s);
    CandidatesAreOrdered(slots, x0, c, readyBy, |slots|);
  }

  lemma FillingIsRound(slots: seq<Slot>, x0: seq<real>, x: seq<real>, c: real, readyBy: int, deficit: real, planned: real,
                       order: seq<nat>, k: nat)
    requires Filling(slots, x0, x, c, order, k, deficit - planned) && order == Candidates(slots, x0, c, readyBy, |slots|)
    requires SortedBy(slots, (s: Slot) => s.start) && WithinSlots(x0, c)
    requires Placed(x, Reach(slots, readyBy)) == Placed(x0, Reach(slots, readyBy)) + planned
    requires planned <= deficit && (k == |order| || planned == deficit)
    ensures Round(slots, c, x0, x, Reach(slots, readyBy), deficit, planned)
  {
    FilledCheapestFirst(slots, x0, x, c, readyBy, order, k, deficit - planned);
    FillingPlaces(slots, x0, x, c, readyBy, deficit, planned, order, k);
    forall s: nat | Reach(slots, readyBy) <= s < |slots| ensures x[s] == x0[s] {
      BeyondReachUntouched(slots, x0, x, c, readyBy, order, k, deficit - planned, s);
    }
  }

  lemma FilledCheapestFirst(slots: seq<Slot>, x0: seq<real>, x: seq<real>, c: real, readyBy: int, order: seq<nat>, k: nat, remaining: real)
    requires Filling(slots, x0, x, c, order, k, remaining) && order == Candidates(slots, x0, c, readyBy, |slots|)
    requires SortedBy(slots, (s: Slot) => s.start)
    ensures CheapestFirst(slots, c, x0, x, Reach(slots, readyBy))
  {
    var n := Reach(slots, readyBy);
    CandidatesAreOrdered(slots, x0, c, readyBy, |slots|);
    forall s: nat, u: nat | s < n && u < n && x[s] > x0[s] && x[u] < c ensures slots[s].eff <= slots[u].eff {
      ReachIsExact(slots, readyBy, u);
      FilledBefore(slots, x0, x, c, order, k, remaining, s, u);
    }
  }

  /** Of two candidates, the one topped up comes no later than the one left with room. */
  lemma FilledBefore(slots: seq<Slot>, x0: seq<real>, x: seq<real>, c: real, order: seq<nat>, k: nat, remaining: real, s: nat, u: nat)
    requires Filling(slots, x0, x, c, order, k, remaining) && PriceOrdered(slots, order)
    requires s < |slots| && u < |slots| && x[s] > x0[s] && x[u] < c && u in order
    ensures slots[s].eff <= slots[u].eff
  {
    assert s in order;
    var a :| 0 <= a < |order| && order[a] == s;
    var b :| 0 <= b < |order| && order[b] == u;
    assert a <= b;
  }

  // --- the whole allocation -------------------------------------------------------------------------

  function FullSlot(car: Car): real { Max(0.0, SlotKwh(car)) }

  /** Coverage of the first k goals: min(R, c * slots in reach). */
  function CoveredBy(car: Car, slots: seq<Slot>, ds: seq<Deadline>, k: nat): real
    requires k <= |ds|
  {
    LastCovered(Goals(car, slots, ds, k), FullSlot(car))
  }

  function Deliverable(car: Car, now: int, readyBy: int): real {
    Max(0.0, (readyBy - now) as real / 3600.0) * car.powerKw * car.chargeEfficiency
  }

  /** The k-th deadline record in closed form: no reference to the order in which slots were filled. */
  ghost predicate RecordClosedForm(car: Car, now: int, slots: seq<Slot>, ds: seq<Deadline>, k: nat, r: Record)
    requires k < |ds|
  {
    var R := Binding(car, ds, k + 1);
    && r.readyBy == ds[k].readyBy && r.minPct == ds[k].minPct
    && r.plannedKwh == CoveredBy(car, slots, ds, k + 1) - CoveredBy(car, slots, ds, k)
    && r.requiredKwh == R - CoveredBy(car, slots, ds, k)
    && r.pendingKwh == Max(0.0, R - Capacity(FullSlot(car), Reach(slots, ds[k].readyBy)))
    && r.shortfallKwh == Max(0.0, R - Deliverable(car, now, ds[k].readyBy))
    && (r.alreadyMet <==> Need(car, ds[k]) <= 0.0)
    && (r.feasible <==> r.shortfallKwh <= 0.0)
  }

  /** Energy held by the slots, among the first n, that end by the deadline. */
  function EnergyBy(slots: seq<Slot>, x: seq<real>, readyBy: int, n: nat): real
    requires n <= |slots| == |x|
  {
    if n == 0 then 0.0 else EnergyBy(slots, x, readyBy, n - 1) + if EndsBy(slots[n - 1], readyBy) then x[n - 1] else 0.0
  }

  lemma {:induction false} EnergyByIsPlaced(slots: seq<Slot>, x: seq<real>, readyBy: int, n: nat)
    requires n <= |slots| == |x| && SortedBy(slots, (s: Slot) => s.start)
    ensures EnergyBy(slots, x, readyBy, n) == Placed(x, if n <= Reach(slots, readyBy) then n else Reach(slots, readyBy))
  {
    if n > 0 {
      EnergyByIsPlaced(slots, x, readyBy, n - 1);
      ReachIsExact(slots, readyBy, n - 1);
    }
  }

  /**
   * What a record promises the driver: nothing is pending exactly when the energy charged by the deadline
   * meets every minimum so far, and the deadline is already met exactly when the car is at its minimum now.
   */
  ghost predicate RecordMeans(car: Car, now: int, slots: seq<Slot>, x: seq<real>, ds: seq<Deadline>, k: nat, r: Record)
    requires k < |ds| && |x| == |slots|
  {
    car.batteryNetKwh > 0.0 ==>
      && (r.pendingKwh == 0.0 <==> MeetsAll(car, ds, k + 1, EnergyBy(slots, x, ds[k].readyBy, |slots|)))
      && (r.alreadyMet <==> car.socPct >= ds[k].minPct)
      && (car.powerKw * car.chargeEfficiency >= 0.0 ==>
            (r.feasible <==> MeetsAll(car, ds, k + 1, Deliverable(car, now, ds[k].readyBy))))
  }

  lemma RecordIsHonest(car: Car, now: int, slots: seq<Slot>, x: seq<real>, ds: seq<Deadline>, k: nat, r: Record)
    requires k < |ds| && OptimalPlan(car, slots, ds, x) && RecordClosedForm(car, now, slots, ds, k, r)
    requires SortedBy(slots, (s: Slot) => s.start)
    ensures RecordMeans(car, now, slots, x, ds, k, r)
  {
    if car.batteryNetKwh > 0.0 {
      var n := Reach(slots, ds[k].readyBy);
      EnergyByIsPlaced(slots, x, ds[k].readyBy, |slots|);
      PlacedBound(x, FullSlot(car), n);
      PlacedCoversGoal(car, slots, ds, x, k);
      BindingIsLeast(car, ds, k + 1, Placed(x, n));
      NeedIsExact(car, ds[k], 0.0);
      assert PctWith(car, 0.0) == car.socPct;
      if car.powerKw * car.chargeEfficiency >= 0.0 {
        DeliverableNonNegative(car, now, ds[k].readyBy);
        BindingIsLeast(car, ds, k + 1, Deliverable(car, now, ds[k].readyBy));
      }
    }
  }

  lemma PlacedCoversGoal(car: Car, slots: seq<Slot>, ds: seq<Deadline>, x: seq<real>, k: nat)
    requires k < |ds| && OptimalPlan(car, slots, ds, x)
    ensures Placed(x, Reach(slots, ds[k].readyBy)) >= Min(Binding(car, ds, k + 1), Capacity(FullSlot(car), Reach(slots, ds[k].readyBy)))
  {
    GoalAt(car, slots, ds, |ds|, k);
  }

  lemma {:induction false} GoalAt(car: Car, slots: seq<Slot>, ds: seq<Deadline>, n: nat, k: nat)
    requires k < n <= |ds|
    ensures Goals(car, slots, ds, n)[k] == Goal(Binding(car, ds, k + 1), Reach(slots, ds[k].readyBy))
  {
  }

  lemma DeliverableNonNegative(car: Car, now: int, readyBy: int)
    requires car.powerKw * car.chargeEfficiency >= 0.0
    ensures Deliverable(car, now, readyBy) >= 0.0
  {
    var hours := Max(0.0, (readyBy - now) as real / 3600.0);
    Regroup(hours, car.powerKw, car.chargeEfficiency);
    ProductNonNegative(hours, car.powerKw * car.chargeEfficiency);
  }

  /** Charging on without a break delivers one full slot every quarter-hour, and nothing before now. */
  lemma DeliverableIsFullSlots(car: Car, now: int, n: nat, readyBy: int)
    ensures Deliverable(car, now, now + SLOT * n) == Capacity(SlotKwh(car), n)
    ensures readyBy <= now ==> Deliverable(car, now, readyBy) == 0.0
  {
    var rate, hours := car.powerKw * car.chargeEfficiency, (SLOT * n) as real / 3600.0;
    assert (SLOT * n) as real == 900.0 * (n as real);
    assert hours == SLOT_HOURS * (n as real);
    CapacityIsProduct(SlotKwh(car), n);
    RateTimesHours(car.powerKw, car.chargeEfficiency);
    Regroup(hours, car.powerKw, car.chargeEfficiency);
    Regroup(rate, SLOT_HOURS, n as real);
    assert hours * rate == rate * (SLOT_HOURS * (n as real));
    assert now + SLOT * n - now == SLOT * n;
  }

  /** A full slot draws a quarter-hour of the charger's power, and no allocated slot draws more. */
  lemma SlotsDrawWithinPower(car: Car, x: seq<real>, i: nat)
    requires car.chargeEfficiency > 0.0 && car.powerKw >= 0.0 && WithinSlots(x, FullSlot(car)) && i < |x|
    ensures Ac(SlotKwh(car), car.chargeEfficiency) == car.powerKw * SLOT_HOURS
    ensures 0.0 <= Ac(x[i], car.chargeEfficiency) <= car.powerKw * SLOT_HOURS
  {
    ProductNonNegative(car.powerKw * SLOT_HOURS, car.chargeEfficiency);
    assert 0.0 <= x[i] <= FullSlot(car) == SlotKwh(car);
    DrawWithin(car.powerKw * SLOT_HOURS, car.chargeEfficiency, x[i]);
    DrawWithin(car.powerKw * SLOT_HOURS, car.chargeEfficiency, SlotKwh(car));
  }

  lemma DrawWithin(full: real, eta: real, kwh: real)
    requires eta > 0.0 && 0.0 <= kwh <= full * eta
    ensures 0.0 <= Ac(kwh, eta) <= full && (kwh == full * eta ==> Ac(kwh, eta) == full)
  {
    var ac := kwh / eta;
    assert ac * eta == kwh;
    OrderScales(ac, full, eta);
    OrderScales(full, ac, eta);
    OrderScales(0.0, ac, eta);
  }

  /** The chronological working set the planner prices. */
  function WorkingSet(now: int, raws: seq<PriceSlot>, p50: map<int, real>, tariff: Tariff, threshold: real): seq<Slot> {
    Sort(UsableSlots(now, raws, p50, tariff, threshold), (s: Slot) => s.start)
  }

  method BuildStates(now: int, raws: seq<PriceSlot>, p50: map<int, real>, tariff: Tariff, threshold: real)
    returns (slots: seq<Slot>)
    ensures slots == WorkingSet(now, raws, p50, tariff, threshold)
  {
    slots := [];
    for i := 0 to |raws|
      invariant slots == UsableSlots(now, raws[..i], p50, tariff, threshold)
    {
      assert raws[..i + 1][..i] == raws[..i];
      if raws[i].start >= now {
        slots := slots + [PriceOf(raws[i], p50, tariff, threshold)];
      }
    }
    assert raws[..|raws|] == raws;
    slots := Sort(slots, (s: Slot) => s.start);
  }

  ghost predicate CostOptimal(slots: seq<Slot>, c: real, goals: seq<Goal>, x: seq<real>)
    requires |x| == |slots| && Nested(goals, |slots|)
  {
    forall y: seq<real> :: |y| == |slots| && Feasible(y, c, goals) ==> Cost(slots, x, |slots|) <= Cost(slots, y, |slots|)
  }

  /** Meets every deadline as far as its slots allow, charges nothing more, and nothing that does so is cheaper. */
  ghost predicate OptimalPlan(car: Car, slots: seq<Slot>, ds: seq<Deadline>, x: seq<real>) {
    var goals := Goals(car, slots, ds, |ds|);
    && |x| == |slots| && Nested(goals, |slots|)
    && Feasible(x, FullSlot(car), goals)
    && CostOptimal(slots, FullSlot(car), goals, x)
  }

  /** The instant is one of the first k deadlines, and that deadline was given energy. */
  ghost predicate GivenEnergy(car: Car, slots: seq<Slot>, ds: seq<Deadline>, k: nat, readyBy: int)
    requires k <= |ds|
  {
    exists j :: 0 <= j < k && ds[j].readyBy == readyBy && CoveredBy(car, slots, ds, j) < CoveredBy(car, slots, ds, j + 1)
  }

  /** Every tag is the ready-by time of a deadline, among the first k, that was given energy. */
  ghost predicate TagsAreServed(car: Car, slots: seq<Slot>, ds: seq<Deadline>, k: nat, servedBy: seq<Option<int>>)
    requires k <= |ds|
  {
    forall s :: 0 <= s < |servedBy| && servedBy[s].Some? ==> GivenEnergy(car, slots, ds, k, servedBy[s].value)
  }

  lemma TagsStayServed(car: Car, slots: seq<Slot>, ds: seq<Deadline>, k: nat, x0: seq<real>, x: seq<real>,
                       served0: seq<Option<int>>, servedBy: seq<Option<int>>, planned: real)
    requires k < |ds| && TagsAreServed(car, slots, ds, k, served0) && TagsKept(x0, x, served0, servedBy, ds[k].readyBy)
    requires CoveredBy(car, slots, ds, k) + planned == CoveredBy(car, slots, ds, k + 1)
    requires planned >= 0.0 && (planned == 0.0 ==> x == x0)
    ensures TagsAreServed(car, slots, ds, k + 1, servedBy)
  {
    forall s | 0 <= s < |servedBy| && servedBy[s].Some? ensures GivenEnergy(car, slots, ds, k + 1, servedBy[s].value) {
      if served0[s].Some? {
        assert GivenEnergy(car, slots, ds, k, served0[s].value);
      }
    }
  }

  /** The outer loop's state after k deadlines. */
  ghost predicate Served(car: Car, now: int, slots: seq<Slot>, ds: seq<Deadline>, k: nat, x: seq<real>,
                         servedBy: seq<Option<int>>, placed: real, running: real, records: seq<Record>, level: seq<real>)
    requires k <= |ds|
  {
    var gs := Goals(car, slots, ds, k);
    && Tagged(slots, x, servedBy) && TagsAreServed(car, slots, ds, k, servedBy)
    && running == Binding(car, ds, k) && placed == CoveredBy(car, slots, ds, k)
    && Nested(gs, |slots|) && Certificate(slots, FullSlot(car), gs, x, level)
    && |records| == k && forall j :: 0 <= j < k ==> RecordClosedForm(car, now, slots, ds, j, records[j])
  }

  method ServeDeadline(car: Car, now: int, slots: seq<Slot>, ghost ds: seq<Deadline>, ghost k: nat, d: Deadline,
                       x0: seq<real>, served0: seq<Option<int>>, placed0: real, running0: real,
                       records0: seq<Record>, ghost level0: seq<real>)
    returns (x: seq<real>, servedBy: seq<Option<int>>, placed: real, running: real, records: seq<Record>, ghost level: seq<real>)
    requires k < |ds| && d == ds[k] && SortedBy(slots, (s: Slot) => s.start) && SortedBy(ds, (d: Deadline) => d.readyBy)
    requires Served(car, now, slots, ds, k, x0, served0, placed0, running0, records0, level0)
    ensures Served(car, now, slots, ds, k + 1, x, servedBy, placed, running, records, level)
  {
    running := Max(running0, Need(car, d));
    var deficit := Max(0.0, running - placed0);
    var planned;
    x, servedBy, planned := PlaceDeficit(car, slots, ds, k, d, x0, served0, placed0, running, level0, deficit);
    placed := placed0 + planned;
    ghost var g := Goal(running, Reach(slots, d.readyBy));
    level := RoundServes(car, slots, ds, k, x0, level0, g, x, planned);
    TagsStayServed(car, slots, ds, k, x0, x, served0, servedBy, planned);
    var record := RecordOf(car, now, slots, ds, k, d, running, deficit, planned);
    records := records0 + [record];
    ServedNext(car, now, slots, ds, k, x, servedBy, placed, running, records0, record, level);
  }

  method RecordOf(car: Car, now: int, ghost slots: seq<Slot>, ghost ds: seq<Deadline>, ghost k: nat, d: Deadline,
                  running: real, deficit: real, planned: real)
    returns (record: Record)
    requires k < |ds| && d == ds[k] && running == Binding(car, ds, k + 1)
    requires deficit == Max(0.0, running - CoveredBy(car, slots, ds, k))
    requires CoveredBy(car, slots, ds, k) + planned == CoveredBy(car, slots, ds, k + 1)
    ensures RecordClosedForm(car, now, slots, ds, k, record)
  {
    var pending := Max(0.0, deficit - planned);
    var shortfall := Max(0.0, running - Deliverable(car, now, d.readyBy));
    record := Record(d.readyBy, d.minPct, deficit, planned, pending, shortfall, Need(car, d) <= 0.0, shortfall <= 0.0);
    RecordHasClosedForm(car, now, slots, ds, k, record, deficit);
  }

  lemma ServedNext(car: Car, now: int, slots: seq<Slot>, ds: seq<Deadline>, k: nat, x: seq<real>, servedBy: seq<Option<int>>,
                   placed: real, running: real, records: seq<Record>, record: Record, level: seq<real>)
    requires k < |ds| && Tagged(slots, x, servedBy) && TagsAreServed(car, slots, ds, k + 1, servedBy)
    requires Nested(Goals(car, slots, ds, k + 1), |slots|)
    requires running == Binding(car, ds, k + 1) && placed == CoveredBy(car, slots, ds, k + 1)
    requires Certificate(slots, FullSlot(car), Goals(car, slots, ds, k + 1), x, level)
    requires |records| == k && forall j :: 0 <= j < k ==> RecordClosedForm(car, now, slots, ds, j, records[j])
    requires RecordClosedForm(car, now, slots, ds, k, record)
    ensures Served(car, now, slots, ds, k + 1, x, servedBy, placed, running, records + [record], level)
  {
    var grown := records + [record];
    forall j | 0 <= j < k + 1 ensures RecordClosedForm(car, now, slots, ds, j, grown[j]) {
      if j < k { assert grown[j] == records[j]; }
    }
  }

  /** The greedy round of one deadline, or none when nothing is missing or a slot delivers nothing. */
  method PlaceDeficit(car: Car, slots: seq<Slot>, ghost ds: seq<Deadline>, ghost k: nat, d: Deadline, x0: seq<real>,
                      served0: seq<Option<int>>, ghost placed: real, ghost running: real, ghost level0: seq<real>, deficit: real)
    returns (x: seq<real>, servedBy: seq<Option<int>>, planned: real)
    requires k < |ds| && d == ds[k] && SortedBy(slots, (s: Slot) => s.start) && SortedBy(ds, (d: Deadline) => d.readyBy)
    requires Tagged(slots, x0, served0) && Nested(Goals(car, slots, ds, k), |slots|)
    requires Certificate(slots, FullSlot(car), Goals(car, slots, ds, k), x0, level0)
    requires placed == CoveredBy(car, slots, ds, k) && running == Binding(car, ds, k + 1) && deficit == Max(0.0, running - placed)
    ensures Round(slots, FullSlot(car), x0, x, Reach(slots, d.readyBy), deficit, planned)
    ensures Tagged(slots, x, servedBy) && TagsKept(x0, x, served0, servedBy, d.readyBy)
    ensures planned >= 0.0 && (planned == 0.0 ==> x == x0)
  {
    var c := SlotKwh(car);
    if deficit > 0.0 && c > 0.0 {
      x, servedBy, planned := FillCheapest(slots, x0, served0, c, d.readyBy, deficit);
    } else {
      x, servedBy, planned := x0, served0, 0.0;
      GoalsAreNested(car, slots, ds, k + 1);
      NothingToPlace(slots, FullSlot(car), Goals(car, slots, ds, k), x, level0, Goal(running, Reach(slots, d.readyBy)));
    }
  }

  lemma RoundServes(car: Car, slots: seq<Slot>, ds: seq<Deadline>, k: nat, x: seq<real>, level: seq<real>,
                    g: Goal, x': seq<real>, planned: real) returns (level': seq<real>)
    requires k < |ds| && |x| == |slots| && SortedBy(ds, (d: Deadline) => d.readyBy)
    requires Nested(Goals(car, slots, ds, k), |slots|)
    requires Certificate(slots, FullSlot(car), Goals(car, slots, ds, k), x, level)
    requires g == Goal(Binding(car, ds, k + 1), Reach(slots, ds[k].readyBy))
    requires Round(slots, FullSlot(car), x, x', g.reach, Max(0.0, g.need - CoveredBy(car, slots, ds, k)), planned)
    ensures Nested(Goals(car, slots, ds, k + 1), |slots|)
    ensures Certificate(slots, FullSlot(car), Goals(car, slots, ds, k + 1), x', level')
    ensures CoveredBy(car, slots, ds, k) + planned == CoveredBy(car, slots, ds, k + 1)
  {
    GoalsAreNested(car, slots, ds, k + 1);
    assert Goals(car, slots, ds, k + 1) == Goals(car, slots, ds, k) + [g];
    level' := RoundExtendsCertificate(slots, FullSlot(car), Goals(car, slots, ds, k), x, level, g, x', planned);
  }

  /**
   * The allocation is feasible, never charges beyond the binding requirement, reports every deadline
   * in closed form, and costs no more than any other allocation meeting the same deadlines.
   */
  method Allocate(now: int, deadlines: seq<Deadline>, raws: seq<PriceSlot>, p50: map<int, real>, tariff: Tariff,
                  threshold: real, car: Car)
    returns (slots: seq<Slot>, x: seq<real>, servedBy: seq<Option<int>>, ds: seq<Deadline>, records: seq<Record>)
    ensures slots == WorkingSet(now, raws, p50, tariff, threshold)
    ensures ds == Sort(deadlines, (d: Deadline) => d.readyBy) && |records| == |ds|
    ensures forall k :: 0 <= k < |ds| ==> RecordClosedForm(car, now, slots, ds, k, records[k])
    ensures Tagged(slots, x, servedBy) && TagsAreServed(car, slots, ds, |ds|, servedBy)
    ensures OptimalPlan(car, slots, ds, x)
  {
    ds := Sort(deadlines, (d: Deadline) => d.readyBy);
    slots := BuildStates(now, raws, p50, tariff, threshold);
    SortIsSorted(deadlines, (d: Deadline) => d.readyBy);
    SortIsSorted(UsableSlots(now, raws, p50, tariff, threshold), (s: Slot) => s.start);
    x, servedBy, records := seq(|slots|, _ => 0.0), seq(|slots|, _ => None), [];
    var placed, running := 0.0, 0.0;
    ghost var level: seq<real> := [];
    NothingServed(car, now, slots, ds, x, servedBy, level);
    for k := 0 to |ds|
      invariant Served(car, now, slots, ds, k, x, servedBy, placed, running, records, level)
    {
      x, servedBy, placed, running, records, level :=
        ServeDeadline(car, now, slots, ds, k, ds[k], x, servedBy, placed, running, records, level);
    }
    ServedIsOptimal(car, now, slots, ds, x, servedBy, placed, running, records, level);
  }

  lemma NothingServed(car: Car, now: int, slots: seq<Slot>, ds: seq<Deadline>, x: seq<real>, servedBy: seq<Option<int>>, level: seq<real>)
    requires |x| == |servedBy| == |slots| && level == []
    requires forall s :: 0 <= s < |x| ==> x[s] == 0.0 && servedBy[s].None?
    ensures Served(car, now, slots, ds, 0, x, servedBy, 0.0, 0.0, [], level)
  {
    PlacedZeros(x, 0, |x|);
  }

  lemma ServedIsOptimal(car: Car, now: int, slots: seq<Slot>, ds: seq<Deadline>, x: seq<real>, servedBy: seq<Option<int>>,
                        placed: real, running: real, records: seq<Record>, level: seq<real>)
    requires Served(car, now, slots, ds, |ds|, x, servedBy, placed, running, records, level)
    ensures OptimalPlan(car, slots, ds, x)
  {
    CertificateIsOptimal(slots, FullSlot(car), Goals(car, slots, ds, |ds|), x, level);
  }

  lemma CertificateIsOptimal(slots: seq<Slot>, c: real, goals: seq<Goal>, x: seq<real>, level: seq<real>)
    requires |x| == |slots| && Nested(goals, |slots|) && Certificate(slots, c, goals, x, level)
    ensures CostOptimal(slots, c, goals, x)
  {
    forall y: seq<real> | |y| == |slots| && Feasible(y, c, goals) ensures Cost(slots, x, |slots|) <= Cost(slots, y, |slots|) {
      CertifiedIsCheapest(slots, c, goals, x, level, y);
    }
  }

  lemma RecordHasClosedForm(car: Car, now: int, slots: seq<Slot>, ds: seq<Deadline>, k: nat, r: Record, deficit: real)
    requires k < |ds|
    requires deficit == Max(0.0, Binding(car, ds, k + 1) - CoveredBy(car, slots, ds, k)) && r.requiredKwh == deficit
    requires r.plannedKwh == CoveredBy(car, slots, ds, k + 1) - CoveredBy(car, slots, ds, k)
    requires r.pendingKwh == Max(0.0, deficit - r.plannedKwh)
    requires r.shortfallKwh == Max(0.0, Binding(car, ds, k + 1) - Deliverable(car, now, ds[k].readyBy))
    requires r.readyBy == ds[k].readyBy && r.minPct == ds[k].minPct
    requires (r.alreadyMet <==> Need(car, ds[k]) <= 0.0) && (r.feasible <==> r.shortfallKwh <= 0.0)
    ensures RecordClosedForm(car, now, slots, ds, k, r)
  {
    assert CoveredBy(car, slots, ds, k) <= Binding(car, ds, k) <= Binding(car, ds, k + 1);
  }

  /** Skipping the round when nothing is missing, or a slot delivers nothing, is also a greedy round. */
  lemma NothingToPlace(slots: seq<Slot>, c: real, goals: seq<Goal>, x: seq<real>, level: seq<real>, g: Goal)
    requires |x| == |slots| && Nested(goals, |slots|) && Nested(goals + [g], |slots|) && c >= 0.0
    requires Certificate(slots, c, goals, x, level)
    requires g.need <= LastCovered(goals, c) || c == 0.0
    ensures Round(slots, c, x, x, g.reach, Max(0.0, g.need - LastCovered(goals, c)), 0.0)
  {
    assert (goals + [g])[|goals|] == g;
    PlacedBound(x, c, g.reach);
    if c == 0.0 {
      PlacedFull(x, c, g.reach);
    }
  }

  // --- priced coverage against physical feasibility ---------------------------------------------------

  /** Chronological slots that do not overlap and do not start in the past. */
  ghost predicate DisjointFrom(slots: seq<Slot>, now: int) {
    && (forall i :: 0 <= i < |slots| ==> now <= slots[i].start)
    && (forall i :: 0 < i < |slots| ==> slots[i - 1].start + SLOT <= slots[i].start)
  }

  lemma {:induction false} DisjointSlotsTakeTime(slots: seq<Slot>, now: int, i: nat)
    requires DisjointFrom(slots, now) && i < |slots|
    ensures now + SLOT * i <= slots[i].start
  {
    if i > 0 { DisjointSlotsTakeTime(slots, now, i - 1); }
  }

  lemma ReachedSlotsFitBeforeDeadline(now: int, slots: seq<Slot>, readyBy: int)
    requires DisjointFrom(slots, now)
    ensures SLOT_HOURS * (Reach(slots, readyBy) as real) <= Max(0.0, (readyBy - now) as real / 3600.0)
  {
    var n := Reach(slots, readyBy);
    if n > 0 {
      DisjointSlotsTakeTime(slots, now, n - 1);
      LastReachedEndsBy(slots, readyBy);
      assert now + SLOT * n <= readyBy;
      assert (SLOT * n) as real == 900.0 * (n as real);
    }
  }

  lemma ScaledByRate(rate: real, n: real, hours: real)
    requires rate >= 0.0 && SLOT_HOURS * n <= hours
    ensures (rate * SLOT_HOURS) * n <= hours * rate
  {
    assert rate * (hours - SLOT_HOURS * n) >= 0.0;
  }

  lemma RateTimesHours(power: real, efficiency: real)
    ensures power * SLOT_HOURS * efficiency == (power * efficiency) * SLOT_HOURS
  {
    var p := power * efficiency;
    assert power * 0.25 * efficiency == p * 0.25;
  }

  lemma CapacityWithinDeliverable(car: Car, now: int, readyBy: int, n: nat)
    requires car.powerKw * car.chargeEfficiency >= 0.0
    requires SLOT_HOURS * (n as real) <= Max(0.0, (readyBy - now) as real / 3600.0)
    ensures Capacity(FullSlot(car), n) <= Deliverable(car, now, readyBy)
  {
    var rate, hours := car.powerKw * car.chargeEfficiency, Max(0.0, (readyBy - now) as real / 3600.0);
    var full := rate * SLOT_HOURS;
    RateTimesHours(car.powerKw, car.chargeEfficiency);
    assert FullSlot(car) == full >= 0.0;
    CapacityIsProduct(full, n);
    ScaledByRate(rate, n as real, hours);
    assert Capacity(full, n) <= hours * rate;
    Regroup(hours, car.powerKw, car.chargeEfficiency);
  }

  lemma Regroup(a: real, b: real, c: real)
    ensures a * b * c == a * (b * c)
  {
  }

  /** Priced coverage never beats physics: what prices leave pending is at least the physical shortfall. */
  lemma PendingCoversShortfall(car: Car, now: int, slots: seq<Slot>, ds: seq<Deadline>, k: nat, r: Record)
    requires k < |ds| && RecordClosedForm(car, now, slots, ds, k, r)
    requires DisjointFrom(slots, now) && car.powerKw * car.chargeEfficiency >= 0.0
    ensures r.pendingKwh >= r.shortfallKwh
  {
    ReachedSlotsFitBeforeDeadline(now, slots, ds[k].readyBy);
    CapacityWithinDeliverable(car, now, ds[k].readyBy, Reach(slots, ds[k].readyBy));
  }

  lemma {:induction false} LastReachedEndsBy(slots: seq<Slot>, readyBy: int)
    requires Reach(slots, readyBy) > 0
    ensures EndsBy(slots[Reach(slots, readyBy) - 1], readyBy)
  {
    if Reach(slots[1..], readyBy) > 0 { LastReachedEndsBy(slots[1..], readyBy); }
  }

  lemma {:induction false} UsableSlotsStartLater(now: int, raws: seq<PriceSlot>, p50: map<int, real>, tariff: Tariff, threshold: real)
    ensures forall i :: 0 <= i < |UsableSlots(now, raws, p50, tariff, threshold)| ==>
              now <= UsableSlots(now, raws, p50, tariff, threshold)[i].start
  {
    if raws != [] { UsableSlotsStartLater(now, raws[..|raws| - 1], p50, tariff, threshold); }
  }

  // --- plug-in windows ----------------------------------------------------------------------------------

  datatype AllocatedSlot = AllocatedSlot(start: int, kwh: real, eff: real)

  datatype Window = Window(start: int, end: int, acKwh: real, batteryKwh: real, cost: real)

  function Kwh(group: seq<AllocatedSlot>): real {
    if group == [] then 0.0 else Kwh(group[..|group| - 1]) + group[|group| - 1].kwh
  }

  /** AC side of a battery-side amount; with zero efficiency no slot delivers anything, so nothing is divided. */
  function Ac(kwh: real, eta: real): real { if eta == 0.0 then 0.0 else kwh / eta }

  function AcKwh(group: seq<AllocatedSlot>, eta: real): real {
    if group == [] then 0.0 else AcKwh(group[..|group| - 1], eta) + Ac(group[|group| - 1].kwh, eta)
  }

  function AcCost(group: seq<AllocatedSlot>, eta: real): real {
    if group == [] then 0.0
    else AcCost(group[..|group| - 1], eta) + group[|group| - 1].eff * Ac(group[|group| - 1].kwh, eta)
  }

  function WindowOf(group: seq<AllocatedSlot>, eta: real): Window
    requires group != []
  {
    Window(group[0].start, group[|group| - 1].start + SLOT, AcKwh(group, eta), Kwh(group), AcCost(group, eta))
  }

  predicate Adjacent(a: AllocatedSlot, b: AllocatedSlot) { b.start - a.start == SLOT }

  function LastOf(group: seq<AllocatedSlot>): AllocatedSlot
    requires group != []
  {
    group[|group| - 1]
  }

  /** Splits the chronological slots wherever one does not start exactly where the previous one ends. */
  function Groups(xs: seq<AllocatedSlot>): (gs: seq<seq<AllocatedSlot>>)
    ensures forall i :: 0 <= i < |gs| ==> gs[i] != []
    ensures gs == [] <==> xs == []
    ensures xs != [] ==> LastOf(gs[|gs| - 1]) == xs[|xs| - 1]
  {
    if xs == [] then []
    else
      var gs, x := Groups(xs[..|xs| - 1]), xs[|xs| - 1];
      if gs != [] && Adjacent(xs[|xs| - 2], x) then gs[..|gs| - 1] + [gs[|gs| - 1] + [x]] else gs + [[x]]
  }

  function Flatten(gs: seq<seq<AllocatedSlot>>): seq<AllocatedSlot> {
    if gs == [] then [] else Flatten(gs[..|gs| - 1]) + gs[|gs| - 1]
  }

  ghost predicate Unbroken(group: seq<AllocatedSlot>) {
    forall j :: 0 < j < |group| ==> Adjacent(group[j - 1], group[j])
  }

  /** Each group is one unbroken run of slots, and no two neighbouring groups could be joined. */
  ghost predicate MaximalRuns(gs: seq<seq<AllocatedSlot>>) {
    && (forall i :: 0 <= i < |gs| ==> gs[i] != [])
    && (forall i :: 0 <= i < |gs| ==> Unbroken(gs[i]))
    && (forall i :: 0 < i < |gs| ==> !Adjacent(LastOf(gs[i - 1]), gs[i][0]))
  }

  lemma UnbrokenGrows(group: seq<AllocatedSlot>, x: AllocatedSlot)
    requires group != [] && Unbroken(group) && Adjacent(LastOf(group), x)
    ensures Unbroken(group + [x])
  {
  }

  lemma ExtendLastRun(gs: seq<seq<AllocatedSlot>>, x: AllocatedSlot)
    requires gs != [] && MaximalRuns(gs) && Adjacent(LastOf(gs[|gs| - 1]), x)
    ensures var gs' := gs[..|gs| - 1] + [gs[|gs| - 1] + [x]];
            MaximalRuns(gs') && Flatten(gs') == Flatten(gs) + [x]
  {
    var last := gs[|gs| - 1];
    var gs' := gs[..|gs| - 1] + [last + [x]];
    assert gs'[..|gs| - 1] == gs[..|gs| - 1];
    assert Flatten(gs') == Flatten(gs[..|gs| - 1]) + (last + [x]);
    UnbrokenGrows(last, x);
    forall i | 0 < i < |gs'| ensures !Adjacent(LastOf(gs'[i - 1]), gs'[i][0]) {
      assert gs'[i - 1] == gs[i - 1] && gs'[i][0] == gs[i][0];
    }
  }

  lemma StartNewRun(gs: seq<seq<AllocatedSlot>>, x: AllocatedSlot)
    requires MaximalRuns(gs) && (gs != [] ==> !Adjacent(LastOf(gs[|gs| - 1]), x))
    ensures MaximalRuns(gs + [[x]]) && Flatten(gs + [[x]]) == Flatten(gs) + [x]
  {
    var gs' := gs + [[x]];
    assert gs'[..|gs|] == gs;
    assert Unbroken([x]);
    forall i | 0 <= i < |gs'| ensures gs'[i] != [] && Unbroken(gs'[i]) {
      if i < |gs| { assert gs'[i] == gs[i]; }
    }
    forall i | 0 < i < |gs'| ensures !Adjacent(LastOf(gs'[i - 1]), gs'[i][0]) {
      assert gs'[i - 1] == gs[i - 1];
      if i < |gs| { assert gs'[i] == gs[i]; }
    }
  }

  lemma GroupsStep(xs: seq<AllocatedSlot>)
    requires xs != []
    ensures var gs, x := Groups(xs[..|xs| - 1]), xs[|xs| - 1];
            Groups(xs) == if gs != [] && Adjacent(LastOf(gs[|gs| - 1]), x)
                          then gs[..|gs| - 1] + [gs[|gs| - 1] + [x]] else gs + [[x]]
  {
    if |xs| > 1 { assert xs[..|xs| - 1][|xs| - 2] == xs[|xs| - 2]; }
  }

  lemma {:induction false} GroupsAreMaximalRuns(xs: seq<AllocatedSlot>)
    ensures Flatten(Groups(xs)) == xs && MaximalRuns(Groups(xs))
  {
    if xs != [] {
      var n := |xs| - 1;
      var gs, x := Groups(xs[..n]), xs[n];
      GroupsAreMaximalRuns(xs[..n]);
      assert xs == xs[..n] + [x];
      GroupsStep(xs);
      if gs != [] && Adjacent(LastOf(gs[|gs| - 1]), x) {
        ExtendLastRun(gs, x);
      } else {
        StartNewRun(gs, x);
      }
    }
  }

  function WindowsOf(gs: seq<seq<AllocatedSlot>>, eta: real): (ws: seq<Window>)
    requires forall i :: 0 <= i < |gs| ==> gs[i] != []
    ensures |ws| == |gs| && forall i :: 0 <= i < |gs| ==> ws[i] == WindowOf(gs[i], eta)
  {
    seq(|gs|, i requires 0 <= i < |gs| => WindowOf(gs[i], eta))
  }

  /** The loop that grows one group and flushes it when the next slot does not follow on. */
  method Windows(xs: seq<AllocatedSlot>, eta: real) returns (windows: seq<Window>)
    ensures windows == WindowsOf(Groups(xs), eta)
  {
    windows := [];
    var group: seq<AllocatedSlot> := [];
    for i := 0 to |xs|
      invariant Flushed(xs[..i], windows, group, eta)
    {
      assert xs[..i + 1] == xs[..i] + [xs[i]];
      windows, group := GrowOrFlush(xs[..i], windows, group, xs[i], eta);
    }
    assert xs[..|xs|] == xs;
    LastFlush(xs, windows, group, eta);
    if group != [] {
      windows := windows + [WindowOf(group, eta)];
    }
  }

  method GrowOrFlush(ghost xs: seq<AllocatedSlot>, windows0: seq<Window>, group0: seq<AllocatedSlot>, x: AllocatedSlot, eta: real)
    returns (windows: seq<Window>, group: seq<AllocatedSlot>)
    requires Flushed(xs, windows0, group0, eta)
    ensures Flushed(xs + [x], windows, group, eta)
  {
    NextGroup(xs, x, windows0, group0, eta);
    windows, group := windows0, [x];
    if group0 != [] && Adjacent(group0[|group0| - 1], x) {
      group := group0 + [x];
    } else if group0 != [] {
      windows := windows0 + [WindowOf(group0, eta)];
    }
  }

  lemma LastFlush(xs: seq<AllocatedSlot>, windows: seq<Window>, group: seq<AllocatedSlot>, eta: real)
    requires Flushed(xs, windows, group, eta)
    ensures WindowsOf(Groups(xs), eta) == if group != [] then windows + [WindowOf(group, eta)] else windows
  {
    if Groups(xs) != [] { WindowsSplit(Groups(xs), eta); }
  }

  lemma WindowsSplit(gs: seq<seq<AllocatedSlot>>, eta: real)
    requires gs != [] && forall i :: 0 <= i < |gs| ==> gs[i] != []
    ensures WindowsOf(gs, eta) == WindowsOf(gs[..|gs| - 1], eta) + [WindowOf(gs[|gs| - 1], eta)]
  {
  }

  /** The windows flushed so far and the group still open, against the groups of the slots seen. */
  ghost predicate Flushed(xs: seq<AllocatedSlot>, windows: seq<Window>, group: seq<AllocatedSlot>, eta: real) {
    var gs := Groups(xs);
    if gs == [] then windows == [] && group == []
    else group == gs[|gs| - 1] && windows == WindowsOf(gs[..|gs| - 1], eta)
  }

  lemma NextGroup(xs: seq<AllocatedSlot>, x: AllocatedSlot, windows: seq<Window>, group: seq<AllocatedSlot>, eta: real)
    requires Flushed(xs, windows, group, eta)
    ensures if group != [] && Adjacent(LastOf(group), x) then Flushed(xs + [x], windows, group + [x], eta)
            else Flushed(xs + [x], if group != [] then windows + [WindowOf(group, eta)] else windows, [x], eta)
  {
    var gs, grown := Groups(xs), Groups(xs + [x]);
    assert (xs + [x])[..|xs|] == xs;
    GroupsStep(xs + [x]);
    if group != [] && Adjacent(LastOf(group), x) {
      DropLast(gs[..|gs| - 1], group + [x]);
      assert grown == gs[..|gs| - 1] + [group + [x]];
    } else {
      DropLast(gs, [x]);
      assert grown == gs + [[x]];
      if gs != [] { WindowsSplit(gs, eta); }
    }
  }

  lemma DropLast(gs: seq<seq<AllocatedSlot>>, g: seq<AllocatedSlot>)
    ensures |gs + [g]| == |gs| + 1 && (gs + [g])[..|gs|] == gs && (gs + [g])[|gs|] == g
  {
  }

  // --- totals -------------------------------------------------------------------------------------------

  function AllocatedSlots(slots: seq<Slot>, x: seq<real>, n: nat): seq<AllocatedSlot>
    requires n <= |slots| == |x|
  {
    if n == 0 then []
    else
      var rest := AllocatedSlots(slots, x, n - 1);
      if x[n - 1] > 0.0 then rest + [AllocatedSlot(slots[n - 1].start, x[n - 1], slots[n - 1].eff)] else rest
  }

  /** The published slots are the ones that hold energy, none of them empty, each with its start, energy and price. */
  lemma {:induction false} AllocatedIff(slots: seq<Slot>, x: seq<real>, n: nat, a: AllocatedSlot)
    requires n <= |slots| == |x|
    ensures a in AllocatedSlots(slots, x, n)
       <==> exists s :: 0 <= s < n && x[s] > 0.0 && a == AllocatedSlot(slots[s].start, x[s], slots[s].eff)
  {
    if n > 0 { AllocatedIff(slots, x, n - 1, a); }
  }

  lemma {:induction false} AllocatedKwh(slots: seq<Slot>, x: seq<real>, n: nat)
    requires n <= |slots| == |x| && forall s :: 0 <= s < |x| ==> x[s] >= 0.0
    ensures Kwh(AllocatedSlots(slots, x, n)) == Placed(x, n)
  {
    if n > 0 {
      AllocatedKwh(slots, x, n - 1);
      var all := AllocatedSlots(slots, x, n);
      if x[n - 1] > 0.0 { assert all[..|all| - 1] == AllocatedSlots(slots, x, n - 1); }
    }
  }

  lemma AddAcTerm(before: real, eff: real, kwh: real, eta: real)
    requires eta != 0.0
    ensures Times(before + eff * Ac(kwh, eta), eta) == Times(before, eta) + eff * kwh
  {
    assert Ac(kwh, eta) * eta == kwh;
    assert (eff * Ac(kwh, eta)) * eta == eff * (Ac(kwh, eta) * eta);
  }

  lemma {:induction false} AllocatedCost(slots: seq<Slot>, x: seq<real>, n: nat, eta: real)
    requires n <= |slots| == |x| && eta != 0.0 && forall s :: 0 <= s < |x| ==> x[s] >= 0.0
    ensures Times(AcCost(AllocatedSlots(slots, x, n), eta), eta) == Cost(slots, x, n)
  {
    if n > 0 {
      AllocatedCost(slots, x, n - 1, eta);
      var all, rest := AllocatedSlots(slots, x, n), AllocatedSlots(slots, x, n - 1);
      if x[n - 1] > 0.0 {
        assert all[..|all| - 1] == rest;
        AddAcTerm(AcCost(rest, eta), slots[n - 1].eff, x[n - 1], eta);
      } else {
        assert slots[n - 1].eff * x[n - 1] == 0.0;
      }
    }
  }

  function SumKwh(ws: seq<Window>): real {
    if ws == [] then 0.0 else SumKwh(ws[..|ws| - 1]) + ws[|ws| - 1].batteryKwh
  }

  function SumAc(ws: seq<Window>): real {
    if ws == [] then 0.0 else SumAc(ws[..|ws| - 1]) + ws[|ws| - 1].acKwh
  }

  function SumCost(ws: seq<Window>): real {
    if ws == [] then 0.0 else SumCost(ws[..|ws| - 1]) + ws[|ws| - 1].cost
  }

  lemma {:induction false} TotalsAdd(xs: seq<AllocatedSlot>, ys: seq<AllocatedSlot>, eta: real)
    ensures Kwh(xs + ys) == Kwh(xs) + Kwh(ys) && AcCost(xs + ys, eta) == AcCost(xs, eta) + AcCost(ys, eta)
    ensures AcKwh(xs + ys, eta) == AcKwh(xs, eta) + AcKwh(ys, eta)
    decreases |ys|
  {
    if ys == [] {
      assert xs + ys == xs;
    } else {
      TotalsAdd(xs, ys[..|ys| - 1], eta);
      assert (xs + ys)[..|xs + ys| - 1] == xs + ys[..|ys| - 1];
    }
  }

  /** Merging slots into windows neither loses nor invents energy or money. */
  lemma {:induction false} WindowsConserve(gs: seq<seq<AllocatedSlot>>, eta: real)
    requires forall i :: 0 <= i < |gs| ==> gs[i] != []
    ensures SumKwh(WindowsOf(gs, eta)) == Kwh(Flatten(gs)) && SumCost(WindowsOf(gs, eta)) == AcCost(Flatten(gs), eta)
    ensures SumAc(WindowsOf(gs, eta)) == AcKwh(Flatten(gs), eta)
    decreases |gs|
  {
    if gs != [] {
      var front := gs[..|gs| - 1];
      WindowsConserve(front, eta);
      assert WindowsOf(gs, eta)[..|gs| - 1] == WindowsOf(front, eta);
      TotalsAdd(Flatten(front), gs[|gs| - 1], eta);
    }
  }

  /**
   * The whole plan: what it charges is exactly what the last deadline can get, no other allocation that
   * meets the deadlines is cheaper, the records and tags describe it, and the windows account for all of it.
   */
  method PlanCarCharging(now: int, deadlines: seq<Deadline>, raws: seq<PriceSlot>, p50: map<int, real>, tariff: Tariff,
                         threshold: real, car: Car)
    returns (windows: seq<Window>, records: seq<Record>, totalCost: real, totalKwh: real,
             slots: seq<Slot>, ds: seq<Deadline>, x: seq<real>, servedBy: seq<Option<int>>)
    ensures slots == WorkingSet(now, raws, p50, tariff, threshold) && ds == Sort(deadlines, (d: Deadline) => d.readyBy)
    ensures OptimalPlan(car, slots, ds, x)
    ensures |records| == |ds| && forall k :: 0 <= k < |ds| ==> RecordClosedForm(car, now, slots, ds, k, records[k])
    ensures forall k :: 0 <= k < |ds| ==> RecordMeans(car, now, slots, x, ds, k, records[k])
    ensures Tagged(slots, x, servedBy) && TagsAreServed(car, slots, ds, |ds|, servedBy)
    ensures totalKwh == CoveredBy(car, slots, ds, |ds|) == SumKwh(windows)
    ensures totalCost == AcCost(AllocatedSlots(slots, x, |slots|), car.chargeEfficiency) == SumCost(windows)
    ensures car.chargeEfficiency != 0.0 ==> Times(totalCost, car.chargeEfficiency) == Cost(slots, x, |slots|)
    ensures windows == WindowsOf(Groups(AllocatedSlots(slots, x, |slots|)), car.chargeEfficiency)
  {
    slots, x, servedBy, ds, records := Allocate(now, deadlines, raws, p50, tariff, threshold, car);
    totalCost, totalKwh := Totals(AllocatedSlots(slots, x, |slots|), car.chargeEfficiency);
    windows := Windows(AllocatedSlots(slots, x, |slots|), car.chargeEfficiency);
    PlanAddsUp(car, slots, ds, x, windows);
    SortIsSorted(UsableSlots(now, raws, p50, tariff, threshold), (s: Slot) => s.start);
    RecordsAreHonest(car, now, slots, x, ds, records);
  }

  lemma RecordsAreHonest(car: Car, now: int, slots: seq<Slot>, x: seq<real>, ds: seq<Deadline>, records: seq<Record>)
    requires OptimalPlan(car, slots, ds, x) && SortedBy(slots, (s: Slot) => s.start) && |records| == |ds|
    requires forall k :: 0 <= k < |ds| ==> RecordClosedForm(car, now, slots, ds, k, records[k])
    ensures forall k :: 0 <= k < |ds| ==> RecordMeans(car, now, slots, x, ds, k, records[k])
  {
    forall k | 0 <= k < |ds| ensures RecordMeans(car, now, slots, x, ds, k, records[k]) {
      RecordIsHonest(car, now, slots, x, ds, k, records[k]);
    }
  }

  /** The battery receives the efficiency's share of what a group of slots draws. */
  lemma {:induction false} DrawnIsStored(group: seq<AllocatedSlot>, eta: real)
    requires eta != 0.0
    ensures Times(AcKwh(group, eta), eta) == Kwh(group)
  {
    if group == [] {
      assert Times(0.0, eta) == 0.0;
    } else {
      var front, kwh := group[..|group| - 1], group[|group| - 1].kwh;
      DrawnIsStored(front, eta);
      TimesAdds(AcKwh(front, eta), Ac(kwh, eta), eta);
      assert Times(Ac(kwh, eta), eta) == kwh;
    }
  }

  /** A window lasts from its first slot to the end of its last, a quarter-hour each, without a break. */
  lemma {:induction false} WindowSpansItsSlots(group: seq<AllocatedSlot>, eta: real, i: nat)
    requires group != [] && Unbroken(group) && i < |group|
    ensures var w := WindowOf(group, eta);
            w.end == w.start + SLOT * |group| && group[i].start == w.start + SLOT * i && w.batteryKwh == Kwh(group)
    ensures eta != 0.0 ==> Times(WindowOf(group, eta).acKwh, eta) == WindowOf(group, eta).batteryKwh
  {
    UnbrokenStarts(group, i);
    UnbrokenStarts(group, |group| - 1);
    if eta != 0.0 { DrawnIsStored(group, eta); }
  }

  lemma {:induction false} UnbrokenStarts(group: seq<AllocatedSlot>, i: nat)
    requires Unbroken(group) && i < |group|
    ensures group[i].start == group[0].start + SLOT * i
  {
    if i > 0 {
      UnbrokenStarts(group, i - 1);
      assert Adjacent(group[i - 1], group[i]);
    }
  }

  lemma PlanAddsUp(car: Car, slots: seq<Slot>, ds: seq<Deadline>, x: seq<real>, windows: seq<Window>)
    requires OptimalPlan(car, slots, ds, x)
    requires windows == WindowsOf(Groups(AllocatedSlots(slots, x, |slots|)), car.chargeEfficiency)
    ensures Kwh(AllocatedSlots(slots, x, |slots|)) == CoveredBy(car, slots, ds, |ds|) == SumKwh(windows)
    ensures SumCost(windows) == AcCost(AllocatedSlots(slots, x, |slots|), car.chargeEfficiency)
    ensures car.chargeEfficiency != 0.0 ==> Times(SumCost(windows), car.chargeEfficiency) == Cost(slots, x, |slots|)
  {
    AllocatedKwh(slots, x, |slots|);
    if car.chargeEfficiency != 0.0 { AllocatedCost(slots, x, |slots|, car.chargeEfficiency); }
    GroupsAreMaximalRuns(AllocatedSlots(slots, x, |slots|));
    WindowsConserve(Groups(AllocatedSlots(slots, x, |slots|)), car.chargeEfficiency);
  }

  /** The money the plan reports is the least any allocation meeting the deadlines has to pay. */
  lemma PlanCostIsLeast(car: Car, slots: seq<Slot>, ds: seq<Deadline>, x: seq<real>, y: seq<real>)
    requires OptimalPlan(car, slots, ds, x) && car.chargeEfficiency > 0.0
    requires |y| == |slots| && Feasible(y, FullSlot(car), Goals(car, slots, ds, |ds|))
    ensures AcCost(AllocatedSlots(slots, x, |slots|), car.chargeEfficiency)
         <= AcCost(AllocatedSlots(slots, y, |slots|), car.chargeEfficiency)
  {
    AllocatedCost(slots, x, |slots|, car.chargeEfficiency);
    AllocatedCost(slots, y, |slots|, car.chargeEfficiency);
    assert Cost(slots, x, |slots|) <= Cost(slots, y, |slots|);
    OrderKeptByScaling(AcCost(AllocatedSlots(slots, x, |slots|), car.chargeEfficiency),
                       AcCost(AllocatedSlots(slots, y, |slots|), car.chargeEfficiency), car.chargeEfficiency);
  }

  lemma OrderKeptByScaling(a: real, b: real, eta: real)
    requires eta > 0.0 && Times(a, eta) <= Times(b, eta)
    ensures a <= b
  {
    assert a > b ==> (a - b) * eta > 0.0;
  }

  method Totals(taken: seq<AllocatedSlot>, eta: real) returns (totalCost: real, totalKwh: real)
    ensures totalKwh == Kwh(taken) && totalCost == AcCost(taken, eta)
  {
    totalCost, totalKwh := 0.0, 0.0;
    for i := 0 to |taken|
      invariant totalKwh == Kwh(taken[..i]) && totalCost == AcCost(taken[..i], eta)
    {
      assert taken[..i + 1][..i] == taken[..i];
      totalCost := totalCost + taken[i].eff * Ac(taken[i].kwh, eta);
      totalKwh := totalKwh + taken[i].kwh;
    }
    assert taken[..|taken|] == taken;
  }
}
