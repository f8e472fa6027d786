/**
 Validation of a price horizon before it may drive control (ems/price_quality.py). Instants are UTC
 microseconds; `None` stands for a naive timestamp or a non-finite price. The site's timezone is an
 abstract calendar whose days may start anywhere and have any length.
*/
module PriceHorizon {
  import opened Prelude
  import opened Sorting
  import Segments

  const SLOT := Segments.QUARTER

  datatype Slot = Slot(start: Option<int>, price: Option<real>, fixedBackup: bool)

  datatype Zone = Zone(dayOf: int -> int, dayStart: int -> int)

  predicate StartsBefore(z: Zone, d: int, e: int) { d < e ==> z.dayStart(d) < z.dayStart(e) }

  predicate OnQuarter(z: Zone, d: int) { z.dayStart(d) % SLOT == 0 }

  predicate InOwnDay(z: Zone, t: int) { z.dayStart(z.dayOf(t)) <= t < z.dayStart(z.dayOf(t) + 1) }

  /** Days follow one another, and `dayOf` is the day an instant lies in. */
  ghost predicate Calendar(z: Zone) {
    (forall d, e :: StartsBefore(z, d, e)) && (forall t :: InOwnDay(z, t))
  }

  datatype Reason =
    | Empty | NaiveNow | FixedBackup | NaiveSlot | NonFinite | Misaligned | OutOfOrder | Gap
    | Incomplete(day: int) | NotCovering

  datatype Status = Status(ok: bool, reason: Option<Reason>, count: nat, horizonEnd: Option<int>)

  // --- what the verdict means ------------------------------------------------------------------------------

  /** What is wrong with slot i, given that the slots before it are in order. */
  function FaultAt(slots: seq<Slot>, i: nat): Option<Reason>
    requires i < |slots|
  {
    var s := slots[i];
    if s.start.None? then Some(NaiveSlot)
    else if s.price.None? then Some(NonFinite)
    else if s.start.value % SLOT != 0 then Some(Misaligned)
    else if i > 0 && slots[i - 1].start.Some? && s.start.value <= slots[i - 1].start.value then Some(OutOfOrder)
    else if i > 0 && slots[i - 1].start.Some? && s.start.value - slots[i - 1].start.value != SLOT then Some(Gap)
    else None
  }

  /** Each fault, in the order of the checks: a start is too early at or before its neighbour, a gap otherwise unless 15 minutes later. */
  lemma FaultIff(slots: seq<Slot>, i: nat, s: Slot, t: int)
    requires i < |slots| && slots[i] == s
    ensures s.start == None ==> FaultAt(slots, i) == Some(NaiveSlot)
    ensures s.start == Some(t) && s.price == None ==> FaultAt(slots, i) == Some(NonFinite)
    ensures s.start == Some(t) && s.price != None && t % 900_000_000 != 0 ==> FaultAt(slots, i) == Some(Misaligned)
    ensures s.start == Some(t) && s.price != None && t % 900_000_000 == 0 ==>
              match if i == 0 then None else slots[i - 1].start
              case None => FaultAt(slots, i) == None
              case Some(previous) =>
                FaultAt(slots, i) == if t <= previous then Some(OutOfOrder)
                                     else if t == previous + 900_000_000 then None
                                     else Some(Gap)
  {
  }

  ghost predicate Clean(slots: seq<Slot>, n: nat)
    requires n <= |slots|
  {
    forall i :: 0 <= i < n ==> FaultAt(slots, i) == None
  }

  predicate Starts(slots: seq<Slot>, t: int) { exists i :: 0 <= i < |slots| && slots[i].start == Some(t) }

  /** A whole number of quarter-hours after `a`. */
  predicate OnGridFrom(a: int, t: int) { (t - a) % SLOT == 0 }

  ghost predicate DayComplete(slots: seq<Slot>, z: Zone, d: int) {
    forall t :: z.dayStart(d) <= t < z.dayStart(d + 1) && OnGridFrom(z.dayStart(d), t) ==> Starts(slots, t)
  }

  ghost predicate HasDay(slots: seq<Slot>, z: Zone, d: int) {
    exists i :: 0 <= i < |slots| && slots[i].start.Some? && z.dayOf(slots[i].start.value) == d
  }

  ghost predicate DaysComplete(slots: seq<Slot>, z: Zone) {
    forall d :: HasDay(slots, z, d) ==> DayComplete(slots, z, d)
  }

  /** The earliest day that has a slot but not all of them. */
  ghost predicate FirstIncomplete(slots: seq<Slot>, z: Zone, d: int) {
    && HasDay(slots, z, d) && !DayComplete(slots, z, d)
    && forall e :: e < d && HasDay(slots, z, e) ==> DayComplete(slots, z, e)
  }

  predicate Covers(slots: seq<Slot>, now: int) {
    && slots != [] && slots[0].start.Some? && slots[|slots| - 1].start.Some?
    && slots[0].start.value <= now < slots[|slots| - 1].start.value + SLOT
  }

  /** The checks in the order they are made; `None` is acceptance. */
  ghost predicate Judged(slots: seq<Slot>, now: Option<int>, z: Zone, r: Option<Reason>) {
    if slots == [] then r == Some(Empty)
    else if now.None? then r == Some(NaiveNow)
    else if exists s :: s in slots && s.fixedBackup then r == Some(FixedBackup)
    else if !Clean(slots, |slots|) then
      r.Some? && exists i :: 0 <= i < |slots| && Clean(slots, i) && FaultAt(slots, i) == r
    else if !DaysComplete(slots, z) then r.Some? && r.value.Incomplete? && FirstIncomplete(slots, z, r.value.day)
    else if !Covers(slots, now.value) then r == Some(NotCovering)
    else r == None
  }

  /** Live, finite prices at consecutive quarter-hours from `a`. */
  ghost predicate FilledFrom(slots: seq<Slot>, a: int) {
    forall i :: 0 <= i < |slots| ==> slots[i].start == Some(a + i * SLOT) && slots[i].price.Some? && !slots[i].fixedBackup
  }

  /**
   * Live, finite prices at exactly the consecutive quarter-hours that start within the local days `first`
   * to `last`, each day with a slot starting at a quarter-hour, around the current time.
   */
  ghost predicate WholeDays(slots: seq<Slot>, now: Option<int>, z: Zone, first: int, last: int) {
    && first <= last && now.Some?
    && FilledFrom(slots, z.dayStart(first))
    && (|slots| - 1) * SLOT < z.dayStart(last + 1) - z.dayStart(first) <= |slots| * SLOT
    && (forall d :: HasDay(slots, z, d) ==> OnQuarter(z, d))
    && z.dayStart(first) <= now.value < z.dayStart(first) + |slots| * SLOT
  }

  /** Where the day after the last one starts at a quarter-hour too, as in every current timezone, the slots end there. */
  lemma WholeDaysEndAtMidnight(slots: seq<Slot>, now: Option<int>, z: Zone, first: int, last: int)
    requires WholeDays(slots, now, z, first, last) && OnQuarter(z, first) && OnQuarter(z, last + 1)
    ensures z.dayStart(first) + |slots| * SLOT == z.dayStart(last + 1)
  {
    AlignedPlus(z.dayStart(first), |slots|);
    AlignedPlus(z.dayStart(first), |slots| - 1);
    if z.dayStart(last + 1) < z.dayStart(first) + |slots| * SLOT {
      NextAligned(z.dayStart(last + 1), z.dayStart(first) + |slots| * SLOT);
    }
  }

  lemma {:induction false} CleanIsArithmetic(slots: seq<Slot>, i: nat)
    requires i < |slots| && Clean(slots, |slots|)
    ensures slots[0].start.Some? && slots[i].start == Some(slots[0].start.value + i * SLOT) && slots[i].price.Some?
    ensures slots[i].start.value % SLOT == 0
  {
    assert FaultAt(slots, i) == None;
    if i > 0 { CleanIsArithmetic(slots, i - 1); }
  }

  /** The first slot of complete days is a local midnight. */
  lemma FirstIsMidnight(slots: seq<Slot>, z: Zone, first: int)
    requires slots != [] && Clean(slots, |slots|) && slots[0].start.Some?
    requires z.dayStart(first) <= slots[0].start.value < z.dayStart(first + 1) && DayComplete(slots, z, first)
    ensures slots[0].start.value == z.dayStart(first)
  {
    assert OnGridFrom(z.dayStart(first), z.dayStart(first));
    assert Starts(slots, z.dayStart(first));
    var k :| 0 <= k < |slots| && slots[k].start == Some(z.dayStart(first));
    CleanIsArithmetic(slots, k);
  }

  /** The last slot of complete days reaches the next local midnight. */
  lemma LastReachesMidnight(slots: seq<Slot>, z: Zone, last: int)
    requires slots != [] && Clean(slots, |slots|) && slots[|slots| - 1].start.Some?
    requires z.dayStart(last) <= slots[|slots| - 1].start.value && DayComplete(slots, z, last) && OnQuarter(z, last)
    ensures slots[|slots| - 1].start.value + SLOT >= z.dayStart(last + 1)
  {
    var e := slots[|slots| - 1].start.value;
    CleanIsArithmetic(slots, |slots| - 1);
    if e + SLOT < z.dayStart(last + 1) {
      AlignedGap(e, z.dayStart(last));
      NothingAfterLast(slots, e + SLOT);
    }
  }

  /** A complete day starts at a quarter-hour, for its midnight is one of the slots. */
  lemma CompleteDayOnQuarter(slots: seq<Slot>, z: Zone, d: int)
    requires Clean(slots, |slots|) && DayComplete(slots, z, d) && z.dayStart(d) < z.dayStart(d + 1)
    ensures OnQuarter(z, d)
  {
    assert OnGridFrom(z.dayStart(d), z.dayStart(d));
    var k :| 0 <= k < |slots| && slots[k].start == Some(z.dayStart(d));
    CleanIsArithmetic(slots, k);
  }

  /** Slots in order that fill every day they touch start at one local midnight and reach another. */
  lemma CompleteDaysAreWhole(slots: seq<Slot>, z: Zone, first: int, last: int)
    requires slots != [] && Clean(slots, |slots|) && DaysComplete(slots, z)
    requires slots[0].start.Some? && slots[|slots| - 1].start.Some?
    requires first == z.dayOf(slots[0].start.value) && last == z.dayOf(slots[|slots| - 1].start.value)
    requires InOwnDay(z, slots[0].start.value) && InOwnDay(z, slots[|slots| - 1].start.value)
    ensures slots[0].start.value == z.dayStart(first)
    ensures slots[|slots| - 1].start.value < z.dayStart(last + 1) <= slots[|slots| - 1].start.value + SLOT
  {
    assert HasDay(slots, z, first) && HasDay(slots, z, last);
    FirstIsMidnight(slots, z, first);
    CompleteDayOnQuarter(slots, z, last);
    LastReachesMidnight(slots, z, last);
  }

  lemma DaysAreOrdered(z: Zone, s: int, t: int)
    requires Calendar(z)
    ensures InOwnDay(z, s) && InOwnDay(z, t) && (s <= t ==> z.dayOf(s) <= z.dayOf(t))
  {
    assert StartsBefore(z, z.dayOf(t) + 1, z.dayOf(s));
  }

  lemma DayIsNotEmpty(z: Zone, d: int)
    requires Calendar(z)
    ensures z.dayStart(d) < z.dayStart(d + 1) && z.dayOf(z.dayStart(d)) == d
  {
    var e := z.dayOf(z.dayStart(d));
    assert InOwnDay(z, z.dayStart(d)) && StartsBefore(z, d, d + 1);
    assert StartsBefore(z, e + 1, d) && StartsBefore(z, d, e);
  }

  lemma NothingAfterLast(slots: seq<Slot>, t: int)
    requires slots != [] && Clean(slots, |slots|)
    requires slots[|slots| - 1].start.Some? && t > slots[|slots| - 1].start.value
    ensures !Starts(slots, t)
  {
    CleanIsArithmetic(slots, |slots| - 1);
    forall i | 0 <= i < |slots| ensures slots[i].start != Some(t) {
      CleanIsArithmetic(slots, i);
    }
  }

  lemma AlignedGap(a: int, b: int)
    requires a % SLOT == 0 && b % SLOT == 0
    ensures OnGridFrom(b, a + SLOT)
  {
    assert a == SLOT * (a / SLOT) && b == SLOT * (b / SLOT);
    assert a + SLOT - b == SLOT * (a / SLOT + 1 - b / SLOT);
  }

  lemma NextAligned(a: int, b: int)
    requires a % SLOT == 0 && b % SLOT == 0 && a < b
    ensures a + SLOT <= b
  {
  }

  /** Whole days are slots in order that cover the current time. */
  lemma WholeDaysAreClean(slots: seq<Slot>, now: Option<int>, z: Zone, first: int, last: int)
    requires OnQuarter(z, first) && slots != [] && WholeDays(slots, now, z, first, last)
    ensures Clean(slots, |slots|) && Covers(slots, now.value)
  {
    forall i | 0 <= i < |slots| ensures FaultAt(slots, i) == None {
      AlignedPlus(z.dayStart(first), i);
      assert i > 0 ==> slots[i - 1].start == Some(z.dayStart(first) + (i - 1) * SLOT);
    }
  }

  /** Whole days have every quarter-hour of every day they touch. */
  lemma WholeDaysAreComplete(slots: seq<Slot>, now: Option<int>, z: Zone, first: int, last: int)
    requires Calendar(z) && WholeDays(slots, now, z, first, last)
    ensures DaysComplete(slots, z)
  {
    forall d | HasDay(slots, z, d) ensures DayComplete(slots, z, d) {
      var i :| 0 <= i < |slots| && slots[i].start.Some? && z.dayOf(slots[i].start.value) == d;
      FirstDayOnQuarter(slots, now, z, first, last);
      DayOfSlotIsComplete(slots, z, first, last, i);
    }
  }

  lemma FirstDayOnQuarter(slots: seq<Slot>, now: Option<int>, z: Zone, first: int, last: int)
    requires Calendar(z) && WholeDays(slots, now, z, first, last)
    ensures slots != [] && OnQuarter(z, first)
  {
    assert StartsBefore(z, first, last + 1);
    DayIsNotEmpty(z, first);
    assert slots[0].start == Some(z.dayStart(first));
    assert HasDay(slots, z, first);
  }

  lemma DayOfSlotIsComplete(slots: seq<Slot>, z: Zone, first: int, last: int, i: nat)
    requires Calendar(z) && i < |slots| && (|slots| - 1) * SLOT < z.dayStart(last + 1) - z.dayStart(first) <= |slots| * SLOT
    requires forall j :: 0 <= j < |slots| ==> slots[j].start == Some(z.dayStart(first) + j * SLOT)
    requires OnQuarter(z, first) && OnQuarter(z, z.dayOf(slots[i].start.value))
    ensures DayComplete(slots, z, z.dayOf(slots[i].start.value))
  {
    var a, t := z.dayStart(first), slots[i].start.value;
    assert a <= t <= a + (|slots| - 1) * SLOT;
    DayWithin(z, t, first, last);
    GridIsFull(slots, a, z, z.dayOf(t));
  }

  /** Consecutive slots from `a` contain every quarter-hour of a day that lies among them. */
  lemma GridIsFull(slots: seq<Slot>, a: int, z: Zone, d: int)
    requires a % SLOT == 0 && z.dayStart(d) % SLOT == 0 && a <= z.dayStart(d) && z.dayStart(d + 1) <= a + |slots| * SLOT
    requires forall i :: 0 <= i < |slots| ==> slots[i].start == Some(a + i * SLOT)
    ensures DayComplete(slots, z, d)
  {
    forall t | z.dayStart(d) <= t < z.dayStart(d + 1) && OnGridFrom(z.dayStart(d), t) ensures Starts(slots, t) {
      OnGrid(a, z.dayStart(d), t);
      var k := (t - a) / SLOT;
      assert 0 <= k < |slots|;
      assert slots[k].start == Some(t);
    }
  }

  lemma AlignedPlus(a: int, i: int)
    requires a % SLOT == 0
    ensures (a + i * SLOT) % SLOT == 0
  {
    assert a + i * SLOT == SLOT * (a / SLOT + i);
  }

  lemma DayWithin(z: Zone, t: int, first: int, last: int)
    requires Calendar(z) && z.dayStart(first) <= t < z.dayStart(last + 1)
    ensures first <= z.dayOf(t) <= last
    ensures z.dayStart(first) <= z.dayStart(z.dayOf(t)) && z.dayStart(z.dayOf(t) + 1) <= z.dayStart(last + 1)
  {
    var d := z.dayOf(t);
    assert InOwnDay(z, t);
    assert StartsBefore(z, d + 1, first) && StartsBefore(z, last + 1, d);
    assert StartsBefore(z, first, d) && StartsBefore(z, d + 1, last + 1);
  }

  lemma OnGrid(a: int, b: int, t: int)
    requires a % SLOT == 0 && b % SLOT == 0 && a <= b <= t && OnGridFrom(b, t)
    ensures t == a + ((t - a) / SLOT) * SLOT && (t - a) / SLOT >= 0
  {
    assert t - a == SLOT * ((t - b) / SLOT + b / SLOT - a / SLOT);
  }

  /**
   * A price horizon is accepted exactly when its slots are the consecutive quarter-hours of whole local days,
   * whatever their lengths and wherever the next day starts, with live finite prices, around the current time.
   */
  lemma AcceptedIff(slots: seq<Slot>, now: Option<int>, z: Zone)
    requires Calendar(z)
    ensures Judged(slots, now, z, None) <==> exists first, last :: WholeDays(slots, now, z, first, last)
  {
    if Judged(slots, now, z, None) { AcceptedIsWhole(slots, now, z); }
    if first, last :| WholeDays(slots, now, z, first, last) {
      WholeDaysAreComplete(slots, now, z, first, last);
      FirstDayOnQuarter(slots, now, z, first, last);
      WholeDaysAreClean(slots, now, z, first, last);
      forall s | s in slots ensures !s.fixedBackup {
        var i :| 0 <= i < |slots| && slots[i] == s;
      }
    }
  }

  lemma AcceptedIsWhole(slots: seq<Slot>, now: Option<int>, z: Zone)
    requires Calendar(z) && Judged(slots, now, z, None)
    ensures exists first, last :: WholeDays(slots, now, z, first, last)
  {
    CleanIsArithmetic(slots, 0);
    CleanIsArithmetic(slots, |slots| - 1);
    var first, last := z.dayOf(slots[0].start.value), z.dayOf(slots[|slots| - 1].start.value);
    DaysAreOrdered(z, slots[0].start.value, slots[|slots| - 1].start.value);
    WholeBetween(slots, now, z, first, last);
  }

  lemma WholeBetween(slots: seq<Slot>, now: Option<int>, z: Zone, first: int, last: int)
    requires Calendar(z) && Judged(slots, now, z, None) && slots[0].start.Some? && slots[|slots| - 1].start.Some?
    requires first == z.dayOf(slots[0].start.value) && last == z.dayOf(slots[|slots| - 1].start.value) && first <= last
    ensures WholeDays(slots, now, z, first, last)
  {
    DaysAreOrdered(z, slots[0].start.value, slots[|slots| - 1].start.value);
    CompleteDaysAreWhole(slots, z, first, last);
    SlotsFill(slots, z.dayStart(first));
    forall d | HasDay(slots, z, d) ensures OnQuarter(z, d) {
      DayIsNotEmpty(z, d);
      CompleteDayOnQuarter(slots, z, d);
    }
  }

  lemma SlotsFill(slots: seq<Slot>, a: int)
    requires slots != [] && Clean(slots, |slots|) && slots[0].start == Some(a) && !(exists s :: s in slots && s.fixedBackup)
    ensures FilledFrom(slots, a)
  {
    forall i | 0 <= i < |slots| ensures slots[i].start == Some(a + i * SLOT) && slots[i].price.Some? && !slots[i].fixedBackup {
      CleanIsArithmetic(slots, i);
      assert slots[i] in slots;
    }
  }

  /** The verdict is determined: no two reasons fit the same horizon. */
  lemma JudgedOnce(slots: seq<Slot>, now: Option<int>, z: Zone, r: Option<Reason>, q: Option<Reason>)
    requires Judged(slots, now, z, r) && Judged(slots, now, z, q)
    ensures r == q
  {
    if slots != [] && now.Some? && !(exists s :: s in slots && s.fixedBackup) {
      if !Clean(slots, |slots|) {
        var i :| 0 <= i < |slots| && Clean(slots, i) && FaultAt(slots, i) == r;
        var j :| 0 <= j < |slots| && Clean(slots, j) && FaultAt(slots, j) == q;
        assert i == j;
      } else if !DaysComplete(slots, z) {
        assert r.value.day == q.value.day;
      }
    }
  }

  // --- the loops ---------------------------------------------------------------------------------------------

  function EndOf(slots: seq<Slot>): Option<int> {
    if slots != [] && slots[|slots| - 1].start.Some? then Some(slots[|slots| - 1].start.value + SLOT) else None
  }

  function Invalid(r: Reason, slots: seq<Slot>): Status { Status(false, Some(r), |slots|, EndOf(slots)) }

  method AnyFixedBackup(slots: seq<Slot>) returns (b: bool)
    ensures b <==> exists s :: s in slots && s.fixedBackup
  {
    for i := 0 to |slots|
      invariant forall j :: 0 <= j < i ==> !slots[j].fixedBackup
    {
      if slots[i].fixedBackup {
        assert slots[i] in slots;
        return true;
      }
    }
    return false;
  }

  /** The slot loop: the starts collected so far, or the first fault. */
  method CollectStarts(slots: seq<Slot>) returns (starts: seq<int>, fault: Option<Reason>)
    ensures fault == None ==> Clean(slots, |slots|) && |starts| == |slots|
                              && forall i :: 0 <= i < |slots| ==> slots[i].start == Some(starts[i])
    ensures fault != None ==> exists i :: 0 <= i < |slots| && Clean(slots, i) && FaultAt(slots, i) == fault
  {
    starts := [];
    var previous: Option<int> := None;
    for i := 0 to |slots|
      invariant |starts| == i && Clean(slots, i) && forall j :: 0 <= j < i ==> slots[j].start == Some(starts[j])
      invariant previous == if i == 0 then None else Some(starts[i - 1])
    {
      if slots[i].start.None? { return starts, Some(NaiveSlot); }
      if slots[i].price.None? { return starts, Some(NonFinite); }
      var start := slots[i].start.value;
      if start % SLOT != 0 { return starts, Some(Misaligned); }
      if previous.Some? && start <= previous.value { return starts, Some(OutOfOrder); }
      if previous.Some? && start - previous.value != SLOT { return starts, Some(Gap); }
      starts, previous := starts + [start], Some(start);
    }
    fault := None;
  }

  /** The quarter-hours a local day must have. */
  method Expected(z: Zone, d: int) returns (expected: set<int>)
    requires Calendar(z)
    ensures forall t :: t in expected <==> z.dayStart(d) <= t < z.dayStart(d + 1) && OnGridFrom(z.dayStart(d), t)
  {
    var cursor, dayEnd := z.dayStart(d), z.dayStart(d + 1);
    expected := {};
    while cursor < dayEnd
      invariant z.dayStart(d) <= cursor && OnGridFrom(z.dayStart(d), cursor)
      invariant forall t :: t in expected <==> z.dayStart(d) <= t < MinInt(cursor, dayEnd) && OnGridFrom(z.dayStart(d), t)
      decreases dayEnd - cursor
    {
      GridStep(z.dayStart(d), cursor);
      expected := expected + {cursor};
      cursor := cursor + SLOT;
    }
  }

  /** On a grid from `a`, one step past `c` adds `c` itself and nothing else. */
  lemma GridStep(a: int, c: int)
    requires OnGridFrom(a, c)
    ensures OnGridFrom(a, c + SLOT)
    ensures forall t :: c < t < c + SLOT ==> !OnGridFrom(a, t)
  {
  }

  /** The distinct local days of the starts, ascending. */
  method LocalDays(starts: seq<int>, z: Zone) returns (days: seq<int>)
    ensures forall d :: d in days <==> exists i :: 0 <= i < |starts| && z.dayOf(starts[i]) == d
    ensures SortedBy(days, (d: int) => d)
  {
    var seen: seq<int> := [];
    for i := 0 to |starts|
      invariant forall d :: d in seen <==> exists j :: 0 <= j < i && z.dayOf(starts[j]) == d
    {
      var d := z.dayOf(starts[i]);
      if d !in seen { seen := seen + [d]; }
    }
    days := Sort(seen, (d: int) => d);
    SortIsSorted(seen, (d: int) => d);
    assert forall d :: d in days <==> d in multiset(days);
    assert forall d :: d in seen <==> d in multiset(seen);
  }

  method CheckDay(slots: seq<Slot>, present: set<int>, z: Zone, d: int) returns (ok: bool)
    requires Calendar(z) && forall t :: t in present <==> Starts(slots, t)
    ensures ok <==> DayComplete(slots, z, d)
  {
    var expected := Expected(z, d);
    ok := forall t :: t in expected ==> t in present;
  }

  /** The day loop: the first incomplete day, if any. */
  method CheckDays(slots: seq<Slot>, starts: seq<int>, z: Zone) returns (bad: Option<int>)
    requires Calendar(z) && |starts| == |slots| && forall i :: 0 <= i < |slots| ==> slots[i].start == Some(starts[i])
    ensures bad == None <==> DaysComplete(slots, z)
    ensures bad.Some? ==> FirstIncomplete(slots, z, bad.value)
  {
    var present := set t | t in starts;
    assert forall t :: t in present <==> Starts(slots, t);
    var days := LocalDays(starts, z);
    assert forall d :: d in days <==> HasDay(slots, z, d);
    for i := 0 to |days|
      invariant forall j :: 0 <= j < i ==> DayComplete(slots, z, days[j])
    {
      var complete := CheckDay(slots, present, z, days[i]);
      if !complete {
        assert FirstIncomplete(slots, z, days[i]);
        return Some(days[i]);
      }
    }
    bad := None;
  }

  method Validate(slots: seq<Slot>, now: Option<int>, z: Zone) returns (s: Status)
    requires Calendar(z)
    ensures Judged(slots, now, z, s.reason)
    ensures s.ok == s.reason.None? && s.count == |slots| && s.horizonEnd == EndOf(slots)
    ensures match if slots == [] then None else slots[|slots| - 1].start
            case None => s.horizonEnd == None
            case Some(t) => s.horizonEnd == Some(t + 900_000_000)
    ensures s.ok <==> exists first, last :: WholeDays(slots, now, z, first, last)
  {
    AcceptedIff(slots, now, z);
    if slots == [] { return Invalid(Empty, slots); }
    if now.None? { return Invalid(NaiveNow, slots); }
    var backup := AnyFixedBackup(slots);
    if backup { return Invalid(FixedBackup, slots); }
    var starts, fault := CollectStarts(slots);
    if fault.Some? {
      s := Invalid(fault.value, slots);
    } else {
      var bad := CheckDays(slots, starts, z);
      if bad.Some? { return Invalid(Incomplete(bad.value), slots); }
      var horizonEnd := starts[|starts| - 1] + SLOT;
      if !(starts[0] <= now.value < horizonEnd) { return Invalid(NotCovering, slots); }
      s := Status(true, None, |slots|, Some(horizonEnd));
    }
    JudgedNone(slots, now, z, s.reason);
  }

  lemma JudgedNone(slots: seq<Slot>, now: Option<int>, z: Zone, r: Option<Reason>)
    requires Judged(slots, now, z, r)
    ensures r == None <==> Judged(slots, now, z, None)
  {
    if Judged(slots, now, z, None) { JudgedOnce(slots, now, z, r, None); }
  }
}
