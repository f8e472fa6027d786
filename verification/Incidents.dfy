/**
 Device-unreachable incidents (ems/detectors.py): the per-device tracker, the notifications it emits
 and their rebuilding from the notification log after a restart. A payload is known by its key, which
 names device and kind, and by the incident instant its dedupe key embeds.
*/
module Incidents {
  import opened Prelude

  const KNOWN: set<string> := {"battery", "p1"}

  datatype Tracker = Tracker(since: Option<int>, pushSent: bool, contactSince: Option<int>)

  const FRESH := Tracker(None, false, None)

  datatype Kind = Down | Up | Unrelated

  /** A stored notification; `since` is absent when its dedupe key holds no readable instant. */
  datatype Row = Row(kind: Kind, device: string, since: Option<int>)

  datatype Params = Params(threshold: int, stable: int)

  predicate IsDown(t: Tracker, lastFresh: Option<int>, now: int, p: Params) {
    if lastFresh.Some? then now - lastFresh.value >= p.threshold else t.since.Some?
  }

  /** One evaluation of a known device: the tracker it leaves and the payload it emits. */
  function Step(t: Tracker, device: string, lastFresh: Option<int>, now: int, p: Params): (Tracker, Option<Row>) {
    if IsDown(t, lastFresh, now, p) then
      var since := if t.since.Some? then t.since.value else now;
      (Tracker(Some(since), true, None), Some(Row(Down, device, Some(since))))
    else if t.since.None? then (t, None)
    else
      var contact := if t.contactSince.Some? then t.contactSince.value else now;
      if now - contact < p.stable then (t.(contactSince := Some(contact)), None)
      else (FRESH, if t.pushSent then Some(Row(Up, device, t.since)) else None)
  }

  // --- rebuilding ------------------------------------------------------------------------------------------

  function Sinces(log: seq<Row>, kind: Kind, device: string): set<int> {
    set r | r in log && r.kind == kind && r.device == device && r.since.Some? :: r.since.value
  }

  /** Instants with a down key and no matching up key. */
  function OpenSet(log: seq<Row>, device: string): set<int> {
    Sinces(log, Down, device) - Sinces(log, Up, device)
  }

  ghost predicate IsMax(s: set<int>, m: int) { m in s && forall x :: x in s ==> x <= m }

  predicate Inhabited(s: set<int>) { exists x :: x in s }

  lemma {:induction false} SetHasMax(s: set<int>)
    requires Inhabited(s)
    ensures exists m :: IsMax(s, m)
    decreases |s|
  {
    var x :| x in s;
    if forall y :: y in s ==> y <= x {
      assert IsMax(s, x);
    } else {
      var y :| y in s && y > x;
      assert y in s - {x};
      SetHasMax(s - {x});
      var m :| IsMax(s - {x}, m);
      forall z | z in s ensures z <= m {
        assert y in s - {x} && (z == x || z in s - {x});
      }
      assert IsMax(s, m);
    }
  }

  ghost function Latest(s: set<int>): (m: int)
    requires Inhabited(s)
    ensures IsMax(s, m)
  {
    SetHasMax(s);
    var m :| IsMax(s, m);
    m
  }

  /** The tracker a restart finds for one device. */
  ghost function Rebuilt(log: seq<Row>, device: string): Tracker {
    if device in KNOWN && Inhabited(OpenSet(log, device)) then Tracker(Some(Latest(OpenSet(log, device))), true, None) else FRESH
  }

  // --- runs ------------------------------------------------------------------------------------------------

  datatype Op = Evaluate(device: string, lastFresh: Option<int>, now: int) | Restart

  datatype World = World(trackers: map<string, Tracker>, log: seq<Row>)

  function TrackerOf(w: World, d: string): Tracker { if d in w.trackers then w.trackers[d] else FRESH }

  ghost function Apply(w: World, op: Op, p: Params): World {
    match op
    case Restart => World(map d | d in KNOWN && Inhabited(OpenSet(w.log, d)) :: Rebuilt(w.log, d), w.log)
    case Evaluate(d, lastFresh, now) =>
      if d !in KNOWN then w
      else
        var (t, row) := Step(TrackerOf(w, d), d, lastFresh, now, p);
        World(w.trackers[d := t], if row.Some? then w.log + [row.value] else w.log)
  }

  ghost function Run(ops: seq<Op>, n: nat, p: Params): World
    requires n <= |ops|
  {
    if n == 0 then World(map[], []) else Apply(Run(ops, n - 1, p), ops[n - 1], p)
  }

  /** Evaluations happen at or after `start`, in non-decreasing time. */
  ghost predicate Ordered(ops: seq<Op>, start: int) {
    forall i :: 0 <= i < |ops| && ops[i].Evaluate? ==> Clock(ops, i, start) <= ops[i].now
  }

  function Clock(ops: seq<Op>, n: nat, start: int): int
    requires n <= |ops|
  {
    if n == 0 then start
    else if ops[n - 1].Evaluate? then ops[n - 1].now
    else Clock(ops, n - 1, start)
  }

  /** What log and live tracker of one device always have in common. */
  ghost predicate Inv(w: World, d: string, clock: int) {
    var t, downs := TrackerOf(w, d), Sinces(w.log, Down, d);
    && Sinces(w.log, Up, d) <= downs
    && match t.since
       case None => t == FRESH && OpenSet(w.log, d) == {} && forall x :: x in downs ==> x < clock
       case Some(s) =>
         && t.pushSent && OpenSet(w.log, d) == {s} && s <= clock
         && (forall x :: x in downs && x != s ==> x < s)
         && (t.contactSince.Some? ==> s <= t.contactSince.value <= clock)
  }

  lemma SincesGrow(log: seq<Row>, row: Row, kind: Kind, d: string)
    ensures Sinces(log + [row], kind, d)
         == Sinces(log, kind, d) + if row.kind == kind && row.device == d && row.since.Some? then {row.since.value} else {}
  {
    var grown := log + [row];
    assert forall r :: r in grown <==> r in log || r == row;
    if row.kind == kind && row.device == d && row.since.Some? { assert row in grown; }
  }

  lemma EvaluateKeepsInv(w: World, d: string, op: Op, p: Params, clock: int)
    requires p.stable > 0 && Inv(w, d, clock) && d in KNOWN && op.Evaluate? && clock <= op.now
    ensures Inv(Apply(w, op, p), d, op.now)
  {
    if op.device in KNOWN {
      var (t, row) := Step(TrackerOf(w, op.device), op.device, op.lastFresh, op.now, p);
      if row.Some? {
        SincesGrow(w.log, row.value, Down, d);
        SincesGrow(w.log, row.value, Up, d);
      }
    }
  }

  lemma RestartKeepsInv(w: World, d: string, p: Params, clock: int)
    requires Inv(w, d, clock) && d in KNOWN
    ensures Inv(Apply(w, Restart, p), d, clock)
  {
  }

  lemma {:induction false} RunKeepsInv(ops: seq<Op>, n: nat, p: Params, d: string, start: int)
    requires p.stable > 0 && d in KNOWN && Ordered(ops, start) && n <= |ops|
    ensures Inv(Run(ops, n, p), d, Clock(ops, n, start))
  {
    if n > 0 {
      RunKeepsInv(ops, n - 1, p, d, start);
      if ops[n - 1].Evaluate? {
        EvaluateKeepsInv(Run(ops, n - 1, p), d, ops[n - 1], p, Clock(ops, n - 1, start));
      } else {
        RestartKeepsInv(Run(ops, n - 1, p), d, p, Clock(ops, n - 1, start));
      }
    } else {
      assert Sinces([], Down, d) == {} == Sinces([], Up, d);
    }
  }

  /** The live incident and the one a restart would find, and the tracker that remembers whether it was pushed. */
  ghost predicate Recoverable(ops: seq<Op>, n: nat, p: Params, d: string)
    requires n <= |ops|
  {
    var live, found := TrackerOf(Run(ops, n, p), d), Rebuilt(Run(ops, n, p).log, d);
    live.since == found.since && live.pushSent == found.pushSent
  }

  /** With a positive stable window, the log alone always gives back the live incident. */
  lemma IncidentIsInItsLog(ops: seq<Op>, n: nat, p: Params, d: string, start: int)
    requires p.stable > 0 && d in KNOWN && Ordered(ops, start) && n <= |ops|
    ensures Recoverable(ops, n, p, d)
  {
    RunKeepsInv(ops, n, p, d, start);
  }

  /** Down, up and down again at one instant: possible when no stable window is required. */
  function SameInstant(p: Params, d: string): seq<Op> {
    [Evaluate(d, Some(-p.threshold), 0), Evaluate(d, Some(1 - p.threshold), 0), Evaluate(d, Some(-p.threshold), 0)]
  }

  lemma ZeroWindowReusesKey(p: Params, d: string)
    requires p.stable <= 0 && d in KNOWN
    ensures Ordered(SameInstant(p, d), 0) && !Recoverable(SameInstant(p, d), 3, p, d)
  {
    var ops := SameInstant(p, d);
    var down, up := Row(Down, d, Some(0)), Row(Up, d, Some(0));
    assert Run(ops, 0, p) == World(map[], []);
    assert Run(ops, 1, p) == World(map[d := Tracker(Some(0), true, None)], [down]);
    assert Run(ops, 2, p).trackers[d] == FRESH && Run(ops, 2, p).log == [down, up];
    assert Run(ops, 3, p).trackers[d].since == Some(0) && Run(ops, 3, p).log == [down, up, down];
    AnsweredIsClosed(d);
  }

  lemma AnsweredIsClosed(d: string)
    ensures !Inhabited(OpenSet([Row(Down, d, Some(0)), Row(Up, d, Some(0)), Row(Down, d, Some(0))], d))
  {
    var log := [Row(Down, d, Some(0)), Row(Up, d, Some(0)), Row(Down, d, Some(0))];
    assert log[1] in log;
    assert 0 in Sinces(log, Up, d);
    assert forall x :: x in Sinces(log, Down, d) ==> x == 0;
  }

  /** Incidents are recoverable from their log in every ordered run exactly when the stable window is positive. */
  lemma RecoverableIff(p: Params, d: string)
    requires d in KNOWN
    ensures (forall ops, start :: Ordered(ops, start) ==> Recoverable(ops, |ops|, p, d)) <==> p.stable > 0
  {
    if p.stable > 0 {
      forall ops, start | Ordered(ops, start) ensures Recoverable(ops, |ops|, p, d) {
        IncidentIsInItsLog(ops, |ops|, p, d, start);
      }
    } else {
      ZeroWindowReusesKey(p, d);
      assert |SameInstant(p, d)| == 3;
    }
  }

  // --- what is announced -------------------------------------------------------------------------------

  /** The last fresh reading lies at least the threshold back, or there is none while an incident is open. */
  predicate OutOfContact(since: Option<int>, lastFresh: Option<int>, now: int, p: Params) {
    (lastFresh.Some? && lastFresh.value + p.threshold <= now) || (lastFresh.None? && since.Some?)
  }

  /** Every evaluation out of contact announces the open incident, or opens one now; no other announces an outage. */
  lemma OutageIsAnnouncedIff(ops: seq<Op>, n: nat, p: Params, d: string)
    requires n < |ops| && d in KNOWN && ops[n].Evaluate? && ops[n].device == d
    ensures var before, after, row := TrackerOf(Run(ops, n, p), d), TrackerOf(Run(ops, n + 1, p), d), Emitted(ops, n, p, d);
            && (row.Some? && row.value.kind == Down <==> OutOfContact(before.since, ops[n].lastFresh, ops[n].now, p))
            && (OutOfContact(before.since, ops[n].lastFresh, ops[n].now, p) ==>
                  && row == Some(Row(Down, d, after.since)) && after.contactSince.None? && after.pushSent
                  && after.since == Some(if before.since.Some? then before.since.value else ops[n].now)
                  && Run(ops, n + 1, p).log == Run(ops, n, p).log + [row.value])
            && (before.since.None? && !OutOfContact(before.since, ops[n].lastFresh, ops[n].now, p) ==> row.None? && after == before)
  {
  }

  /** Contact seen at an evaluation of an open incident: the window starts, goes on, or ends with the up key. */
  lemma ContactStep(ops: seq<Op>, n: nat, p: Params, d: string)
    requires n < |ops| && d in KNOWN && ops[n].Evaluate? && ops[n].device == d
    requires var t := TrackerOf(Run(ops, n, p), d);
             t.since.Some? && !OutOfContact(t.since, ops[n].lastFresh, ops[n].now, p)
    ensures var before, after := TrackerOf(Run(ops, n, p), d), TrackerOf(Run(ops, n + 1, p), d);
            var from := if before.contactSince.Some? then before.contactSince.value else ops[n].now;
            if ops[n].now - from < p.stable then after == before.(contactSince := Some(from)) && Emitted(ops, n, p, d).None?
            else after == FRESH && Emitted(ops, n, p, d) == if before.pushSent then Some(Row(Up, d, before.since)) else None
  {
  }

  /** From step n up to step m the process does not restart and every evaluation of the device finds it in contact. */
  ghost predicate SteadyContact(ops: seq<Op>, n: nat, m: nat, p: Params, d: string)
    requires n <= m <= |ops|
  {
    forall k :: n <= k < m ==>
      ops[k].Evaluate? && (ops[k].device == d ==> ops[k].lastFresh.Some? && ops[k].now - ops[k].lastFresh.value < p.threshold)
  }

  ghost predicate UpBetween(ops: seq<Op>, n: nat, m: nat, p: Params, d: string)
    requires n <= m <= |ops|
  {
    exists k :: n <= k < m && Emitted(ops, k, p, d).Some? && Emitted(ops, k, p, d).value.kind == Up
  }

  lemma {:induction false} WindowRuns(ops: seq<Op>, n: nat, m: nat, p: Params, d: string)
    requires d in KNOWN && n < m <= |ops| && SteadyContact(ops, n, m, p, d) && ops[n].device == d
    requires var t := TrackerOf(Run(ops, n, p), d); t.since.Some? && t.pushSent && t.contactSince.None?
    ensures UpBetween(ops, n, m, p, d)
            || (TrackerOf(Run(ops, m, p), d)
                == Tracker(TrackerOf(Run(ops, n, p), d).since, true, Some(ops[n].now)))
  {
    var k := m - 1;
    assert ops[k].Evaluate?;
    if k > n {
      WindowRuns(ops, n, k, p, d);
      if UpBetween(ops, n, k, p, d) {
        var i :| n <= i < k && Emitted(ops, i, p, d).Some? && Emitted(ops, i, p, d).value.kind == Up;
        assert UpBetween(ops, n, m, p, d);
      } else if ops[k].device == d {
        ContactStep(ops, k, p, d);
      }
    } else {
      ContactStep(ops, k, p, d);
    }
  }

  /** Recovery is announced: once a pushed incident has been in steady contact for the stable window, its up key has been sent. */
  lemma RecoveryIsAnnounced(ops: seq<Op>, n: nat, m: nat, p: Params, d: string)
    requires d in KNOWN && n <= m < |ops| && SteadyContact(ops, n, m + 1, p, d) && ops[n].device == d && ops[m].device == d
    requires var t := TrackerOf(Run(ops, n, p), d); t.since.Some? && t.pushSent && t.contactSince.None?
    requires ops[m].now - ops[n].now >= p.stable
    ensures UpBetween(ops, n, m + 1, p, d)
  {
    assert ops[m].Evaluate? && ops[n].Evaluate?;
    if n < m {
      WindowRuns(ops, n, m, p, d);
      if UpBetween(ops, n, m, p, d) {
        var i :| n <= i < m && Emitted(ops, i, p, d).Some? && Emitted(ops, i, p, d).value.kind == Up;
        assert UpBetween(ops, n, m + 1, p, d);
      } else {
        ContactStep(ops, m, p, d);
      }
    } else {
      ContactStep(ops, m, p, d);
    }
  }

  // --- keys and windows --------------------------------------------------------------------------------

  /** Instants at which an incident of the device opened. */
  ghost function Openings(ops: seq<Op>, n: nat, p: Params, d: string): seq<int>
    requires n <= |ops|
  {
    if n == 0 then []
    else
      var before, after := TrackerOf(Run(ops, n - 1, p), d), TrackerOf(Run(ops, n, p), d);
      Openings(ops, n - 1, p, d) + if before.since.None? && after.since.Some? then [after.since.value] else []
  }

  /** Every incident has its own instant, and the down keys ever stored are exactly those instants: one key each. */
  lemma {:induction false} OneDownKeyPerIncident(ops: seq<Op>, n: nat, p: Params, d: string, start: int)
    requires p.stable > 0 && d in KNOWN && Ordered(ops, start) && n <= |ops|
    ensures forall i, j :: 0 <= i < j < |Openings(ops, n, p, d)| ==> Openings(ops, n, p, d)[i] < Openings(ops, n, p, d)[j]
    ensures forall x :: x in Openings(ops, n, p, d) <==> x in Sinces(Run(ops, n, p).log, Down, d)
  {
    if n > 0 {
      OneDownKeyPerIncident(ops, n - 1, p, d, start);
      RunKeepsInv(ops, n - 1, p, d, start);
      NewDownKey(Run(ops, n - 1, p), ops[n - 1], p, d, Clock(ops, n - 1, start));
      var before, grown := Openings(ops, n - 1, p, d), Openings(ops, n, p, d);
      forall i, j | 0 <= i < j < |grown| ensures grown[i] < grown[j] {
        assert before[i] in before;
      }
    } else {
      assert Sinces([], Down, d) == {};
    }
  }

  /** A step adds a down key exactly when it opens an incident, and then a later one than any before. */
  lemma NewDownKey(w: World, op: Op, p: Params, d: string, clock: int)
    requires Inv(w, d, clock) && d in KNOWN && (op.Evaluate? ==> clock <= op.now)
    ensures var before, after, downs := TrackerOf(w, d), TrackerOf(Apply(w, op, p), d), Sinces(w.log, Down, d);
            if before.since.None? && after.since.Some?
            then Sinces(Apply(w, op, p).log, Down, d) == downs + {after.since.value} && forall x :: x in downs ==> x < after.since.value
            else Sinces(Apply(w, op, p).log, Down, d) == downs
  {
    if op.Evaluate? && op.device in KNOWN {
      var (t, row) := Step(TrackerOf(w, op.device), op.device, op.lastFresh, op.now, p);
      if row.Some? { SincesGrow(w.log, row.value, Down, d); }
    }
  }

  /** Evaluations of the device from step j on all found contact, and no restart came between. */
  ghost predicate InContact(ops: seq<Op>, j: nat, n: nat, p: Params, d: string)
    requires j <= n <= |ops|
  {
    forall k :: j <= k < n ==>
      ops[k].Evaluate? && (ops[k].device == d ==> !IsDown(TrackerOf(Run(ops, k, p), d), ops[k].lastFresh, ops[k].now, p))
  }

  /** The recovery clock was started by an evaluation that found contact, and only contact since. */
  ghost predicate ContactFrom(ops: seq<Op>, j: nat, n: nat, p: Params, d: string, c: int)
    requires n <= |ops|
  {
    j < n && InContact(ops, j, n, p, d) && ops[j].device == d && ops[j].now == c
  }

  lemma {:induction false} ContactHasStart(ops: seq<Op>, n: nat, p: Params, d: string)
    requires d in KNOWN && n <= |ops| && TrackerOf(Run(ops, n, p), d).contactSince.Some?
    ensures exists j: nat :: ContactFrom(ops, j, n, p, d, TrackerOf(Run(ops, n, p), d).contactSince.value)
  {
    var c := TrackerOf(Run(ops, n, p), d).contactSince.value;
    var before := TrackerOf(Run(ops, n - 1, p), d);
    if before.contactSince.Some? {
      ContactHasStart(ops, n - 1, p, d);
      var j: nat :| ContactFrom(ops, j, n - 1, p, d, before.contactSince.value);
      assert ContactFrom(ops, j, n, p, d, c);
    } else {
      assert ContactFrom(ops, n - 1, n, p, d, c);
    }
  }

  /** The payload step n emits for a device, if any. */
  ghost function Emitted(ops: seq<Op>, n: nat, p: Params, d: string): Option<Row>
    requires n < |ops|
  {
    if ops[n].Evaluate? && ops[n].device == d && d in KNOWN
    then Step(TrackerOf(Run(ops, n, p), d), d, ops[n].lastFresh, ops[n].now, p).1
    else None
  }

  /** An up key is emitted only at the end of a full stable window of contact, with no down evaluation and no restart in it. */
  lemma UpEndsStableWindow(ops: seq<Op>, n: nat, p: Params, d: string)
    requires p.stable > 0 && n < |ops| && Emitted(ops, n, p, d).Some? && Emitted(ops, n, p, d).value.kind == Up
    ensures exists j: nat :: j < n && InContact(ops, j, n + 1, p, d) && ops[j].device == d && ops[n].now - ops[j].now >= p.stable
  {
    ContactHasStart(ops, n, p, d);
    var c := TrackerOf(Run(ops, n, p), d).contactSince.value;
    var j: nat :| ContactFrom(ops, j, n, p, d, c);
    assert InContact(ops, j, n + 1, p, d);
  }

  /** An up key closes the incident that was open, which had been pushed: its down key is in the log. */
  lemma UpAnswersItsDown(ops: seq<Op>, n: nat, p: Params, d: string, start: int)
    requires p.stable > 0 && Ordered(ops, start) && n < |ops|
    requires Emitted(ops, n, p, d).Some? && Emitted(ops, n, p, d).value.kind == Up
    ensures var s := Emitted(ops, n, p, d).value.since;
            && s.Some? && s == TrackerOf(Run(ops, n, p), d).since && TrackerOf(Run(ops, n + 1, p), d) == FRESH
            && s.value in Sinces(Run(ops, n, p).log, Down, d) && s.value !in Sinces(Run(ops, n, p).log, Up, d)
  {
    RunKeepsInv(ops, n, p, d, start);
    var s := TrackerOf(Run(ops, n, p), d).since.value;
    assert s in OpenSet(Run(ops, n, p).log, d);
  }
}

/** The mutable tracker, and the loop that rebuilds trackers from stored rows. */
module DeviceTrackers {
  import opened Prelude
  import Spec = Incidents

  class DeviceUnreachableState {
    var incidentSince: Option<int>
    var downPushSent: bool
    var contactSince: Option<int>

    ghost function View(): Spec.Tracker
      reads this
    {
      Spec.Tracker(incidentSince, downPushSent, contactSince)
    }

    constructor (since: Option<int>, pushSent: bool)
      ensures View() == Spec.Tracker(since, pushSent, None)
    {
      incidentSince, downPushSent, contactSince := since, pushSent, None;
    }

    method DeviceUnreachable(device: string, lastFreshAt: Option<int>, now: int, p: Spec.Params) returns (payload: Option<Spec.Row>)
      modifies this
      ensures device !in Spec.KNOWN ==> View() == old(View()) && payload == None
      ensures device in Spec.KNOWN ==> (View(), payload) == Spec.Step(old(View()), device, lastFreshAt, now, p)
    {
      if device !in Spec.KNOWN { return None; }
      var isDown := lastFreshAt.Some? && now - lastFreshAt.value >= p.threshold;
      if lastFreshAt.None? && incidentSince.Some? { isDown := true; }
      if isDown {
        contactSince := None;
        if incidentSince.None? { incidentSince := Some(now); }
        payload := Some(Spec.Row(Spec.Down, device, incidentSince));
        downPushSent := true;
        return;
      }
      if incidentSince.None? { return None; }
      if contactSince.None? { contactSince := Some(now); }
      if now - contactSince.value < p.stable { return None; }
      var incident, sent := incidentSince, downPushSent;
      incidentSince, downPushSent, contactSince := None, false, None;
      payload := if sent then Some(Spec.Row(Spec.Up, device, incident)) else None;
    }
  }

  /** Down and up instants gathered per device from the first n rows. */
  ghost predicate Gathered(rows: seq<Spec.Row>, kind: Spec.Kind, gathered: map<string, set<int>>) {
    && (forall d :: d in gathered ==> d in Spec.KNOWN)
    && (forall d :: d in Spec.KNOWN ==> Spec.Sinces(rows, kind, d) == if d in gathered then gathered[d] else {})
  }

  method Gather(rows: seq<Spec.Row>, kind: Spec.Kind) returns (instants: map<string, set<int>>)
    ensures Gathered(rows, kind, instants)
  {
    instants := map[];
    for i := 0 to |rows|
      invariant Gathered(rows[..i], kind, instants)
    {
      var row := rows[i];
      assert rows[..i + 1] == rows[..i] + [row];
      forall d ensures Spec.Sinces(rows[..i + 1], kind, d)
                    == Spec.Sinces(rows[..i], kind, d) + if row.kind == kind && row.device == d && row.since.Some? then {row.since.value} else {}
      {
        Spec.SincesGrow(rows[..i], row, kind, d);
      }
      if row.kind == kind && row.device in Spec.KNOWN && row.since.Some? {
        var known := if row.device in instants then instants[row.device] else {};
        instants := instants[row.device := known + {row.since.value}];
      }
    }
    assert rows[..|rows|] == rows;
  }

  method Greatest(s: set<int>) returns (m: int)
    requires Spec.Inhabited(s)
    ensures m == Spec.Latest(s)
  {
    m :| m in s;
    var rest := s - {m};
    while exists x :: x in rest
      invariant rest <= s && m in s && forall x :: x in s && x !in rest ==> x <= m
      decreases |rest|
    {
      var x :| x in rest;
      if x > m { m := x; }
      rest := rest - {x};
    }
    assert Spec.IsMax(s, m);
  }

  /** Trackers of the devices with an open incident; a device not returned starts fresh. */
  method OpenIncidents(rows: seq<Spec.Row>) returns (out: map<string, Spec.Tracker>)
    ensures forall d :: d in out <==> d in Spec.KNOWN && Spec.Inhabited(Spec.OpenSet(rows, d))
    ensures forall d :: d in out ==> out[d] == Spec.Rebuilt(rows, d)
  {
    var downs := Gather(rows, Spec.Down);
    var ups := Gather(rows, Spec.Up);
    out := map[];
    var left := downs.Keys;
    while exists d :: d in left
      invariant left <= downs.Keys
      invariant forall d :: d in out <==> d in downs && d !in left && Spec.Inhabited(Spec.OpenSet(rows, d))
      invariant forall d :: d in out ==> out[d] == Spec.Rebuilt(rows, d)
      decreases |left|
    {
      var device :| device in left;
      left := left - {device};
      var tracker := OpenIncident(rows, downs, ups, device);
      if tracker.Some? { out := out[device := tracker.value]; }
    }
    forall d | d in Spec.KNOWN && Spec.Inhabited(Spec.OpenSet(rows, d)) ensures d in downs {
      var x :| x in Spec.OpenSet(rows, d);
    }
  }

  method OpenIncident(rows: seq<Spec.Row>, downs: map<string, set<int>>, ups: map<string, set<int>>, device: string)
    returns (tracker: Option<Spec.Tracker>)
    requires device in downs && Gathered(rows, Spec.Down, downs) && Gathered(rows, Spec.Up, ups)
    ensures tracker == if Spec.Inhabited(Spec.OpenSet(rows, device)) then Some(Spec.Rebuilt(rows, device)) else None
  {
    var open := downs[device] - if device in ups then ups[device] else {};
    assert open == Spec.OpenSet(rows, device);
    if exists x :: x in open {
      var since := Greatest(open);
      tracker := Some(Spec.Tracker(Some(since), true, None));
    } else {
      tracker := None;
    }
  }
}
