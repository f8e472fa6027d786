/**
 The floor anti-flap latch (ems/control/safety.py): at or below the reserve, routine intents collapse
 to the one safe mode the battery is in, so that hold and self-consumption cannot alternate.
*/
module FloorAntiFlap {
  import opened Prelude
  import opened Domain
  import opened Hysteresis
  import ModeControl

  datatype Note = Quiet | Staying | Entering

  datatype Resolution = Resolution(intent: Intent, note: Note, holding: bool)

  predicate Routine(intent: Intent) { intent.HoldReserve? || intent.AllowSelfConsumption? }

  predicate Safe(mode: Option<Mode>) { mode == Some(Auto) || mode == Some(Idle) }

  function Resolve(intent: Intent, soc: Option<real>, floor: real, observed: Option<Mode>, holding: bool, resume: real): Resolution {
    if !Routine(intent) || soc.None? then Resolution(intent, Quiet, false)
    else if !Latch(holding, soc.value, floor, floor + resume) then Resolution(intent, Quiet, false)
    else
      var latched := if observed == Some(Idle) then HoldReserve else AllowSelfConsumption;
      if !Safe(observed) then Resolution(latched, Entering, true)
      else if latched == intent then Resolution(latched, Quiet, true)
      else Resolution(latched, Staying, true)
  }

  /** The mode the controller commands for a resolved intent. */
  function Commanded(r: Resolution, allowExport: bool, carSession: bool): Mode {
    ModeControl.IntentToMode(r.intent, allowExport, carSession)
  }

  /** The latch is on exactly for a routine intent with a known charge at or below the floor, or, once on, below the floor plus the margin. */
  lemma LatchedIff(intent: Intent, soc: Option<real>, floor: real, observed: Option<Mode>, holding: bool, resume: real)
    ensures var r := Resolve(intent, soc, floor, observed, holding, resume);
            && (r.holding <==> (intent.HoldReserve? || intent.AllowSelfConsumption?) && soc.Some?
                               && (if holding then soc.value < floor + resume else soc.value <= floor))
            && (!r.holding ==> r.intent == intent && r.note == Quiet)
            && (r.note == Entering <==> r.holding && observed != Some(Auto) && observed != Some(Idle))
            && (r.note == Staying <==> r.holding && r.intent != intent && (observed == Some(Auto) || observed == Some(Idle)))
  {
  }

  /** The latch acts only on routine intents, and then only to keep a safe mode or to enter AUTO. */
  lemma LatchKeepsSafeMode(intent: Intent, soc: Option<real>, floor: real, observed: Option<Mode>, holding: bool, resume: real,
                           allowExport: bool, carSession: bool)
    ensures var r := Resolve(intent, soc, floor, observed, holding, resume);
            && (r.intent != intent ==> r.holding && Routine(intent))
            && (r.holding ==>
                  soc.Some? && Routine(r.intent)
                  && Commanded(r, allowExport, carSession) == (if Safe(observed) then observed.value else Auto))
  {
  }

  // --- a latched run -------------------------------------------------------------------------------------

  datatype Cycle = Cycle(intent: Intent, soc: Option<real>, observed: Option<Mode>)

  datatype Site = Site(floor: real, resume: real, allowExport: bool, carSession: bool)

  function LatchAfter(s: Site, start: bool, cycles: seq<Cycle>, n: nat): bool
    requires n <= |cycles|
  {
    if n == 0 then start
    else
      var c := cycles[n - 1];
      Resolve(c.intent, c.soc, s.floor, c.observed, LatchAfter(s, start, cycles, n - 1), s.resume).holding
  }

  function CommandAt(s: Site, start: bool, cycles: seq<Cycle>, i: nat): Mode
    requires i < |cycles|
  {
    var c := cycles[i];
    Commanded(Resolve(c.intent, c.soc, s.floor, c.observed, LatchAfter(s, start, cycles, i), s.resume), s.allowExport, s.carSession)
  }

  /** Off the latch the plan is commanded: exporting needs the permission, serving the house the car session. */
  lemma PlanIsCommanded(s: Site, start: bool, cycles: seq<Cycle>, i: nat)
    requires i < |cycles| && !LatchAfter(s, start, cycles, i + 1)
    ensures var intent, mode := cycles[i].intent, CommandAt(s, start, cycles, i);
            && (mode.Charge? <==> intent.GridChargeToTarget?) && (mode.Idle? <==> intent.HoldReserve?)
            && (mode.Discharge? <==> (intent.DischargeForLoad? && s.carSession) || (intent.ExportForProfit? && s.allowExport))
  {
    var c := cycles[i];
    LatchedIff(c.intent, c.soc, s.floor, c.observed, LatchAfter(s, start, cycles, i), s.resume);
  }

  /** The observed mode follows the commands: each cycle it is what it was, or what was last commanded. */
  ghost predicate Follows(s: Site, start: bool, cycles: seq<Cycle>) {
    forall i :: 0 < i < |cycles| ==>
      cycles[i].observed == cycles[i - 1].observed || cycles[i].observed == Some(CommandAt(s, start, cycles, i - 1))
  }

  ghost predicate Latched(s: Site, start: bool, cycles: seq<Cycle>) {
    forall n :: 0 < n <= |cycles| ==> LatchAfter(s, start, cycles, n)
  }

  function Changes(cycles: seq<Cycle>, n: nat): nat
    requires n <= |cycles|
  {
    if n <= 1 then 0 else Changes(cycles, n - 1) + if cycles[n - 1].observed != cycles[n - 2].observed then 1 else 0
  }

  /** While latched the mode changes at most once, only out of an unsafe mode, only into AUTO, whatever the plan asks. */
  lemma {:induction false} LatchedChangesOnce(s: Site, start: bool, cycles: seq<Cycle>, n: nat)
    requires Follows(s, start, cycles) && Latched(s, start, cycles) && 0 < n <= |cycles|
    ensures Changes(cycles, n) <= 1
    ensures if Changes(cycles, n) == 0 then cycles[n - 1].observed == cycles[0].observed
            else !Safe(cycles[0].observed) && cycles[n - 1].observed == Some(Auto)
  {
    if n > 1 {
      LatchedChangesOnce(s, start, cycles, n - 1);
      var c := cycles[n - 2];
      assert LatchAfter(s, start, cycles, n - 1);
      LatchKeepsSafeMode(c.intent, c.soc, s.floor, c.observed, LatchAfter(s, start, cycles, n - 2), s.resume, s.allowExport, s.carSession);
      assert CommandAt(s, start, cycles, n - 2) == if Safe(c.observed) then c.observed.value else Auto;
    }
  }

  /** Every latched command after a safe observation repeats that mode: nothing is written at the floor. */
  lemma SafeModeIsNeverLeft(s: Site, start: bool, cycles: seq<Cycle>, n: nat)
    requires Follows(s, start, cycles) && Latched(s, start, cycles) && n < |cycles| && Safe(cycles[0].observed)
    ensures cycles[n].observed == cycles[0].observed == Some(CommandAt(s, start, cycles, n))
  {
    LatchedChangesOnce(s, start, cycles, n + 1);
    var c := cycles[n];
    assert LatchAfter(s, start, cycles, n + 1);
    LatchKeepsSafeMode(c.intent, c.soc, s.floor, c.observed, LatchAfter(s, start, cycles, n), s.resume, s.allowExport, s.carSession);
  }

  function Socs(cycles: seq<Cycle>): (r: seq<real>)
    requires forall i :: 0 <= i < |cycles| ==> cycles[i].soc.Some?
    ensures |r| == |cycles| && forall i :: 0 <= i < |r| ==> r[i] == cycles[i].soc.value
  {
    seq(|cycles|, i requires 0 <= i < |cycles| => cycles[i].soc.value)
  }

  /** On routine intents with a known state of charge, this is a two-threshold latch. */
  lemma {:induction false} LatchIsHysteresis(s: Site, start: bool, cycles: seq<Cycle>, n: nat)
    requires n <= |cycles| && forall i :: 0 <= i < |cycles| ==> cycles[i].soc.Some? && Routine(cycles[i].intent)
    ensures LatchAfter(s, start, cycles, n) == Holding(start, Socs(cycles), s.floor, s.floor + s.resume, n)
  {
    if n > 0 { LatchIsHysteresis(s, start, cycles, n - 1); }
  }

  function LatchFlips(s: Site, start: bool, cycles: seq<Cycle>, n: nat): nat
    requires n <= |cycles|
  {
    if n == 0 then 0
    else LatchFlips(s, start, cycles, n - 1)
         + if LatchAfter(s, start, cycles, n) != LatchAfter(s, start, cycles, n - 1) then 1 else 0
  }

  lemma {:induction false} LatchFlipsAreFlips(s: Site, start: bool, cycles: seq<Cycle>, n: nat)
    requires n <= |cycles| && forall i :: 0 <= i < |cycles| ==> cycles[i].soc.Some? && Routine(cycles[i].intent)
    ensures LatchFlips(s, start, cycles, n) == Flips(start, Socs(cycles), s.floor, s.floor + s.resume, n)
  {
    if n > 0 {
      LatchFlipsAreFlips(s, start, cycles, n - 1);
      LatchIsHysteresis(s, start, cycles, n);
      LatchIsHysteresis(s, start, cycles, n - 1);
    }
  }

  /** On routine intents the floor latch flips at most once plus the state of charge's total variation per resume margin. */
  lemma LatchFlipsAreBounded(s: Site, start: bool, cycles: seq<Cycle>, n: nat)
    requires s.resume > 0.0 && n <= |cycles| && forall i :: 0 <= i < |cycles| ==> cycles[i].soc.Some? && Routine(cycles[i].intent)
    ensures LatchFlips(s, start, cycles, n) as real <= 1.0 + Variation(Socs(cycles), n) / s.resume
  {
    LatchFlipsAreFlips(s, start, cycles, n);
    FlipsAreBounded(start, Socs(cycles), s.floor, s.floor + s.resume, s.resume, n);
  }
}
