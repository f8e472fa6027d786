/**
 Ownership safety over every interleaving of lifecycle events and control decisions: what must have
 happened, in the recorded history, before the controller may write to the battery.
*/
module OwnershipRuns {
  import opened Prelude
  import Ownership
  import opened Domain
  import opened ModeControl

  datatype Op =
    | Start(now: int)
    | SensorsValidated
    | ProbeOk
    | PlanLoaded
    | Override(now: int, duration: int)
    | ReturnToDefault
    | Tick(now: int)
    | Decision(call: Call, dev: Device)

  datatype System = System(life: Ownership.State, ctl: Ctl)

  function Writes(cfg: Config, s: System, op: Op): seq<Write> {
    if op.Decision? then Decide(cfg, s.ctl, Ownership.CanCommand(s.life, op.call.now), op.call, op.dev).2 else []
  }

  function Step(cfg: Config, s: System, op: Op): System {
    match op
    case Start(now) => s.(life := Ownership.Start(s.life, now))
    case SensorsValidated => s.(life := s.life.(sensorsOk := true))
    case ProbeOk => s.(life := s.life.(probeOk := true))
    case PlanLoaded => s.(life := s.life.(planLoaded := true))
    case Override(now, duration) => s.(life := Ownership.StartOverride(s.life, now, duration))
    case ReturnToDefault => s.(life := Ownership.ReturnToDefault(s.life))
    case Tick(now) => s.(life := Ownership.Tick(s.life, now))
    case Decision(call, dev) =>
      s.(ctl := Decide(cfg, s.ctl, Ownership.CanCommand(s.life, call.now), call, dev).0)
  }

  /** State after the first n operations of a fresh process. */
  function After(cfg: Config, dryRun: bool, grace: int, ops: seq<Op>, n: nat): System
    requires n <= |ops|
  {
    if n == 0 then System(Ownership.Fresh(dryRun, grace), FRESH)
    else Step(cfg, After(cfg, dryRun, grace, ops, n - 1), ops[n - 1])
  }

  predicate Resets(op: Op) { op.Start? || op.ReturnToDefault? }

  ghost predicate NoResetIn(ops: seq<Op>, j: int, n: nat)
    requires 0 <= j && n <= |ops|
  {
    forall m :: j < m < n ==> !Resets(ops[m])
  }

  ghost predicate NoStartIn(ops: seq<Op>, j: int, n: nat)
    requires 0 <= j && n <= |ops|
  {
    forall m :: j < m < n ==> !ops[m].Start?
  }

  /** `mark` happened, and readiness has not been reset since. */
  ghost predicate MarkedSinceReset(ops: seq<Op>, n: nat, mark: Op)
    requires n <= |ops|
  {
    exists j :: 0 <= j < n && ops[j] == mark && NoResetIn(ops, j, n)
  }

  /** A tick after operation j, at instant t or later. */
  ghost predicate TickedSince(ops: seq<Op>, j: int, n: nat, t: int)
    requires 0 <= j && n <= |ops|
  {
    exists m :: j < m < n && ops[m].Tick? && ops[m].now >= t
  }

  /** Some tick since the latest start found the startup grace over. */
  ghost predicate GraceSeenOver(ops: seq<Op>, n: nat, grace: int)
    requires n <= |ops|
  {
    exists j :: 0 <= j < n && ops[j].Start? && NoStartIn(ops, j, n) && TickedSince(ops, j, n, ops[j].now + grace)
  }

  /** Nothing since operation j has replaced or cancelled an override. */
  ghost predicate Untouched(ops: seq<Op>, j: int, n: nat)
    requires 0 <= j && n <= |ops|
  {
    forall m :: j < m < n ==> !Resets(ops[m]) && !ops[m].Override?
  }

  /** Every override that nothing has replaced or cancelled has run out by `now`, or a tick has found that it has. */
  ghost predicate OverridesEnded(ops: seq<Op>, n: nat, now: int)
    requires n <= |ops|
  {
    forall j :: 0 <= j < n && ops[j].Override? && Untouched(ops, j, n)
      ==> now >= ops[j].now + ops[j].duration || TickedSince(ops, j, n, ops[j].now + ops[j].duration)
  }

  /** The latest start lies at least the startup grace before `now`. */
  ghost predicate StartedBefore(ops: seq<Op>, n: nat, now: int, grace: int)
    requires n <= |ops|
  {
    exists j :: 0 <= j < n && ops[j].Start? && now - ops[j].now >= grace && NoStartIn(ops, j, n)
  }

  /** Every override that nothing has replaced or cancelled has run out by `now`. */
  ghost predicate OverridesLapsed(ops: seq<Op>, n: nat, now: int)
    requires n <= |ops|
  {
    forall j :: 0 <= j < n && ops[j].Override? && Untouched(ops, j, n) ==> now >= ops[j].now + ops[j].duration
  }

  function TimeOf(op: Op): Option<int> {
    match op
    case Start(now) => Some(now)
    case Override(now, _) => Some(now)
    case Tick(now) => Some(now)
    case Decision(call, _) => Some(call.now)
    case _ => None
  }

  ghost predicate TimeMovesForward(ops: seq<Op>) {
    forall i, j :: 0 <= i < j < |ops| && TimeOf(ops[i]).Some? && TimeOf(ops[j]).Some? ==> TimeOf(ops[i]).value <= TimeOf(ops[j]).value
  }

  /** How the flags of the lifecycle reflect the recorded history. */
  ghost predicate Reflects(ops: seq<Op>, n: nat, l: Ownership.State)
    requires n <= |ops|
  {
    && (l.sensorsOk ==> MarkedSinceReset(ops, n, SensorsValidated))
    && (l.probeOk ==> MarkedSinceReset(ops, n, ProbeOk))
    && (l.planLoaded ==> MarkedSinceReset(ops, n, PlanLoaded))
    && (l.bootAt.Some? ==> exists j :: 0 <= j < n && ops[j] == Start(l.bootAt.value) && NoStartIn(ops, j, n))
    && (l.state.Controlling? ==> !l.dryRun && l.sensorsOk && l.probeOk && l.planLoaded && l.bootAt.Some?)
  }

  lemma MarkPersists(ops: seq<Op>, n: nat, mark: Op)
    requires n < |ops| && !Resets(ops[n]) && (MarkedSinceReset(ops, n, mark) || ops[n] == mark)
    ensures MarkedSinceReset(ops, n + 1, mark)
  {
    if ops[n] == mark {
      assert NoResetIn(ops, n, n + 1);
    } else {
      var j :| 0 <= j < n && ops[j] == mark && NoResetIn(ops, j, n);
      assert NoResetIn(ops, j, n + 1);
    }
  }

  lemma {:induction false} SettingsStay(cfg: Config, dryRun: bool, grace: int, ops: seq<Op>, n: nat)
    requires n <= |ops|
    ensures var l := After(cfg, dryRun, grace, ops, n).life; l.dryRun == dryRun && l.grace == grace
  {
    if n > 0 { SettingsStay(cfg, dryRun, grace, ops, n - 1); }
  }

  lemma {:induction false} RunReflectsHistory(cfg: Config, dryRun: bool, grace: int, ops: seq<Op>, n: nat)
    requires n <= |ops|
    ensures Reflects(ops, n, After(cfg, dryRun, grace, ops, n).life)
  {
    if n > 0 {
      RunReflectsHistory(cfg, dryRun, grace, ops, n - 1);
      StepReflects(cfg, After(cfg, dryRun, grace, ops, n - 1), ops, n - 1);
    }
  }

  lemma StepReflects(cfg: Config, s: System, ops: seq<Op>, n: nat)
    requires n < |ops| && Reflects(ops, n, s.life)
    ensures Reflects(ops, n + 1, Step(cfg, s, ops[n]).life)
  {
    var l, l' := s.life, Step(cfg, s, ops[n]).life;
    if !Resets(ops[n]) {
      if l'.sensorsOk { MarkPersists(ops, n, SensorsValidated); }
      if l'.probeOk { MarkPersists(ops, n, ProbeOk); }
      if l'.planLoaded { MarkPersists(ops, n, PlanLoaded); }
    }
    if l'.bootAt.Some? {
      if ops[n].Start? {
        assert NoStartIn(ops, n, n + 1);
      } else {
        var j :| 0 <= j < n && ops[j] == Start(l.bootAt.value) && NoStartIn(ops, j, n);
        assert NoStartIn(ops, j, n + 1);
      }
    }
  }

  lemma TickPersists(ops: seq<Op>, j: int, n: nat, t: int)
    requires 0 <= j < n < |ops| && TickedSince(ops, j, n, t)
    ensures TickedSince(ops, j, n + 1, t)
  {
    var m :| j < m < n && ops[m].Tick? && ops[m].now >= t;
    assert ops[m].Tick?;
  }

  /** An override that is neither replaced nor cancelled is still set, or a tick has found that it ran out. */
  lemma {:induction false} OverrideRemembered(cfg: Config, dryRun: bool, grace: int, ops: seq<Op>, n: nat, j: nat)
    requires j < n <= |ops| && ops[j].Override? && Untouched(ops, j, n)
    ensures var until := ops[j].now + ops[j].duration;
            After(cfg, dryRun, grace, ops, n).life.overrideUntil == Some(until) || TickedSince(ops, j, n, until)
  {
    if n > j + 1 {
      var until := ops[j].now + ops[j].duration;
      OverrideRemembered(cfg, dryRun, grace, ops, n - 1, j);
      if TickedSince(ops, j, n - 1, until) { TickPersists(ops, j, n - 1, until); }
    }
  }

  /** Control is kept by steps other than a start, and taken only by a tick that finds the grace over. */
  lemma TakesControl(cfg: Config, s: System, op: Op)
    requires Step(cfg, s, op).life.state.Controlling?
    ensures !op.Start?
    ensures s.life.state.Controlling? || (op.Tick? && Ownership.GraceElapsed(s.life, op.now))
  {
  }

  lemma GracePersists(ops: seq<Op>, n: nat, grace: int)
    requires n < |ops| && !ops[n].Start? && GraceSeenOver(ops, n, grace)
    ensures GraceSeenOver(ops, n + 1, grace)
  {
    var j :| 0 <= j < n && ops[j].Start? && NoStartIn(ops, j, n) && TickedSince(ops, j, n, ops[j].now + grace);
    TickPersists(ops, j, n, ops[j].now + grace);
    assert NoStartIn(ops, j, n + 1);
  }

  lemma GraceSeen(ops: seq<Op>, n: nat, l: Ownership.State)
    requires n < |ops| && ops[n].Tick? && Reflects(ops, n, l) && Ownership.GraceElapsed(l, ops[n].now)
    ensures GraceSeenOver(ops, n + 1, l.grace)
  {
    var j :| 0 <= j < n && ops[j] == Start(l.bootAt.value) && NoStartIn(ops, j, n);
    assert NoStartIn(ops, j, n + 1) && TickedSince(ops, j, n + 1, ops[j].now + l.grace);
  }

  /** The controller is in charge only after a tick that found the startup grace of the latest start over. */
  lemma {:induction false} ControllingAfterGrace(cfg: Config, dryRun: bool, grace: int, ops: seq<Op>, n: nat)
    requires n <= |ops| && After(cfg, dryRun, grace, ops, n).life.state.Controlling?
    ensures GraceSeenOver(ops, n, grace)
  {
    if n > 0 {
      var before := After(cfg, dryRun, grace, ops, n - 1);
      TakesControl(cfg, before, ops[n - 1]);
      if before.life.state.Controlling? {
        ControllingAfterGrace(cfg, dryRun, grace, ops, n - 1);
        GracePersists(ops, n - 1, grace);
      } else {
        RunReflectsHistory(cfg, dryRun, grace, ops, n - 1);
        SettingsStay(cfg, dryRun, grace, ops, n - 1);
        GraceSeen(ops, n - 1, before.life);
      }
    }
  }

  /**
   * Every device write made by a decision, in every interleaving and whatever the clock does, happens
   * with both dry-run switches off, all three readiness marks made since the last start or hand-back,
   * the startup grace seen to be over, and every override replaced, cancelled or seen to run out.
   */
  lemma WritesOnlyInOwnership(cfg: Config, dryRun: bool, grace: int, ops: seq<Op>, n: nat)
    requires n < |ops| && ops[n].Decision?
    requires Writes(cfg, After(cfg, dryRun, grace, ops, n), ops[n]) != []
    ensures !cfg.dryRun && !dryRun
    ensures MarkedSinceReset(ops, n, SensorsValidated) && MarkedSinceReset(ops, n, ProbeOk) && MarkedSinceReset(ops, n, PlanLoaded)
    ensures GraceSeenOver(ops, n, grace)
    ensures OverridesEnded(ops, n, ops[n].call.now)
  {
    RunReflectsHistory(cfg, dryRun, grace, ops, n);
    SettingsStay(cfg, dryRun, grace, ops, n);
    ControllingAfterGrace(cfg, dryRun, grace, ops, n);
    forall j | 0 <= j < n && ops[j].Override? && Untouched(ops, j, n)
      ensures ops[n].call.now >= ops[j].now + ops[j].duration || TickedSince(ops, j, n, ops[j].now + ops[j].duration)
    {
      OverrideRemembered(cfg, dryRun, grace, ops, n, j);
    }
  }

  /** On a clock that never steps back, a write happens with the grace over and no live override at that very instant. */
  lemma WritesAfterGraceAndOverrides(cfg: Config, dryRun: bool, grace: int, ops: seq<Op>, n: nat)
    requires n < |ops| && TimeMovesForward(ops) && ops[n].Decision?
    requires Writes(cfg, After(cfg, dryRun, grace, ops, n), ops[n]) != []
    ensures StartedBefore(ops, n, ops[n].call.now, grace)
    ensures OverridesLapsed(ops, n, ops[n].call.now)
  {
    WritesOnlyInOwnership(cfg, dryRun, grace, ops, n);
    var now := ops[n].call.now;
    assert forall m :: 0 <= m < n && ops[m].Tick? ==> ops[m].now <= now by {
      assert TimeOf(ops[n]) == Some(now);
      assert forall m :: 0 <= m < n && ops[m].Tick? ==> TimeOf(ops[m]) == Some(ops[m].now);
    }
    var b :| 0 <= b < n && ops[b].Start? && NoStartIn(ops, b, n) && TickedSince(ops, b, n, ops[b].now + grace);
    assert now - ops[b].now >= grace;
  }

  /** Marks made since the last reset are still set. */
  lemma {:induction false} MarksStay(cfg: Config, dryRun: bool, grace: int, ops: seq<Op>, n: nat, mark: Op)
    requires n <= |ops| && MarkedSinceReset(ops, n, mark) && mark in {SensorsValidated, ProbeOk, PlanLoaded}
    ensures var l := After(cfg, dryRun, grace, ops, n).life;
            if mark.SensorsValidated? then l.sensorsOk else if mark.ProbeOk? then l.probeOk else l.planLoaded
  {
    var j :| 0 <= j < n && ops[j] == mark && NoResetIn(ops, j, n);
    if j < n - 1 {
      assert !Resets(ops[n - 1]) && NoResetIn(ops, j, n - 1);
      assert MarkedSinceReset(ops, n - 1, mark);
      MarksStay(cfg, dryRun, grace, ops, n - 1, mark);
    }
  }

  /** Since the latest start, without an override, the process observes or is in control, live, with that start's boot time. */
  lemma {:induction false} ObservesOrControls(cfg: Config, grace: int, ops: seq<Op>, n: nat, j: nat)
    requires j < n <= |ops| && ops[j].Start? && NoStartIn(ops, j, n) && forall m :: j < m < n ==> !ops[m].Override?
    ensures var l := After(cfg, false, grace, ops, n).life;
            && (l.state.Observing? || l.state.Controlling?) && l.overrideUntil.None? && l.bootAt == Some(ops[j].now)
            && !l.dryRun && l.grace == grace
  {
    SettingsStay(cfg, false, grace, ops, n);
    if j < n - 1 {
      assert NoStartIn(ops, j, n - 1) && !ops[n - 1].Start? && !ops[n - 1].Override?;
      ObservesOrControls(cfg, grace, ops, n - 1, j);
    }
  }

  /**
   * Control is taken: in a live process, a tick at least the grace after the latest start, with all three
   * marks made since the last reset and no override since the start, leaves the controller in command.
   */
  lemma ReadyProcessTakesControl(cfg: Config, grace: int, ops: seq<Op>, n: nat, j: nat, now: int)
    requires j < n < |ops| && ops[j].Start? && NoStartIn(ops, j, n) && ops[n].Tick? && ops[n].now - ops[j].now >= grace
    requires forall m :: j < m < n ==> !ops[m].Override?
    requires MarkedSinceReset(ops, n, SensorsValidated) && MarkedSinceReset(ops, n, ProbeOk) && MarkedSinceReset(ops, n, PlanLoaded)
    ensures Ownership.CanCommand(After(cfg, false, grace, ops, n + 1).life, now)
  {
    ObservesOrControls(cfg, grace, ops, n, j);
    MarksStay(cfg, false, grace, ops, n, SensorsValidated);
    MarksStay(cfg, false, grace, ops, n, ProbeOk);
    MarksStay(cfg, false, grace, ops, n, PlanLoaded);
    Ownership.TickTakesControlIff(After(cfg, false, grace, ops, n).life, ops[n].now);
  }

  /** After a hand-back nothing is written until every readiness mark has been made again. */
  lemma NothingWrittenAfterReturn(cfg: Config, dryRun: bool, grace: int, ops: seq<Op>, r: nat, n: nat, mark: Op)
    requires r < n < |ops| && ops[r] == ReturnToDefault && ops[n].Decision?
    requires mark in {SensorsValidated, ProbeOk, PlanLoaded} && forall m :: r <= m < n ==> ops[m] != mark
    ensures Writes(cfg, After(cfg, dryRun, grace, ops, n), ops[n]) == []
  {
    RunReflectsHistory(cfg, dryRun, grace, ops, n);
  }
}
