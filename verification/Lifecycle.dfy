/**
 The mutable lifecycle object of ems/lifecycle.py; every method performs the transition of the same
 name in Ownership.
*/
module Lifecycles {
  import opened Prelude
  import Ownership

  class Lifecycle {
    var dryRun: bool
    var grace: int
    var bootAt: Option<int>
    var state: Ownership.Phase
    var sensorsOk: bool
    var probeOk: bool
    var planLoaded: bool
    var overrideUntil: Option<int>

    function View(): Ownership.State
      reads this
    {
      Ownership.State(dryRun, grace, bootAt, state, sensorsOk, probeOk, planLoaded, overrideUntil)
    }

    constructor (dryRun: bool, grace: int)
      ensures View() == Ownership.Fresh(dryRun, grace)
    {
      this.dryRun, this.grace := dryRun, grace;
      bootAt, state, overrideUntil := None, Ownership.Inactive, None;
      sensorsOk, probeOk, planLoaded := false, false, false;
    }

    method ResetReadiness()
      modifies this`sensorsOk, this`probeOk, this`planLoaded
      ensures !sensorsOk && !probeOk && !planLoaded
    {
      sensorsOk, probeOk, planLoaded := false, false, false;
    }

    method Start(now: int)
      modifies this
      ensures View() == Ownership.Start(old(View()), now)
    {
      bootAt := Some(now);
      ResetReadiness();
      overrideUntil := None;
      state := Ownership.Observing;
    }

    method MarkSensorsValidated()
      modifies this
      ensures View() == old(View()).(sensorsOk := true)
    {
      sensorsOk := true;
    }

    method MarkProbeOk()
      modifies this
      ensures View() == old(View()).(probeOk := true)
    {
      probeOk := true;
    }

    method MarkPlanLoaded()
      modifies this
      ensures View() == old(View()).(planLoaded := true)
    {
      planLoaded := true;
    }

    method ManualOverride(now: int, duration: int)
      modifies this
      ensures View() == Ownership.StartOverride(old(View()), now, duration)
    {
      overrideUntil := Some(now + duration);
      state := Ownership.ManualOverride;
    }

    method ReturnToDefault()
      modifies this
      ensures View() == Ownership.ReturnToDefault(old(View()))
    {
      overrideUntil := None;
      ResetReadiness();
      state := Ownership.Observing;
    }

    method Tick(now: int) returns (r: Ownership.Phase)
      modifies this
      ensures View() == Ownership.Tick(old(View()), now) && r == state
    {
      if overrideUntil.Some? && now >= overrideUntil.value {
        overrideUntil := None;
        if state.ManualOverride? {
          state := Ownership.Observing;
        }
      }
      if state.Observing? && Ownership.ReadyToAct(View(), now) {
        state := if dryRun then Ownership.DryRun else Ownership.Controlling;
      }
      r := state;
    }

    /** Commanding takes control and no live override. */
    predicate MayCommand(now: int)
      reads this
    {
      Ownership.CanCommand(View(), now)
    }
  }
}
