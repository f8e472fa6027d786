/**
 The ownership state machine of ems/lifecycle.py: its transitions as functions. Instants and durations are integers on one time scale.
*/
module Ownership {
  import opened Prelude

  datatype Phase = Inactive | Observing | DryRun | Controlling | ManualOverride

  datatype State = State(
    dryRun: bool, grace: int, bootAt: Option<int>, state: Phase,
    sensorsOk: bool, probeOk: bool, planLoaded: bool, overrideUntil: Option<int>)

  function Fresh(dryRun: bool, grace: int): State {
    State(dryRun, grace, None, Inactive, false, false, false, None)
  }

  function Start(s: State, now: int): State {
    s.(bootAt := Some(now), sensorsOk := false, probeOk := false, planLoaded := false,
       overrideUntil := None, state := Observing)
  }

  function StartOverride(s: State, now: int, duration: int): State {
    s.(overrideUntil := Some(now + duration), state := ManualOverride)
  }

  function ReturnToDefault(s: State): State {
    s.(overrideUntil := None, sensorsOk := false, probeOk := false, planLoaded := false, state := Observing)
  }

  predicate GraceElapsed(s: State, now: int) { s.bootAt.Some? && now - s.bootAt.value >= s.grace }

  predicate OverrideActive(s: State, now: int) { s.overrideUntil.Some? && now < s.overrideUntil.value }

  predicate ReadyToAct(s: State, now: int) {
    s.sensorsOk && s.probeOk && s.planLoaded && GraceElapsed(s, now) && !OverrideActive(s, now)
  }

  function Tick(s: State, now: int): State {
    var lapsed := s.overrideUntil.Some? && now >= s.overrideUntil.value;
    var s1 := if lapsed then s.(overrideUntil := None, state := if s.state.ManualOverride? then Observing else s.state) else s;
    if s1.state.Observing? && ReadyToAct(s1, now) then s1.(state := if s1.dryRun then DryRun else Controlling) else s1
  }

  predicate CanCommand(s: State, now: int) { s.state.Controlling? && !OverrideActive(s, now) }

  // --- what the transitions mean -----------------------------------------------------------------------

  predicate AllMarked(s: State) { s.sensorsOk && s.probeOk && s.planLoaded }

  /** No override, or one whose end has come. */
  predicate Lapsed(s: State, now: int) { s.overrideUntil.None? || now >= s.overrideUntil.value }

  /**
   * A tick takes control exactly when it is live, everything is marked ready, the startup grace has run
   * and no override is left, from observing or from an override that has just ended; a tick never gives
   * control up.
   */
  lemma TickTakesControlIff(s: State, now: int)
    ensures Tick(s, now).state.Controlling? <==>
              || s.state.Controlling?
              || (&& !s.dryRun && AllMarked(s) && s.bootAt.Some? && now - s.bootAt.value >= s.grace && Lapsed(s, now)
                  && (s.state.Observing? || (s.state.ManualOverride? && s.overrideUntil.Some?)))
    ensures Tick(s, now).overrideUntil == if Lapsed(s, now) then None else s.overrideUntil
    ensures Tick(s, now).bootAt == s.bootAt && (AllMarked(Tick(s, now)) <==> AllMarked(s))
  {
  }

  /** A start, an override and a hand-back each take control away until a tick gives it back. */
  lemma ControlIsTakenAway(s: State, now: int, duration: int, later: int)
    ensures !CanCommand(Start(s, now), later) && !CanCommand(StartOverride(s, now, duration), later)
    ensures !CanCommand(ReturnToDefault(s), later)
    ensures !AllMarked(Start(s, now)) && !AllMarked(ReturnToDefault(s)) && (AllMarked(StartOverride(s, now, duration)) <==> AllMarked(s))
  {
  }

  /** A start and a hand-back forget any override, an override lasts for its duration, and only a start restarts the grace. */
  lemma OverridesMean(s: State, now: int, duration: int, later: int)
    ensures Lapsed(Start(s, now), later) && Lapsed(ReturnToDefault(s), later)
    ensures Lapsed(StartOverride(s, now, duration), later) <==> later - now >= duration
    ensures GraceElapsed(Start(s, now), later) <==> later - now >= s.grace
    ensures GraceElapsed(ReturnToDefault(s), later) <==> GraceElapsed(s, later)
    ensures GraceElapsed(StartOverride(s, now, duration), later) <==> GraceElapsed(s, later)
  {
  }

  /** In control, commands are allowed at exactly the instants outside a live override. */
  lemma CommandsIff(s: State, now: int)
    ensures CanCommand(s, now) <==> s.state.Controlling? && Lapsed(s, now)
  {
  }
}
