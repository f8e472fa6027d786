/**
 The mutable fence object of ems/control/command_fence.py. Each method is one lock-held body; it is
 proved to perform the step of the same name in CommandFence, so that every theorem about runs of
 steps holds of every interleaving of calls on one fence.
*/
module BatteryCommandFences {
  import opened Prelude
  import Steps = CommandFence

  class BatteryCommandFence {
    var generation: nat
    var tickets: map<nat, Steps.Ticket>
    var superseded: set<nat>
    var active: Option<Steps.Ticket>
    var recoveries: map<nat, Steps.Ticket>
    var recoveryForToken: map<nat, nat>
    var draining: bool
    var sleepers: map<nat, Steps.Ticket>  // the condition variable's wait set

    function View(): Steps.State
      reads this
    {
      Steps.State(generation, tickets, superseded, active, recoveries, recoveryForToken, draining, sleepers)
    }

    ghost predicate Valid()
      reads this
    {
      Steps.Inv(View())
    }

    constructor ()
      ensures Valid() && View() == Steps.INITIAL
    {
      generation, tickets, superseded, active := 0, map[], {}, None;
      recoveries, recoveryForToken, draining, sleepers := map[], map[], false, map[];
    }

    method NotifyAll()
      modifies this`sleepers
      ensures sleepers == map[]
    {
      sleepers := map[];
    }

    method NewTicket(cls: Steps.CommandClass) returns (t: Steps.Ticket)
      modifies this`generation, this`tickets
      ensures (View(), t) == Steps.NewTicket(old(View()), cls)
    {
      generation := generation + 1;
      t := Steps.Ticket(generation, generation, cls);
      tickets := tickets[t.token := t];
    }

    method Reserve(cls: Steps.CommandClass, drainingArg: bool) returns (r: Option<Steps.Ticket>)
      requires Valid()
      modifies this
      ensures Valid() && (View(), r) == Steps.Reserve(old(View()), cls, drainingArg)
    {
      ghost var before := View();
      if (draining || drainingArg) && !cls.Shutdown? {
        return None;
      }
      var t := NewTicket(cls);
      if !cls.Routine? {
        superseded := superseded
          + (set k | k in tickets && tickets[k].commandClass.Routine? :: tickets[k].generation);
      }
      NotifyAll();
      r := Some(t);
      Steps.ReserveKeepsInv(before, cls, drainingArg);
    }

    method AdmitRoutine(drainingArg: bool) returns (r: Option<Steps.Ticket>)
      requires Valid()
      modifies this
      ensures Valid() && (View(), r) == Steps.AdmitRoutine(old(View()), drainingArg)
    {
      ghost var before := View();
      if draining || drainingArg || tickets != map[] {
        return None;
      }
      var t := NewTicket(Steps.Routine);
      r := Some(t);
      Steps.AdmitKeepsInv(before, drainingArg);
    }

    method BeginRecovery(stale: Steps.Ticket, drainingArg: bool) returns (r: Option<Steps.Ticket>)
      requires Valid() && Steps.Issued(View(), stale)
      modifies this
      ensures Valid() && (View(), r) == Steps.BeginRecovery(old(View()), stale, drainingArg)
    {
      ghost var before := View();
      Steps.RecoverKeepsInv(before, stale, drainingArg);
      if stale.generation in recoveries && recoveries[stale.generation].token in tickets {
        return Some(recoveries[stale.generation]);
      }
      if draining || drainingArg {
        return None;
      }
      var newer := Steps.NewerCommand(View(), stale);
      superseded := superseded + {stale.generation};
      if newer {
        NotifyAll();
        return None;
      }
      var recovery := RegisterRecovery(stale);
      r := Some(recovery);
    }

    method RegisterRecovery(stale: Steps.Ticket) returns (recovery: Steps.Ticket)
      modifies this
      ensures (View(), recovery) == Steps.RegisterRecovery(old(View()), stale)
    {
      recovery := NewTicket(Steps.Recovery);
      recoveries := recoveries[stale.generation := recovery];
      recoveryForToken := recoveryForToken[recovery.token := stale.generation];
      NotifyAll();
    }

    /** One pass through the waiting loop of `enter`: refused, granted, or asleep until notified. */
    method TryEnter(thread: nat, t: Steps.Ticket) returns (a: Steps.Attempt)
      requires Valid() && Steps.Issued(View(), t)
      modifies this
      ensures Valid() && a == Steps.EnterOutcome(old(View()), t) && View() == Steps.TryEnter(old(View()), thread, t)
    {
      Steps.EnterKeepsInv(View(), thread, t);
      a := Steps.Waiting;
      if t.token !in tickets || (t.generation in superseded && active != Some(t)) {
        a := Steps.Refused;
      } else if active.None? && Steps.IsNext(View(), t) {
        active := Some(t);
        a := Steps.Granted;
      }
      sleepers := if a.Waiting? then sleepers[thread := t] else sleepers - {thread};
    }

    method Leave(t: Steps.Ticket)
      requires Valid() && Steps.Issued(View(), t)
      modifies this
      ensures Valid() && View() == Steps.Leave(old(View()), t)
    {
      Steps.StepKeepsInv(View(), Steps.OpLeave(t));
      if active == Some(t) {
        active := None;
        NotifyAll();
      }
    }

    method Release(t: Steps.Ticket)
      requires Valid() && Steps.Issued(View(), t)
      modifies this
      ensures Valid() && View() == Steps.Release(old(View()), t)
    {
      Steps.ReleaseKeepsInv(View(), t);
      if active == Some(t) {
        active := None;
      }
      tickets := tickets - {t.token};
      superseded := superseded - {t.generation};
      if t.token in recoveryForToken {
        recoveries := recoveries - {recoveryForToken[t.token]};
        recoveryForToken := recoveryForToken - {t.token};
      }
      NotifyAll();
    }

    method MarkDraining()
      requires Valid()
      modifies this
      ensures Valid() && View() == Steps.MarkDraining(old(View()))
    {
      Steps.StepKeepsInv(View(), Steps.OpMarkDraining);
      draining := true;
      superseded := superseded
        + (set k | k in tickets && tickets[k].commandClass.Routine? :: tickets[k].generation);
      NotifyAll();
    }

    method ClearDraining()
      requires Valid()
      modifies this
      ensures Valid() && View() == Steps.ClearDraining(old(View()))
    {
      Steps.StepKeepsInv(View(), Steps.OpClearDraining);
      draining := false;
      NotifyAll();
    }
  }
}
