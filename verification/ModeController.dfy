/**
 The mutable controller of ems/control/mode_controller.py with its store and the ghost log of its
 device. Every public method is proved to perform one step of ControllerRuns on the three together and to
 keep `Valid()`: the confirmed flag is honest about the log, and a restart from the store would find the
 persisted state again. So every theorem about runs of steps holds of call sequences on this object,
 reboots included.
*/
module ModeControllers {
  import opened Prelude
  import opened ChargeCommitments
  import opened Domain
  import opened ModeControl
  import Runs = ControllerRuns
  import Ownership
  import Lifecycles

  class ModeController {
    const cfg: Config
    const lifecycle: Lifecycles.Lifecycle
    var probeUntil: Option<int>
    var switchesToday: int
    var commitmentSwitchesToday: int
    var lastSwitchAt: Option<Instant>
    var counterDate: Option<int>
    var lastRequested: Option<Mode>
    var lastConfirmed: Option<Mode>
    var originalVendor: Option<Mode>
    var unconfirmed: bool
    var lastWriteOutcome: Option<Outcome>
    var episode: Option<(Intent, Mode)>
    var episodeLoggedAt: Option<int>
    var chargeCommitment: Option<ChargeCommitment>
    var store: Stored               // what the state-change callback last saved
    ghost var deviceLog: seq<Write>

    function View(): Ctl
      reads this
    {
      Ctl(probeUntil, switchesToday, commitmentSwitchesToday, lastSwitchAt, counterDate, lastRequested, lastConfirmed,
          originalVendor, unconfirmed, lastWriteOutcome, episode, episodeLoggedAt, chargeCommitment)
    }

    ghost function SystemView(): Runs.System
      reads this
    {
      Runs.System(View(), store, deviceLog)
    }

    ghost predicate Valid()
      reads this
    {
      Runs.Honest(SystemView())
    }

    /** A new process: defaults in memory, beside a store and a device with a past. */
    constructor (cfg: Config, lifecycle: Lifecycles.Lifecycle, store: Stored, ghost past: seq<Write>)
      ensures this.cfg == cfg && this.lifecycle == lifecycle
      ensures SystemView() == Runs.System(FRESH, store, past)
      ensures SystemView() == Runs.BOOT ==> Valid()
    {
      this.cfg, this.lifecycle, this.store := cfg, lifecycle, store;
      probeUntil, switchesToday, commitmentSwitchesToday := None, 0, 0;
      lastSwitchAt, counterDate, lastRequested, lastConfirmed, originalVendor := None, None, None, None, None;
      unconfirmed, lastWriteOutcome, episode, episodeLoggedAt := false, None, None, None;
      chargeCommitment := None;
      deviceLog := past;
    }

    method Persist()
      modifies this`store
      ensures store == Row(Snapshot(View()))
    {
      store := Row(Snapshot(View()));
    }

    method SetChargeCommitment(c: Option<ChargeCommitment>)
      requires Valid()
      modifies this
      ensures Valid() && SystemView() == Runs.Step(cfg, old(SystemView()), Runs.OpSetCommitment(c))
    {
      Runs.StepKeepsHonest(cfg, SystemView(), Runs.OpSetCommitment(c));
      SaveCommitment(c);
    }

    method SaveCommitment(c: Option<ChargeCommitment>)
      modifies this`chargeCommitment, this`store
      ensures View() == old(View()).(commitment := c) && store == Row(Snapshot(View()))
    {
      chargeCommitment := c;
      Persist();
    }

    method ClearChargeCommitment()
      requires Valid()
      modifies this
      ensures Valid() && SystemView() == Runs.Step(cfg, old(SystemView()), Runs.OpClearCommitment)
    {
      Runs.StepKeepsHonest(cfg, SystemView(), Runs.OpClearCommitment);
      if chargeCommitment.Some? {
        SaveCommitment(None);
      }
    }

    /**
     * Loads field after field; a value that does not parse stops the load and fails safe. On a new process
     * whose own store is loaded this is the restart step, and it makes the object valid whenever the
     * process before it was.
     */
    method RestoreState(state: Stored)
      modifies this
      ensures View() == Restore(old(View()), state) && store == old(store) && deviceLog == old(deviceLog)
      ensures forall past: Ctl ::
                Runs.Honest(Runs.System(past, store, deviceLog)) && old(View()) == FRESH && state == store ==> Valid()
    {
      RestartIsHonest(cfg, store, deviceLog);
      if state.Corrupt? {
        unconfirmed := true;
        return;
      }
      if state.Absent? || state.blob == map[] {
        return;
      }
      var m := state.blob;
      var switches := ToCount(Get(m, "switches_today"));
      if switches.None? { unconfirmed, chargeCommitment := true, None; return; }
      switchesToday := switches.value;
      var commitments := ToCount(Get(m, "commitment_switches_today"));
      if commitments.None? { unconfirmed, chargeCommitment := true, None; return; }
      commitmentSwitchesToday := commitments.value;
      var last := ToInstant(Get(m, "last_switch_at"));
      if last.None? { unconfirmed, chargeCommitment := true, None; return; }
      lastSwitchAt := last.value;
      var day := ToDay(Get(m, "counter_date"));
      if day.None? { unconfirmed, chargeCommitment := true, None; return; }
      counterDate := day.value;
      RestoreModes(m);
    }

    method RestoreModes(m: map<string, Json>)
      modifies this
      ensures View() == RestoreFlags(old(View()), m) && store == old(store) && deviceLog == old(deviceLog)
    {
      var unknown1, unknown2, unknown3;
      var requested := ModeOrUnknown(Get(m, "last_requested_action"));
      lastRequested, unknown1 := requested.0, requested.1;
      var confirmed := ModeOrUnknown(Get(m, "last_confirmed_action"));
      lastConfirmed, unknown2 := confirmed.0, confirmed.1;
      var vendor := ModeOrUnknown(Get(m, "original_vendor_mode"));
      originalVendor, unknown3 := vendor.0, vendor.1;
      var raw := Get(m, "last_command_unconfirmed");
      if raw.Bool? && !(unknown1 || unknown2 || unknown3) {
        unconfirmed := raw.b;
      } else {
        unconfirmed := true;
      }
      chargeCommitment := FromDict(Get(m, "charge_commitment"));
    }

    method BeginExportProbe(until: int)
      requires Valid()
      modifies this`probeUntil
      ensures Valid() && SystemView() == Runs.Step(cfg, old(SystemView()), Runs.OpOpenProbe(until))
    {
      Runs.StepKeepsHonest(cfg, SystemView(), Runs.OpOpenProbe(until));
      probeUntil := Some(until);
    }

    method ClearExportProbe()
      requires Valid()
      modifies this`probeUntil
      ensures Valid() && SystemView() == Runs.Step(cfg, old(SystemView()), Runs.OpCloseProbe)
    {
      Runs.StepKeepsHonest(cfg, SystemView(), Runs.OpCloseProbe);
      probeUntil := None;
    }

    /** Never writes and never changes state. */
    method PreviewDecision(call: Call, read: Option<Mode>) returns (d: Decision)
      requires Valid()
      ensures d == Preview(cfg, View(), Ownership.CanCommand(lifecycle.View(), call.now), call, read)
    {
      var unforced := call.(force := false);
      var desired := Desired(cfg, View(), unforced);
      var gate := Gate(cfg, View(), lifecycle.MayCommand(call.now), unforced, read);
      d := Decision(call.intent, desired, false, if gate.Some? then gate.value else WouldApply, true);
    }

    method RecordOneSwitch(call: Call, desired: Mode)
      modifies this`switchesToday, this`commitmentSwitchesToday, this`lastSwitchAt
      ensures View() == RecordSwitch(old(View()), call, desired)
    {
      if call.countTowardCap {
        if !desired.Auto? {
          if call.commitment {
            commitmentSwitchesToday := commitmentSwitchesToday + 1;
          } else {
            switchesToday := switchesToday + 1;
          }
        }
        lastSwitchAt := Some(Aware(call.now));
      }
    }

    method ResetCounterIfNewDay(now: int)
      modifies this`switchesToday, this`commitmentSwitchesToday, this`counterDate
      ensures View() == ResetCounter(cfg, old(View()), now)
    {
      var today := cfg.dayOf(now);
      if counterDate != Some(today) {
        switchesToday, commitmentSwitchesToday := 0, 0;
        counterDate := Some(today);
      }
    }

    /** Whether this unconfirmed write is worth a new incident row. */
    method NoteUnconfirmedEpisode(call: Call, desired: Mode) returns (audit: bool)
      modifies this`episode, this`episodeLoggedAt
      ensures View() == NoteEpisode(old(View()), call, desired) && audit == NewEpisode(old(View()), call, desired)
    {
      if episode != Some((call.intent, desired)) || episodeLoggedAt.None? || call.now - episodeLoggedAt.value >= RELOG {
        episode, episodeLoggedAt := Some((call.intent, desired)), Some(call.now);
        return true;
      }
      audit := false;
    }

    /** The write path: at most one mode change, plus the AUTO recovery of a rejected one. */
    method DecideAndApply(call: Call, dev: Device) returns (d: Decision)
      requires Valid()
      modifies this
      ensures var can := Ownership.CanCommand(lifecycle.View(), call.now);
              && Valid() && SystemView() == Runs.Step(cfg, old(SystemView()), Runs.OpDecide(can, call, dev))
              && d == Decide(cfg, old(View()), can, call, dev).1
    {
      ghost var before := SystemView();
      var can := lifecycle.MayCommand(call.now);
      var desired := Desired(cfg, View(), call);
      var gate := Gate(cfg, View(), can, call, dev.gateRead);
      Runs.GateDecidesWrites(cfg, View(), can, call, dev);
      Runs.StepKeepsHonest(cfg, before, Runs.OpDecide(can, call, dev));
      if gate.Some? {
        return Decision(call.intent, desired, false, gate.value, true);
      }
      d := WriteToDevice(call, desired, dev);
    }

    method WriteToDevice(call: Call, desired: Mode, dev: Device) returns (d: Decision)
      requires desired == Desired(cfg, View(), call)
      modifies this
      ensures var (ctl, decision, writes) := AfterWrite(cfg, old(View()), call, dev);
              && View() == ctl && d == decision && deviceLog == old(deviceLog) + writes && store == Row(Snapshot(View()))
    {
      ResetCounterIfNewDay(call.now);
      if originalVendor.None? && dev.vendorRead.Some? {
        originalVendor := dev.vendorRead;
      }
      lastRequested := Some(desired);
      assert View() == Prepare(cfg, old(View()), call, dev);
      RecordOneSwitch(call, desired);
      d := SettleReply(call, desired, dev);
      Persist();
    }

    /** The AUTO attempt after a rejected write. */
    method RecoverToAuto(reply: Reply) returns (outcome: Outcome)
      modifies this
      ensures outcome == if reply.Accepted? then FailedRecovered else FailedUnrecovered
      ensures View() == ClearEpisode(old(View()).(lastConfirmed := if reply.Accepted? then Some(Auto) else None,
                                                  unconfirmed := !reply.Accepted?, lastWriteOutcome := Some(outcome)))
      ensures deviceLog == old(deviceLog) + [Write(Auto, reply)] && store == old(store)
    {
      deviceLog := deviceLog + [Write(Auto, reply)];
      var recovered := reply.Accepted?;
      outcome := if recovered then FailedRecovered else FailedUnrecovered;
      lastConfirmed := if recovered then Some(Auto) else None;
      unconfirmed, lastWriteOutcome := !recovered, Some(outcome);
      episode, episodeLoggedAt := None, None;
    }

    method SettleReply(call: Call, desired: Mode, dev: Device) returns (d: Decision)
      modifies this
      ensures var (ctl, decision, writes) := Settle(old(View()), call, desired, dev);
              View() == ctl && d == decision && deviceLog == old(deviceLog) + writes && store == old(store)
    {
      deviceLog := deviceLog + [Write(desired, dev.reply)];
      match dev.reply
      case TimedOut =>
        unconfirmed, lastWriteOutcome := true, Some(Unconfirmed);
        var audit := NoteUnconfirmedEpisode(call, desired);
        d := Decision(call.intent, desired, false, Unconfirmed, audit);
      case Rejected =>
        var outcome := RecoverToAuto(dev.recovery);
        d := Decision(call.intent, Auto, dev.recovery.Accepted?, outcome, true);
      case Accepted =>
        lastConfirmed := Some(desired);
        unconfirmed, lastWriteOutcome := false, None;
        episode, episodeLoggedAt := None, None;
        d := Decision(call.intent, desired, true, Applied, true);
    }

    /** An AUTO write made around `decide` and accepted, then noted. */
    method NoteAutoConfirmed()
      requires Valid()
      modifies this
      ensures Valid() && SystemView() == Runs.Step(cfg, old(SystemView()), Runs.OpConfirmedAuto)
    {
      Runs.StepKeepsHonest(cfg, SystemView(), Runs.OpConfirmedAuto);
      deviceLog := deviceLog + [Write(Auto, Accepted)];
      SaveOutcome(Some(Auto), false, None);
    }

    method SaveOutcome(confirmed: Option<Mode>, doubtful: bool, outcome: Option<Outcome>)
      modifies this`lastConfirmed, this`unconfirmed, this`lastWriteOutcome, this`store
      ensures View() == old(View()).(lastConfirmed := confirmed, unconfirmed := doubtful, lastWriteOutcome := outcome)
      ensures store == Row(Snapshot(View()))
    {
      lastConfirmed := confirmed;
      unconfirmed := doubtful;
      lastWriteOutcome := outcome;
      Persist();
    }

    /** A forced AUTO write made around `decide`, whatever the device answered, then noted as unconfirmed. */
    method NoteOverrun(reply: Reply)
      requires Valid()
      modifies this
      ensures Valid() && SystemView() == Runs.Step(cfg, old(SystemView()), Runs.OpOverrunRecovery(reply))
    {
      Runs.StepKeepsHonest(cfg, SystemView(), Runs.OpOverrunRecovery(reply));
      deviceLog := deviceLog + [Write(Auto, reply)];
      SaveOutcome(lastConfirmed, true, lastWriteOutcome);
    }

    /** The forced AUTO write of a startup or an overrun: confirmed only when the device accepted it. */
    method ForceAuto(reply: Reply) returns (confirmed: bool)
      requires Valid()
      modifies this
      ensures Valid() && confirmed == reply.Accepted? && unconfirmed == !confirmed
      ensures deviceLog == old(deviceLog) + [Write(Auto, reply)]
    {
      confirmed := reply.Accepted?;
      if confirmed {
        NoteAutoConfirmed();
      } else {
        NoteOverrun(reply);
      }
    }
  }

  lemma RestartIsHonest(cfg: Config, store: Stored, log: seq<Write>)
    ensures forall past: Ctl ::
              Runs.Honest(Runs.System(past, store, log)) ==> Runs.Honest(Runs.System(Restore(FRESH, store), store, log))
  {
    forall past: Ctl | Runs.Honest(Runs.System(past, store, log))
      ensures Runs.Honest(Runs.System(Restore(FRESH, store), store, log))
    {
      Runs.StepKeepsHonest(cfg, Runs.System(past, store, log), Runs.OpRestart);
    }
  }

  /** A process restart: a new controller on the same store and device, with the store loaded. */
  method Reboot(previous: ModeController) returns (c: ModeController)
    requires previous.Valid()
    ensures fresh(c) && c.Valid() && c.cfg == previous.cfg
    ensures c.SystemView() == Runs.Step(c.cfg, previous.SystemView(), Runs.OpRestart)
  {
    c := new ModeController(previous.cfg, previous.lifecycle, previous.store, previous.deviceLog);
    assert Runs.Honest(Runs.System(previous.View(), c.store, c.deviceLog));
    c.RestoreState(previous.store);
  }
}
