/**
 When the mode controller does write, over whole runs: its counters are exactly what the log of writes
 says, so a call reaches the device if and only if it asks for something, the dwell since the last
 counted write is over and its day's budget is not spent; and a charge held under an idle reading is one
 the record proves.
*/
module ControllerGates {
  import opened Prelude
  import opened ChargeCommitments
  import opened Domain
  import opened ModeControl
  import opened ControllerRuns

  // --- exact accounts ------------------------------------------------------------------------------------

  predicate CountsOn(cfg: Config, e: Entry, day: int, commitment: bool) {
    e.counted && !e.auto && e.commitment == commitment && cfg.dayOf(e.now) == day
  }

  /** Counted writes of one budget on one local day, gated or not. */
  function CountedOn(cfg: Config, log: seq<Entry>, day: int, commitment: bool): nat {
    if log == [] then 0
    else CountedOn(cfg, log[..|log| - 1], day, commitment) + if CountsOn(cfg, log[|log| - 1], day, commitment) then 1 else 0
  }

  /** The instant of the last counted write. */
  function LastCounted(log: seq<Entry>): Option<int> {
    if log == [] then None
    else if log[|log| - 1].counted then Some(log[|log| - 1].now)
    else LastCounted(log[..|log| - 1])
  }

  function StampOf(at: Option<int>): Option<Instant> { if at.Some? then Some(Aware(at.value)) else None }

  ghost predicate Exact(cfg: Config, log: seq<Entry>, s: Ctl) {
    && (log == [] ==> s.counterDate.None? && s.switchesToday == 0 && s.commitmentSwitchesToday == 0)
    && (log != [] ==>
          var day := cfg.dayOf(log[|log| - 1].now);
          && s.counterDate == Some(day) && s.switchesToday == CountedOn(cfg, log, day, false)
          && s.commitmentSwitchesToday == CountedOn(cfg, log, day, true))
    && s.lastSwitchAt == StampOf(LastCounted(log))
  }

  lemma {:induction false} NoneCountedLater(cfg: Config, log: seq<Entry>, day: int, commitment: bool)
    requires forall i :: 0 <= i < |log| ==> cfg.dayOf(log[i].now) < day
    ensures CountedOn(cfg, log, day, commitment) == 0
  {
    if log != [] { NoneCountedLater(cfg, log[..|log| - 1], day, commitment); }
  }

  lemma CountedAppends(cfg: Config, log: seq<Entry>, e: Entry, day: int, commitment: bool)
    ensures CountedOn(cfg, log + [e], day, commitment)
         == CountedOn(cfg, log, day, commitment) + if CountsOn(cfg, e, day, commitment) then 1 else 0
    ensures LastCounted(log + [e]) == if e.counted then Some(e.now) else LastCounted(log)
  {
    assert (log + [e])[..|log|] == log;
  }

  /** After the midnight rollover the counters are exactly what the day has counted. */
  lemma RolloverIsExact(cfg: Config, log: seq<Entry>, s: Ctl, now: int)
    requires Exact(cfg, log, s) && DaysAdvance(cfg) && UpTo(log, now)
    ensures EffectiveSwitches(cfg, s, now) == ResetCounter(cfg, s, now).switchesToday == CountedOn(cfg, log, cfg.dayOf(now), false)
    ensures EffectiveCommitmentSwitches(cfg, s, now) == ResetCounter(cfg, s, now).commitmentSwitchesToday
         == CountedOn(cfg, log, cfg.dayOf(now), true)
  {
    var day := cfg.dayOf(now);
    if log != [] && s.counterDate != Some(day) {
      forall i | 0 <= i < |log| ensures cfg.dayOf(log[i].now) < day {
        assert log[i].now <= log[|log| - 1].now <= now;
      }
      NoneCountedLater(cfg, log, day, false);
      NoneCountedLater(cfg, log, day, true);
    }
  }

  lemma WriteKeepsExact(cfg: Config, s: Ctl, log: seq<Entry>, call: Call, dev: Device)
    requires Exact(cfg, log, s) && DaysAdvance(cfg) && UpTo(log, call.now)
    ensures Exact(cfg, log + [EntryOf(cfg, s, call)], AfterWrite(cfg, s, call, dev).0)
  {
    var e := EntryOf(cfg, s, call);
    CountersAfterWrite(cfg, s, call, dev);
    RolloverIsExact(cfg, log, s, call.now);
    CountedAppends(cfg, log, e, cfg.dayOf(call.now), false);
    CountedAppends(cfg, log, e, cfg.dayOf(call.now), true);
  }

  lemma ExactSurvivesRestart(cfg: Config, log: seq<Entry>, a: Ctl, b: Ctl)
    requires Exact(cfg, log, a) && Persisted(a) == Persisted(b)
    ensures Exact(cfg, log, b)
  {
    FieldsOfPersisted(a, b);
  }

  lemma StepKeepsExact(cfg: Config, s: System, log: seq<Entry>, op: Op)
    requires StoreRestores(s) && !op.OpCorruptStore? && DaysAdvance(cfg) && Exact(cfg, log, s.ctl)
    requires op.OpDecide? ==> UpTo(log, op.call.now)
    ensures Exact(cfg, log + Reached(cfg, s, op), Step(cfg, s, op).ctl)
  {
    if op.OpDecide? {
      DecideStep(cfg, s, op.canCommand, op.call, op.dev);
      GateDecidesWrites(cfg, s.ctl, op.canCommand, op.call, op.dev);
      if Gate(cfg, s.ctl, op.canCommand, op.call, op.dev.gateRead).None? {
        WriteKeepsExact(cfg, s.ctl, log, op.call, op.dev);
      } else {
        assert log + [] == log;
      }
    } else {
      assert log + Reached(cfg, s, op) == log;
      if op.OpRestart? { ExactSurvivesRestart(cfg, log, s.ctl, Restore(FRESH, s.stored)); }
    }
  }

  /** In every ordinary run the counters and the dwell stamp are exactly what the log says. */
  lemma {:induction false} RunIsExact(cfg: Config, ops: seq<Op>)
    requires OrdinaryRun(cfg, ops)
    ensures Exact(cfg, Log(cfg, ops), Run(cfg, BOOT, ops).ctl)
  {
    if ops != [] {
      var front, op := ops[..|ops| - 1], ops[|ops| - 1];
      assert op in ops && forall o :: o in front ==> o in ops;
      RunIsExact(cfg, front);
      StoreAlwaysRestores(cfg, front);
      LastCallIsLatest(cfg, ops);
      StepKeepsExact(cfg, Run(cfg, BOOT, front), Log(cfg, front), op);
    }
  }

  // --- when a call reaches the device ----------------------------------------------------------------------

  /** At least the minimum dwell has gone by since every counted write. */
  ghost predicate DwellOver(cfg: Config, log: seq<Entry>, now: int) {
    forall i :: 0 <= i < |log| && log[i].counted ==> now - log[i].now >= cfg.minDwell
  }

  lemma {:induction false} DwellIsSinceLast(cfg: Config, log: seq<Entry>, now: int)
    requires UpTo(log, now)
    ensures DwellOver(cfg, log, now) <==> LastCounted(log).None? || now - LastCounted(log).value >= cfg.minDwell
  {
    if log != [] {
      var n := |log| - 1;
      if log[n].counted {
        assert forall i :: 0 <= i <= n ==> log[i].now <= log[n].now;
      } else {
        DwellIsSinceLast(cfg, log[..n], now);
        assert forall i :: 0 <= i < n ==> log[..n][i] == log[i];
      }
    }
  }

  /**
   * In every ordinary run the next call is written to the device if and only if it asks for something and
   * either skips the gates, or comes the minimum dwell after every counted write on a day whose counted
   * writes of its kind are fewer than that budget.
   */
  lemma ReachesDeviceIff(cfg: Config, ops: seq<Op>, can: bool, call: Call, read: Option<Mode>)
    requires OrdinaryRun(cfg, ops) && UpTo(Log(cfg, ops), call.now)
    ensures var s, log := Run(cfg, BOOT, ops).ctl, Log(cfg, ops);
            Gate(cfg, s, can, call, read).None? <==>
              && AsksDevice(cfg, s, can, call, read)
              && (call.manual || call.priority || Desired(cfg, s, call).Auto?
                  || (DwellOver(cfg, log, call.now)
                      && CountedOn(cfg, log, cfg.dayOf(call.now), call.commitment)
                         < (if call.commitment then cfg.maxCommitmentSwitches else cfg.maxSwitches)))
  {
    RunIsExact(cfg, ops);
    RolloverIsExact(cfg, Log(cfg, ops), Run(cfg, BOOT, ops).ctl, call.now);
    DwellIsSinceLast(cfg, Log(cfg, ops), call.now);
    GateIff(cfg, Run(cfg, BOOT, ops).ctl, LastCounted(Log(cfg, ops)), can, call, read);
  }

  lemma GateIff(cfg: Config, s: Ctl, last: Option<int>, can: bool, call: Call, read: Option<Mode>)
    requires s.lastSwitchAt == StampOf(last)
    ensures Gate(cfg, s, can, call, read).None? <==>
              && AsksDevice(cfg, s, can, call, read)
              && (call.manual || call.priority || Desired(cfg, s, call).Auto?
                  || ((last.None? || call.now - last.value >= cfg.minDwell)
                      && (if call.commitment then EffectiveCommitmentSwitches(cfg, s, call.now) < cfg.maxCommitmentSwitches
                          else EffectiveSwitches(cfg, s, call.now) < cfg.maxSwitches)))
  {
  }

  // --- the held charge -------------------------------------------------------------------------------------

  ghost predicate LastWriteIs(device: seq<Write>, w: Write) { device != [] && device[|device| - 1] == w }

  /** A confirmed mode comes from a write, and an accepted CHARGE that is still on record leaves no doubt. */
  ghost predicate RecordProven(s: System) {
    && (s.ctl.lastConfirmed.Some? ==> s.device != [])
    && (LastWriteIs(s.device, Write(Charge, Accepted)) && s.ctl.lastConfirmed.Some? ==> !s.ctl.unconfirmed)
  }

  lemma DecideKeepsProof(cfg: Config, s: System, can: bool, call: Call, dev: Device)
    requires RecordProven(s)
    ensures RecordProven(Step(cfg, s, OpDecide(can, call, dev)))
  {
    DecideStep(cfg, s, can, call, dev);
    GateDecidesWrites(cfg, s.ctl, can, call, dev);
    if Gate(cfg, s.ctl, can, call, dev.gateRead).None? {
      WritesOfACall(cfg, s.ctl, can, call, dev);
      RecordAfterWrite(cfg, s.ctl, call, dev);
      var writes := Decide(cfg, s.ctl, can, call, dev).2;
      assert (s.device + writes)[|s.device + writes| - 1] == writes[|writes| - 1];
      assert writes == [writes[0]] + writes[1..];
    } else {
      assert s.device + [] == s.device;
    }
  }

  lemma StepKeepsProof(cfg: Config, s: System, op: Op)
    requires RecordProven(s) && Honest(s)
    ensures RecordProven(Step(cfg, s, op))
  {
    match op
    case OpDecide(can, call, dev) => DecideKeepsProof(cfg, s, can, call, dev);
    case OpRestart => if !s.stored.Corrupt? { FieldsOfPersisted(Restore(FRESH, s.stored), s.ctl); }
    case OpConfirmedAuto => NoteStep(cfg, s, op);
    case OpOverrunRecovery(reply) => NoteStep(cfg, s, op);
    case OpSetCommitment(c) => assert s.device + [] == s.device;
    case OpClearCommitment => assert s.device + [] == s.device;
    case _ =>
  }

  lemma {:induction false} RunKeepsProof(cfg: Config, ops: seq<Op>)
    ensures RecordProven(Run(cfg, BOOT, ops))
  {
    if ops != [] {
      var front := ops[..|ops| - 1];
      RunKeepsProof(cfg, front);
      ConfirmedFlagIsHonest(cfg, front);
      StepKeepsProof(cfg, Run(cfg, BOOT, front), ops[|ops| - 1]);
    }
  }

  /**
   * In every run, a call answered idempotent for a mode other than the observed one is an unforced charge
   * seen as idle with CHARGE on record, and the last thing the device accepted was that CHARGE exactly
   * when the last command is not in doubt.
   */
  lemma HeldChargeIff(cfg: Config, ops: seq<Op>, can: bool, call: Call, read: Option<Mode>)
    requires Gate(cfg, Run(cfg, BOOT, ops).ctl, can, call, read) == Some(WasIdempotent)
    ensures var s := Run(cfg, BOOT, ops);
            var current := if call.observed.Some? then call.observed else read;
            current.Some? && !call.force
            && (current.value != Desired(cfg, s.ctl, call) ==>
                  && call.intent.GridChargeToTarget? && current.value.Idle? && ChargeOnRecord(s.ctl) && s.device != []
                  && (!s.ctl.unconfirmed <==> LastWriteIs(s.device, Write(Charge, Accepted))))
  {
    var s := Run(cfg, BOOT, ops);
    IdempotentIff(cfg, s.ctl, can, call, read);
    DesiredMeans(cfg, s.ctl, call);
    ConfirmedFlagIsHonest(cfg, ops);
    RunKeepsProof(cfg, ops);
  }

  /** A charge that timed out after a confirmed one is held all the same: the record does not forget the older confirmation. */
  lemma UnconfirmedChargeIsHeld() returns (cfg: Config, ops: seq<Op>, call: Call)
    ensures var s := Run(cfg, BOOT, ops);
            && Gate(cfg, s.ctl, true, call, None) == Some(WasIdempotent) && call.observed == Some(Idle)
            && call.intent.GridChargeToTarget? && LastWriteIs(s.device, Write(Charge, TimedOut))
  {
    cfg := Config(false, false, 2, 2, 0, t => t);
    var drifted := Call(GridChargeToTarget, 0, Some(Auto), false, false, false, false, true, false);
    var first := OpDecide(true, drifted, Device(None, None, Accepted, Accepted));
    var second := OpDecide(true, drifted, Device(None, None, TimedOut, Accepted));
    call := drifted.(observed := Some(Idle));
    ops := [first, second];
    var s1 := Run(cfg, BOOT, [first]);
    assert [] + [first] == [first] && [first] + [second] == ops;
    OneMoreOp(cfg, [], first);
    OneMoreOp(cfg, [first], second);
    FirstCharge(cfg, drifted, first);
    DecideStep(cfg, s1, true, drifted, second.dev);
    WritesOfACall(cfg, s1.ctl, true, drifted, second.dev);
    RecordAfterWrite(cfg, s1.ctl, drifted, second.dev);
    GateDecidesWrites(cfg, s1.ctl, true, drifted, second.dev);
    var writes := Decide(cfg, s1.ctl, true, drifted, second.dev).2;
    assert writes == [Write(Charge, TimedOut)];
    IdempotentIff(cfg, Run(cfg, BOOT, ops).ctl, true, call, None);
  }

  lemma FirstCharge(cfg: Config, call: Call, op: Op)
    requires cfg == Config(false, false, 2, 2, 0, cfg.dayOf)
    requires call == Call(GridChargeToTarget, 0, Some(Auto), false, false, false, false, true, false)
    requires op == OpDecide(true, call, Device(None, None, Accepted, Accepted))
    ensures var s := Step(cfg, BOOT, op);
            ChargeOnRecord(s.ctl) && Gate(cfg, s.ctl, true, call, None).None?
  {
    DecideStep(cfg, BOOT, true, call, op.dev);
    GateDecidesWrites(cfg, FRESH, true, call, op.dev);
    RecordAfterWrite(cfg, FRESH, call, op.dev);
    CountersAfterWrite(cfg, FRESH, call, op.dev);
    GateIff(cfg, Step(cfg, BOOT, op).ctl, Some(0), true, call, None);
  }

  /** Calls that leave a running charge alone: unforced charges seen as idle, bookkeeping, and restarts. */
  predicate LeavesCharge(op: Op) {
    match op
    case OpDecide(_, call, _) => call.intent.GridChargeToTarget? && !call.force && call.observed == Some(Idle)
    case OpSetCommitment(_) => true
    case OpClearCommitment => true
    case OpOpenProbe(_) => true
    case OpCloseProbe => true
    case OpRestart => true
    case _ => false
  }

  lemma ChargeIsLeft(cfg: Config, s: System, op: Op)
    requires ChargeOnRecord(s.ctl) && StoreRestores(s) && LeavesCharge(op)
    ensures ChargeOnRecord(Step(cfg, s, op).ctl) && Step(cfg, s, op).device == s.device
  {
    match op
    case OpDecide(can, call, dev) =>
      DecideStep(cfg, s, can, call, dev);
      GateDecidesWrites(cfg, s.ctl, can, call, dev);
      DesiredMeans(cfg, s.ctl, call);
      IdempotentIff(cfg, s.ctl, can, call, dev.gateRead);
      assert s.device + [] == s.device;
    case OpRestart => FieldsOfPersisted(Restore(FRESH, s.stored), s.ctl);
    case OpSetCommitment(c) => assert s.device + [] == s.device;
    case OpClearCommitment => assert s.device + [] == s.device;
    case _ =>
  }

  /** Once an accepted CHARGE is on record, repeating it under an idle reading writes nothing, restarts included. */
  lemma {:induction false} HeldChargeIsNotRepeated(cfg: Config, ops: seq<Op>, more: seq<Op>)
    requires OpCorruptStore !in ops && ChargeOnRecord(Run(cfg, BOOT, ops).ctl)
    requires forall op :: op in more ==> LeavesCharge(op)
    ensures ChargeOnRecord(Run(cfg, BOOT, ops + more).ctl)
    ensures Run(cfg, BOOT, ops + more).device == Run(cfg, BOOT, ops).device
  {
    if more == [] {
      assert ops + more == ops;
    } else {
      var front, op := more[..|more| - 1], more[|more| - 1];
      assert op in more && forall o :: o in front ==> o in more;
      HeldChargeIsNotRepeated(cfg, ops, front);
      assert ops + more == (ops + front) + [op] && OpCorruptStore !in ops + front;
      OneMoreOp(cfg, ops + front, op);
      StoreAlwaysRestores(cfg, ops + front);
      ChargeIsLeft(cfg, Run(cfg, BOOT, ops + front), op);
    }
  }

  /** An accepted CHARGE write puts the charge on record. */
  lemma AcceptedChargeIsOnRecord(cfg: Config, s: System, can: bool, call: Call, dev: Device)
    requires Gate(cfg, s.ctl, can, call, dev.gateRead).None? && call.intent.GridChargeToTarget? && dev.reply.Accepted?
    ensures ChargeOnRecord(Step(cfg, s, OpDecide(can, call, dev)).ctl)
  {
    DecideStep(cfg, s, can, call, dev);
    DesiredMeans(cfg, s.ctl, call);
    RecordAfterWrite(cfg, s.ctl, call, dev);
  }
}
