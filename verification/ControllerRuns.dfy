/**
 What the mode controller keeps over whole runs: restarts are invisible to the gates, the daily
 budgets and the dwell hold whatever the device answers, and the "confirmed" flag never lies.

 A system is the controller state, what its store holds, and the device's ghost log of writes.
*/
module ControllerRuns {
  import opened Prelude
  import opened ChargeCommitments
  import opened Domain
  import opened ModeControl

  datatype System = System(ctl: Ctl, stored: Stored, device: seq<Write>)

  const BOOT := System(FRESH, Absent, [])

  datatype Op =
    | OpDecide(canCommand: bool, call: Call, dev: Device)
    | OpSetCommitment(c: Option<ChargeCommitment>)
    | OpClearCommitment
    | OpConfirmedAuto                 // an AUTO write outside decide, accepted, then noted
    | OpOverrunRecovery(reply: Reply) // a forced AUTO write outside decide, then noted
    | OpOpenProbe(until: int)
    | OpCloseProbe
    | OpRestart                       // process restart: defaults, then restore what the store holds
    | OpCorruptStore                  // the stored row becomes unreadable

  function Persist(s: System, ctl: Ctl, writes: seq<Write>): System {
    System(ctl, Row(Snapshot(ctl)), s.device + writes)
  }

  function Step(cfg: Config, s: System, op: Op): System {
    match op
    case OpDecide(can, call, dev) =>
      var (ctl, _, writes) := Decide(cfg, s.ctl, can, call, dev);
      if writes == [] then s else Persist(s, ctl, writes)
    case OpSetCommitment(c) => Persist(s, s.ctl.(commitment := c), [])
    case OpClearCommitment => if s.ctl.commitment.Some? then Persist(s, s.ctl.(commitment := None), []) else s
    case OpConfirmedAuto => Persist(s, NoteConfirmedAuto(s.ctl), [Write(Auto, Accepted)])
    case OpOverrunRecovery(reply) => Persist(s, NoteOverrunRecovery(s.ctl), [Write(Auto, reply)])
    case OpOpenProbe(until) => s.(ctl := s.ctl.(probeUntil := Some(until)))
    case OpCloseProbe => s.(ctl := s.ctl.(probeUntil := None))
    case OpRestart => s.(ctl := Restore(FRESH, s.stored))
    case OpCorruptStore => s.(stored := Corrupt)
  }

  function Run(cfg: Config, s: System, ops: seq<Op>): System {
    if ops == [] then s else Step(cfg, Run(cfg, s, ops[..|ops| - 1]), ops[|ops| - 1])
  }

  /** The write path touches the device exactly when the gate lets it. */
  lemma GateDecidesWrites(cfg: Config, s: Ctl, can: bool, call: Call, dev: Device)
    ensures Decide(cfg, s, can, call, dev).2 == [] <==> Gate(cfg, s, can, call, dev.gateRead).Some?
    ensures Decide(cfg, s, can, call, dev).2 == [] ==> Decide(cfg, s, can, call, dev).0 == s
  {
  }

  // --- the stored blob is always current ----------------------------------------------------------

  /** The blob is the snapshot of the running state, or the running state is just what the blob restores to. */
  ghost predicate StoreCurrent(s: System) {
    s.stored == Row(Snapshot(s.ctl)) || s.ctl.(probeUntil := None) == Restore(FRESH, s.stored)
  }

  lemma StepKeepsCurrent(cfg: Config, s: System, op: Op)
    requires StoreCurrent(s) || s.stored.Corrupt?
    ensures StoreCurrent(Step(cfg, s, op)) || Step(cfg, s, op).stored.Corrupt?
  {
    match op
    case OpDecide(can, call, dev) => GateDecidesWrites(cfg, s.ctl, can, call, dev);
    case OpOpenProbe(until) => assert Snapshot(s.ctl.(probeUntil := Some(until))) == Snapshot(s.ctl);
    case OpCloseProbe => assert Snapshot(s.ctl.(probeUntil := None)) == Snapshot(s.ctl);
    case OpRestart => RestoreClosesProbe(s.stored);
    case _ =>
  }

  lemma RestoreClosesProbe(stored: Stored)
    ensures Restore(FRESH, stored).probeUntil.None?
  {
  }

  /** After every step of every run the store is current, unless it was damaged from outside. */
  lemma {:induction false} StoreStaysCurrent(cfg: Config, ops: seq<Op>)
    ensures StoreCurrent(Run(cfg, BOOT, ops)) || Run(cfg, BOOT, ops).stored.Corrupt?
  {
    if ops != [] {
      StoreStaysCurrent(cfg, ops[..|ops| - 1]);
      StepKeepsCurrent(cfg, Run(cfg, BOOT, ops[..|ops| - 1]), ops[|ops| - 1]);
    }
  }

  lemma RestoredSnapshotIsCurrent(s: Ctl)
    requires s.commitment.Some? ==> Storable(s.commitment.value)
    ensures Snapshot(Restore(FRESH, Row(Snapshot(s)))) == Snapshot(s)
  {
    RestoreOwnSnapshot(s);
    if s.commitment.Some? { RoundTripIffStorable(s.commitment.value); }
    var r := Restore(FRESH, Row(Snapshot(s)));
    assert r.switchesToday == Persisted(r).switchesToday && s.switchesToday == Persisted(s).switchesToday;
    assert r.commitment == s.commitment;
  }

  /** Only storable commitments are set, and the store is never damaged behind the controller's back. */
  predicate Faithful(op: Op) {
    !op.OpCorruptStore? && (op.OpSetCommitment? && op.c.Some? ==> Storable(op.c.value))
  }

  /** The blob is exactly the snapshot, and what it says of the commitment survives a restart. */
  ghost predicate BlobFaithful(s: System) {
    && (s.stored == Row(Snapshot(s.ctl)) || (s.stored.Absent? && s.ctl.(probeUntil := None) == FRESH))
    && (s.ctl.commitment.Some? ==> Storable(s.ctl.commitment.value))
  }

  lemma RestartKeepsBlob(s: System)
    requires BlobFaithful(s)
    ensures BlobFaithful(s.(ctl := Restore(FRESH, s.stored)))
    ensures Restore(FRESH, s.stored).commitment == s.ctl.commitment
  {
    if s.stored.Row? {
      RestoredSnapshotIsCurrent(s.ctl);
      RestoreOwnSnapshot(s.ctl);
      if s.ctl.commitment.Some? { RoundTripIffStorable(s.ctl.commitment.value); }
    }
  }

  lemma StepKeepsBlob(cfg: Config, s: System, op: Op)
    requires BlobFaithful(s) && Faithful(op)
    ensures BlobFaithful(Step(cfg, s, op))
  {
    match op
    case OpDecide(can, call, dev) =>
      GateDecidesWrites(cfg, s.ctl, can, call, dev);
      DecideKeepsCommitment(cfg, s.ctl, can, call, dev);
    case OpOpenProbe(until) => assert Snapshot(s.ctl.(probeUntil := Some(until))) == Snapshot(s.ctl);
    case OpCloseProbe => assert Snapshot(s.ctl.(probeUntil := None)) == Snapshot(s.ctl);
    case OpRestart => RestartKeepsBlob(s);
    case _ =>
  }

  /** With storable commitments the persisted blob equals the current snapshot after every step, restarts included. */
  lemma {:induction false} BlobStaysFaithful(cfg: Config, ops: seq<Op>)
    requires forall op :: op in ops ==> Faithful(op)
    ensures BlobFaithful(Run(cfg, BOOT, ops))
  {
    if ops != [] {
      BlobStaysFaithful(cfg, ops[..|ops| - 1]);
      assert ops[|ops| - 1] in ops;
      StepKeepsBlob(cfg, Run(cfg, BOOT, ops[..|ops| - 1]), ops[|ops| - 1]);
    }
  }

  // --- restarts are invisible ------------------------------------------------------------------------

  /** All that a later gate, write, counter or dwell can depend on. */
  ghost predicate SameGates(a: Ctl, b: Ctl) {
    Persisted(a) == Persisted(b) && a.probeUntil == b.probeUntil
  }

  lemma GateRespects(cfg: Config, a: Ctl, b: Ctl, can: bool, call: Call, read: Option<Mode>)
    requires SameGates(a, b)
    ensures Gate(cfg, a, can, call, read) == Gate(cfg, b, can, call, read)
    ensures Desired(cfg, a, call) == Desired(cfg, b, call)
  {
    FieldsOfPersisted(a, b);
  }

  lemma PersistedFromFields(a: Ctl, b: Ctl)
    requires a.switchesToday == b.switchesToday && a.commitmentSwitchesToday == b.commitmentSwitchesToday
    requires a.lastSwitchAt == b.lastSwitchAt && a.counterDate == b.counterDate
    requires a.lastRequested == b.lastRequested && a.lastConfirmed == b.lastConfirmed
    requires a.originalVendor == b.originalVendor && a.unconfirmed == b.unconfirmed
    ensures Persisted(a) == Persisted(b)
  {
  }

  lemma PrepareRespects(cfg: Config, a: Ctl, b: Ctl, call: Call, dev: Device)
    requires SameGates(a, b)
    ensures SameGates(Prepare(cfg, a, call, dev), Prepare(cfg, b, call, dev))
  {
    FieldsOfPersisted(a, b);
    PersistedFromFields(Prepare(cfg, a, call, dev), Prepare(cfg, b, call, dev));
  }

  lemma RecordRespects(a: Ctl, b: Ctl, call: Call, desired: Mode)
    requires SameGates(a, b)
    ensures SameGates(RecordSwitch(a, call, desired), RecordSwitch(b, call, desired))
  {
    FieldsOfPersisted(a, b);
    PersistedFromFields(RecordSwitch(a, call, desired), RecordSwitch(b, call, desired));
  }

  /** What settling an answer does to the persisted fields. */
  lemma SettledFields(s: Ctl, r: Ctl, call: Call, desired: Mode, dev: Device)
    requires r == Settle(s, call, desired, dev).0
    ensures r.switchesToday == s.switchesToday && r.commitmentSwitchesToday == s.commitmentSwitchesToday
    ensures r.lastSwitchAt == s.lastSwitchAt && r.counterDate == s.counterDate
    ensures r.lastRequested == s.lastRequested && r.originalVendor == s.originalVendor && r.probeUntil == s.probeUntil
    ensures r.unconfirmed <==> !dev.reply.Accepted? && !(dev.reply.Rejected? && dev.recovery.Accepted?)
    ensures dev.reply.TimedOut? ==> r.lastConfirmed == s.lastConfirmed
    ensures dev.reply.Rejected? ==> r.lastConfirmed == if dev.recovery.Accepted? then Some(Auto) else None
    ensures dev.reply.Accepted? ==> r.lastConfirmed == Some(desired)
  {
  }

  lemma SettleShows(a: Ctl, b: Ctl, call: Call, desired: Mode, dev: Device)
    ensures Settle(a, call, desired, dev).2 == Settle(b, call, desired, dev).2
    ensures Shown(Settle(a, call, desired, dev).1) == Shown(Settle(b, call, desired, dev).1)
  {
  }

  lemma SettleRespects(a: Ctl, b: Ctl, a': Ctl, b': Ctl, call: Call, desired: Mode, dev: Device)
    requires SameGates(a, b) && a' == Settle(a, call, desired, dev).0 && b' == Settle(b, call, desired, dev).0
    ensures SameGates(a', b')
  {
    SettledFields(a, a', call, desired, dev);
    SettledFields(b, b', call, desired, dev);
    SameFields(a, b, a', b');
  }

  /** Agreement goes from one pair to another when no field that matters differs between their partners. */
  lemma SameFields(a: Ctl, b: Ctl, a': Ctl, b': Ctl)
    requires SameGates(a, b)
    requires a'.switchesToday == a.switchesToday && b'.switchesToday == b.switchesToday
    requires a'.commitmentSwitchesToday == a.commitmentSwitchesToday && b'.commitmentSwitchesToday == b.commitmentSwitchesToday
    requires a'.lastSwitchAt == a.lastSwitchAt && b'.lastSwitchAt == b.lastSwitchAt
    requires a'.counterDate == a.counterDate && b'.counterDate == b.counterDate
    requires a'.lastRequested == a.lastRequested && b'.lastRequested == b.lastRequested
    requires a'.originalVendor == a.originalVendor && b'.originalVendor == b.originalVendor
    requires a'.probeUntil == a.probeUntil && b'.probeUntil == b.probeUntil
    requires a'.unconfirmed == b'.unconfirmed
    requires a'.lastConfirmed == b'.lastConfirmed || (a'.lastConfirmed == a.lastConfirmed && b'.lastConfirmed == b.lastConfirmed)
    ensures SameGates(a', b')
  {
    FieldsOfPersisted(a, b);
    PersistedFromFields(a', b');
  }

  lemma AfterWriteRespects(cfg: Config, a: Ctl, b: Ctl, call: Call, dev: Device)
    requires SameGates(a, b)
    ensures var (a', da, wa) := AfterWrite(cfg, a, call, dev);
            var (b', db, wb) := AfterWrite(cfg, b, call, dev);
            SameGates(a', b') && wa == wb && Shown(da) == Shown(db)
  {
    var desired := Desired(cfg, a, call);
    GateRespects(cfg, a, b, true, call, None);
    PrepareRespects(cfg, a, b, call, dev);
    var a1, b1 := Prepare(cfg, a, call, dev), Prepare(cfg, b, call, dev);
    RecordRespects(a1, b1, call, desired);
    var a2, b2 := RecordSwitch(a1, call, desired), RecordSwitch(b1, call, desired);
    SettleShows(a2, b2, call, desired, dev);
    SettleRespects(a2, b2, AfterWrite(cfg, a, call, dev).0, AfterWrite(cfg, b, call, dev).0, call, desired, dev);
  }

  lemma DecideRespectsGates(cfg: Config, a: Ctl, b: Ctl, can: bool, call: Call, dev: Device)
    requires SameGates(a, b)
    ensures var (a', da, wa) := Decide(cfg, a, can, call, dev);
            var (b', db, wb) := Decide(cfg, b, can, call, dev);
            SameGates(a', b') && wa == wb && Shown(da) == Shown(db)
  {
    GateRespects(cfg, a, b, can, call, dev.gateRead);
    AfterWriteRespects(cfg, a, b, call, dev);
  }

  lemma FieldsOfPersisted(a: Ctl, b: Ctl)
    requires Persisted(a) == Persisted(b)
    ensures a.switchesToday == b.switchesToday && a.commitmentSwitchesToday == b.commitmentSwitchesToday
    ensures a.lastSwitchAt == b.lastSwitchAt && a.counterDate == b.counterDate
    ensures a.lastRequested == b.lastRequested && a.lastConfirmed == b.lastConfirmed
    ensures a.originalVendor == b.originalVendor && a.unconfirmed == b.unconfirmed
  {
    assert Persisted(a).switchesToday == a.switchesToday && Persisted(b).switchesToday == b.switchesToday;
    assert Persisted(a).commitmentSwitchesToday == a.commitmentSwitchesToday;
    assert Persisted(b).commitmentSwitchesToday == b.commitmentSwitchesToday;
    assert Persisted(a).lastSwitchAt == a.lastSwitchAt && Persisted(b).lastSwitchAt == b.lastSwitchAt;
    assert Persisted(a).counterDate == a.counterDate && Persisted(b).counterDate == b.counterDate;
  }

  /** A decision as a restart preserves it: whether a timed-out write is audited anew depends on memory alone. */
  function Shown(d: Decision): Decision { if d.outcome.Unconfirmed? then d.(audit := true) else d }

  /** What a call shows: its decision and the writes it made. */
  function Show(cfg: Config, s: System, op: Op): seq<(Decision, seq<Write>)> {
    if op.OpDecide? then
      var (_, d, w) := Decide(cfg, s.ctl, op.canCommand, op.call, op.dev);
      [(Shown(d), w)]
    else []
  }

  /**
   * The one difference a restart makes to a decision: the episode of a stuck write is forgotten, so its
   * repetition is audited again.
   */
  lemma RestartReauditsIff(cfg: Config, a: Ctl, b: Ctl, can: bool, call: Call, dev: Device)
    requires SameGates(a, b) && b.episode.None?
    ensures Decide(cfg, a, can, call, dev).1 == Decide(cfg, b, can, call, dev).1 <==>
              !(Gate(cfg, a, can, call, dev.gateRead).None? && dev.reply.TimedOut? && !NewEpisode(a, call, Desired(cfg, a, call)))
  {
    DecideRespectsGates(cfg, a, b, can, call, dev);
    GateRespects(cfg, a, b, can, call, dev.gateRead);
    if Gate(cfg, a, can, call, dev.gateRead).None? {
      EpisodeBeforeSettle(cfg, a, call, dev);
      EpisodeBeforeSettle(cfg, b, call, dev);
    }
  }

  lemma EpisodeBeforeSettle(cfg: Config, s: Ctl, call: Call, dev: Device)
    ensures var r := RecordSwitch(Prepare(cfg, s, call, dev), call, Desired(cfg, s, call));
            r.episode == s.episode && r.episodeLoggedAt == s.episodeLoggedAt
  {
    assert Prepare(cfg, s, call, dev).episode == s.episode && Prepare(cfg, s, call, dev).episodeLoggedAt == s.episodeLoggedAt;
  }

  function Shows(cfg: Config, s: System, ops: seq<Op>): seq<(Decision, seq<Write>)> {
    if ops == [] then []
    else
      var front := ops[..|ops| - 1];
      Shows(cfg, s, front) + Show(cfg, Run(cfg, s, front), ops[|ops| - 1])
  }

  function WithoutRestarts(ops: seq<Op>): seq<Op> {
    if ops == [] then []
    else
      var rest, op := WithoutRestarts(ops[..|ops| - 1]), ops[|ops| - 1];
      if op.OpRestart? then rest else rest + [op]
  }

  lemma StepRespectsGates(cfg: Config, a: System, b: System, op: Op)
    requires SameGates(a.ctl, b.ctl) && a.device == b.device
    requires !op.OpRestart? && !op.OpCorruptStore?
    ensures SameGates(Step(cfg, a, op).ctl, Step(cfg, b, op).ctl)
    ensures Step(cfg, a, op).device == Step(cfg, b, op).device
    ensures Show(cfg, a, op) == Show(cfg, b, op)
  {
    if op.OpDecide? {
      DecideRespectsGates(cfg, a.ctl, b.ctl, op.canCommand, op.call, op.dev);
      DecideStep(cfg, a, op.canCommand, op.call, op.dev);
      DecideStep(cfg, b, op.canCommand, op.call, op.dev);
    } else if Noting(op) {
      NoteRespectsGates(cfg, a, b, op);
    } else {
      ProbeIsNotPersisted(a.ctl, Step(cfg, a, op).ctl.probeUntil);
      ProbeIsNotPersisted(b.ctl, Step(cfg, b, op).ctl.probeUntil);
    }
  }

  lemma ProbeIsNotPersisted(s: Ctl, until: Option<int>)
    ensures Persisted(s.(probeUntil := until)) == Persisted(s)
  {
  }

  /** A decide call in terms of its result: no writes leave the system as it was. */
  lemma DecideStep(cfg: Config, s: System, can: bool, call: Call, dev: Device)
    ensures var (ctl, d, writes) := Decide(cfg, s.ctl, can, call, dev);
            && Step(cfg, s, OpDecide(can, call, dev)).ctl == ctl
            && Step(cfg, s, OpDecide(can, call, dev)).device == s.device + writes
            && Show(cfg, s, OpDecide(can, call, dev)) == [(Shown(d), writes)]
  {
    GateDecidesWrites(cfg, s.ctl, can, call, dev);
  }

  lemma NoteRespectsGates(cfg: Config, a: System, b: System, op: Op)
    requires SameGates(a.ctl, b.ctl) && a.device == b.device
    requires Noting(op)
    ensures SameGates(Step(cfg, a, op).ctl, Step(cfg, b, op).ctl)
    ensures Step(cfg, a, op).device == Step(cfg, b, op).device
    ensures Show(cfg, a, op) == Show(cfg, b, op)
  {
    NoteStep(cfg, a, op);
    NoteStep(cfg, b, op);
    NoteRespects(a.ctl, b.ctl, op);
  }

  predicate Noting(op: Op) { op.OpSetCommitment? || op.OpClearCommitment? || op.OpConfirmedAuto? || op.OpOverrunRecovery? }

  /** What the calls other than decide do to the controller, and to the device. */
  function Noted(s: Ctl, op: Op): Ctl {
    match op
    case OpSetCommitment(c) => s.(commitment := c)
    case OpClearCommitment => s.(commitment := None)
    case OpConfirmedAuto => NoteConfirmedAuto(s)
    case OpOverrunRecovery(_) => NoteOverrunRecovery(s)
    case _ => s
  }

  function NotedWrites(op: Op): seq<Write> {
    match op
    case OpConfirmedAuto => [Write(Auto, Accepted)]
    case OpOverrunRecovery(reply) => [Write(Auto, reply)]
    case _ => []
  }

  lemma NoteStep(cfg: Config, s: System, op: Op)
    requires Noting(op)
    ensures Step(cfg, s, op).ctl == Noted(s.ctl, op) && Step(cfg, s, op).device == s.device + NotedWrites(op)
  {
  }

  lemma NoteRespects(a: Ctl, b: Ctl, op: Op)
    requires SameGates(a, b)
    ensures SameGates(Noted(a, op), Noted(b, op))
  {
    FieldsOfPersisted(a, b);
    PersistedFromFields(Noted(a, op), Noted(b, op));
  }

  lemma DecideKeepsCommitment(cfg: Config, s: Ctl, can: bool, call: Call, dev: Device)
    ensures Decide(cfg, s, can, call, dev).0.commitment == s.commitment
    ensures Decide(cfg, s, can, call, dev).0.probeUntil == s.probeUntil
  {
    var prepared := Prepare(cfg, s, call, dev);
    var recorded := RecordSwitch(prepared, call, Desired(cfg, s, call));
    assert prepared.commitment == s.commitment && prepared.probeUntil == s.probeUntil;
    assert recorded.commitment == s.commitment && recorded.probeUntil == s.probeUntil;
    SettleKeepsCommitment(recorded, call, Desired(cfg, s, call), dev);
  }

  lemma SettleKeepsCommitment(s: Ctl, call: Call, desired: Mode, dev: Device)
    ensures Settle(s, call, desired, dev).0.commitment == s.commitment
    ensures Settle(s, call, desired, dev).0.probeUntil == s.probeUntil
  {
  }

  /** Whatever is stored restores to the persisted part of the running controller. */
  ghost predicate StoreRestores(s: System) {
    Persisted(Restore(FRESH, s.stored)) == Persisted(s.ctl)
  }

  lemma CurrentRestores(s: System)
    requires StoreCurrent(s)
    ensures StoreRestores(s)
  {
    if s.stored == Row(Snapshot(s.ctl)) { RestoreOwnSnapshot(s.ctl); }
  }

  lemma StoreAlwaysRestores(cfg: Config, ops: seq<Op>)
    requires OpCorruptStore !in ops
    ensures StoreRestores(Run(cfg, BOOT, ops))
  {
    StoreStaysCurrent(cfg, ops);
    NeverDamaged(cfg, ops);
    CurrentRestores(Run(cfg, BOOT, ops));
  }

  lemma {:induction false} NeverDamaged(cfg: Config, ops: seq<Op>)
    requires OpCorruptStore !in ops
    ensures !Run(cfg, BOOT, ops).stored.Corrupt?
  {
    if ops != [] {
      assert ops[|ops| - 1] in ops;
      NeverDamaged(cfg, ops[..|ops| - 1]);
    }
  }

  /** No outside damage to the store, and no export probe open when a process ends: its window is memory only. */
  ghost predicate Transparent(cfg: Config, ops: seq<Op>) {
    && OpCorruptStore !in ops
    && forall k :: 0 <= k < |ops| ==> ClosedAt(cfg, ops, k)
  }

  ghost predicate ClosedAt(cfg: Config, ops: seq<Op>, k: nat)
    requires k < |ops|
  {
    ops[k].OpRestart? ==> Run(cfg, BOOT, ops[..k]).ctl.probeUntil.None?
  }

  lemma TransparentFront(cfg: Config, ops: seq<Op>)
    requires ops != [] && Transparent(cfg, ops)
    ensures Transparent(cfg, ops[..|ops| - 1]) && OpCorruptStore !in ops[..|ops| - 1]
    ensures ops[|ops| - 1].OpRestart? ==> Run(cfg, BOOT, ops[..|ops| - 1]).ctl.probeUntil.None?
    ensures !ops[|ops| - 1].OpCorruptStore? && ops == ops[..|ops| - 1] + [ops[|ops| - 1]]
  {
    var front := ops[..|ops| - 1];
    assert ops[|ops| - 1] in ops && forall o :: o in front ==> o in ops;
    assert ClosedAt(cfg, ops, |ops| - 1);
    forall k | 0 <= k < |front| ensures ClosedAt(cfg, front, k) {
      assert ClosedAt(cfg, ops, k) && front[..k] == ops[..k];
    }
  }

  /** The run shows the same decisions and writes as the run without its restarts, and ends with the same gates and device log. */
  ghost predicate Invisible(cfg: Config, ops: seq<Op>) {
    var a, b := Run(cfg, BOOT, ops), Run(cfg, BOOT, WithoutRestarts(ops));
    Shows(cfg, BOOT, ops) == Shows(cfg, BOOT, WithoutRestarts(ops)) && SameGates(a.ctl, b.ctl) && a.device == b.device
  }

  lemma NothingToShow(cfg: Config)
    ensures Invisible(cfg, [])
  {
  }

  lemma RestartStep(cfg: Config, ops: seq<Op>, front: seq<Op>)
    requires ops == front + [OpRestart]
    ensures Run(cfg, BOOT, ops).ctl == Restore(FRESH, Run(cfg, BOOT, front).stored)
    ensures Run(cfg, BOOT, ops).device == Run(cfg, BOOT, front).device
    ensures Shows(cfg, BOOT, ops) == Shows(cfg, BOOT, front) && WithoutRestarts(ops) == WithoutRestarts(front)
  {
    assert ops[..|ops| - 1] == front;
  }

  lemma RestartIsInvisible(cfg: Config, ops: seq<Op>, front: seq<Op>)
    requires ops == front + [OpRestart] && Invisible(cfg, front) && OpCorruptStore !in front
    requires Run(cfg, BOOT, front).ctl.probeUntil.None?
    ensures Invisible(cfg, ops)
  {
    RestartStep(cfg, ops, front);
    StoreAlwaysRestores(cfg, front);
    RestoreClosesProbe(Run(cfg, BOOT, front).stored);
  }

  lemma OtherStepsAgree(cfg: Config, ops: seq<Op>, front: seq<Op>, op: Op)
    requires ops == front + [op] && Invisible(cfg, front) && !op.OpRestart? && !op.OpCorruptStore?
    ensures Invisible(cfg, ops)
  {
    assert ops[..|ops| - 1] == front;
    StepRespectsGates(cfg, Run(cfg, BOOT, front), Run(cfg, BOOT, WithoutRestarts(front)), op);
    assert WithoutRestarts(ops) == WithoutRestarts(front) + [op];
    assert WithoutRestarts(ops)[..|WithoutRestarts(ops)| - 1] == WithoutRestarts(front);
  }

  /**
   * Crash-restart transparency: a run with restarts anywhere shows, call by call, the same decisions
   * and device writes as the run without them, and ends with the same counters, dwell stamp, modes,
   * flag and device log.
   */
  lemma {:induction false} RestartsAreInvisible(cfg: Config, ops: seq<Op>)
    requires Transparent(cfg, ops)
    ensures Invisible(cfg, ops)
  {
    if ops == [] {
      NothingToShow(cfg);
    } else {
      var front, op := ops[..|ops| - 1], ops[|ops| - 1];
      TransparentFront(cfg, ops);
      RestartsAreInvisible(cfg, front);
      if op.OpRestart? { RestartIsInvisible(cfg, ops, front); } else { OtherStepsAgree(cfg, ops, front, op); }
    }
  }

  /** A storable commitment is not lost or altered by any restart either. */
  lemma RestartKeepsCommitment(cfg: Config, ops: seq<Op>)
    requires forall op :: op in ops ==> Faithful(op)
    ensures Step(cfg, Run(cfg, BOOT, ops), OpRestart).ctl.commitment == Run(cfg, BOOT, ops).ctl.commitment
  {
    BlobStaysFaithful(cfg, ops);
    RestartKeepsBlob(Run(cfg, BOOT, ops));
  }

  // --- the confirmed flag --------------------------------------------------------------------------

  /** Reading "confirmed" is only possible when the device's last answer proves it. */
  ghost predicate FlagHonest(s: Ctl, device: seq<Write>) {
    !s.unconfirmed && device != [] ==>
      device[|device| - 1].reply.Accepted? && s.lastConfirmed == Some(device[|device| - 1].mode)
  }

  /** The flag is honest, and a restart from the store would find the same persisted state or know that it cannot. */
  ghost predicate Honest(s: System) {
    && FlagHonest(s.ctl, s.device)
    && (s.stored.Absent? ==> s.device == [])
    && (!s.stored.Corrupt? ==> StoreRestores(s))
  }

  lemma WritesAreHonest(cfg: Config, s: Ctl, can: bool, call: Call, dev: Device)
    requires Decide(cfg, s, can, call, dev).2 != []
    ensures var (ctl, _, writes) := Decide(cfg, s, can, call, dev);
            FlagHonest(ctl, writes)
  {
  }

  lemma PersistIsHonest(s: System, ctl: Ctl, writes: seq<Write>)
    requires FlagHonest(ctl, s.device + writes)
    ensures Honest(Persist(s, ctl, writes))
  {
    RestoreOwnSnapshot(ctl);
  }

  lemma StepKeepsHonest(cfg: Config, s: System, op: Op)
    requires Honest(s)
    ensures Honest(Step(cfg, s, op))
  {
    match op
    case OpDecide(can, call, dev) =>
      var (ctl, _, writes) := Decide(cfg, s.ctl, can, call, dev);
      if writes != [] {
        WritesAreHonest(cfg, s.ctl, can, call, dev);
        assert (s.device + writes)[|s.device + writes| - 1] == writes[|writes| - 1];
        PersistIsHonest(s, ctl, writes);
      }
    case OpSetCommitment(c) => PersistIsHonest(s, s.ctl.(commitment := c), []);
    case OpClearCommitment =>
      if s.ctl.commitment.Some? { PersistIsHonest(s, s.ctl.(commitment := None), []); }
    case OpConfirmedAuto => PersistIsHonest(s, NoteConfirmedAuto(s.ctl), [Write(Auto, Accepted)]);
    case OpOverrunRecovery(reply) => PersistIsHonest(s, NoteOverrunRecovery(s.ctl), [Write(Auto, reply)]);
    case OpOpenProbe(until) => assert Persisted(s.ctl.(probeUntil := Some(until))) == Persisted(s.ctl);
    case OpCloseProbe => assert Persisted(s.ctl.(probeUntil := None)) == Persisted(s.ctl);
    case OpRestart => if s.stored.Row? { FieldsOfPersisted(Restore(FRESH, s.stored), s.ctl); }
    case OpCorruptStore =>
  }

  /**
   * A device write that nobody notes, such as a graceful shutdown makes when its restore fails, leaves the
   * flag honest exactly when the flag is already up or the write was accepted in the mode on record.
   */
  lemma UnnotedWriteIsHonestIff(s: System, w: Write)
    ensures FlagHonest(s.ctl, s.device + [w]) <==> s.ctl.unconfirmed || (w.reply.Accepted? && s.ctl.lastConfirmed == Some(w.mode))
  {
    assert (s.device + [w])[|s.device|] == w;
  }

  /**
   * Over every run, restarts and a damaged store included: if the controller says the last command is
   * confirmed, the device's last write was accepted and left it in the mode the controller names.
   */
  lemma {:induction false} ConfirmedFlagIsHonest(cfg: Config, ops: seq<Op>)
    ensures Honest(Run(cfg, BOOT, ops))
  {
    if ops != [] {
      ConfirmedFlagIsHonest(cfg, ops[..|ops| - 1]);
      StepKeepsHonest(cfg, Run(cfg, BOOT, ops[..|ops| - 1]), ops[|ops| - 1]);
    }
  }

  // --- daily budgets and dwell -----------------------------------------------------------------------

  /** One call that reached the device. */
  datatype Entry = Entry(now: int, gated: bool, counted: bool, commitment: bool, auto: bool)

  function EntryOf(cfg: Config, s: Ctl, call: Call): Entry {
    Entry(call.now, !Bypasses(call, Desired(cfg, s, call)), call.countTowardCap, call.commitment, Desired(cfg, s, call).Auto?)
  }

  function Reached(cfg: Config, s: System, op: Op): seq<Entry> {
    if op.OpDecide? && Gate(cfg, s.ctl, op.canCommand, op.call, op.dev.gateRead).None? then [EntryOf(cfg, s.ctl, op.call)] else []
  }

  function Log(cfg: Config, ops: seq<Op>): seq<Entry> {
    if ops == [] then []
    else
      var front := ops[..|ops| - 1];
      Log(cfg, front) + Reached(cfg, Run(cfg, BOOT, front), ops[|ops| - 1])
  }

  predicate GatedEntry(cfg: Config, e: Entry, day: int, commitment: bool) {
    e.gated && e.commitment == commitment && cfg.dayOf(e.now) == day
  }

  /** Gated writes of one budget on one local day. */
  function GatedOn(cfg: Config, log: seq<Entry>, day: int, commitment: bool): nat {
    if log == [] then 0
    else GatedOn(cfg, log[..|log| - 1], day, commitment) + if GatedEntry(cfg, log[|log| - 1], day, commitment) then 1 else 0
  }

  /** Those of them that asked to be counted. */
  function SpentOn(cfg: Config, log: seq<Entry>, day: int, commitment: bool): nat {
    if log == [] then 0
    else
      var e := log[|log| - 1];
      SpentOn(cfg, log[..|log| - 1], day, commitment) + if GatedEntry(cfg, e, day, commitment) && e.counted then 1 else 0
  }

  ghost predicate DaysAdvance(cfg: Config) {
    forall a, b :: a <= b ==> cfg.dayOf(a) <= cfg.dayOf(b)
  }

  ghost predicate Chronological(ops: seq<Op>) {
    forall i, j :: 0 <= i < j < |ops| && ops[i].OpDecide? && ops[j].OpDecide? ==> ops[i].call.now <= ops[j].call.now
  }

  ghost predicate UpTo(log: seq<Entry>, now: int) {
    && (forall i, j :: 0 <= i <= j < |log| ==> log[i].now <= log[j].now)
    && (forall i :: 0 <= i < |log| ==> log[i].now <= now)
  }

  /** How the log of a run is reflected in the counters, the counter date and the dwell stamp. */
  ghost predicate Accounted(cfg: Config, log: seq<Entry>, s: Ctl) {
    && (log == [] ==> s.counterDate.None? && s.switchesToday == 0 && s.commitmentSwitchesToday == 0)
    && (log != [] ==>
          && s.counterDate == Some(cfg.dayOf(log[|log| - 1].now))
          && SpentOn(cfg, log, s.counterDate.value, false) <= s.switchesToday
          && SpentOn(cfg, log, s.counterDate.value, true) <= s.commitmentSwitchesToday)
    && UsableStamp(s)
    && (forall i :: 0 <= i < |log| && log[i].counted ==> s.lastSwitchAt.Some? && log[i].now <= s.lastSwitchAt.value.t)
  }

  lemma {:induction false} NoneOnLaterDay(cfg: Config, log: seq<Entry>, day: int, commitment: bool)
    requires forall i :: 0 <= i < |log| ==> cfg.dayOf(log[i].now) < day
    ensures SpentOn(cfg, log, day, commitment) == 0
  {
    if log != [] { NoneOnLaterDay(cfg, log[..|log| - 1], day, commitment); }
  }

  lemma EntryAppends(cfg: Config, log: seq<Entry>, e: Entry, day: int, commitment: bool)
    ensures GatedOn(cfg, log + [e], day, commitment)
         == GatedOn(cfg, log, day, commitment) + if GatedEntry(cfg, e, day, commitment) then 1 else 0
    ensures SpentOn(cfg, log + [e], day, commitment)
         == SpentOn(cfg, log, day, commitment) + if GatedEntry(cfg, e, day, commitment) && e.counted then 1 else 0
  {
    assert (log + [e])[..|log|] == log;
  }

  /** The counters a call finds after the midnight rollover cover what its day has already spent. */
  lemma RolloverCovers(cfg: Config, log: seq<Entry>, s: Ctl, now: int)
    requires Accounted(cfg, log, s) && DaysAdvance(cfg)
    requires UpTo(log, now)
    ensures SpentOn(cfg, log, cfg.dayOf(now), false) <= EffectiveSwitches(cfg, s, now) == ResetCounter(cfg, s, now).switchesToday
    ensures SpentOn(cfg, log, cfg.dayOf(now), true)
         <= EffectiveCommitmentSwitches(cfg, s, now) == ResetCounter(cfg, s, now).commitmentSwitchesToday
  {
    var day := cfg.dayOf(now);
    if log != [] && s.counterDate != Some(day) {
      forall i | 0 <= i < |log| ensures cfg.dayOf(log[i].now) < day {
        assert log[i].now <= log[|log| - 1].now <= now;
      }
      NoneOnLaterDay(cfg, log, day, false);
      NoneOnLaterDay(cfg, log, day, true);
    }
  }

  lemma CountersAfterWrite(cfg: Config, s: Ctl, call: Call, dev: Device)
    ensures var counts := call.countTowardCap && !Desired(cfg, s, call).Auto?;
            var after, rolled := AfterWrite(cfg, s, call, dev).0, ResetCounter(cfg, s, call.now);
            && after.counterDate == Some(cfg.dayOf(call.now))
            && after.switchesToday == rolled.switchesToday + (if counts && !call.commitment then 1 else 0)
            && after.commitmentSwitchesToday == rolled.commitmentSwitchesToday + (if counts && call.commitment then 1 else 0)
            && after.lastSwitchAt == if call.countTowardCap then Some(Aware(call.now)) else s.lastSwitchAt
  {
  }

  /** The two budgets never draw on each other: apart from the midnight rollover the other count stays. */
  lemma BudgetsAreSeparate(cfg: Config, s: Ctl, call: Call, dev: Device)
    ensures var after, rolled := AfterWrite(cfg, s, call, dev).0, ResetCounter(cfg, s, call.now);
            && (call.commitment ==> after.switchesToday == rolled.switchesToday)
            && (!call.commitment ==> after.commitmentSwitchesToday == rolled.commitmentSwitchesToday)
            && (call.commitment && !Bypasses(call, Desired(cfg, s, call)) && call.countTowardCap ==>
                  after.commitmentSwitchesToday == rolled.commitmentSwitchesToday + 1)
            && (!call.commitment && !Bypasses(call, Desired(cfg, s, call)) && call.countTowardCap ==>
                  after.switchesToday == rolled.switchesToday + 1)
  {
    CountersAfterWrite(cfg, s, call, dev);
  }

  lemma DecideKeepsAccounts(cfg: Config, s: Ctl, log: seq<Entry>, can: bool, call: Call, dev: Device)
    requires Accounted(cfg, log, s) && DaysAdvance(cfg)
    requires UpTo(log, call.now)
    requires Gate(cfg, s, can, call, dev.gateRead).None?
    ensures Accounted(cfg, log + [EntryOf(cfg, s, call)], AfterWrite(cfg, s, call, dev).0)
  {
    var e := EntryOf(cfg, s, call);
    CountersAfterWrite(cfg, s, call, dev);
    RolloverCovers(cfg, log, s, call.now);
    EntryAppends(cfg, log, e, cfg.dayOf(call.now), false);
    EntryAppends(cfg, log, e, cfg.dayOf(call.now), true);
  }

  function CapOf(cfg: Config, commitment: bool): int { if commitment then cfg.maxCommitmentSwitches else cfg.maxSwitches }

  ghost predicate SpentWithin(cfg: Config, log: seq<Entry>, day: int) {
    forall commitment :: SpentOn(cfg, log, day, commitment) <= MaxInt(0, CapOf(cfg, commitment))
  }

  lemma DecideStaysWithinBudgets(cfg: Config, s: Ctl, log: seq<Entry>, can: bool, call: Call, dev: Device, day: int)
    requires Accounted(cfg, log, s) && DaysAdvance(cfg) && SpentWithin(cfg, log, day)
    requires UpTo(log, call.now)
    requires Gate(cfg, s, can, call, dev.gateRead).None?
    ensures SpentWithin(cfg, log + [EntryOf(cfg, s, call)], day)
  {
    var e := EntryOf(cfg, s, call);
    if cfg.dayOf(call.now) == day { RolloverCovers(cfg, log, s, call.now); }
    forall commitment ensures SpentOn(cfg, log + [e], day, commitment) <= MaxInt(0, CapOf(cfg, commitment)) {
      EntryAppends(cfg, log, e, day, commitment);
    }
  }

  lemma DecideRespectsDwell(cfg: Config, s: Ctl, log: seq<Entry>, can: bool, call: Call, dev: Device, i: nat)
    requires Accounted(cfg, log, s) && i < |log| && log[i].counted
    requires Gate(cfg, s, can, call, dev.gateRead).None? && !Bypasses(call, Desired(cfg, s, call))
    ensures call.now - log[i].now >= cfg.minDwell
  {
  }

  lemma AccountsSurviveRestart(cfg: Config, log: seq<Entry>, a: Ctl, b: Ctl)
    requires Accounted(cfg, log, a) && Persisted(a) == Persisted(b)
    ensures Accounted(cfg, log, b)
  {
    FieldsOfPersisted(a, b);
  }

  /** The log of a prefix is chronological and lies before every later call. */
  lemma {:induction false} LogIsChronological(cfg: Config, ops: seq<Op>, now: int)
    requires Chronological(ops) && forall i :: 0 <= i < |ops| && ops[i].OpDecide? ==> ops[i].call.now <= now
    ensures UpTo(Log(cfg, ops), now)
  {
    if ops != [] {
      var front, op := ops[..|ops| - 1], ops[|ops| - 1];
      LogIsChronological(cfg, front, if op.OpDecide? then op.call.now else now);
    }
  }

  lemma StepKeepsAccounts(cfg: Config, s: System, log: seq<Entry>, op: Op, day: int)
    requires StoreRestores(s) && !op.OpCorruptStore? && DaysAdvance(cfg)
    requires Accounted(cfg, log, s.ctl) && SpentWithin(cfg, log, day)
    requires op.OpDecide? ==> UpTo(log, op.call.now)
    ensures Accounted(cfg, log + Reached(cfg, s, op), Step(cfg, s, op).ctl)
    ensures SpentWithin(cfg, log + Reached(cfg, s, op), day)
  {
    if op.OpDecide? && Gate(cfg, s.ctl, op.canCommand, op.call, op.dev.gateRead).None? {
      DecideKeepsAccounts(cfg, s.ctl, log, op.canCommand, op.call, op.dev);
      DecideStaysWithinBudgets(cfg, s.ctl, log, op.canCommand, op.call, op.dev, day);
      GateDecidesWrites(cfg, s.ctl, op.canCommand, op.call, op.dev);
    } else {
      assert log + Reached(cfg, s, op) == log;
      if op.OpDecide? {
        GateDecidesWrites(cfg, s.ctl, op.canCommand, op.call, op.dev);
      } else if op.OpRestart? {
        AccountsSurviveRestart(cfg, log, s.ctl, Restore(FRESH, s.stored));
      }
    }
  }

  /** What the budget and dwell theorems assume: time moves forward and the store is not damaged from outside. */
  ghost predicate OrdinaryRun(cfg: Config, ops: seq<Op>) {
    DaysAdvance(cfg) && Chronological(ops) && OpCorruptStore !in ops
  }

  lemma {:induction false} RunKeepsAccounts(cfg: Config, ops: seq<Op>, day: int)
    requires OrdinaryRun(cfg, ops)
    ensures Accounted(cfg, Log(cfg, ops), Run(cfg, BOOT, ops).ctl) && SpentWithin(cfg, Log(cfg, ops), day)
  {
    if ops != [] {
      var front, op := ops[..|ops| - 1], ops[|ops| - 1];
      assert op in ops && forall o :: o in front ==> o in ops;
      RunKeepsAccounts(cfg, front, day);
      StoreAlwaysRestores(cfg, front);
      LastCallIsLatest(cfg, ops);
      StepKeepsAccounts(cfg, Run(cfg, BOOT, front), Log(cfg, front), op, day);
    }
  }

  lemma LastCallIsLatest(cfg: Config, ops: seq<Op>)
    requires ops != [] && Chronological(ops)
    ensures var op := ops[|ops| - 1];
            op.OpDecide? ==> UpTo(Log(cfg, ops[..|ops| - 1]), op.call.now)
  {
    if ops[|ops| - 1].OpDecide? {
      LogIsChronological(cfg, ops[..|ops| - 1], ops[|ops| - 1].call.now);
    }
  }

  /**
   * On every local day at most `maxSwitches` gated routine writes that count and at most
   * `maxCommitmentSwitches` gated commitment writes that count reach the device, whatever it answers,
   * however often EMS restarts, and whatever else is written uncounted.
   */
  lemma CountedBudgetsHold(cfg: Config, ops: seq<Op>, day: int)
    requires OrdinaryRun(cfg, ops)
    ensures SpentOn(cfg, Log(cfg, ops), day, false) <= MaxInt(0, cfg.maxSwitches)
    ensures SpentOn(cfg, Log(cfg, ops), day, true) <= MaxInt(0, cfg.maxCommitmentSwitches)
  {
    RunKeepsAccounts(cfg, ops, day);
    assert CapOf(cfg, false) == cfg.maxSwitches && CapOf(cfg, true) == cfg.maxCommitmentSwitches;
  }

  /** Every gated write comes at least the minimum dwell after every earlier counted one. */
  lemma {:induction false} DwellHolds(cfg: Config, ops: seq<Op>, i: nat, j: nat)
    requires OrdinaryRun(cfg, ops)
    requires i < j < |Log(cfg, ops)| && Log(cfg, ops)[i].counted && Log(cfg, ops)[j].gated
    ensures Log(cfg, ops)[j].now - Log(cfg, ops)[i].now >= cfg.minDwell
  {
    var front, op := ops[..|ops| - 1], ops[|ops| - 1];
    assert op in ops && forall o :: o in front ==> o in ops;
    var log := Log(cfg, front);
    if j < |log| {
      DwellHolds(cfg, front, i, j);
    } else {
      RunKeepsAccounts(cfg, front, 0);
      LastWriteRespectsDwell(cfg, Run(cfg, BOOT, front), log, op, i);
    }
  }

  lemma LastWriteRespectsDwell(cfg: Config, s: System, log: seq<Entry>, op: Op, i: nat)
    requires Accounted(cfg, log, s.ctl) && i < |log| && log[i].counted
    ensures forall e :: e in Reached(cfg, s, op) && e.gated ==> e.now - log[i].now >= cfg.minDwell
  {
    if Reached(cfg, s, op) != [] && EntryOf(cfg, s.ctl, op.call).gated {
      DecideRespectsDwell(cfg, s.ctl, log, op.canCommand, op.call, op.dev, i);
    }
  }

  // --- exactly when all gated writes stay in budget ----------------------------------------------------

  /** What a caller chooses about a call; the time, the observed mode and the device are up to the world. */
  datatype Shape = Shape(
    intent: Intent, manual: bool, priority: bool, carSession: bool, force: bool, countTowardCap: bool, commitment: bool)

  function ShapeOf(c: Call): Shape {
    Shape(c.intent, c.manual, c.priority, c.carSession, c.force, c.countTowardCap, c.commitment)
  }

  ghost predicate Over(ops: seq<Op>, shapes: set<Shape>) {
    forall op :: op in ops && op.OpDecide? ==> ShapeOf(op.call) in shapes
  }

  /** A call that counts, skips the gates, can only command AUTO, or has no budget to exceed. */
  predicate Tame(cfg: Config, p: Shape) {
    || p.countTowardCap || p.manual || p.priority || IntentToMode(p.intent, true, p.carSession).Auto?
    || cfg.dryRun || CapOf(cfg, p.commitment) <= 0
  }

  ghost predicate GatedWithin(cfg: Config, log: seq<Entry>, day: int) {
    forall commitment :: GatedOn(cfg, log, day, commitment) <= MaxInt(0, CapOf(cfg, commitment))
  }

  ghost predicate AllCounted(log: seq<Entry>) { forall i :: 0 <= i < |log| && log[i].gated ==> log[i].counted }

  lemma {:induction false} SpentIsGated(cfg: Config, log: seq<Entry>, day: int, commitment: bool)
    requires AllCounted(log)
    ensures SpentOn(cfg, log, day, commitment) == GatedOn(cfg, log, day, commitment)
  {
    if log != [] { SpentIsGated(cfg, log[..|log| - 1], day, commitment); }
  }

  lemma TameCallIsCounted(cfg: Config, s: Ctl, log: seq<Entry>, can: bool, call: Call, read: Option<Mode>)
    requires Tame(cfg, ShapeOf(call)) && Gate(cfg, s, can, call, read).None?
    requires Accounted(cfg, log, s) && DaysAdvance(cfg) && UpTo(log, call.now)
    ensures EntryOf(cfg, s, call).gated ==> EntryOf(cfg, s, call).counted
  {
    RolloverCovers(cfg, log, s, call.now);
  }

  lemma {:induction false} TameRunIsCounted(cfg: Config, ops: seq<Op>, shapes: set<Shape>)
    requires OrdinaryRun(cfg, ops) && Over(ops, shapes) && forall p :: p in shapes ==> Tame(cfg, p)
    ensures AllCounted(Log(cfg, ops))
  {
    if ops != [] {
      var front, op := ops[..|ops| - 1], ops[|ops| - 1];
      assert op in ops && forall o :: o in front ==> o in ops;
      TameRunIsCounted(cfg, front, shapes);
      RunKeepsAccounts(cfg, front, 0);
      LastCallIsLatest(cfg, ops);
      if Reached(cfg, Run(cfg, BOOT, front), op) != [] {
        TameCallIsCounted(cfg, Run(cfg, BOOT, front).ctl, Log(cfg, front), op.canCommand, op.call, op.dev.gateRead);
      }
    }
  }

  /** Over tame calls every gated write is within its day's budget. */
  lemma DailyBudgetsHold(cfg: Config, ops: seq<Op>, shapes: set<Shape>, day: int)
    requires OrdinaryRun(cfg, ops) && Over(ops, shapes) && forall p :: p in shapes ==> Tame(cfg, p)
    ensures GatedWithin(cfg, Log(cfg, ops), day)
  {
    RunKeepsAccounts(cfg, ops, day);
    TameRunIsCounted(cfg, ops, shapes);
    forall commitment ensures GatedOn(cfg, Log(cfg, ops), day, commitment) <= MaxInt(0, CapOf(cfg, commitment)) {
      SpentIsGated(cfg, Log(cfg, ops), day, commitment);
    }
  }

  ghost predicate CountersNonNegative(s: Ctl) { s.switchesToday >= 0 && s.commitmentSwitchesToday >= 0 }

  lemma {:induction false} CountersStayNonNegative(cfg: Config, ops: seq<Op>)
    ensures CountersNonNegative(Run(cfg, BOOT, ops).ctl)
  {
    if ops != [] {
      var front, op := ops[..|ops| - 1], ops[|ops| - 1];
      var s := Run(cfg, BOOT, front);
      CountersStayNonNegative(cfg, front);
      if op.OpDecide? {
        GateDecidesWrites(cfg, s.ctl, op.canCommand, op.call, op.dev);
        CountersAfterWrite(cfg, s.ctl, op.call, op.dev);
      } else if op.OpRestart? && s.stored.Row? {
        ConfirmedFlagIsHonest(cfg, front);
        FieldsOfPersisted(Restore(FRESH, s.stored), s.ctl);
      }
    }
  }

  /** The observation does not make a charge look already under way. */
  predicate Repeatable(cfg: Config, s: Ctl, call: Call) {
    call.observed.Some? && !(Desired(cfg, s, call).Charge? && call.observed == Some(Idle) && !call.force)
  }

  /** A gated write that does not count leaves the gate open for its own repetition, whatever the device answers. */
  lemma UncountedCallRepeats(cfg: Config, s: Ctl, can: bool, call: Call, dev: Device)
    requires Gate(cfg, s, can, call, dev.gateRead).None? && EntryOf(cfg, s, call).gated && !call.countTowardCap
    requires CountersNonNegative(s) && Repeatable(cfg, s, call)
    ensures var s' := AfterWrite(cfg, s, call, dev).0;
            && Gate(cfg, s', can, call, dev.gateRead).None? && EntryOf(cfg, s', call) == EntryOf(cfg, s, call)
            && Repeatable(cfg, s', call)
  {
    var s' := AfterWrite(cfg, s, call, dev).0;
    CountersAfterWrite(cfg, s, call, dev);
    ProbeAfterWrite(cfg, s, call, dev);
    assert Desired(cfg, s', call) == Desired(cfg, s, call);
  }

  lemma ProbeAfterWrite(cfg: Config, s: Ctl, call: Call, dev: Device)
    ensures AfterWrite(cfg, s, call, dev).0.probeUntil == s.probeUntil
  {
    SettleKeepsCommitment(RecordSwitch(Prepare(cfg, s, call, dev), call, Desired(cfg, s, call)), call, Desired(cfg, s, call), dev);
  }

  function Repeat<T>(x: T, n: nat): (r: seq<T>)
    ensures |r| == n && forall i :: 0 <= i < n ==> r[i] == x
  {
    if n == 0 then [] else Repeat(x, n - 1) + [x]
  }

  /** The call gets through as the gated entry e, and its observation would let it through again. */
  ghost predicate Opens(cfg: Config, s: Ctl, op: Op, e: Entry) {
    && op.OpDecide? && Gate(cfg, s, op.canCommand, op.call, op.dev.gateRead).None?
    && e == EntryOf(cfg, s, op.call) && e.gated && Repeatable(cfg, s, op.call)
  }

  lemma OpensAgain(cfg: Config, s: System, op: Op, e: Entry)
    requires Opens(cfg, s.ctl, op, e) && !e.counted && CountersNonNegative(s.ctl)
    ensures Reached(cfg, s, op) == [e] && Opens(cfg, Step(cfg, s, op).ctl, op, e)
  {
    UncountedCallRepeats(cfg, s.ctl, op.canCommand, op.call, op.dev);
    DecideStep(cfg, s, op.canCommand, op.call, op.dev);
  }

  /** After the run the log is `base` and n copies of e, and the call would get through as e once more. */
  ghost predicate Escaped(cfg: Config, base: seq<Entry>, ops: seq<Op>, op: Op, e: Entry, n: nat) {
    Log(cfg, ops) == base + Repeat(e, n) && Opens(cfg, Run(cfg, BOOT, ops).ctl, op, e)
  }

  lemma EscapeStep(cfg: Config, base: seq<Entry>, ops: seq<Op>, op: Op, e: Entry, n: nat)
    requires Escaped(cfg, base, ops, op, e, n) && !e.counted
    ensures Escaped(cfg, base, ops + [op], op, e, n + 1)
  {
    CountersStayNonNegative(cfg, ops);
    OpensAgain(cfg, Run(cfg, BOOT, ops), op, e);
    OneMoreOp(cfg, ops, op);
    Snoc(base, e, n);
  }

  lemma Snoc<T>(base: seq<T>, x: T, n: nat)
    ensures base + Repeat(x, n + 1) == (base + Repeat(x, n)) + [x]
    ensures base + Repeat(x, 0) == base
  {
  }

  /**
   * From any reachable state: once a gated call that does not count gets through, its n-fold repetition
   * writes n times, on one day and in either budget, whatever the caps are.
   */
  lemma {:induction false} UncountedCallsEscapeTheCap(cfg: Config, ops: seq<Op>, op: Op, e: Entry, n: nat)
    requires Opens(cfg, Run(cfg, BOOT, ops).ctl, op, e) && !e.counted
    ensures Escaped(cfg, Log(cfg, ops), ops + Repeat(op, n), op, e, n)
  {
    if n == 0 {
      Snoc(ops, op, 0);
      Snoc(Log(cfg, ops), e, 0);
    } else {
      UncountedCallsEscapeTheCap(cfg, ops, op, e, n - 1);
      EscapeStep(cfg, Log(cfg, ops), ops + Repeat(op, n - 1), op, e, n - 1);
      Snoc(ops, op, n - 1);
    }
  }

  lemma OneMoreOp(cfg: Config, ops: seq<Op>, op: Op)
    ensures Run(cfg, BOOT, ops + [op]) == Step(cfg, Run(cfg, BOOT, ops), op)
    ensures Log(cfg, ops + [op]) == Log(cfg, ops) + Reached(cfg, Run(cfg, BOOT, ops), op)
  {
    assert (ops + [op])[..|ops|] == ops;
  }

  lemma {:induction false} RepeatsAdd(cfg: Config, log: seq<Entry>, e: Entry, n: nat)
    requires e.gated
    ensures GatedOn(cfg, log + Repeat(e, n), cfg.dayOf(e.now), e.commitment) >= n
  {
    if n > 0 {
      RepeatsAdd(cfg, log, e, n - 1);
      assert log + Repeat(e, n) == (log + Repeat(e, n - 1)) + [e];
      EntryAppends(cfg, log + Repeat(e, n - 1), e, cfg.dayOf(e.now), e.commitment);
    }
  }

  /** A repertoire with one untame call has a run that exceeds its budget: a probe opened, then the call repeated. */
  lemma UntameCallExceeds(cfg: Config, shapes: set<Shape>, p: Shape) returns (ops: seq<Op>)
    requires p in shapes && !Tame(cfg, p)
    ensures Chronological(ops) && OpCorruptStore !in ops && Over(ops, shapes)
    ensures !GatedWithin(cfg, Log(cfg, ops), cfg.dayOf(0))
  {
    var call := Call(p.intent, 0, Some(Auto), p.manual, p.priority, p.carSession, p.force, p.countTowardCap, p.commitment);
    var op := OpDecide(true, call, Device(None, None, Accepted, Accepted));
    var n := CapOf(cfg, p.commitment) + 1;
    ops := [OpOpenProbe(1)] + Repeat(op, n);
    RepetitionExceeds(cfg, p, call, op, n);
    RepetitionIsOrdinary(op, n, shapes);
    Exceeds(cfg, Log(cfg, ops), cfg.dayOf(0), p.commitment, n);
  }

  lemma RepetitionIsOrdinary(op: Op, n: nat, shapes: set<Shape>)
    requires op.OpDecide? && ShapeOf(op.call) in shapes
    ensures var ops := [OpOpenProbe(1)] + Repeat(op, n);
            Chronological(ops) && OpCorruptStore !in ops && Over(ops, shapes)
  {
  }

  lemma Exceeds(cfg: Config, log: seq<Entry>, day: int, commitment: bool, n: nat)
    requires GatedOn(cfg, log, day, commitment) >= n > MaxInt(0, CapOf(cfg, commitment))
    ensures !GatedWithin(cfg, log, day)
  {
  }

  lemma RepetitionExceeds(cfg: Config, p: Shape, call: Call, op: Op, n: nat)
    requires !Tame(cfg, p) && ShapeOf(call) == p && call.now == 0 && call.observed == Some(Auto)
    requires op == OpDecide(true, call, Device(None, None, Accepted, Accepted))
    ensures GatedOn(cfg, Log(cfg, [OpOpenProbe(1)] + Repeat(op, n)), cfg.dayOf(0), p.commitment) >= n
  {
    var first: seq<Op> := [OpOpenProbe(1)];
    var e := EntryOf(cfg, FRESH.(probeUntil := Some(1)), call);
    ProbeOnly(cfg);
    UntameCallOpens(cfg, p, call, op, e);
    UncountedCallsEscapeTheCap(cfg, first, op, e, n);
    RepeatsAdd(cfg, Log(cfg, first), e, n);
  }

  lemma ProbeOnly(cfg: Config)
    ensures Run(cfg, BOOT, [OpOpenProbe(1)]).ctl == FRESH.(probeUntil := Some(1))
  {
    OneMoreOp(cfg, [], OpOpenProbe(1));
    assert [] + [OpOpenProbe(1)] == [OpOpenProbe(1)];
  }

  lemma UntameCallOpens(cfg: Config, p: Shape, call: Call, op: Op, e: Entry)
    requires !Tame(cfg, p) && ShapeOf(call) == p && call.now == 0 && call.observed == Some(Auto)
    requires op == OpDecide(true, call, Device(None, None, Accepted, Accepted))
    requires e == EntryOf(cfg, FRESH.(probeUntil := Some(1)), call)
    ensures Opens(cfg, FRESH.(probeUntil := Some(1)), op, e) && !e.counted && e.now == 0 && e.commitment == p.commitment
  {
    assert Desired(cfg, FRESH.(probeUntil := Some(1)), call) == IntentToMode(p.intent, true, p.carSession);
  }

  /**
   * All gated writes of all ordinary runs over a repertoire of calls stay within the daily budgets exactly
   * when every call of the repertoire is tame.
   */
  lemma BudgetsHoldIff(cfg: Config, shapes: set<Shape>)
    requires DaysAdvance(cfg)
    ensures (forall ops, day :: OrdinaryRun(cfg, ops) && Over(ops, shapes) ==> GatedWithin(cfg, Log(cfg, ops), day))
       <==> (forall p :: p in shapes ==> Tame(cfg, p))
  {
    if forall p :: p in shapes ==> Tame(cfg, p) {
      forall ops, day | OrdinaryRun(cfg, ops) && Over(ops, shapes) ensures GatedWithin(cfg, Log(cfg, ops), day) {
        DailyBudgetsHold(cfg, ops, shapes, day);
      }
    } else {
      var p :| p in shapes && !Tame(cfg, p);
      var ops := UntameCallExceeds(cfg, shapes, p);
      assert OrdinaryRun(cfg, ops) && Over(ops, shapes);
    }
  }
}
