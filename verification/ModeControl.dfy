/**
 The mode controller's decisions (ems/control/mode_controller.py) as functions of its state: intent
 mapping, gates, the write path with its three device replies, and the persisted snapshot with its
 fail-safe restore. ModeController performs them on mutable fields; ControllerRuns proves what holds
 over whole runs.
*/
module ModeControl {
  import opened Prelude
  import opened ChargeCommitments
  import opened Domain

  function IntentToMode(intent: Intent, allowExport: bool, carSession: bool): Mode {
    match intent
    case AllowSelfConsumption => Auto
    case GridChargeToTarget => Charge
    case HoldReserve => Idle
    case DischargeForLoad => if carSession then Discharge else Auto
    case ExportForProfit => if allowExport then Discharge else Auto
  }

  /** Settings; `dayOf` maps an instant to its local date. */
  datatype Config = Config(
    dryRun: bool, allowExportDischarge: bool, maxSwitches: int, maxCommitmentSwitches: int, minDwell: int, dayOf: int -> int)

  datatype Outcome =
    | WasDryRun | NotControlling | WasIdempotent | InDwell | CapReached | WouldApply
    | Applied | FailedRecovered | FailedUnrecovered | Unconfirmed
    | ReadFailed  // the mode read raised
    | StampRaised // the dwell check subtracted a stamp without a zone, which raises

  datatype Ctl = Ctl(
    probeUntil: Option<int>,
    switchesToday: int, commitmentSwitchesToday: int, lastSwitchAt: Option<Instant>, counterDate: Option<int>,
    lastRequested: Option<Mode>, lastConfirmed: Option<Mode>, originalVendor: Option<Mode>,
    unconfirmed: bool, lastWriteOutcome: Option<Outcome>,
    episode: Option<(Intent, Mode)>, episodeLoggedAt: Option<int>,
    commitment: Option<ChargeCommitment>)

  const FRESH := Ctl(None, 0, 0, None, None, None, None, None, false, None, None, None, None)

  /** One call of `decide`; instants and durations in seconds. */
  datatype Call = Call(
    intent: Intent, now: int, observed: Option<Mode>, manual: bool, priority: bool, carSession: bool,
    force: bool, countTowardCap: bool, commitment: bool)

  datatype Reply = Accepted | Rejected | TimedOut

  /** What the driver answers during one call: two mode reads (`None`: the read raised) and two writes. */
  datatype Device = Device(gateRead: Option<Mode>, vendorRead: Option<Mode>, reply: Reply, recovery: Reply)

  datatype Write = Write(mode: Mode, reply: Reply)

  datatype Decision = Decision(intent: Intent, desired: Mode, applied: bool, outcome: Outcome, audit: bool)

  // --- gates ---------------------------------------------------------------------------------------

  predicate ProbeActive(s: Ctl, now: int) { s.probeUntil.Some? && now < s.probeUntil.value }

  function Desired(cfg: Config, s: Ctl, call: Call): Mode {
    var allow := cfg.allowExportDischarge || (call.intent.ExportForProfit? && ProbeActive(s, call.now));
    IntentToMode(call.intent, allow, call.carSession)
  }

  function EffectiveSwitches(cfg: Config, s: Ctl, now: int): int {
    if s.counterDate.Some? && s.counterDate.value != cfg.dayOf(now) then 0 else s.switchesToday
  }

  function EffectiveCommitmentSwitches(cfg: Config, s: Ctl, now: int): int {
    if s.counterDate.Some? && s.counterDate.value != cfg.dayOf(now) then 0 else s.commitmentSwitchesToday
  }

  predicate CapBlocks(cfg: Config, s: Ctl, call: Call) {
    if call.commitment then EffectiveCommitmentSwitches(cfg, s, call.now) >= cfg.maxCommitmentSwitches
    else EffectiveSwitches(cfg, s, call.now) >= cfg.maxSwitches
  }

  /** Operator commands, safety holds and the return to AUTO skip dwell and caps. */
  predicate Bypasses(call: Call, desired: Mode) { call.manual || call.priority || desired.Auto? }

  predicate HoldsActiveCharge(s: Ctl, call: Call, desired: Mode, current: Mode) {
    !call.force && desired.Charge? && current.Idle? && s.lastRequested == Some(Charge) && s.lastConfirmed == Some(Charge)
  }

  /** `None` lets the write through. */
  function Gate(cfg: Config, s: Ctl, canCommand: bool, call: Call, read: Option<Mode>): Option<Outcome> {
    var desired := Desired(cfg, s, call);
    if cfg.dryRun then Some(WasDryRun)
    else if !canCommand then Some(NotControlling)
    else
      var current := if call.observed.Some? then call.observed else read;
      if current.None? then Some(ReadFailed)
      else if desired == current.value && !call.force then Some(WasIdempotent)
      else if HoldsActiveCharge(s, call, desired, current.value) then Some(WasIdempotent)
      else if Bypasses(call, desired) then None
      else if s.lastSwitchAt.Some? && s.lastSwitchAt.value.Naive? then Some(StampRaised)
      else if s.lastSwitchAt.Some? && call.now - s.lastSwitchAt.value.t < cfg.minDwell then Some(InDwell)
      else if CapBlocks(cfg, s, call) then Some(CapReached)
      else None
  }

  // --- the write path --------------------------------------------------------------------------------

  function ResetCounter(cfg: Config, s: Ctl, now: int): Ctl {
    if s.counterDate != Some(cfg.dayOf(now))
    then s.(switchesToday := 0, commitmentSwitchesToday := 0, counterDate := Some(cfg.dayOf(now)))
    else s
  }

  function RecordSwitch(s: Ctl, call: Call, desired: Mode): Ctl {
    if !call.countTowardCap then s
    else
      var s1 := if desired.Auto? then s
                else if call.commitment then s.(commitmentSwitchesToday := s.commitmentSwitchesToday + 1)
                else s.(switchesToday := s.switchesToday + 1);
      s1.(lastSwitchAt := Some(Aware(call.now)))
  }

  const RELOG := 3600

  predicate NewEpisode(s: Ctl, call: Call, desired: Mode) {
    s.episode != Some((call.intent, desired)) || s.episodeLoggedAt.None? || call.now - s.episodeLoggedAt.value >= RELOG
  }

  function NoteEpisode(s: Ctl, call: Call, desired: Mode): Ctl {
    if NewEpisode(s, call, desired) then s.(episode := Some((call.intent, desired)), episodeLoggedAt := Some(call.now)) else s
  }

  function ClearEpisode(s: Ctl): Ctl { s.(episode := None, episodeLoggedAt := None) }

  /** State just before the device is written. */
  function Prepare(cfg: Config, s: Ctl, call: Call, dev: Device): Ctl {
    var s1 := ResetCounter(cfg, s, call.now);
    var s2 := if s1.originalVendor.None? && dev.vendorRead.Some? then s1.(originalVendor := dev.vendorRead) else s1;
    s2.(lastRequested := Some(Desired(cfg, s, call)))
  }

  /** What each device reply does to the state, the decision and the device. */
  function Settle(s: Ctl, call: Call, desired: Mode, dev: Device): (Ctl, Decision, seq<Write>) {
    match dev.reply
    case TimedOut =>
      (NoteEpisode(s.(unconfirmed := true, lastWriteOutcome := Some(Unconfirmed)), call, desired),
       Decision(call.intent, desired, false, Unconfirmed, NewEpisode(s, call, desired)),
       [Write(desired, TimedOut)])
    case Rejected =>
      var recovered := dev.recovery.Accepted?;
      var outcome := if recovered then FailedRecovered else FailedUnrecovered;
      (ClearEpisode(s.(lastConfirmed := if recovered then Some(Auto) else None,
                       unconfirmed := !recovered, lastWriteOutcome := Some(outcome))),
       Decision(call.intent, Auto, recovered, outcome, true),
       [Write(desired, Rejected), Write(Auto, dev.recovery)])
    case Accepted =>
      (ClearEpisode(s.(lastConfirmed := Some(desired), unconfirmed := false, lastWriteOutcome := None)),
       Decision(call.intent, desired, true, Applied, true),
       [Write(desired, Accepted)])
  }

  function AfterWrite(cfg: Config, s: Ctl, call: Call, dev: Device): (Ctl, Decision, seq<Write>) {
    var desired := Desired(cfg, s, call);
    Settle(RecordSwitch(Prepare(cfg, s, call, dev), call, desired), call, desired, dev)
  }

  function Decide(cfg: Config, s: Ctl, canCommand: bool, call: Call, dev: Device): (Ctl, Decision, seq<Write>) {
    var gate := Gate(cfg, s, canCommand, call, dev.gateRead);
    if gate.Some? then (s, Decision(call.intent, Desired(cfg, s, call), false, gate.value, true), [])
    else AfterWrite(cfg, s, call, dev)
  }

  /** Read-only preview: same arguments, never forced. */
  function Preview(cfg: Config, s: Ctl, canCommand: bool, call: Call, read: Option<Mode>): Decision {
    var gate := Gate(cfg, s, canCommand, call.(force := false), read);
    Decision(call.intent, Desired(cfg, s, call), false, if gate.Some? then gate.value else WouldApply, true)
  }

  function NoteConfirmedAuto(s: Ctl): Ctl {
    s.(lastConfirmed := Some(Auto), unconfirmed := false, lastWriteOutcome := None)
  }

  function NoteOverrunRecovery(s: Ctl): Ctl { s.(unconfirmed := true) }

  // --- what the gates mean -----------------------------------------------------------------------------

  /** Exporting discharges exactly when it is armed or a probe is open; serving the house does so only in a car session. */
  lemma DesiredMeans(cfg: Config, s: Ctl, call: Call)
    ensures Desired(cfg, s, call).Charge? <==> call.intent.GridChargeToTarget?
    ensures Desired(cfg, s, call).Idle? <==> call.intent.HoldReserve?
    ensures Desired(cfg, s, call).Discharge? <==>
              || (call.intent.DischargeForLoad? && call.carSession)
              || (call.intent.ExportForProfit?
                  && (cfg.allowExportDischarge || (s.probeUntil.Some? && call.now < s.probeUntil.value)))
  {
  }

  /** CHARGE is on record as both the last mode requested and the last one confirmed. */
  predicate ChargeOnRecord(s: Ctl) { s.lastRequested == Some(Charge) && s.lastConfirmed == Some(Charge) }

  /** Nothing to ask: the mode is the observed one, or a charge on record shows as an idle battery. */
  predicate AlreadyThere(s: Ctl, call: Call, desired: Mode, current: Mode) {
    !call.force && (desired == current || (desired.Charge? && current.Idle? && ChargeOnRecord(s)))
  }

  /** A mode change is asked of the device: live, in control, mode known, and not there already. */
  predicate AsksDevice(cfg: Config, s: Ctl, canCommand: bool, call: Call, read: Option<Mode>) {
    var current := if call.observed.Some? then call.observed else read;
    !cfg.dryRun && canCommand && current.Some? && !AlreadyThere(s, call, Desired(cfg, s, call), current.value)
  }

  /** A live call in control is answered idempotent exactly when there is nothing to ask. */
  lemma IdempotentIff(cfg: Config, s: Ctl, canCommand: bool, call: Call, read: Option<Mode>)
    ensures var current := if call.observed.Some? then call.observed else read;
            Gate(cfg, s, canCommand, call, read) == Some(WasIdempotent) <==>
              !cfg.dryRun && canCommand && current.Some? && AlreadyThere(s, call, Desired(cfg, s, call), current.value)
  {
  }

  /** Operator commands, safety holds and the return to AUTO reach the device whenever they ask anything of it. */
  lemma SafetyIsNeverGated(cfg: Config, s: Ctl, canCommand: bool, call: Call, read: Option<Mode>)
    requires call.manual || call.priority || Desired(cfg, s, call).Auto?
    ensures Gate(cfg, s, canCommand, call, read).None? <==> AsksDevice(cfg, s, canCommand, call, read)
  {
  }

  /** Neither budget gates the other: whatever is spent or allowed of one leaves the other's calls alone. */
  lemma BudgetsGateApart(cfg: Config, s: Ctl, canCommand: bool, call: Call, read: Option<Mode>, spent: int, cap: int)
    ensures call.commitment ==>
      Gate(cfg.(maxSwitches := cap), s.(switchesToday := spent), canCommand, call, read) == Gate(cfg, s, canCommand, call, read)
    ensures !call.commitment ==>
      Gate(cfg.(maxCommitmentSwitches := cap), s.(commitmentSwitchesToday := spent), canCommand, call, read)
      == Gate(cfg, s, canCommand, call, read)
  {
  }

  // --- a stamp without a zone ----------------------------------------------------------------------------

  /** The dwell check raises on exactly the gated calls that ask something of the device, and only for a naive stamp. */
  lemma RaisesIff(cfg: Config, s: Ctl, canCommand: bool, call: Call, read: Option<Mode>)
    ensures Gate(cfg, s, canCommand, call, read) == Some(StampRaised) <==>
              && s.lastSwitchAt.Some? && s.lastSwitchAt.value.Naive?
              && AsksDevice(cfg, s, canCommand, call, read) && !Bypasses(call, Desired(cfg, s, call))
  {
  }

  ghost predicate NeverRaises(s: Ctl) {
    forall cfg, can, call, read :: Gate(cfg, s, can, call, read) != Some(StampRaised)
  }

  predicate UsableStamp(s: Ctl) { s.lastSwitchAt.Some? ==> s.lastSwitchAt.value.Aware? }

  /** A call writes once, and a second time, back to AUTO, exactly when the first write is rejected; the decision is true of the last write. */
  lemma WritesOfACall(cfg: Config, s: Ctl, canCommand: bool, call: Call, dev: Device)
    ensures var (after, d, writes) := Decide(cfg, s, canCommand, call, dev);
            && (writes != [] ==>
                  && writes[0] == Write(Desired(cfg, s, call), dev.reply)
                  && writes[1..] == (if dev.reply.Rejected? then [Write(Auto, dev.recovery)] else [])
                  && d.desired == writes[|writes| - 1].mode && (d.applied <==> writes[|writes| - 1].reply.Accepted?)
                  && (d.outcome.Applied? <==> dev.reply.Accepted?) && (d.outcome.Unconfirmed? <==> dev.reply.TimedOut?)
                  && (d.outcome.FailedRecovered? <==> dev.reply.Rejected? && dev.recovery.Accepted?))
            && (writes == [] ==> !d.applied && d.audit && d.desired == Desired(cfg, s, call) && after == s)
            && (writes != [] ==> after.lastWriteOutcome == if dev.reply.Accepted? then None else Some(d.outcome))
            && (writes != [] && !dev.reply.TimedOut? ==> after.episode.None? && after.episodeLoggedAt.None?)
            && d.intent == call.intent && (writes != [] && !dev.reply.TimedOut? ==> d.audit)
  {
    if Gate(cfg, s, canCommand, call, dev.gateRead).None? {
      assert Decide(cfg, s, canCommand, call, dev) == AfterWrite(cfg, s, call, dev);
    }
  }

  /** What a write leaves on record: the mode asked for, and the first vendor mode ever read. */
  lemma RecordAfterWrite(cfg: Config, s: Ctl, call: Call, dev: Device)
    ensures var after := AfterWrite(cfg, s, call, dev).0;
            && after.lastRequested == Some(Desired(cfg, s, call))
            && after.originalVendor == (if s.originalVendor.Some? then s.originalVendor else dev.vendorRead)
            && (dev.reply.TimedOut? ==> after.lastConfirmed == s.lastConfirmed && after.unconfirmed)
            && (dev.reply.Accepted? ==> after.lastConfirmed == Some(Desired(cfg, s, call)) && !after.unconfirmed)
            && (dev.reply.Rejected? ==> after.lastConfirmed == (if dev.recovery.Accepted? then Some(Auto) else None)
                                        && (after.unconfirmed <==> !dev.recovery.Accepted?))
  {
    var prepared := Prepare(cfg, s, call, dev);
    assert prepared.lastRequested == Some(Desired(cfg, s, call)) && prepared.lastConfirmed == s.lastConfirmed;
  }

  /** An AUTO noted as confirmed leaves no doubt, an overrun always does, and neither touches counters, dwell or contract. */
  lemma NotesMean(s: Ctl)
    ensures NoteConfirmedAuto(s).lastConfirmed == Some(Auto) && !NoteConfirmedAuto(s).unconfirmed
    ensures NoteConfirmedAuto(s).lastWriteOutcome.None? && NoteOverrunRecovery(s).lastWriteOutcome == s.lastWriteOutcome
    ensures NoteOverrunRecovery(s).unconfirmed && NoteOverrunRecovery(s).lastConfirmed == s.lastConfirmed
    ensures forall s' :: s' in {NoteConfirmedAuto(s), NoteOverrunRecovery(s)} ==>
              && s'.switchesToday == s.switchesToday && s'.commitmentSwitchesToday == s.commitmentSwitchesToday
              && s'.lastSwitchAt == s.lastSwitchAt && s'.counterDate == s.counterDate && s'.lastRequested == s.lastRequested
              && s'.commitment == s.commitment
  {
  }

  /** A stored number counts as its whole part, towards zero, a date as its midnight, and a digit string as what it parses to. */
  lemma StoredValuesMean(r: real, day: int, n: int, at: Option<int>, date: Option<int>)
    ensures ToCount(Num(r)).Some?
    ensures var n := ToCount(Num(r)).value as real;
            Abs(n) <= Abs(r) < Abs(n) + 1.0 && (n > 0.0 ==> r > 0.0) && (n < 0.0 ==> r < 0.0)
    ensures ToInstant(Date(day)).Some? && ToInstant(Date(day)).value.Some?
    ensures var midnight := ToInstant(Date(day)).value.value; midnight.Naive? && midnight.t == 86400 * day
    ensures ToInstant(Digits(n, at, date)) == match at case None => None case Some(t) => Some(Some(Naive(t)))
    ensures ToDay(Digits(n, at, date)) == match date case None => None case Some(d) => Some(Some(d))
  {
    assert r == 0.0 ==> ToCount(Num(r)) == Some(0);
  }

  /** The fail-safe keeps no charge contract it could not check. */
  lemma FailSafeDropsContract(s: Ctl, m: map<string, Json>)
    requires m != map[] && !CountersParse(m)
    ensures Restore(s, Row(m)).unconfirmed && Restore(s, Row(m)).commitment.None?
  {
  }

  /** A write that times out, of a kind already audited within the hour, is not audited again; any answer ends the episode. */
  lemma AuditedOncePerHour(s: Ctl, call: Call, desired: Mode, dev: Device, later: Call)
    requires dev.reply.TimedOut? && NewEpisode(s, call, desired)
    ensures var s' := Settle(s, call, desired, dev).0;
            && Settle(s, call, desired, dev).1.audit
            && (forall m :: Settle(s', later, m, dev).1.audit
                  <==> later.intent != call.intent || m != desired || later.now - call.now >= 3600)
    ensures forall reply :: !dev.(reply := reply).reply.TimedOut? ==>
              Settle(Settle(s, call, desired, dev.(reply := reply)).0, later, desired, dev).1.audit
  {
  }

  /** From a naive stamp the way out is one write that no gate stops and that counts; nothing else repairs it. */
  lemma StampRepairedIff(cfg: Config, s: Ctl, canCommand: bool, call: Call, dev: Device)
    requires !UsableStamp(s)
    ensures UsableStamp(Decide(cfg, s, canCommand, call, dev).0) <==>
              && AsksDevice(cfg, s, canCommand, call, dev.gateRead) && Bypasses(call, Desired(cfg, s, call)) && call.countTowardCap
  {
    RaisesIff(cfg, s, canCommand, call, dev.gateRead);
    if Gate(cfg, s, canCommand, call, dev.gateRead).None? { StampAfterWrite(cfg, s, call, dev); }
  }

  lemma StampAfterWrite(cfg: Config, s: Ctl, call: Call, dev: Device)
    ensures AfterWrite(cfg, s, call, dev).0.lastSwitchAt == if call.countTowardCap then Some(Aware(call.now)) else s.lastSwitchAt
  {
    assert Prepare(cfg, s, call, dev).lastSwitchAt == s.lastSwitchAt;
  }

  /** The preview, even of a forced call, promises a write exactly when the unforced decide would reach the device. */
  lemma PreviewMatchesDecide(cfg: Config, s: Ctl, canCommand: bool, call: Call, dev: Device)
    ensures var shown, done := Preview(cfg, s, canCommand, call, dev.gateRead), Decide(cfg, s, canCommand, call.(force := false), dev);
            && (shown.outcome.WouldApply? <==> done.2 != [])
            && (done.2 == [] ==> done == (s, shown, []))
            && shown.desired == Desired(cfg, s, call) && !shown.applied
  {
    assert Desired(cfg, s, call.(force := false)) == Desired(cfg, s, call);
  }

  // --- persistence -----------------------------------------------------------------------------------

  function ModeName(m: Mode): string {
    match m
    case Auto => "auto"
    case Charge => "charge"
    case Discharge => "discharge"
    case Idle => "idle"
  }

  function ModeJson(m: Option<Mode>): Json { if m.Some? then Text(ModeName(m.value)) else Null }

  function Snapshot(s: Ctl): map<string, Json> {
    map["switches_today" := Num(s.switchesToday as real),
        "commitment_switches_today" := Num(s.commitmentSwitchesToday as real),
        "last_switch_at" := if s.lastSwitchAt.Some? then Stamp(s.lastSwitchAt.value) else Null,
        "counter_date" := if s.counterDate.Some? then Date(s.counterDate.value) else Null,
        "last_requested_action" := ModeJson(s.lastRequested),
        "last_confirmed_action" := ModeJson(s.lastConfirmed),
        "original_vendor_mode" := ModeJson(s.originalVendor),
        "last_command_unconfirmed" := Bool(s.unconfirmed),
        "charge_commitment" := if s.commitment.Some? then ToDict(s.commitment.value) else Null]
  }

  /** What the store hands to `restore_state`. */
  datatype Stored = Absent | Corrupt | Row(blob: map<string, Json>)

  /** `int(raw or 0)`; `None` is the exception. */
  function ToCount(j: Json): Option<int> {
    if Falsy(j) then Some(0)
    else match j
      case Bool(_) => Some(1)
      case Num(r) => Some(if r >= 0.0 then r.Floor else -((-r).Floor))
      case Digits(n, _, _) => Some(n)
      case _ => None
  }

  const DAY := 86400

  /** `datetime.fromisoformat(raw) if raw else None`: no zone is asked for. `None` is the exception. */
  function ToInstant(j: Json): Option<Option<Instant>> {
    if Falsy(j) then Some(None)
    else match j
      case Stamp(at) => Some(Some(at))
      case Date(day) => Some(Some(Naive(day * DAY)))
      case Digits(_, naive, _) => if naive.Some? then Some(Some(Naive(naive.value))) else None
      case _ => None
  }

  function ToDay(j: Json): Option<Option<int>> {
    if Falsy(j) then Some(None)
    else match j
      case Date(day) => Some(Some(day))
      case Digits(_, _, date) => if date.Some? then Some(date) else None
      case _ => None
  }

  function ModeNamed(s: string): Option<Mode> {
    if s == "auto" then Some(Auto)
    else if s == "charge" then Some(Charge)
    else if s == "discharge" then Some(Discharge)
    else if s == "idle" then Some(Idle)
    else None
  }

  /** `_mode_or_unknown`: the mode, and whether an unrecognised value was present. */
  function ModeOrUnknown(j: Json): (Option<Mode>, bool) {
    if Falsy(j) then (None, false)
    else
      var m := if j.Text? then ModeNamed(j.s) else None;
      (m, m.None?)
  }

  function FailSafe(s: Ctl): Ctl { s.(unconfirmed := true, commitment := None) }

  function RestoreFlags(s: Ctl, m: map<string, Json>): Ctl {
    var (requested, unknown1) := ModeOrUnknown(Get(m, "last_requested_action"));
    var (confirmed, unknown2) := ModeOrUnknown(Get(m, "last_confirmed_action"));
    var (vendor, unknown3) := ModeOrUnknown(Get(m, "original_vendor_mode"));
    var flag := Get(m, "last_command_unconfirmed");
    s.(lastRequested := requested, lastConfirmed := confirmed, originalVendor := vendor,
       unconfirmed := if flag.Bool? && !unknown1 && !unknown2 && !unknown3 then flag.b else true,
       commitment := FromDict(Get(m, "charge_commitment")))
  }

  /** Fields are loaded one after the other; the first that does not parse leaves the rest to the fail-safe. */
  function Restore(s: Ctl, stored: Stored): Ctl {
    if stored.Corrupt? then s.(unconfirmed := true)
    else if stored.Absent? || stored.blob == map[] then s
    else
      var m := stored.blob;
      var switches := ToCount(Get(m, "switches_today"));
      if switches.None? then FailSafe(s)
      else
        var s1 := s.(switchesToday := switches.value);
        var commitments := ToCount(Get(m, "commitment_switches_today"));
        if commitments.None? then FailSafe(s1)
        else
          var s2 := s1.(commitmentSwitchesToday := commitments.value);
          var last := ToInstant(Get(m, "last_switch_at"));
          if last.None? then FailSafe(s2)
          else
            var s3 := s2.(lastSwitchAt := last.value);
            var day := ToDay(Get(m, "counter_date"));
            if day.None? then FailSafe(s3) else RestoreFlags(s3.(counterDate := day.value), m)
  }

  predicate CountersParse(m: map<string, Json>) {
    && ToCount(Get(m, "switches_today")).Some? && ToCount(Get(m, "commitment_switches_today")).Some?
    && ToInstant(Get(m, "last_switch_at")).Some? && ToDay(Get(m, "counter_date")).Some?
  }

  predicate KnownOrEmpty(j: Json) {
    Falsy(j) || (j.Text? && exists m: Mode :: j.s == ModeName(m))
  }

  /** A non-empty blob reads as "confirmed" exactly when it proves it: nothing less than all of this. */
  lemma RestoreOpensGateIffProven(s: Ctl, m: map<string, Json>)
    requires m != map[]
    ensures !Restore(s, Row(m)).unconfirmed <==>
              && CountersParse(m)
              && Get(m, "last_command_unconfirmed") == Bool(false)
              && KnownOrEmpty(Get(m, "last_requested_action"))
              && KnownOrEmpty(Get(m, "last_confirmed_action"))
              && KnownOrEmpty(Get(m, "original_vendor_mode"))
  {
    KnownModes(Get(m, "last_requested_action"));
    KnownModes(Get(m, "last_confirmed_action"));
    KnownModes(Get(m, "original_vendor_mode"));
  }

  lemma KnownModes(j: Json)
    ensures KnownOrEmpty(j) <==> !ModeOrUnknown(j).1
  {
    if !Falsy(j) && j.Text? && ModeNamed(j.s).Some? {
      assert j.s == ModeName(ModeNamed(j.s).value);
    }
  }

  /** The counters load and the stored stamp parses, without a zone. */
  predicate LoadsNaiveStamp(m: map<string, Json>) {
    var stamp := ToInstant(Get(m, "last_switch_at"));
    && ToCount(Get(m, "switches_today")).Some? && ToCount(Get(m, "commitment_switches_today")).Some?
    && stamp.Some? && stamp.value.Some? && stamp.value.value.Naive?
  }

  /** After a restore no gated call ever raises exactly when the blob does not load a stamp without a zone. */
  lemma RestoredStampRaisesIff(m: map<string, Json>)
    requires m != map[]
    ensures NeverRaises(Restore(FRESH, Row(m))) <==> !LoadsNaiveStamp(m)
    ensures UsableStamp(Restore(FRESH, Row(m))) <==> !LoadsNaiveStamp(m)
  {
    var s := Restore(FRESH, Row(m));
    if UsableStamp(s) {
      forall cfg, can, call, read ensures Gate(cfg, s, can, call, read) != Some(StampRaised) {
        RaisesIff(cfg, s, can, call, read);
      }
    } else {
      GatedCallRaises(s);
    }
  }

  lemma GatedCallRaises(s: Ctl)
    requires !UsableStamp(s)
    ensures !NeverRaises(s)
  {
    var cfg := Config(false, false, 1, 1, 0, t => t);
    var call := Call(HoldReserve, 0, Some(Auto), false, false, false, false, true, false);
    RaisesIff(cfg, s, true, call, None);
    assert Gate(cfg, s, true, call, None) == Some(StampRaised);
  }

  /** Such a blob may still read as confirmed: the fail-safe does not see it, and the next gated call raises. */
  lemma NaiveStampReadsConfirmed() returns (m: map<string, Json>)
    ensures m != map[] && !Restore(FRESH, Row(m)).unconfirmed && !NeverRaises(Restore(FRESH, Row(m)))
  {
    m := map["last_switch_at" := Stamp(Naive(0)), "last_command_unconfirmed" := Bool(false)];
    assert "last_switch_at" in m;
    RestoreOpensGateIffProven(FRESH, m);
    RestoredStampRaisesIff(m);
  }

  /** The state restart brings back: everything persisted, with the in-memory rest at its defaults. */
  function Persisted(s: Ctl): Ctl {
    s.(probeUntil := None, lastWriteOutcome := None, episode := None, episodeLoggedAt := None, commitment := None)
  }

  /** Restoring one's own snapshot loses nothing that gates, counts or writes depend on. */
  lemma RestoreOwnSnapshot(s: Ctl)
    ensures Persisted(Restore(FRESH, Row(Snapshot(s)))) == Persisted(s)
    ensures Restore(FRESH, Row(Snapshot(s))).commitment
         == if s.commitment.Some? then FromDict(ToDict(s.commitment.value)) else None
    ensures Restore(FRESH, Row(Snapshot(s))).probeUntil.None?
  {
    var m := Snapshot(s);
    SnapshotFields(s, m);
    SnapshotCounts(s);
    SnapshotModes(s.lastRequested);
    SnapshotModes(s.lastConfirmed);
    SnapshotModes(s.originalVendor);
  }

  lemma SnapshotFields(s: Ctl, m: map<string, Json>)
    requires m == Snapshot(s)
    ensures Get(m, "switches_today") == Num(s.switchesToday as real)
    ensures Get(m, "commitment_switches_today") == Num(s.commitmentSwitchesToday as real)
    ensures ToInstant(Get(m, "last_switch_at")) == Some(s.lastSwitchAt) && ToDay(Get(m, "counter_date")) == Some(s.counterDate)
    ensures Get(m, "last_requested_action") == ModeJson(s.lastRequested)
    ensures Get(m, "last_confirmed_action") == ModeJson(s.lastConfirmed)
    ensures Get(m, "original_vendor_mode") == ModeJson(s.originalVendor)
    ensures Get(m, "last_command_unconfirmed") == Bool(s.unconfirmed)
    ensures Get(m, "charge_commitment") == if s.commitment.Some? then ToDict(s.commitment.value) else Null
  {
  }

  lemma SnapshotCounts(s: Ctl)
    ensures ToCount(Num(s.switchesToday as real)) == Some(s.switchesToday)
    ensures ToCount(Num(s.commitmentSwitchesToday as real)) == Some(s.commitmentSwitchesToday)
  {
    CountRoundTrip(s.switchesToday);
    CountRoundTrip(s.commitmentSwitchesToday);
  }

  lemma CountRoundTrip(n: int)
    ensures ToCount(Num(n as real)) == Some(n)
  {
    assert -(n as real) == (-n) as real;
  }

  lemma SnapshotModes(m: Option<Mode>)
    ensures ModeOrUnknown(ModeJson(m)) == (m, false)
  {
  }
}
