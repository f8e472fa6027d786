# Verification of the battery manager's core

A Dafny model of the parts of the energy manager whose claims hold over whole runs, and proofs of
those claims. `dafny verify dfyconfig.toml` checks everything.

## What is modelled

Code that changes state step by step is modelled as classes and methods with loops. Each method is
tied to a specification function, and the theorems are proved about those functions and about runs
of them.

- **Command ordering** (`CommandFence`, `BatteryCommandFence`). The fence that serialises physical
  battery commands: generations, supersession, recovery tickets, draining, and the condition
  variable's wait set. Each lock-held body is one atomic step, and `enter` is "refused, granted, or
  asleep until notified". Theorems hold for every interleaving.
- **The single writer** (`ModeControl`, `ModeController`, `ControllerRuns`, `ControllerGates`,
  `ChargeCommitment`, `Ownership`, `Lifecycle`, `OwnershipRuns`). The gated write path with dwell and two daily budgets,
  persistence and fail-safe restore, the persisted charge contract, and the ownership states. The
  driver is an oracle that accepts, rejects or times out; the device keeps a ghost log of writes.
- **Car charging** (`ChargeAllocation`, `EvPlanner`). The earliest-deadline, cheapest-slot greedy and
  its plug-in windows, with the proof that it is cost-optimal: complementary slackness against a
  price level per slot that never rises.
- **Money and energy** (`DayFinance`, `BatterySimulation`). The FIFO of charge packets behind the
  savings breakdown, and the two battery simulators.
- **Samples and attribution** (`Segments`, `EnergyFlow`, `PriceHorizon`, `EvSession`). Zero-order-hold
  segmentation, solar-first attribution, validation of price horizons, charging sessions.
- **Hysteresis and incidents** (`Hysteresis`, `CarMode`, `FloorAntiFlap`, `Incidents`). Anti-flap
  bounds over unbounded runs, and device-down incidents rebuilt from their own notification log.
- **Shared** (`Prelude`, `Domain`, `Sorting`).

Conventions: instants are integers (microseconds or seconds of UTC) and `None` stands for an
unparsable or timezone-naive value, except that the controller's switch stamp may be naive; power,
energy and money are `real`; a local calendar is an abstract function. The one-way efficiency is any positive root of the round trip. The map from intent
to mode is that of `ems/sources/battery.py:45-77`.

Five claims turned out to need a condition, and each has a counterexample beside the theorem:

- the savings breakdown reconciles segment by segment exactly when no discharge is exported and no
  charge exceeds sun plus import, or import price and export credit are equal
  (`DayFinance.GapZeroIff`, `DayFinance.ExportWhileDischargingIsUnexplained`);
- incidents can be rebuilt from their log in every ordered run exactly when the stable window is
  positive (`Incidents.RecoverableIff`);
- all gated writes stay within the daily budgets exactly when every call counts, bypasses the gates, can
  only command AUTO, or has no budget to exceed; a gated call that asks not to be counted can be
  repeated without end (`ControllerRuns.BudgetsHoldIff`, `ControllerRuns.UncountedCallsEscapeTheCap`).
  Every uncounted call in the code is a priority call, which bypasses the gates;
- the fail-safe restore accepts a switch stamp without a timezone, and the next gated call then raises
  (mode_controller.py:190-191 and 388); it does so exactly for such blobs
  (`ModeControl.RestoredStampRaisesIff`, `ModeControl.NaiveStampReadsConfirmed`);
- a charge seen as idle is held on the record alone. The comment at mode_controller.py:373-374 excludes
  unconfirmed charges, but the branch does not ask the flag, so a charge that timed out after a confirmed
  one is held; the held charge is the device's last accepted write exactly when the flag is down
  (`ControllerGates.HeldChargeIff`, `ControllerGates.UnconfirmedChargeIsHeld`).

The confirmed flag is honest over every run of the controller's own calls. A shutdown restore writes
around the controller and notes only a confirmed AUTO; `ControllerRuns.UnnotedWriteIsHonestIff` says
when the flag stays honest without a note.

The commanded car-mode power stays within the inverter limit exactly when that limit is at least the
mode's floor of 100 W or 150 W (`CarMode.PowerWithinLimitIff`). A stored charge contract survives a
restart exactly when it is storable (`ChargeCommitments.RoundTripIffStorable`).

## Model

| member | source | states |
|---|---|---|
| CommandFence.StepKeepsInv | ems/control/command_fence.py:49-158 | every lock-held body keeps the fence's invariant: tickets carry unique issued generations, recoveries and their tokens mirror each other, the owner is outstanding, and every sleeper's answer is still "wait" |
| CommandFence.RunKeepsInv | ems/control/command_fence.py:49-158 | the invariant holds after every interleaving of calls from the initial fence |
| CommandFence.NeverLosesWakeup | ems/control/command_fence.py:107-144 | in no reachable state does a thread sleep whose ticket would be granted or refused |
| CommandFence.ChangedAnswerNotifies | ems/control/command_fence.py:67-68 | any step that changes the answer for a waiting ticket empties the wait set, so omitting the notification in `admit_routine` is safe |
| CommandFence.EligibilityOnlyShrinks | ems/control/command_fence.py:101-105 | a step makes no already issued generation eligible again, except by issuing a newer one |
| CommandFence.StepKeepsIssued | ems/control/command_fence.py:49-53 | a token is never re-bound: an issued ticket stays the only ticket of its generation |
| CommandFence.GrantRaisesFloor | ems/control/command_fence.py:113-115 | a granted generation is a floor for everything that can be granted later |
| CommandFence.GrantsInGenerationOrder | ems/control/command_fence.py:101-123 | over every run, granted generations never decrease, and two grants of one generation are grants of one ticket |
| CommandFence.LaneHasOneOwner | ems/control/command_fence.py:113-129 | between two grants the first owner has left or was released: the lane never has two owners |
| CommandFence.CancelledNeverGranted | ems/control/command_fence.py:110-112 | a superseded or released ticket is never granted on any continuation |
| CommandFence.ReservationCancelsRoutines | ems/control/command_fence.py:62-66 | an operator, recovery or shutdown reservation cancels for ever every outstanding routine command |
| CommandFence.DrainingStopsRoutines | ems/control/command_fence.py:59-60 | once routines are stopped, none is granted until draining is cleared, whatever else happens |
| CommandFence.MarkDrainingStopsRoutines | ems/control/command_fence.py:146-153 | marking draining stops outstanding routine commands as well |
| CommandFence.ExactlyOneCanEnter | ems/control/command_fence.py:101-115 | with the lane free and some ticket eligible, exactly one outstanding ticket can be granted |
| CommandFence.RecoveryIsUnique | ems/control/command_fence.py:80-82 | while a recovery for a stale cycle is outstanding, asking again returns that same ticket |
| CommandFence.RecoveryStays | ems/control/command_fence.py:131-139 | a recovery stays registered until its own ticket is released |
| CommandFence.ReservationIssuedIff | ems/control/command_fence.py:55-68 | a reservation gets a fresh ticket exactly when nothing is draining or it is a shutdown, and otherwise changes nothing |
| CommandFence.AdmissionIssuedIff | ems/control/command_fence.py:70-74 | a routine command is admitted exactly into an empty fence that is not draining, and wakes nobody |
| CommandFence.RecoveryIssuedIff | ems/control/command_fence.py:76-99 | with none outstanding, a recovery is queued exactly when nothing is draining and no newer command but routines is outstanding |
| CommandFence.StaleNeverGranted | ems/control/command_fence.py:80-99 | once a recovery was asked for and not refused for draining, the stale cycle is never granted on any continuation |
| CommandFence.StaysInTheRunning | ems/control/command_fence.py:49-158 | nothing but its release, its own recovery, or for a routine an outranking reservation or draining takes a ticket out of the running |
| CommandFence.ShutdownIsGranted | ems/control/command_fence.py:59-68 | from every reachable state, draining included, a shutdown gets a fresh ticket that is granted once the lane is free and no older ticket is in the running |
| CommandFence.RefusedIff | ems/control/command_fence.py:107-123 | a ticket is turned away exactly when it is cancelled and does not own the lane |
| CommandFence.SleepsIff | ems/control/command_fence.py:107-123 | a look at the lane leaves its thread asleep exactly when the answer is to wait, a wake-up leaves it awake, and other threads stay as they are |
| CommandFence.ReleaseForgets | ems/control/command_fence.py:131-140 | a release forgets its own ticket, frees the lane it held and leaves every other ticket as it was |
| CommandFence.NothingElseWhileDraining | ems/control/command_fence.py:59-60 | after draining is marked and until it is cleared, only shutdowns are issued tickets, whatever else happens |
| BatteryCommandFences.BatteryCommandFence.constructor | ems/control/command_fence.py:39-47 | a new fence is the empty one |
| BatteryCommandFences.BatteryCommandFence.Reserve | ems/control/command_fence.py:55-68 | performs the reservation step: refused when draining, else a fresh ticket that supersedes routines |
| BatteryCommandFences.BatteryCommandFence.AdmitRoutine | ems/control/command_fence.py:70-74 | performs the admission step: only into an empty, undrained fence |
| BatteryCommandFences.BatteryCommandFence.BeginRecovery | ems/control/command_fence.py:76-99 | performs the recovery step: the outstanding recovery, none behind a newer command, or a fresh ticket |
| BatteryCommandFences.BatteryCommandFence.TryEnter | ems/control/command_fence.py:107-123 | one pass of the waiting loop answers and changes the fence as the entry step says |
| BatteryCommandFences.BatteryCommandFence.Leave | ems/control/command_fence.py:125-129 | performs the leave step |
| BatteryCommandFences.BatteryCommandFence.Release | ems/control/command_fence.py:131-140 | performs the release step, dropping ticket, supersession mark and recovery |
| BatteryCommandFences.BatteryCommandFence.MarkDraining | ems/control/command_fence.py:146-153 | performs the draining step |
| BatteryCommandFences.BatteryCommandFence.ClearDraining | ems/control/command_fence.py:155-158 | performs the clearing step |
| ChargeAllocation.CertifiedIsCheapest | ems/ev_planner.py:25-29 | an allocation with a price certificate costs no more than any allocation meeting the same nested goals, negative prices included |
| ChargeAllocation.ExtraCost | ems/ev_planner.py:25-29 | complementary slackness: the extra cost of any other allocation is at least the level times what it holds more, prefix by prefix |
| ChargeAllocation.RoundExtendsCertificate | ems/ev_planner.py:116-133 | every greedy round extends the certificate to the next deadline and places exactly the uncovered part |
| ChargeAllocation.RoundMeetsGoals | ems/ev_planner.py:116-134 | after a round every deadline so far holds the lesser of its need and its slots' capacity, and nothing lies beyond |
| ChargeAllocation.MarginalPrice | ems/ev_planner.py:122-132 | a round has a marginal price: everything cheaper in reach is full, nothing dearer was topped up |
| EvPlanner.ReachIsExact | ems/ev_planner.py:119-121 | the slots usable for a deadline are a prefix of the chronological slots |
| EvPlanner.GoalsAreNested | ems/ev_planner.py:106-111 | for ascending deadlines both the binding requirements and the usable-slot sets are nested |
| EvPlanner.CandidatesAreOrdered | ems/ev_planner.py:119-122 | the candidates are exactly the in-time slots with room, cheapest first and ties by start |
| EvPlanner.FillCheapest | ems/ev_planner.py:119-133 | the inner loop is a greedy round: it places the lesser of deficit and room, never tops up a slot while a cheaper one in reach has room, and tags with this deadline exactly the slots it is the first to charge |
| EvPlanner.BuildStates | ems/ev_planner.py:81-101 | the working set is the not-yet-started slots in chronological order, each at price or surplus export value |
| EvPlanner.ServeDeadline | ems/ev_planner.py:106-154 | one deadline keeps the certificate, the cumulative totals and the closed forms of all records |
| EvPlanner.Allocate | ems/ev_planner.py:60-155 | the allocation is feasible, cheapest among all that meet the same deadlines, every record is in closed form (coverage min(R, c times slots), pending max(0, R minus c times slots)), and every charged slot is tagged with a deadline that it ends by and that was given energy |
| EvPlanner.PendingCoversShortfall | ems/ev_planner.py:134-141 | on disjoint slots from now on, what prices leave pending is at least the physical shortfall |
| EvPlanner.UsableSlotsStartLater | ems/ev_planner.py:83-86 | no usable slot starts in the past |
| EvPlanner.UsableSlotsAreOffered | ems/ev_planner.py:81-100 | the usable slots are exactly the offered ones that have not started, priced |
| EvPlanner.EffectivePrice | ems/ev_planner.py:86-99 | a sunny slot costs what its export would have earned under each tariff model, any other slot its sticker price |
| EvPlanner.BindingIsLeast | ems/ev_planner.py:106-112 | the binding requirement is the least energy that brings the car to the minimum of every deadline so far |
| EvPlanner.RecordIsHonest | ems/ev_planner.py:109-154 | nothing is pending exactly when the energy charged by the deadline meets every minimum so far, a deadline is already met exactly when the car is at its minimum, and it is feasible exactly when charging without a break meets every minimum |
| EvPlanner.DeliverableIsFullSlots | ems/ev_planner.py:138-141 | charging without a break delivers one full slot per quarter-hour from now |
| EvPlanner.SlotsDrawWithinPower | ems/ev_planner.py:76-76 | a full slot draws a quarter-hour of the charger's power, and no allocated slot draws more |
| EvPlanner.AllocatedIff | ems/ev_planner.py:211-217 | the published slots are exactly those that hold energy, each with its start, energy and price, none of them empty |
| EvPlanner.GroupsAreMaximalRuns | ems/ev_planner.py:250-293 | grouping keeps every slot in order, each group is unbroken, and no two neighbours could be joined |
| EvPlanner.Windows | ems/ev_planner.py:250-293 | the grow-and-flush loop yields one window per maximal group |
| EvPlanner.WindowsConserve | ems/ev_planner.py:250-293 | windows together hold exactly the energy, the draw and the cost of their slots |
| EvPlanner.WindowSpansItsSlots | ems/ev_planner.py:256-262 | a window lasts from its first slot to the end of its last without a break, and the battery receives the efficiency's share of what it draws |
| EvPlanner.PlanAddsUp | ems/ev_planner.py:210-247 | the totals equal what the deadlines planned, and cost times efficiency is the battery-side cost of the allocation |
| EvPlanner.PlanCostIsLeast | ems/ev_planner.py:158-247 | the reported money is the least any allocation meeting the deadlines has to pay |
| EvPlanner.PlanCarCharging | ems/ev_planner.py:158-247 | windows, records, tags and totals published together describe one optimal allocation; with nothing pending for a deadline, the energy charged by then brings the car to every minimum so far |
| ChargeCommitments.RoundTripIffStorable | ems/control/charge_commitment.py:49-87 | reading back a written contract gives the same contract exactly when it is storable |
| ChargeCommitments.RestoredIsStorable | ems/control/charge_commitment.py:59-87 | whatever was stored, what is read back is storable |
| ChargeCommitments.VerdictSurvivesRestart | ems/control/charge_commitment.py:97-172 | a storable contract gets the same verdict before and after a restart in all circumstances |
| ChargeCommitments.VerdictIff | ems/control/charge_commitment.py:97-172 | a contract resumes exactly when it is not expired, short of its target, live, armed, on usable data and past the grace; without the grace it waits, and otherwise it is dropped |
| ChargeCommitments.RestoredFields | ems/control/charge_commitment.py:59-87 | what is read back is what was written: target and power as numbers and both instants |
| Lifecycles.Lifecycle.Start | ems/lifecycle.py:42-48 | a start records the boot, drops readiness and override, and observes |
| Lifecycles.Lifecycle.ManualOverride | ems/lifecycle.py:76-79 | an override sets its end and takes the state |
| Lifecycles.Lifecycle.ReturnToDefault | ems/lifecycle.py:85-91 | the hand-back drops override and readiness and observes |
| Lifecycles.Lifecycle.Tick | ems/lifecycle.py:94-103 | a tick expires a lapsed override, then advances only when ready |
| Ownership.TickTakesControlIff | ems/lifecycle.py:60-103 | a tick takes control exactly when live, all marked ready, past the grace and without an override left, and never gives it up |
| Ownership.ControlIsTakenAway | ems/lifecycle.py:42-91 | a start, an override and a hand-back each take control away until a tick gives it back |
| Ownership.OverridesMean | ems/lifecycle.py:42-84 | a start and a hand-back forget any override, an override lasts for its duration, and only a start restarts the grace |
| ModeControl.PreviewMatchesDecide | ems/control/mode_controller.py:392-446 | the preview, even of a forced call, promises a write exactly when the unforced decide reaches the device, and otherwise shows its very decision |
| ModeControl.RestoreOpensGateIffProven | ems/control/mode_controller.py:157-221 | a non-empty blob restores "confirmed" exactly when every counter and date parses, the flag is a literal false and each stored mode is falsy or known |
| ModeControl.KnownModes | ems/control/mode_controller.py:31-44 | a stored mode is flagged unknown exactly when it is neither falsy nor one of the four names |
| ModeControl.RestoredStampRaisesIff | ems/control/mode_controller.py:190-191 | after a restore no call ever raises in the dwell check exactly when the blob does not load a stamp without a timezone |
| ModeControl.NaiveStampReadsConfirmed | ems/control/mode_controller.py:190-221 | a concrete blob with such a stamp that still restores as "confirmed" |
| ModeControl.RaisesIff | ems/control/mode_controller.py:355-390 | the dwell check raises on exactly the calls that ask something of the device and bypass no gate, and only while the recorded switch has no timezone |
| ModeControl.StampRepairedIff | ems/control/mode_controller.py:448-465 | only a counted write that bypasses the gates replaces such a stamp |
| ModeControl.DesiredMeans | ems/control/mode_controller.py:245-260 | exporting discharges exactly when armed or under an open probe, and serving the house only in a car session |
| ModeControl.SafetyIsNeverGated | ems/control/mode_controller.py:355-388 | operator commands, safety holds and the return to AUTO reach the device whenever they ask anything of it |
| ModeControl.IdempotentIff | ems/control/mode_controller.py:364-384 | a live call in control is answered idempotent exactly when unforced and its mode is the observed one, or a charge is on record as requested and confirmed and shows as idle |
| ModeControl.WritesOfACall | ems/control/mode_controller.py:475-531 | a call writes its mode once, and AUTO after it exactly when that write is rejected; the decision is true of the last write and stays on record, and any answer closes the episode |
| ModeControl.RecordAfterWrite | ems/control/mode_controller.py:467-531 | a write records the mode asked for and the first vendor mode ever read; a timeout keeps the older confirmation, a rejection leaves AUTO confirmed exactly when the recovery was |
| ModeControl.FailSafeDropsContract | ems/control/mode_controller.py:196-221 | a load that fails part-way keeps no charge contract and reads as unconfirmed |
| ModeControl.NotesMean | ems/control/mode_controller.py:533-554 | a confirmed AUTO leaves no doubt and an overrun always does; neither touches counters, dwell, requests or contract |
| ModeControl.StoredValuesMean | ems/control/mode_controller.py:178-191 | a stored number counts as its whole part towards zero, a date as its midnight without a zone, a digit string as what it parses to |
| ModeControl.AuditedOncePerHour | ems/control/mode_controller.py:262-282 | a timed-out write is audited again exactly for another intent or mode, after an hour, or after any answer |
| ModeControl.BudgetsGateApart | ems/control/mode_controller.py:284-318 | what is spent or allowed of one daily budget never changes the gate of the other kind of call |
| ModeControl.RestoreOwnSnapshot | ems/control/mode_controller.py:127-145 | restoring one's own snapshot brings back every persisted field |
| ModeControllers.ModeController.constructor | ems/control/mode_controller.py:64-125 | a new controller has the defaults in memory, beside the store and the device it finds |
| ModeControllers.ModeController.SetChargeCommitment | ems/control/mode_controller.py:147-150 | sets the contract, or none, persists the result, and keeps the object valid: an honest flag, and a store from which a restart finds the persisted state |
| ModeControllers.ModeController.ClearChargeCommitment | ems/control/mode_controller.py:152-155 | clears and persists only when there was one, and keeps the object valid |
| ModeControllers.ModeController.RestoreState | ems/control/mode_controller.py:157-221 | the field-by-field load with its fail-safe is the restore function, and loading its own store makes a new object valid whenever the process before it was |
| ModeControllers.Reboot | ems/control/mode_controller.py:157-221 | a new controller on the store and device of a valid one takes exactly the restart step and is valid |
| ModeControllers.ModeController.PreviewDecision | ems/control/mode_controller.py:392-413 | answers as the preview function and changes nothing |
| ModeControllers.ModeController.NoteUnconfirmedEpisode | ems/control/mode_controller.py:262-276 | an unconfirmed write is audited when its intent and mode open a new episode or the last row is an hour old |
| ModeControllers.ModeController.DecideAndApply | ems/control/mode_controller.py:415-531 | decision, device log, state and store after a call are those of one decide step for whatever the driver answers, and the object stays valid |
| ModeControllers.ModeController.WriteToDevice | ems/control/mode_controller.py:467-531 | the write path past the gate, always ending in a persist |
| ModeControllers.ModeController.SettleReply | ems/control/mode_controller.py:475-531 | accepted, rejected with AUTO recovery, or timed out without a revert |
| ModeControllers.ModeController.NoteAutoConfirmed | ems/control/mode_controller.py:533-542 | an accepted AUTO write made around the gates is recorded as confirmed and persisted, and the object stays valid |
| ModeControllers.ModeController.NoteOverrun | ems/control/mode_controller.py:544-554 | an AUTO write made around the gates, whatever the answer, marks the last command unconfirmed and persists it, and the object stays valid |
| ModeControllers.ModeController.ForceAuto | ems/control/service.py:2442-2455 | a forced AUTO write is logged and reads as confirmed exactly when the device accepted it |
| ControllerRuns.StoreStaysCurrent | ems/control/mode_controller.py:223-230 | after every step of every run the stored blob is the current snapshot or restores to exactly the current state, unless the store was damaged from outside |
| ControllerRuns.BlobStaysFaithful | ems/control/mode_controller.py:223-230 | with storable contracts and an undamaged store, once anything was stored the blob equals the current snapshot after every step, restarts included |
| ControllerRuns.RestartsAreInvisible | ems/control/mode_controller.py:157-230 | with no outside damage and no export probe open at a restart, a run with restarts anywhere shows the same decisions (apart from the audit flag of a timed-out write) and the same writes as the run without them, and ends with the same counters, dwell, modes and flag |
| ControllerRuns.RestartReauditsIff | ems/control/mode_controller.py:262-276 | controllers that agree on the persisted fields, one of them just restarted, differ in a decision exactly when a timed-out write repeats an episode the other has already audited |
| ControllerRuns.RestartKeepsCommitment | ems/control/mode_controller.py:142-155 | a storable contract is neither lost nor altered by a restart |
| ControllerRuns.DecideRespectsGates | ems/control/mode_controller.py:415-531 | two controllers that agree on the persisted fields write alike, stay in agreement, and decide alike apart from the audit flag of a timed-out write |
| ControllerRuns.GateDecidesWrites | ems/control/mode_controller.py:442-446 | the device is written exactly when the gate lets the call through, and a blocked call changes nothing |
| ControllerRuns.ConfirmedFlagIsHonest | ems/control/mode_controller.py:104-111 | in every reachable state a false unconfirmed flag means the last device write was accepted with the recorded mode, or nothing was written |
| ControllerRuns.UnnotedWriteIsHonestIff | ems/web/api.py:1587-1611 | a device write that nobody notes, as a shutdown restore that fails or targets another mode, leaves the flag honest exactly when it is up already or the write was accepted in the recorded mode |
| ControllerRuns.BudgetsAreSeparate | ems/control/mode_controller.py:455-465 | a write of one kind never draws on the other kind's budget |
| ControllerRuns.RolloverCovers | ems/control/mode_controller.py:284-294 | the counters a call finds after the midnight rollover cover what its day has already spent |
| ControllerRuns.CountedBudgetsHold | ems/control/mode_controller.py:284-318 | on every local day of every run at most the routine budget of counted gated routine writes and at most the commitment budget of counted gated commitment writes reach the device, whatever it answers, however often the process restarts and whatever else is written uncounted |
| ControllerRuns.DailyBudgetsHold | ems/control/mode_controller.py:284-318 | over calls that count, bypass the gates, command AUTO or have no budget, all gated writes stay within the daily budgets |
| ControllerRuns.BudgetsHoldIff | ems/control/mode_controller.py:415-465 | all gated writes of all runs over a repertoire of calls stay within the daily budgets exactly when every call of it is of that kind |
| ControllerRuns.DwellHolds | ems/control/mode_controller.py:386-390 | in every run every gated write comes at least the minimum dwell after every earlier counted write |
| ControllerRuns.UncountedCallsEscapeTheCap | ems/control/mode_controller.py:433-437 | from any reachable state, a gated call that asks not to be counted and gets through writes n times when made n times, for any n, configuration and budget |
| ControllerRuns.UncountedCallRepeats | ems/control/mode_controller.py:433-465 | a gated write that does not count leaves the gate open for its own repetition, whatever the device answers |
| ControllerGates.RunIsExact | ems/control/mode_controller.py:448-465 | in every ordinary run the counters and the dwell stamp are exactly what the log of writes says |
| ControllerGates.ReachesDeviceIff | ems/control/mode_controller.py:355-390 | in every ordinary run a call reaches the device exactly when it asks for something and skips the gates, or comes the minimum dwell after every counted write with its day's budget not spent |
| ControllerGates.HeldChargeIff | ems/control/mode_controller.py:366-384 | in every run, only an unforced charge seen as idle with CHARGE on record is held though the mode differs, and the device's last write was that accepted CHARGE exactly when the last command is not in doubt |
| ControllerGates.UnconfirmedChargeIsHeld | ems/control/mode_controller.py:372-384 | a concrete run in which a charge whose last write timed out is held all the same |
| ControllerGates.HeldChargeIsNotRepeated | ems/control/mode_controller.py:366-384 | with CHARGE on record, charges repeated under an idle reading write nothing, however many and with restarts between |
| ControllerGates.AcceptedChargeIsOnRecord | ems/control/mode_controller.py:520-531 | an accepted CHARGE write puts the charge on record |
| OwnershipRuns.RunReflectsHistory | ems/lifecycle.py:41-103 | readiness marks and boot time always come from calls made since the last start or hand-back |
| OwnershipRuns.OverrideRemembered | ems/lifecycle.py:76-83 | an override neither replaced nor cancelled is still set, or a tick has found that it ran out |
| OwnershipRuns.ControllingAfterGrace | ems/lifecycle.py:60-73 | in the controlling state some tick since the latest start has found the startup grace over |
| OwnershipRuns.WritesOnlyInOwnership | ems/control/mode_controller.py:355-363 | every device write of any run, however its clock moves, happens with dry-run off, all three marks made since the last start or hand-back, the startup grace seen to be over, and every override replaced, cancelled or seen to run out |
| OwnershipRuns.WritesAfterGraceAndOverrides | ems/lifecycle.py:60-108 | on a clock that never steps back, a write happens at least the grace after the latest start and past the end of every override nothing replaced or cancelled |
| OwnershipRuns.NothingWrittenAfterReturn | ems/lifecycle.py:85-91 | in every run, after a hand-back nothing is written until every readiness mark has been made again |
| OwnershipRuns.ReadyProcessTakesControl | ems/lifecycle.py:94-103 | in a live process, a tick the grace after the latest start, with all marks made since the last reset and no override since the start, leaves the controller in command |
| Sorting.SortIsSorted | ems/timeseries.py:81-81 | sorting yields an ordered permutation |
| Sorting.SortIsStable | ems/ev_session.py:67-67 | elements that compare equal keep their order |
| Segments.NextQuarterIsNext | ems/timeseries.py:34-36 | the next quarter-hour boundary, strictly later and with none in between |
| Segments.Group | ems/timeseries.py:62-79 | rows are grouped by instant, exactly the in-window, parsable, finite ones |
| Segments.SplitAtQuarters | ems/timeseries.py:93-97 | the cursor loop yields the quarter-hour pieces of the interval |
| Segments.ObservedSegments | ems/timeseries.py:39-98 | the loops compute the segmentation function of the rows |
| Segments.ObservedIsChain | ems/timeseries.py:49-54 | segments are ordered, disjoint, inside the window, and never cross a quarter-hour |
| Segments.SplitTiles | ems/timeseries.py:93-97 | the pieces of a sample tile its interval exactly |
| Segments.SampleOwnsItsInterval | ems/timeseries.py:83-97 | each sample's pieces total exactly the time to the next sample or one nominal step, cut by hold and window |
| Segments.CoveredIff | ems/timeseries.py:83-97 | an instant belongs to a sample's segments exactly when that sample is the latest usable one, not held beyond the cap or, as the last of all, beyond one nominal step, inside the window |
| Segments.MeanGrows | ems/timeseries.py:81-82 | the mean of rows at one instant moves as a mean moves, and the mean of one row is that row |
| Segments.SegmentReadsItsRows | ems/timeseries.py:81-97 | a segment reads between any bounds of the usable rows recorded at its instant |
| Segments.ObservedWithinWindow | ems/timeseries.py:83-97 | observed time never exceeds the window |
| Segments.ObservedIgnoresOrder | ems/timeseries.py:51-52 | the result depends only on the multiset of rows |
| DayFinance.TakeFrontConserves | ems/finance.py:237-252 | draining the queue loses neither energy nor stored cost |
| DayFinance.TakeFrontIsFirstIn | ems/finance.py:237-252 | oldest packets go whole, at most one is cut, the rest keep their order |
| DayFinance.DrainQueue | ems/finance.py:237-256 | the packet loop takes the front of the queue and books each part by its source |
| DayFinance.BookSegment | ems/finance.py:190-256 | one pass of the segment loop posts energy always, money and packets only when priced |
| DayFinance.SavingsDecompose | ems/finance.py:270-276 | on every day, what the booked parts miss of the saving is the segments' gaps less the cost of the packets left |
| DayFinance.GapInClosedForm | ems/finance.py:212-256 | a segment's gap is its unexplained power valued at the spread of import price and export credit |
| DayFinance.GapZeroIff | ems/finance.py:212-256 | a segment reconciles exactly when nothing in it is unexplained or the spread is zero |
| DayFinance.OrdinarySegmentsReconcile | ems/finance.py:226-231 | reconstructed load at least zero and no export while discharging leave nothing unexplained |
| DayFinance.FifoSavingsIdentity | ems/finance.py:190-283 | on a day of ordinary segments the booked parts exceed the saving by exactly the stored cost of the packets left, for any prices, and the battery's contribution is the residual less that cost |
| DayFinance.EnergyIsMetered | ems/finance.py:195-199 | import less export is the meter's integral and discharge less charge the battery's, over priced and unpriced segments alike |
| DayFinance.SourcesStayApart | ems/finance.py:233-248 | a day that never charges from the sun, or never from the grid, books nothing to that source and keeps no packet of it |
| DayFinance.TariffPrices | ems/finance.py:207-215 | the import price adds its fee unless the tariff includes all fees, and export earns by the contract model less its fee |
| DayFinance.CostIsBilled | ems/finance.py:200-221 | the cost is the priced import energy at the import price less the export energy at the credit, the baseline that of the same day without its battery, and wear counts priced discharge only |
| DayFinance.FlatDayInClosedForm | ems/finance.py:190-221 | on a day priced alike throughout, cost and baseline are the day's energies times the prices, with and without the battery |
| DayFinance.ExportWhileDischargingIsUnexplained | ems/finance.py:237-256 | a concrete segment that exports while discharging and misses its saving |
| DayFinance.Finance | ems/finance.py:140-286 | the report is the booked ledger of the window's segments, with money only when some time is priced; its three parts sum to the saving, and both coverages lie between 0 and 1 |
| DayFinance.ReportIsMetered | ems/finance.py:190-199 | reported import less export is the energy of the first recorded field, discharge less charge that of the second |
| DayFinance.SegmentIsMetered | ems/finance.py:190-204 | a segment is metered by its three fields for as long as it lasts, at the price of the quarter-hour it starts in |
| DayFinance.FlatReport | ems/finance.py:258-283 | at one price throughout, the reported cost is the reported energies at that price, the battery cost the reported discharge times wear, and coverage is full |
| DayFinance.DayWindow | ems/finance.py:153-160 | an end the caller leaves open is the quarter-hour of the first stamp or the one after the last, and without readable stamps there is no window |
| DayFinance.DerivedWindowKeepsAll | ems/finance.py:153-160 | a window taken from the stamps starts and ends on quarter-hours and leaves no usable row out |
| DayFinance.FinanceOfDay | ems/finance.py:129-286 | without a window the report is empty, otherwise it is the report of that window |
| DayFinance.CoverageBounds | ems/finance.py:258-265 | priced time is within observed time and observed time within the window |
| BatterySimulation.ClampIsIdle | ems/replay.py:339-343 | under any intents the final clamp changes nothing: the pack stays between empty and usable |
| BatterySimulation.ReserveIsKept | ems/replay.py:300-346 | below the reserve the pack never falls further, at or above it it stays there |
| BatterySimulation.BreachesFormPrefix | ems/replay.py:345-346 | breaches are exactly the first slots of a run, and none occur when it starts at the reserve |
| BatterySimulation.StoredEnergy | ems/replay.py:339-344 | final minus initial energy is eta times the charge less the discharge over eta |
| BatterySimulation.RoundTripBound | ems/replay.py:292-301 | a run started at the reserve delivers at most eta squared of its charge plus eta of what it started with above the reserve |
| BatterySimulation.MeterConserves | ems/replay.py:348-350 | import less export is net load less discharge plus charge |
| BatterySimulation.SelfUseShrinksMeter | ems/replay.py:331-350 | under self-consumption each slot imports and exports between zero and what it would without a battery |
| BatterySimulation.SelfUseDoesAllItCan | ems/replay.py:331-343 | self-consumption discharges only into a deficit and charges only from a surplus, still imports only at the inverter's limit or at the reserve, and still exports only at the limit or full |
| BatterySimulation.GridChargeReachesTarget | ems/replay.py:326-328 | a grid-charge slot never discharges, never charges past its target, and short of it charges at the inverter's limit |
| BatterySimulation.HoldLeavesPackAlone | ems/replay.py:329-330 | a hold slot leaves the pack and the meter as without a battery |
| BatterySimulation.SharesAreShares | ems/replay.py:301-305 | reserve, target and start are their percentages of the usable capacity, cut off at 0 and 100 |
| BatterySimulation.MeterOfTheDay | ems/replay.py:312-347 | the meter is the house less its sun less the battery, each reading in its own slot and zero when missing; without a battery the last is zero |
| BatterySimulation.CostIsMetered | ems/replay.py:348-357 | with every slot priced alike a run costs its import at the import price less its export at the credit |
| BatterySimulation.ReplayPrices | ems/replay.py:351-357 | replay buys at the slot price without finance's import fee, and is credited as finance is |
| BatterySimulation.ConfiguredBatteryIsSound | ems/replay.py:301-305 | any configured percentages and round trip give a sound battery |
| BatterySimulation.SimulatorsAgree | ems/finance.py:370-412 | under the fixed round trip and equal parameters the finance trajectory and the replay trajectory without intents are the same, slot by slot |
| BatterySimulation.Simulate | ems/replay.py:278-366 | the replay result is the sums, breaches and priced cost of the simulated run, with or without a battery |
| BatterySimulation.SimulateSlot | ems/replay.py:312-357 | one pass of the loop adds the slot's import, export, discharge and priced cost, and counts a breach only with a battery and below the reserve |
| BatterySimulation.RunPack | ems/replay.py:320-343 | the battery power chosen for an intent and the energy it leaves are those of the slot step |
| BatterySimulation.SimulateAuto | ems/finance.py:370-412 | the meter and battery series are those of the simulated run without intents |
| BatterySimulation.PriceGridCost | ems/finance.py:326-367 | the grid cost is the sum over priced slots, absent when none is priced, and wear on the given discharge comes with it either way |
| EnergyFlow.AllocationIsSound | ems/energy_flow.py:81-120 | bands are non-negative, every node balances, import and export are never both positive and have closed forms |
| EnergyFlow.AllocationIsPreferred | ems/energy_flow.py:85-87 | of all attributions of the same energies the computed one is first in the order solar to home, car, battery, then discharge to home, car, and it alone is |
| EnergyFlow.SlotMeter | ems/energy_flow.py:115-120 | attributed import and export are the positive and negative part of what solar and battery leave of the loads |
| EnergyFlow.SlotAgreesIff | ems/energy_flow.py:81-120 | a slot agrees with its meter exactly when the loads equal grid plus solar plus battery |
| EnergyFlow.KindInClosedForm | ems/energy_flow.py:123-133 | a slot is a grid charge exactly when it charges at more than twice the sun left after home and car |
| EnergyFlow.AttributionErrorIsBounded | ems/energy_flow.py:179-225 | over any window attributed import and export miss the meter's integrals by at most the energy the chosen loads miss it by |
| EnergyFlow.MismatchIsTolerated | ems/energy_flow.py:182-192 | on physical readings the loads match the meter on the fallback, and within the accepted tolerance when derived |
| EnergyFlow.AttributionAgreesWithMeter | ems/energy_flow.py:179-225 | over any list of segments whose loads sum to grid plus sun plus battery, attributed import and export equal the meter's integrals |
| EnergyFlow.FallbackAgreesWithMeter | ems/energy_flow.py:188-190 | without derived rows that is every list of segments with physical readings |
| EnergyFlow.WindowIsSound | ems/energy_flow.py:197-205 | a window's bands are non-negative and its sun and battery nodes carry exactly the recorded energy |
| EnergyFlow.MeasuredLoads | ems/energy_flow.py:182-190 | without a derived load near the measurement, home and car together draw the measured load and the car its own reading as far as that goes |
| EnergyFlow.DerivedLoads | ems/energy_flow.py:166-192 | a derived load near the measurement counts as derived: home without the car, the car what is left |
| EnergyFlow.DerivedIsLatest | ems/energy_flow.py:166-177 | the derived load at an instant is the one last recorded for it inside the window, if any was |
| EnergyFlow.SegmentKwh | ems/energy_flow.py:89-93 | a segment's energy is its watts times its length, 3.6e12 watt-microseconds to the kWh |
| EnergyFlow.LoadNodesAgree | ems/energy_flow.py:193-203 | the home and car nodes of a window carry the energy of their own loads |
| EnergyFlow.ChargeSplitMatchesFinance | ems/finance.py:225-231 | the savings ledger and the flow diagram split a charge into the same sun and grid parts |
| EnergyFlow.IndexDerived | ems/energy_flow.py:166-177 | the index holds, per instant, the last usable derived row |
| EnergyFlow.BuildFlows | ems/energy_flow.py:136-228 | the published flows are the attributed bands of the segments, every node and the whole diagram balance, and both percentages are exact shares in 0 to 100 |
| PriceHorizon.AcceptedIff | ems/price_quality.py:25-79 | a horizon is accepted exactly when its slots are the consecutive quarter-hours of whole local days of any length, each starting at a quarter-hour, with live finite prices, and now lies inside |
| PriceHorizon.CompleteDaysAreWhole | ems/price_quality.py:59-73 | ordered slots that fill every day they touch start at one local midnight and reach another |
| PriceHorizon.WholeDaysEndAtMidnight | ems/price_quality.py:60-64 | where the following day starts at a quarter-hour too, the slots end exactly at its midnight |
| PriceHorizon.WholeDaysAreComplete | ems/price_quality.py:61-69 | whole days have every quarter-hour of every day they touch |
| PriceHorizon.JudgedOnce | ems/price_quality.py:33-79 | no two verdicts fit the same horizon |
| PriceHorizon.CollectStarts | ems/price_quality.py:41-57 | the slot loop finds the first fault or the starts |
| PriceHorizon.FaultIff | ems/price_quality.py:41-57 | in the order of the checks: no zone, no finite price, off the quarter-hour, at or before the previous start, otherwise not exactly 15 minutes after it |
| PriceHorizon.Expected | ems/price_quality.py:62-68 | the cursor loop yields exactly the day's quarter-hours |
| PriceHorizon.CheckDays | ems/price_quality.py:59-73 | the day loop finds the earliest incomplete day |
| PriceHorizon.Validate | ems/price_quality.py:25-79 | the verdict is the first failing check, acceptance means whole days around now, and the horizon ends 15 minutes after the last start that is known |
| EvSession.RunsAreDetermined | ems/ev_session.py:84-100 | there is one list of all maximal active runs |
| EvSession.Runs | ems/ev_session.py:84-100 | the scan finds all maximal runs, in order and separated by an inactive sample |
| EvSession.Merge | ems/ev_session.py:103-119 | every span runs from the start of a run to the end of the same or a later one, spans cover every run, and they are cut exactly at pauses of at least the tolerance |
| EvSession.MergedIsDetermined | ems/ev_session.py:103-119 | merging has one answer: two lists with those properties are the same list |
| EvSession.MergingKeepsActive | ems/ev_session.py:106-108 | before the minimum duration is applied, sessions hold exactly the active samples and those in pauses shorter than the tolerance, and each starts and ends on an active sample |
| EvSession.AnchorSplitsEnergy | ems/ev_session.py:122-141 | energy since an anchor is that of the samples from the anchor on, and adds to the part before it |
| EvSession.EnergyKwh | ems/ev_session.py:122-141 | the loop computes the held energy since the anchor |
| EvSession.HeldIsElapsed | ems/ev_session.py:122-141 | without gaps beyond ten minutes the time held is the time elapsed, and one cadence after the last sample |
| EvSession.SteadyEnergy | ems/ev_session.py:132-141 | at a steady power the energy is that power for the time held |
| EvSession.Sessions | ems/ev_session.py:144-157 | sessions are exactly the long enough merged spans of the chronological samples, each starts and ends on an active sample, and they are apart by at least the tolerance |
| Incidents.IncidentIsInItsLog | ems/detectors.py:391-432 | over any ordered run with restarts anywhere, rebuilding from the log gives the live incident and its pushed mark |
| Incidents.RecoverableIff | ems/detectors.py:298-432 | that holds for every ordered run exactly when the stable window is positive |
| Incidents.ZeroWindowReusesKey | ems/detectors.py:369-388 | a concrete run with no stable window whose live incident the log calls closed |
| Incidents.OneDownKeyPerIncident | ems/detectors.py:319-320 | incidents open at strictly increasing instants and the stored down keys are exactly those instants |
| Incidents.UpEndsStableWindow | ems/detectors.py:366-372 | an up key ends a full stable window of contact without a down evaluation or restart in it |
| Incidents.UpAnswersItsDown | ems/detectors.py:372-388 | an up key closes the open incident, whose down key is stored and unanswered |
| Incidents.EvaluateKeepsInv | ems/detectors.py:298-388 | every evaluation keeps log and trackers consistent for every device |
| Incidents.OutageIsAnnouncedIff | ems/detectors.py:319-362 | an evaluation announces an outage exactly when the last fresh reading is at least the threshold old, or there is none while an incident is open, and opens the incident then |
| Incidents.RecoveryIsAnnounced | ems/detectors.py:364-388 | a pushed incident in steady contact for the stable window has had its up key sent |
| DeviceTrackers.DeviceUnreachableState.DeviceUnreachable | ems/detectors.py:298-388 | the mutable tracker performs the evaluation step and returns its payload |
| DeviceTrackers.Gather | ems/detectors.py:399-421 | the row loop collects exactly the readable instants of known devices |
| DeviceTrackers.OpenIncidents | ems/detectors.py:391-432 | exactly the devices with an unanswered down key get a tracker, at the latest such instant |
| Hysteresis.FlipsAreBounded | ems/control/car_mode.py:190-197 | a two-threshold latch flips at most once plus the signal's total variation per gap |
| Hysteresis.ReissuesAreBounded | ems/control/car_mode.py:179-181 | a dead-banded setpoint is issued at most once plus its targets' total variation per band |
| CarMode.PowerWithinLimitIff | ems/control/car_mode.py:199-213 | the commanded power respects the inverter limit exactly when the limit is at least the mode's floor |
| CarMode.NeverDischargesAtReserve | ems/control/car_mode.py:190-197 | no discharge within one point of the reserve, nor before recovery once holding |
| CarMode.DischargesAsAsked | ems/control/car_mode.py:179-213 | the battery discharges exactly when the car charges in a discharge mode outside the reserve hold, at the asked power within floor and limit and else at the nearer of them |
| CarMode.HoldFlipsAreBounded | ems/control/car_mode.py:183-197 | over any session the reserve hold flips at most once plus the state of charge's total variation per two points |
| CarMode.CommandsAreBounded | ems/control/car_mode.py:179-213 | a session issues at most one command plus the total variation of the setpoints it asks for per re-command threshold, holds included |
| CarMode.PredictionsBoundCommands | ems/control/car_mode.py:179-213 | the total variation of the predictions bounds the commands too |
| CarMode.StaticIsCommandedOnce | ems/control/car_mode.py:199-213 | a static discharge session is commanded at most once |
| CarMode.PredictionInRange | ems/control/car_mode.py:148-150 | the prediction is a multiple of 50 W in 150 to 3000 W, within 25 W of the clamped mean |
| CarMode.ExpectedIsMean | ems/control/car_mode.py:137-150 | the expected load is the mean of the matching loads, between any bounds of theirs, and the profile without any |
| CarMode.MatchedIff | ems/control/car_mode.py:137-147 | a load matches exactly when its row is readable and falls in one of the buckets |
| CarMode.NoiseNeverRecommands | ems/control/car_mode.py:132-134 | noise within the threshold less one step never re-commands |
| CarMode.HorizonBuckets | ems/control/car_mode.py:107-116 | the hourly loop yields exactly the buckets the window touches |
| CarMode.PredictHouseLoad | ems/control/car_mode.py:119-150 | the prediction is the rounded mean of the matching rows, or of the profile without any |
| FloorAntiFlap.LatchKeepsSafeMode | ems/control/safety.py:47-79 | a latched routine intent keeps the safe mode the battery is in, or enters AUTO |
| FloorAntiFlap.LatchedIff | ems/control/safety.py:44-79 | the latch is on exactly for a routine intent at or below the floor, or once on below floor plus margin, and otherwise leaves the intent alone |
| FloorAntiFlap.PlanIsCommanded | ems/control/safety.py:44-79 | off the latch the plan is commanded: discharging exactly for the house in a car session or for export with permission |
| FloorAntiFlap.LatchedChangesOnce | ems/control/safety.py:23-79 | while latched the mode changes at most once, only out of an unsafe mode, only into AUTO |
| FloorAntiFlap.SafeModeIsNeverLeft | ems/control/safety.py:36-42 | latched in a safe mode, every command repeats that mode |
| FloorAntiFlap.LatchFlipsAreBounded | ems/control/safety.py:52-55 | on routine intents the latch flips at most once plus the state of charge's total variation per resume margin |

## Left out

- Tolerances of 1e-9 and 1e-12 in planner and finance are taken as zero, and binary floating point as
  exact reals; the breach tolerance of the replay and the percentage threshold of the flows are kept.
- Output rounding, reason strings, advice texts, the solar share, the negative-price hint and the
  local-day labels of results.
- The timeout of `enter`: a thread may wake at any step and look again, and giving up is not a step.
- Token objects are numbers; that no two live tickets share one is proved from the counter.
- Driver exceptions other than the unconfirmed-write one, and a persist callback that fails.
- ISO text in stored blobs: a stamp or date is a value that parses or does not, and a stored number is
  finite. A date parses as a naive stamp, and so may a digit string, as from Python 3.11 on.
- ControllerRuns.RestartsAreInvisible: says nothing of a restart while an export probe is open; its window
  is memory only and closes with the process.
- A store damaged from outside makes the next process start its counters and dwell anew and read as
  unconfirmed; the budget and dwell theorems are about runs without such damage.
- `day_vs_auto` and the grouping of samples into slot means; the AUTO simulator and the pricing of its
  meter series are modelled.
- The restored incident's contact clock: it restarts after a reboot, in the code as in the model.
- Failed notification sends: every payload is taken to be stored.
- The car session's reconciliation retries, command cap and dwell of `ems/control/service.py`; the
  bounds are about the decision core and the session it is handed.
- `estimate_soc` and the session statistics: plain arithmetic on the modelled energy; the median
  cadence is a parameter.
- Plans, planners, validators, vendor adapters, web, storage and scheduling.
