/**
 The generation fence of ems/control/command_fence.py.

 `State` is the fence's fields plus the wait set of its condition variable; one function per
 lock-held method body says what that atomic step does, and the class at the end performs the
 same steps on mutable fields. The theorems quantify over every interleaving of steps.
*/
module CommandFence {
  import opened Prelude

  datatype CommandClass = Routine | Override | Recovery | Shutdown

  /** `token` stands for the fresh `object()` of a ticket; the fence numbers tokens as it creates them. */
  datatype Ticket = Ticket(token: nat, generation: nat, commandClass: CommandClass)

  datatype State = State(
    generation: nat,
    tickets: map<nat, Ticket>,
    superseded: set<nat>,
    active: Option<Ticket>,
    recoveries: map<nat, Ticket>,
    recoveryForToken: map<nat, nat>,
    draining: bool,
    sleepers: map<nat, Ticket>)  // threads blocked in `wait`, with the ticket each one waits for

  const INITIAL := State(0, map[], {}, None, map[], map[], false, map[])

  datatype Attempt = Refused | Granted | Waiting

  // --- the atomic steps ---------------------------------------------------------------------

  function NotifyAll(s: State): State {
    s.(sleepers := map[])
  }

  function NewTicket(s: State, cls: CommandClass): (State, Ticket) {
    var t := Ticket(s.generation + 1, s.generation + 1, cls);
    (s.(generation := t.generation, tickets := s.tickets[t.token := t]), t)
  }

  function RoutineGenerations(s: State): set<nat> {
    set k | k in s.tickets && s.tickets[k].commandClass.Routine? :: s.tickets[k].generation
  }

  function Reserve(s: State, cls: CommandClass, draining: bool): (State, Option<Ticket>) {
    if (s.draining || draining) && !cls.Shutdown? then (s, None)
    else
      var (s1, t) := NewTicket(s, cls);
      var s2 := if cls.Routine? then s1 else s1.(superseded := s1.superseded + RoutineGenerations(s1));
      (NotifyAll(s2), Some(t))
  }

  function AdmitRoutine(s: State, draining: bool): (State, Option<Ticket>) {
    if s.draining || draining || s.tickets != map[] then (s, None)
    else
      var (s1, t) := NewTicket(s, Routine);
      (s1, Some(t))
  }

  predicate NewerCommand(s: State, stale: Ticket) {
    exists k :: k in s.tickets && s.tickets[k].generation > stale.generation && !s.tickets[k].commandClass.Routine?
  }

  function BeginRecovery(s: State, stale: Ticket, draining: bool): (State, Option<Ticket>) {
    if stale.generation in s.recoveries && s.recoveries[stale.generation].token in s.tickets then
      (s, Some(s.recoveries[stale.generation]))
    else if s.draining || draining then (s, None)
    else
      var s1 := s.(superseded := s.superseded + {stale.generation});
      if NewerCommand(s, stale) then (NotifyAll(s1), None)
      else
        var (s2, r) := RegisterRecovery(s1, stale);
        (s2, Some(r))
  }

  /** A recovery ticket that stands in for a stale one. */
  function RegisterRecovery(s: State, stale: Ticket): (State, Ticket) {
    var (s1, r) := NewTicket(s, Recovery);
    (NotifyAll(s1.(recoveries := s1.recoveries[stale.generation := r],
                   recoveryForToken := s1.recoveryForToken[r.token := stale.generation])), r)
  }

  function Eligible(s: State): set<nat> {
    set k | k in s.tickets && s.tickets[k].generation !in s.superseded :: s.tickets[k].generation
  }

  predicate IsNext(s: State, t: Ticket) {
    t.generation in Eligible(s) && forall g :: g in Eligible(s) ==> t.generation <= g
  }

  /** What one pass through the `while` body of `enter` concludes. */
  function EnterOutcome(s: State, t: Ticket): Attempt {
    if t.token !in s.tickets then Refused
    else if t.generation in s.superseded && s.active != Some(t) then Refused
    else if s.active.None? && IsNext(s, t) then Granted
    else Waiting
  }

  function TryEnter(s: State, thread: nat, t: Ticket): State {
    var awake := s.(sleepers := s.sleepers - {thread});
    match EnterOutcome(s, t)
    case Refused => awake
    case Granted => awake.(active := Some(t))
    case Waiting => s.(sleepers := s.sleepers[thread := t])
  }

  function Leave(s: State, t: Ticket): State {
    if s.active == Some(t) then NotifyAll(s.(active := None)) else s
  }

  function Release(s: State, t: Ticket): State {
    var s1 := s.(active := if s.active == Some(t) then None else s.active,
                 tickets := s.tickets - {t.token},
                 superseded := s.superseded - {t.generation});
    var s2 := if t.token in s1.recoveryForToken
              then s1.(recoveries := s1.recoveries - {s1.recoveryForToken[t.token]},
                       recoveryForToken := s1.recoveryForToken - {t.token})
              else s1;
    NotifyAll(s2)
  }

  function MarkDraining(s: State): State {
    NotifyAll(s.(draining := true, superseded := s.superseded + RoutineGenerations(s)))
  }

  function ClearDraining(s: State): State {
    NotifyAll(s.(draining := false))
  }

  // --- runs -----------------------------------------------------------------------------------

  datatype Op =
    | OpReserve(cls: CommandClass, drainingArg: bool)
    | OpAdmit(drainingArg: bool)
    | OpRecover(stale: Ticket, drainingArg: bool)
    | OpEnter(thread: nat, ticket: Ticket)
    | OpWake(thread: nat)  // a timed-out or spurious return from `wait`
    | OpLeave(ticket: Ticket)
    | OpRelease(ticket: Ticket)
    | OpMarkDraining
    | OpClearDraining

  datatype Event = Took(ticket: Ticket) | GaveUp(ticket: Ticket)

  function Step(s: State, op: Op): State {
    match op
    case OpReserve(c, d) => Reserve(s, c, d).0
    case OpAdmit(d) => AdmitRoutine(s, d).0
    case OpRecover(t, d) => BeginRecovery(s, t, d).0
    case OpEnter(th, t) => TryEnter(s, th, t)
    case OpWake(th) => s.(sleepers := s.sleepers - {th})
    case OpLeave(t) => Leave(s, t)
    case OpRelease(t) => Release(s, t)
    case OpMarkDraining => MarkDraining(s)
    case OpClearDraining => ClearDraining(s)
  }

  /** Ownership changes of the physical command lane caused by one step. */
  function Emits(s: State, op: Op): seq<Event> {
    match op
    case OpEnter(_, t) => if EnterOutcome(s, t).Granted? then [Took(t)] else []
    case OpLeave(t) => if s.active == Some(t) then [GaveUp(t)] else []
    case OpRelease(t) => if s.active == Some(t) then [GaveUp(t)] else []
    case _ => []
  }

  function Run(s: State, ops: seq<Op>): State
    decreases ops
  {
    if ops == [] then s else Run(Step(s, ops[0]), ops[1..])
  }

  function Log(s: State, ops: seq<Op>): seq<Event>
    decreases ops
  {
    if ops == [] then [] else Emits(s, ops[0]) + Log(Step(s, ops[0]), ops[1..])
  }

  /** A ticket this fence has issued; the class of an already released one no longer matters. */
  predicate Issued(s: State, t: Ticket) {
    && t.token == t.generation
    && 1 <= t.generation <= s.generation
    && (t.token in s.tickets ==> s.tickets[t.token] == t)
  }

  /** Callers only hand back tickets they were given. */
  predicate Legal(s: State, op: Op) {
    match op
    case OpRecover(t, _) => Issued(s, t)
    case OpEnter(_, t) => Issued(s, t)
    case OpLeave(t) => Issued(s, t)
    case OpRelease(t) => Issued(s, t)
    case _ => true
  }

  predicate LegalRun(s: State, ops: seq<Op>)
    decreases ops
  {
    ops == [] || (Legal(s, ops[0]) && LegalRun(Step(s, ops[0]), ops[1..]))
  }

  // --- the invariant ----------------------------------------------------------------------------

  ghost predicate TicketsWellFormed(s: State) {
    forall k :: k in s.tickets ==> Issued(s, s.tickets[k]) && s.tickets[k].token == k
  }

  /** The two recovery tables are inverse to each other and name outstanding recovery tickets only. */
  ghost predicate RecoveriesWellFormed(s: State) {
    && (forall g :: g in s.recoveries ==>
          var r := s.recoveries[g];
          r.token in s.tickets && s.tickets[r.token] == r && r.commandClass.Recovery? && g < r.generation
          && r.token in s.recoveryForToken && s.recoveryForToken[r.token] == g)
    && (forall k :: k in s.recoveryForToken ==>
          s.recoveryForToken[k] in s.recoveries && s.recoveries[s.recoveryForToken[k]].token == k)
  }

  /** No thread sleeps on a condition that already holds. */
  ghost predicate NoLostWakeup(s: State) {
    forall th :: th in s.sleepers ==> Issued(s, s.sleepers[th]) && EnterOutcome(s, s.sleepers[th]).Waiting?
  }

  ghost predicate Inv(s: State) {
    && TicketsWellFormed(s)
    && (forall g :: g in s.superseded ==> 1 <= g <= s.generation)
    && (s.active.Some? ==> s.active.value.token in s.tickets && s.tickets[s.active.value.token] == s.active.value)
    && RecoveriesWellFormed(s)
    && NoLostWakeup(s)
  }

  lemma ReserveKeepsInv(s: State, cls: CommandClass, d: bool)
    requires Inv(s)
    ensures Inv(Reserve(s, cls, d).0)
  {
  }

  lemma AdmitKeepsInv(s: State, d: bool)
    requires Inv(s)
    ensures Inv(AdmitRoutine(s, d).0)
  {
  }

  lemma RecoverKeepsInv(s: State, t: Ticket, d: bool)
    requires Inv(s) && Issued(s, t)
    ensures Inv(BeginRecovery(s, t, d).0)
  {
    if t.generation in s.recoveries {
      assert BeginRecovery(s, t, d).0 == s;
    } else {
      var s1 := s.(superseded := s.superseded + {t.generation});
      SupersedingKeepsInv(s, t.generation);
      RegisteringKeepsInv(NotifyAll(s1), t);
      assert RegisterRecovery(NotifyAll(s1), t) == RegisterRecovery(s1, t);
    }
  }

  lemma SupersedingKeepsInv(s: State, g: nat)
    requires Inv(s) && 1 <= g <= s.generation
    ensures Inv(NotifyAll(s.(superseded := s.superseded + {g})))
  {
  }

  lemma RegisteringKeepsInv(s: State, t: Ticket)
    requires Inv(s) && 1 <= t.generation <= s.generation && t.generation !in s.recoveries
    ensures Inv(RegisterRecovery(s, t).0)
  {
    var s' := RegisterRecovery(s, t).0;
    forall g | g in s'.recoveries
      ensures var r := s'.recoveries[g];
              r.token in s'.tickets && s'.tickets[r.token] == r && r.commandClass.Recovery? && g < r.generation
              && r.token in s'.recoveryForToken && s'.recoveryForToken[r.token] == g
    {
      if g in s.recoveries { assert Issued(s, s.recoveries[g]); }
    }
  }

  lemma WaitingSurvivesEnter(s: State, thread: nat, t: Ticket, u: Ticket)
    requires EnterOutcome(s, u).Waiting?
    ensures EnterOutcome(TryEnter(s, thread, t), u).Waiting?
  {
    var s' := TryEnter(s, thread, t);
    assert s'.tickets == s.tickets && s'.superseded == s.superseded;
    assert Eligible(s') == Eligible(s);
  }

  lemma EnterKeepsInv(s: State, thread: nat, t: Ticket)
    requires Inv(s) && Issued(s, t)
    ensures Inv(TryEnter(s, thread, t))
  {
    var s' := TryEnter(s, thread, t);
    var outcome := EnterOutcome(s, t);
    assert s'.recoveries == s.recoveries && s'.recoveryForToken == s.recoveryForToken && s'.tickets == s.tickets;
    assert s'.generation == s.generation && s'.superseded == s.superseded;
    assert s'.active == if outcome.Granted? then Some(t) else s.active;
    assert outcome.Granted? ==> t.token in s.tickets;
    SleepersSurviveEnter(s, thread, t);
  }

  lemma SleepersSurviveEnter(s: State, thread: nat, t: Ticket)
    requires NoLostWakeup(s) && Issued(s, t)
    ensures NoLostWakeup(TryEnter(s, thread, t))
  {
    var s', outcome := TryEnter(s, thread, t), EnterOutcome(s, t);
    forall th | th in s'.sleepers
      ensures Issued(s', s'.sleepers[th]) && EnterOutcome(s', s'.sleepers[th]).Waiting?
    {
      if !(outcome.Waiting? && th == thread) {
        assert th in s.sleepers && s'.sleepers[th] == s.sleepers[th];
      }
      WaitingSurvivesEnter(s, thread, t, s'.sleepers[th]);
    }
  }

  lemma ReleaseKeepsInv(s: State, t: Ticket)
    requires Inv(s) && Issued(s, t)
    ensures Inv(Release(s, t))
  {
  }

  /** Every atomic step keeps the invariant, in particular that nobody sleeps past a wake-up. */
  lemma StepKeepsInv(s: State, op: Op)
    requires Inv(s) && Legal(s, op)
    ensures Inv(Step(s, op))
  {
    match op
    case OpReserve(c, d) => ReserveKeepsInv(s, c, d);
    case OpAdmit(d) => AdmitKeepsInv(s, d);
    case OpRecover(t, d) => RecoverKeepsInv(s, t, d);
    case OpEnter(th, t) => EnterKeepsInv(s, th, t);
    case OpWake(th) =>
    case OpLeave(t) =>
    case OpRelease(t) => ReleaseKeepsInv(s, t);
    case OpMarkDraining =>
    case OpClearDraining =>
  }

  /** Tokens are never re-bound: an issued ticket stays the only ticket of its generation. */
  lemma StepKeepsIssued(s: State, op: Op, t: Ticket)
    requires Inv(s) && Legal(s, op) && Issued(s, t)
    ensures Issued(Step(s, op), t) && s.generation <= Step(s, op).generation
  {
  }

  lemma {:induction false} RunKeepsInv(s: State, ops: seq<Op>)
    requires Inv(s) && LegalRun(s, ops)
    ensures Inv(Run(s, ops))
    decreases ops
  {
    if ops != [] {
      StepKeepsInv(s, ops[0]);
      RunKeepsInv(Step(s, ops[0]), ops[1..]);
    }
  }

  /** In no reachable state does a thread sleep although its ticket could be granted or is refused. */
  lemma NeverLosesWakeup(ops: seq<Op>, thread: nat)
    requires LegalRun(INITIAL, ops)
    ensures var s := Run(INITIAL, ops);
            thread in s.sleepers ==> EnterOutcome(s, s.sleepers[thread]).Waiting?
  {
    RunKeepsInv(INITIAL, ops);
  }

  /** Any step that changes the answer for a waiting ticket wakes every sleeper. */
  lemma ChangedAnswerNotifies(s: State, op: Op, u: Ticket)
    requires Inv(s) && Legal(s, op) && Issued(s, u)
    requires EnterOutcome(s, u).Waiting? && !EnterOutcome(Step(s, op), u).Waiting?
    ensures Step(s, op).sleepers == map[]
  {
    match op
    case OpReserve(c, d) =>
    case OpAdmit(d) =>
    case OpRecover(t, d) =>
    case OpEnter(th, t) => WaitingSurvivesEnter(s, th, t, u);
    case OpWake(th) =>
    case OpLeave(t) =>
    case OpRelease(t) =>
    case OpMarkDraining =>
    case OpClearDraining =>
  }

  // --- physical command order --------------------------------------------------------------------

  /** Nothing older than generation `g` is still eligible. */
  ghost predicate Floor(s: State, g: nat) {
    g <= s.generation && forall h :: h in Eligible(s) ==> g <= h
  }

  lemma OnlyNewOrEligible(s: State, op: Op, k: nat)
    requires Inv(s) && Legal(s, op) && k in Step(s, op).tickets && k !in Step(s, op).superseded
    ensures k > s.generation || (k in s.tickets && k !in s.superseded)
  {
  }

  /** A step makes no older generation eligible: eligibility is lost, or comes with a new ticket. */
  lemma EligibilityOnlyShrinks(s: State, op: Op, k: nat)
    requires Inv(s) && Legal(s, op)
    requires k in Step(s, op).tickets && Step(s, op).tickets[k].generation !in Step(s, op).superseded
    ensures k > s.generation || (k in s.tickets && s.tickets[k].generation !in s.superseded)
    ensures Step(s, op).tickets[k].generation == k
  {
    StepKeepsInv(s, op);
    assert Issued(Step(s, op), Step(s, op).tickets[k]);
    OnlyNewOrEligible(s, op, k);
    assert k in s.tickets ==> Issued(s, s.tickets[k]);
  }

  lemma StepKeepsFloor(s: State, op: Op, g: nat)
    requires Inv(s) && Legal(s, op) && Floor(s, g)
    ensures Floor(Step(s, op), g)
  {
    var s' := Step(s, op);
    forall h | h in Eligible(s') ensures g <= h {
      var k :| k in s'.tickets && s'.tickets[k].generation !in s'.superseded && h == s'.tickets[k].generation;
      EligibilityOnlyShrinks(s, op, k);
      if k in s.tickets && s.tickets[k].generation !in s.superseded {
        assert Issued(s, s.tickets[k]) && s.tickets[k].generation in Eligible(s);
      }
    }
  }

  lemma {:induction false} TakenAboveFloor(s: State, ops: seq<Op>, g: nat, e: Event)
    requires Inv(s) && LegalRun(s, ops) && Floor(s, g)
    requires e in Log(s, ops) && e.Took?
    ensures g <= e.ticket.generation
    decreases ops
  {
    if e !in Emits(s, ops[0]) {
      StepKeepsInv(s, ops[0]);
      StepKeepsFloor(s, ops[0], g);
      TakenAboveFloor(Step(s, ops[0]), ops[1..], g, e);
    }
  }

  lemma {:induction false} TakenKeepsIdentity(s: State, ops: seq<Op>, t: Ticket, e: Event)
    requires Inv(s) && LegalRun(s, ops) && Issued(s, t)
    requires e in Log(s, ops) && e.Took? && e.ticket.generation == t.generation
    ensures e.ticket == t
    decreases ops
  {
    if e !in Emits(s, ops[0]) {
      StepKeepsInv(s, ops[0]);
      StepKeepsIssued(s, ops[0], t);
      TakenKeepsIdentity(Step(s, ops[0]), ops[1..], t, e);
    }
  }

  /** Granting a ticket makes its generation the floor of everything granted afterwards. */
  lemma GrantRaisesFloor(s: State, thread: nat, t: Ticket)
    requires Inv(s) && Issued(s, t) && EnterOutcome(s, t).Granted?
    ensures Floor(TryEnter(s, thread, t), t.generation)
  {
    assert Eligible(TryEnter(s, thread, t)) == Eligible(s);
  }

  /**
   * Generations granted never decrease over a run, and two grants share a generation only when they
   * are the same ticket; so different tickets are granted in strictly increasing order.
   */
  lemma {:induction false} GrantsInGenerationOrder(s: State, ops: seq<Op>, i: nat, j: nat)
    requires Inv(s) && LegalRun(s, ops)
    requires i < j < |Log(s, ops)| && Log(s, ops)[i].Took? && Log(s, ops)[j].Took?
    ensures var a, b := Log(s, ops)[i].ticket, Log(s, ops)[j].ticket;
            a.generation <= b.generation && (a.generation == b.generation ==> a == b)
    decreases ops
  {
    var s' := Step(s, ops[0]);
    var now := Emits(s, ops[0]);
    var rest := Log(s', ops[1..]);
    StepKeepsInv(s, ops[0]);
    if i < |now| {
      assert Log(s, ops)[i] == now[i] && ops[0].OpEnter? && j >= 1;
      var t := ops[0].ticket;
      GrantRaisesFloor(s, ops[0].thread, t);
      assert Log(s, ops)[j] == rest[j - 1];
      TakenAboveFloor(s', ops[1..], t.generation, rest[j - 1]);
      StepKeepsIssued(s, ops[0], t);
      if rest[j - 1].ticket.generation == t.generation {
        TakenKeepsIdentity(s', ops[1..], t, rest[j - 1]);
      }
    } else {
      assert Log(s, ops)[i] == rest[i - |now|] && Log(s, ops)[j] == rest[j - |now|];
      GrantsInGenerationOrder(s', ops[1..], i - |now|, j - |now|);
    }
  }

  /** A log in which the lane is taken only while free and given up only by its owner. */
  ghost predicate OneOwnerAtATime(log: seq<Event>, owner: Option<Ticket>)
    decreases log
  {
    log == [] ||
    match log[0]
    case Took(t) => owner.None? && OneOwnerAtATime(log[1..], Some(t))
    case GaveUp(t) => owner == Some(t) && OneOwnerAtATime(log[1..], None)
  }

  lemma OwnerFollowsEvents(s: State, op: Op)
    requires Inv(s) && Legal(s, op)
    ensures var es, after := Emits(s, op), Step(s, op).active;
            if es == [] then after == s.active
            else |es| == 1 && if es[0].Took? then s.active.None? && after == Some(es[0].ticket)
                              else s.active == Some(es[0].ticket) && after.None?
  {
  }

  lemma {:induction false} LaneHasOneOwner(s: State, ops: seq<Op>)
    requires Inv(s) && LegalRun(s, ops)
    ensures OneOwnerAtATime(Log(s, ops), s.active)
    decreases ops
  {
    if ops != [] {
      var s', now := Step(s, ops[0]), Emits(s, ops[0]);
      StepKeepsInv(s, ops[0]);
      LaneHasOneOwner(s', ops[1..]);
      OwnerFollowsEvents(s, ops[0]);
      assert Log(s, ops)[|now|..] == Log(s', ops[1..]);
    }
  }

  /** Superseded or gone: no continuation grants the ticket. */
  ghost predicate Cancelled(s: State, t: Ticket) {
    Issued(s, t) && (t.generation in s.superseded || t.token !in s.tickets)
  }

  lemma StepKeepsCancelled(s: State, op: Op, t: Ticket)
    requires Inv(s) && Legal(s, op) && Cancelled(s, t)
    ensures Cancelled(Step(s, op), t)
  {
    StepKeepsIssued(s, op, t);
  }

  lemma {:induction false} CancelledNeverGranted(s: State, ops: seq<Op>, t: Ticket)
    requires Inv(s) && LegalRun(s, ops) && Cancelled(s, t)
    ensures Took(t) !in Log(s, ops)
    decreases ops
  {
    if ops != [] {
      StepKeepsInv(s, ops[0]);
      StepKeepsCancelled(s, ops[0], t);
      CancelledNeverGranted(Step(s, ops[0]), ops[1..], t);
      assert Took(t) !in Emits(s, ops[0]);
    }
  }

  /** An operator or shutdown command cancels, for ever, every routine command still outstanding. */
  lemma ReservationCancelsRoutines(s: State, cls: CommandClass, d: bool, ops: seq<Op>, t: Ticket)
    requires Inv(s) && !cls.Routine? && Reserve(s, cls, d).1.Some?
    requires t.token in s.tickets && s.tickets[t.token] == t && t.commandClass.Routine?
    requires LegalRun(Reserve(s, cls, d).0, ops)
    ensures Took(t) !in Log(Reserve(s, cls, d).0, ops)
  {
    var s' := Reserve(s, cls, d).0;
    ReserveKeepsInv(s, cls, d);
    assert t.token in s'.tickets && s'.tickets[t.token] == t;
    var (s1, n) := NewTicket(s, cls);
    assert s1.tickets[t.token] == t && t.generation in RoutineGenerations(s1);
    CancelledNeverGranted(s', ops, t);
  }

  /** While draining, routine commands are not granted any more, whatever else happens. */
  ghost predicate RoutinesStopped(s: State) {
    s.draining && forall k :: k in s.tickets && s.tickets[k].commandClass.Routine? ==> s.tickets[k].generation in s.superseded
  }

  lemma StepKeepsRoutinesStopped(s: State, op: Op)
    requires Inv(s) && Legal(s, op) && RoutinesStopped(s) && !op.OpClearDraining?
    ensures RoutinesStopped(Step(s, op))
  {
  }

  lemma {:induction false} DrainingStopsRoutines(s: State, ops: seq<Op>, e: Event)
    requires Inv(s) && RoutinesStopped(s) && LegalRun(s, ops) && OpClearDraining !in ops
    requires e in Log(s, ops) && e.Took?
    ensures !e.ticket.commandClass.Routine?
    decreases ops
  {
    if e !in Emits(s, ops[0]) {
      StepKeepsInv(s, ops[0]);
      StepKeepsRoutinesStopped(s, ops[0]);
      DrainingStopsRoutines(Step(s, ops[0]), ops[1..], e);
    }
  }

  lemma MarkDrainingStopsRoutines(s: State, ops: seq<Op>, e: Event)
    requires Inv(s) && LegalRun(MarkDraining(s), ops) && OpClearDraining !in ops
    requires e in Log(MarkDraining(s), ops) && e.Took?
    ensures !e.ticket.commandClass.Routine?
  {
    StepKeepsInv(s, OpMarkDraining);
    forall k | k in s.tickets && s.tickets[k].commandClass.Routine?
      ensures s.tickets[k].generation in RoutineGenerations(s)
    {
    }
    DrainingStopsRoutines(MarkDraining(s), ops, e);
  }

  // --- progress ------------------------------------------------------------------------------------

  lemma {:induction false} LeastOf(gs: set<nat>) returns (g: nat)
    requires gs != {}
    ensures g in gs && forall h :: h in gs ==> g <= h
    decreases |gs|
  {
    var first :| first in gs;
    g := first;
    if gs != {first} {
      var least := LeastOf(gs - {first});
      g := if least < first then least else first;
      assert forall h :: h in gs ==> h == first || h in gs - {first};
    }
  }

  /**
   * With the lane free and an eligible ticket outstanding, exactly one ticket can be granted, and no
   * thread waiting for that ticket is asleep.
   */
  lemma ExactlyOneCanEnter(s: State) returns (t: Ticket)
    requires Inv(s) && s.active.None? && Eligible(s) != {}
    ensures Issued(s, t) && EnterOutcome(s, t).Granted?
    ensures forall u :: Issued(s, u) && EnterOutcome(s, u).Granted? ==> u == t
    ensures forall th :: th in s.sleepers ==> s.sleepers[th] != t
  {
    var g := LeastOf(Eligible(s));
    var k :| k in s.tickets && s.tickets[k].generation == g && g !in s.superseded;
    t := s.tickets[k];
  }

  /** While a recovery for a stale cycle is outstanding, asking again yields that same ticket. */
  lemma {:induction false} RecoveryIsUnique(s: State, stale: Ticket, r: Ticket, ops: seq<Op>, d: bool)
    requires Inv(s) && LegalRun(s, ops)
    requires stale.generation in s.recoveries && s.recoveries[stale.generation] == r
    requires OpRelease(r) !in ops
    ensures BeginRecovery(Run(s, ops), stale, d) == (Run(s, ops), Some(r))
    decreases ops
  {
    if ops != [] {
      var s' := Step(s, ops[0]);
      StepKeepsInv(s, ops[0]);
      assert stale.generation in s'.recoveries && s'.recoveries[stale.generation] == r by {
        RecoveryStays(s, ops[0], stale.generation);
      }
      RecoveryIsUnique(s', stale, r, ops[1..], d);
    }
  }

  lemma RecoveryStays(s: State, op: Op, g: nat)
    requires Inv(s) && Legal(s, op) && g in s.recoveries
    requires op != OpRelease(s.recoveries[g])
    ensures g in Step(s, op).recoveries && Step(s, op).recoveries[g] == s.recoveries[g]
  {
  }

  // --- what is issued, and when ----------------------------------------------------------------------

  /** `t` is new, outstanding and not cancelled; every other ticket is as it was. */
  ghost predicate FreshTicket(s: State, s': State, t: Ticket, cls: CommandClass) {
    && t.token !in s.tickets && t.commandClass == cls && t.generation == s.generation + 1 == s'.generation
    && s'.tickets == s.tickets[t.token := t] && t.generation !in s'.superseded
    && s'.active == s.active && s'.draining == s.draining
  }

  /** A reservation is granted exactly when nothing is draining or it is the shutdown's own. */
  lemma ReservationIssuedIff(s: State, cls: CommandClass, d: bool)
    requires Inv(s)
    ensures var (s', r) := Reserve(s, cls, d);
            && (r.Some? <==> cls.Shutdown? || !(s.draining || d))
            && (if r.Some? then FreshTicket(s, s', r.value, cls) else s' == s)
  {
  }

  /** A routine command is admitted exactly into an empty fence that is not draining, and wakes nobody. */
  lemma AdmissionIssuedIff(s: State, d: bool)
    requires Inv(s)
    ensures var (s', r) := AdmitRoutine(s, d);
            && (r.Some? <==> !s.draining && !d && s.tickets == map[])
            && (if r.Some? then FreshTicket(s, s', r.value, Routine) && s'.sleepers == s.sleepers else s' == s)
  {
  }

  /** A recovery is queued exactly when none is outstanding, nothing is draining and no newer command but routines is. */
  lemma RecoveryIssuedIff(s: State, stale: Ticket, d: bool)
    requires Inv(s) && Issued(s, stale) && stale.generation !in s.recoveries
    ensures var (s', r) := BeginRecovery(s, stale, d);
            && (r.Some? <==> !s.draining && !d
                             && forall k :: k in s.tickets && k > stale.generation ==> s.tickets[k].commandClass.Routine?)
            && (r.Some? ==> FreshTicket(s, s', r.value, Recovery) && s'.recoveries == s.recoveries[stale.generation := r.value])
            && (r.None? ==> s'.tickets == s.tickets && s'.recoveries == s.recoveries && s'.active == s.active)
  {
    var s' := BeginRecovery(s, stale, d).0;
    assert stale.generation <= s.generation;
  }

  /** A cycle that was given up for a recovery is cancelled, or gone. */
  ghost predicate StaleStopped(s: State) {
    forall g :: g in s.recoveries ==> g in s.superseded || g !in s.tickets
  }

  lemma StepKeepsStaleStopped(s: State, op: Op)
    requires Inv(s) && Legal(s, op) && StaleStopped(s)
    ensures StaleStopped(Step(s, op))
  {
  }

  lemma {:induction false} RunKeepsStaleStopped(s: State, ops: seq<Op>)
    requires Inv(s) && LegalRun(s, ops) && StaleStopped(s)
    ensures StaleStopped(Run(s, ops))
    decreases ops
  {
    if ops != [] {
      StepKeepsInv(s, ops[0]);
      StepKeepsStaleStopped(s, ops[0]);
      RunKeepsStaleStopped(Step(s, ops[0]), ops[1..]);
    }
  }

  /**
   * Once a recovery has been asked for without being refused for draining, the stale cycle is never
   * granted again, whether a recovery was queued, was already queued, or a newer command stands in for it.
   */
  lemma StaleNeverGranted(before: seq<Op>, stale: Ticket, d: bool, ops: seq<Op>)
    requires LegalRun(INITIAL, before) && Issued(Run(INITIAL, before), stale)
    requires var s := Run(INITIAL, before);
             (stale.generation in s.recoveries || !(s.draining || d)) && LegalRun(BeginRecovery(s, stale, d).0, ops)
    ensures Took(stale) !in Log(BeginRecovery(Run(INITIAL, before), stale, d).0, ops)
  {
    var s := Run(INITIAL, before);
    RunKeepsInv(INITIAL, before);
    RunKeepsStaleStopped(INITIAL, before);
    RecoverKeepsInv(s, stale, d);
    StepKeepsIssued(s, OpRecover(stale, d), stale);
    CancelledNeverGranted(BeginRecovery(s, stale, d).0, ops, stale);
  }

  /** The operations that may take an outstanding ticket out of the running. */
  predicate Cancels(op: Op, t: Ticket) {
    || op == OpRelease(t)
    || (op.OpRecover? && op.stale == t)
    || (t.commandClass.Routine? && (op.OpMarkDraining? || (op.OpReserve? && !op.cls.Routine?)))
  }

  ghost predicate InTheRunning(s: State, t: Ticket) {
    t.token in s.tickets && s.tickets[t.token] == t && t.generation !in s.superseded
  }

  lemma StepKeepsRunning(s: State, op: Op, t: Ticket)
    requires Inv(s) && Legal(s, op) && InTheRunning(s, t) && !Cancels(op, t)
    ensures InTheRunning(Step(s, op), t)
  {
    StepKeepsIssued(s, op, t);
  }

  /** Nothing else cancels a ticket: it stays in the running until released, recovered from, or outranked. */
  lemma {:induction false} StaysInTheRunning(s: State, ops: seq<Op>, t: Ticket)
    requires Inv(s) && LegalRun(s, ops) && InTheRunning(s, t) && forall op :: op in ops ==> !Cancels(op, t)
    ensures InTheRunning(Run(s, ops), t)
    decreases ops
  {
    if ops != [] {
      assert ops[0] in ops && forall op :: op in ops[1..] ==> op in ops;
      StepKeepsInv(s, ops[0]);
      StepKeepsRunning(s, ops[0], t);
      StaysInTheRunning(Step(s, ops[0]), ops[1..], t);
    }
  }

  /**
   * A shutdown reservation gets a ticket from every reachable state, draining or not, and after any
   * continuation that does not give the ticket up, it is granted as soon as the lane is free and no older
   * ticket is in the running.
   */
  lemma ShutdownIsGranted(before: seq<Op>, d: bool, ops: seq<Op>) returns (t: Ticket)
    requires LegalRun(INITIAL, before)
    requires LegalRun(Reserve(Run(INITIAL, before), Shutdown, d).0, ops)
    ensures var (s', r) := Reserve(Run(INITIAL, before), Shutdown, d);
            && r == Some(t) && FreshTicket(Run(INITIAL, before), s', t, Shutdown)
            && var after := Run(s', ops);
               (forall op :: op in ops ==> !Cancels(op, t)) && after.active.None?
               && (forall u :: InTheRunning(after, u) ==> u.generation >= t.generation)
               ==> EnterOutcome(after, t).Granted?
  {
    var s := Run(INITIAL, before);
    RunKeepsInv(INITIAL, before);
    ReservationIssuedIff(s, Shutdown, d);
    ReserveKeepsInv(s, Shutdown, d);
    var s' := Reserve(s, Shutdown, d).0;
    t := Reserve(s, Shutdown, d).1.value;
    RunKeepsInv(s', ops);
    var after := Run(s', ops);
    if (forall op :: op in ops ==> !Cancels(op, t)) && after.active.None?
       && forall u :: InTheRunning(after, u) ==> u.generation >= t.generation {
      StaysInTheRunning(s', ops, t);
      LeastIsGranted(after, t);
    }
  }

  /** The oldest ticket in the running is the one the free lane is granted to. */
  lemma LeastIsGranted(s: State, t: Ticket)
    requires Inv(s) && s.active.None? && InTheRunning(s, t)
    requires forall u :: InTheRunning(s, u) ==> u.generation >= t.generation
    ensures EnterOutcome(s, t).Granted?
  {
    forall g | g in Eligible(s) ensures t.generation <= g {
      var k :| k in s.tickets && s.tickets[k].generation !in s.superseded && g == s.tickets[k].generation;
      assert Issued(s, s.tickets[k]) && InTheRunning(s, s.tickets[k]);
    }
  }

  /** Whoever asks with a cancelled ticket is turned away at once, unless it owns the lane; nobody else is. */
  lemma RefusedIff(s: State, t: Ticket)
    requires Inv(s) && Issued(s, t)
    ensures EnterOutcome(s, t).Refused? <==> Cancelled(s, t) && s.active != Some(t)
  {
  }

  /** A look at the lane leaves its thread asleep exactly when the answer is to wait, a wake-up leaves it awake, and others stay as they are. */
  lemma SleepsIff(s: State, thread: nat, t: Ticket, other: nat)
    ensures var s' := Step(s, OpEnter(thread, t));
            && (thread in s'.sleepers <==> EnterOutcome(s, t).Waiting?)
            && (thread in s'.sleepers ==> s'.sleepers[thread] == t)
            && (other != thread ==> (other in s'.sleepers <==> other in s.sleepers))
    ensures var s' := Step(s, OpWake(thread));
            thread !in s'.sleepers && (other != thread ==> (other in s'.sleepers <==> other in s.sleepers))
  {
  }

  /** Only marking starts draining and only clearing ends it. */
  lemma DrainingFollows(s: State, op: Op)
    ensures Step(s, op).draining <==> op.OpMarkDraining? || (s.draining && !op.OpClearDraining?)
  {
  }

  /** Releasing forgets the ticket, frees the lane if it held it, and touches no other ticket. */
  lemma ReleaseForgets(s: State, t: Ticket, u: Ticket)
    requires Inv(s) && Issued(s, t) && u != t
    ensures t.token !in Release(s, t).tickets && t.generation !in Release(s, t).superseded && Release(s, t).active != Some(t)
    ensures InTheRunning(Release(s, t), u) <==> InTheRunning(s, u)
    ensures Release(s, t).active == Some(u) <==> s.active == Some(u)
  {
  }

  ghost predicate OnlyShutdownsSince(s: State, g: nat) {
    forall k :: k in s.tickets && k > g ==> s.tickets[k].commandClass.Shutdown?
  }

  lemma StepIssuesShutdowns(s: State, op: Op, g: nat)
    requires Inv(s) && Legal(s, op) && s.draining && OnlyShutdownsSince(s, g)
    ensures OnlyShutdownsSince(Step(s, op), g)
  {
  }

  /** From the moment draining starts until it is cleared, no ticket is issued but to a shutdown. */
  lemma {:induction false} DrainingIssuesShutdownsOnly(s: State, ops: seq<Op>, g: nat)
    requires Inv(s) && LegalRun(s, ops) && s.draining && OpClearDraining !in ops && OnlyShutdownsSince(s, g)
    ensures OnlyShutdownsSince(Run(s, ops), g)
    decreases ops
  {
    if ops != [] {
      StepKeepsInv(s, ops[0]);
      StepIssuesShutdowns(s, ops[0], g);
      DrainingFollows(s, ops[0]);
      DrainingIssuesShutdownsOnly(Step(s, ops[0]), ops[1..], g);
    }
  }

  /** In particular, nothing issued after `mark_draining` is anything but a shutdown. */
  lemma NothingElseWhileDraining(before: seq<Op>, ops: seq<Op>, k: nat)
    requires LegalRun(INITIAL, before) && OpClearDraining !in ops
    requires var s := Run(INITIAL, before); LegalRun(MarkDraining(s), ops) && k in Run(MarkDraining(s), ops).tickets
    ensures var s := Run(INITIAL, before);
            k > s.generation ==> Run(MarkDraining(s), ops).tickets[k].commandClass.Shutdown?
  {
    var s := Run(INITIAL, before);
    RunKeepsInv(INITIAL, before);
    StepKeepsInv(s, OpMarkDraining);
    assert OnlyShutdownsSince(MarkDraining(s), s.generation) by {
      assert forall k :: k in s.tickets ==> Issued(s, s.tickets[k]);
    }
    DrainingIssuesShutdownsOnly(MarkDraining(s), ops, s.generation);
  }
}
