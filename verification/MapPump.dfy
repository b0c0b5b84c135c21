/**
 The DMA map pump of hcd_dma.c: records wait for the adapter's one channel, the HAL runs the
 execution routine inside the call, later, or refuses, and two DPCs restart the pump.

 An agent is one activity: a caller, a request waiting in the HAL, a DPC queued or running. Every
 section under MapLock, every interlocked change of MapDpcsInFlight, every DPC insertion and every
 call is one step of one agent; a run is any interleaving.
 */
module MapPump {
  import opened Common

  type Agent = nat

  /** Where an agent stands. `dpc`: the agent is a DPC, so one count of MapDpcsInFlight is its own and
      goes down when it ends. */
  datatype Pc =
    | Queueing                    // HcdDmaMapQueue, before its lock
    | Starting(dpc: bool)         // hcdMapStart, before its lock
    | Calling(dpc: bool, rec: nat)    // MapBusy set, AllocateAdapterChannel called for the record
    | Refused(dpc: bool, rec: nat)    // refused; MapBusy about to be cleared
    | Reporting(dpc: bool, rec: nat)  // before HcdIoMapped of the refused record
    | Kicking(dpc: bool)          // HcdDmaMapKick, before its increment
    | Inserting(dpc: bool)        // ... before its KeInsertQueueDpc
    | Retracting(dpc: bool)       // ... before its decrement
    | HalWaiting(rec: nat)        // the channel request, pending in the HAL
    | Executing(dpc: bool, rec: nat)  // hcdMapExecute up to its HcdIoMapped, in the agent's call or on its own
    | Mapped(dpc: bool)           // ... before its increment
    | DoneInserting(dpc: bool)    // ... before its KeInsertQueueDpc
    | Returning(dpc: bool)        // ... MapDoneDpc queued, the routine not yet returned
    | MapQueued                   // MapDpc, queued
    | DoneQueued                  // MapDoneDpc, queued
    | DoneRunning                 // MapDoneDpc, before its lock
    | Ending                      // a DPC's last decrement
    | Gone

  /** The records are numbered in the order they are started. `reported`: how often HcdIoMapped was called
      for each, mapped or refused. */
  datatype State = State(
    waiting: nat,
    started: nat,
    reported: multiset<nat>,
    busy: bool,
    inFlight: int,
    pcs: map<Agent, Pc>)

  /** What the HAL does with a channel request. */
  datatype Hal = Refuses | RunsInside | Defers

  /** `t` steps; `n` is the agent it creates, if it creates one. */
  datatype Action = Begin(t: Agent) | Go(t: Agent, hal: Hal, n: Agent)

  predicate Initial(s: State) {
    s == State(0, 0, multiset{}, false, 0, map[])
  }

  function Then(dpc: bool): Pc {
    if dpc then Ending else Gone
  }

  predicate SomeIn(pcs: map<Agent, Pc>, pc: Pc) {
    exists t :: t in pcs && pcs[t] == pc
  }

  // ----- one step -----------------------------------------------------------------------------

  /** The kernel's promise: a DPC queued at DISPATCH_LEVEL on its processor does not run before the
      routine that queued it has left. */
  predicate RoutineLeft(s: State) {
    forall t :: t in s.pcs ==> !s.pcs[t].Returning?
  }

  predicate Enabled(s: State, a: Action) {
    if a.Begin? then a.t !in s.pcs
    else a.t in s.pcs && a.t != a.n && a.n !in s.pcs && !s.pcs[a.t].Gone? && (s.pcs[a.t].DoneQueued? ==> RoutineLeft(s))
  }

  function Move(s: State, t: Agent, pc: Pc): State {
    s.(pcs := s.pcs[t := pc])
  }

  function Spawn(s: State, t: Agent, pc: Pc, n: Agent, npc: Pc): State {
    s.(pcs := s.pcs[t := pc][n := npc])
  }

  function StepQueueing(s: State, t: Agent): State {
    Move(s.(waiting := s.waiting + 1), t, Starting(false))
  }

  function StepStarting(s: State, t: Agent, dpc: bool): State {
    if s.busy || s.waiting == 0 then Move(s, t, Then(dpc))
    else Move(s.(waiting := s.waiting - 1, started := s.started + 1, busy := true), t, Calling(dpc, s.started))
  }

  function StepCalling(s: State, t: Agent, dpc: bool, rec: nat, hal: Hal, n: Agent): State {
    match hal
    case Refuses => Move(s, t, Refused(dpc, rec))
    case RunsInside => Move(s, t, Executing(dpc, rec))
    case Defers => Spawn(s, t, Then(dpc), n, HalWaiting(rec))
  }

  /** HcdIoMapped. */
  function Report(s: State, rec: nat): State {
    s.(reported := s.reported + multiset{rec})
  }

  /** KeInsertQueueDpc answers whether the DPC was not queued already. */
  function StepInserting(s: State, t: Agent, dpc: bool, n: Agent): State {
    if SomeIn(s.pcs, MapQueued) then Move(s, t, Retracting(dpc)) else Spawn(s, t, Then(dpc), n, MapQueued)
  }

  function StepDoneInserting(s: State, t: Agent, dpc: bool, n: Agent): State {
    if SomeIn(s.pcs, DoneQueued) then Move(s.(inFlight := s.inFlight - 1), t, Then(dpc))
    else Spawn(s, t, Returning(dpc), n, DoneQueued)
  }

  function Step(s: State, a: Action): State
    requires Enabled(s, a)
  {
    if a.Begin? then Move(s, a.t, Queueing) else
    match s.pcs[a.t]
    case Queueing => StepQueueing(s, a.t)
    case Starting(dpc) => StepStarting(s, a.t, dpc)
    case Calling(dpc, rec) => StepCalling(s, a.t, dpc, rec, a.hal, a.n)
    case Refused(dpc, rec) => Move(s.(busy := false), a.t, Reporting(dpc, rec))
    case Reporting(dpc, rec) => Move(Report(s, rec), a.t, Kicking(dpc))
    case Kicking(dpc) => Move(s.(inFlight := s.inFlight + 1), a.t, Inserting(dpc))
    case Inserting(dpc) => StepInserting(s, a.t, dpc, a.n)
    case Retracting(dpc) => Move(s.(inFlight := s.inFlight - 1), a.t, Then(dpc))
    case HalWaiting(rec) => Move(s, a.t, Executing(false, rec))
    case Executing(dpc, rec) => Move(Report(s, rec), a.t, Mapped(dpc))
    case Mapped(dpc) => Move(s.(inFlight := s.inFlight + 1), a.t, DoneInserting(dpc))
    case DoneInserting(dpc) => StepDoneInserting(s, a.t, dpc, a.n)
    case Returning(dpc) => Move(s, a.t, Then(dpc))
    case MapQueued => Move(s, a.t, Starting(true))
    case DoneQueued => Move(s, a.t, DoneRunning)
    case DoneRunning => Move(s.(busy := false), a.t, Starting(true))
    case Ending => Move(s.(inFlight := s.inFlight - 1), a.t, Gone)
    case Gone => s
  }

  // ----- the invariant --------------------------------------------------------------------------

  datatype Role = Holder | Leaving | DoneWaiting | MapWaiting | DpcLive | BeingQueued | Due | Carries(rec: nat)

  predicate Plays(pc: Pc, role: Role) {
    match role
    case Holder =>                               // MapBusy is set on its account, its MapDoneDpc not queued
      || pc.Calling? || pc.Refused? || pc.HalWaiting? || pc.Executing? || pc.Mapped? || pc.DoneInserting?
      || pc.DoneRunning?
    case Leaving => pc.Returning?
    case DoneWaiting => pc.DoneQueued?
    case MapWaiting => pc.MapQueued?
    case DpcLive =>                              // a pump DPC queued or running
      || pc.MapQueued? || pc.DoneQueued? || pc.DoneRunning? || pc.Ending?
      || (!pc.Queueing? && !pc.HalWaiting? && !pc.Gone? && pc.dpc)
    case BeingQueued => pc.Inserting? || pc.Retracting? || pc.DoneInserting?
    case Due => pc.Starting? || pc.Reporting? || pc.Kicking? || pc.Inserting? || pc.MapQueued?
    case Carries(rec) =>                         // the record is in its hands, not yet reported
      (pc.Calling? || pc.Refused? || pc.Reporting? || pc.HalWaiting? || pc.Executing?) && pc.rec == rec
  }

  function Count(s: State, role: Role): nat {
    |Players(s.pcs, Plays, role)|
  }

  /** Every record started is in one agent's hands or was reported, once; none other is either. */
  ghost predicate Accounted(s: State) {
    forall rec: nat :: s.reported[rec] + Count(s, Carries(rec)) == One(rec < s.started)
  }

  /** MapBusy stands for exactly one agent; a routine still leaving has its own MapDoneDpc queued behind
      it; MapDpc is queued at most once; MapDpcsInFlight counts exactly the DPCs queued, running or
      being queued; and a record that waits at an idle pump has someone due to start it. */
  ghost predicate Exact(s: State) {
    && Count(s, Holder) + Count(s, DoneWaiting) == One(s.busy)
    && Count(s, Leaving) <= Count(s, DoneWaiting)
    && Count(s, MapWaiting) <= 1
    && s.inFlight == Count(s, DpcLive) + Count(s, BeingQueued)
    && (s.waiting > 0 && !s.busy ==> Count(s, Due) > 0)
  }

  ghost predicate Inv(s: State) {
    Exact(s) && Accounted(s)
  }

  // ----- proofs -----------------------------------------------------------------------------------

  function Had(s: State, t: Agent, role: Role): nat {
    One(t in s.pcs && Plays(s.pcs[t], role))
  }

  /** How a role's count moves when one agent moves, and creates one perhaps. */
  function Gain(s: State, t: Agent, pc: Pc, made: Option<Pc>, role: Role): int {
    One(Plays(pc, role)) - Had(s, t, role) + One(made.Some? && Plays(made.value, role))
  }

  function PcsAfter(s: State, t: Agent, pc: Pc, n: Agent, made: Option<Pc>): map<Agent, Pc> {
    if made.Some? then s.pcs[t := pc][n := made.value] else s.pcs[t := pc]
  }

  lemma Counted(s: State, s': State, t: Agent, pc: Pc, n: Agent, made: Option<Pc>, role: Role)
    requires s'.pcs == PcsAfter(s, t, pc, n, made) && (made.Some? ==> n !in s.pcs && n != t)
    ensures Count(s', role) == Count(s, role) + Gain(s, t, pc, made, role)
  {
    Moved(s.pcs, Plays, t, pc, role);
    if made.Some? {
      Moved(s.pcs[t := pc], Plays, n, made.value, role);
    }
  }

  /** A step whose effect on the pump's fields is what its effect on the roles calls for. */
  predicate Balanced(s: State, s': State, t: Agent, pc: Pc, made: Option<Pc>) {
    && One(s'.busy) - One(s.busy) == Gain(s, t, pc, made, Holder) + Gain(s, t, pc, made, DoneWaiting)
    && s'.inFlight - s.inFlight == Gain(s, t, pc, made, DpcLive) + Gain(s, t, pc, made, BeingQueued)
  }

  lemma BalancedKeeps(s: State, s': State, t: Agent, pc: Pc, n: Agent, made: Option<Pc>)
    requires Exact(s) && s'.pcs == PcsAfter(s, t, pc, n, made) && (made.Some? ==> n !in s.pcs && n != t)
    requires Balanced(s, s', t, pc, made)
    requires Count(s, Leaving) + Gain(s, t, pc, made, Leaving) <=
             Count(s, DoneWaiting) + Gain(s, t, pc, made, DoneWaiting)
    requires Count(s, MapWaiting) + Gain(s, t, pc, made, MapWaiting) <= 1
    requires s'.waiting > 0 && !s'.busy ==> Count(s', Due) > 0
    ensures Exact(s')
  {
    Counted(s, s', t, pc, n, made, Holder);
    Counted(s, s', t, pc, n, made, Leaving);
    Counted(s, s', t, pc, n, made, DoneWaiting);
    Counted(s, s', t, pc, n, made, MapWaiting);
    Counted(s, s', t, pc, n, made, DpcLive);
    Counted(s, s', t, pc, n, made, BeingQueued);
  }

  /** The steps that create no agent and look at no other's place. */
  predicate Alone(pc: Pc, hal: Hal) {
    !pc.Inserting? && !pc.DoneInserting? && !pc.DoneQueued? && !(pc.Calling? && hal.Defers?) && !pc.Gone?
  }

  /** What every one of those is. */
  predicate AloneBalanced(s: State, s': State, t: Agent, pc: Pc) {
    && s'.pcs == s.pcs[t := pc]
    && Balanced(s, s', t, pc, None)
    && Gain(s, t, pc, None, Leaving) <= Gain(s, t, pc, None, DoneWaiting)
    && Gain(s, t, pc, None, MapWaiting) <= 0
    && (s'.waiting > 0 && !s'.busy ==> Plays(pc, Due) || (s.waiting > 0 && !s.busy && Gain(s, t, pc, None, Due) >= 0))
  }

  predicate Starts(pc: Pc) {
    pc.Queueing? || pc.Starting? || pc.Calling? || pc.Refused?
  }

  predicate Kicks(pc: Pc) {
    pc.Reporting? || pc.Kicking? || pc.Retracting? || pc.HalWaiting? || pc.Executing? || pc.Mapped?
  }

  lemma StartIsBalanced(s: State, a: Action)
    requires Enabled(s, a) && a.Go? && Starts(s.pcs[a.t]) && Alone(s.pcs[a.t], a.hal)
    requires Had(s, a.t, Holder) == 1 ==> s.busy
    ensures AloneBalanced(s, Step(s, a), a.t, Step(s, a).pcs[a.t])
  {
    if s.pcs[a.t].Calling? || s.pcs[a.t].Refused? {
      CallIsBalanced(s, a);
    }
  }

  lemma CallIsBalanced(s: State, a: Action)
    requires Enabled(s, a) && a.Go? && (s.pcs[a.t].Calling? || s.pcs[a.t].Refused?) && Alone(s.pcs[a.t], a.hal)
    requires Had(s, a.t, Holder) == 1 ==> s.busy
    ensures AloneBalanced(s, Step(s, a), a.t, Step(s, a).pcs[a.t])
  {
  }

  lemma KickIsBalanced(s: State, a: Action)
    requires Enabled(s, a) && a.Go? && Kicks(s.pcs[a.t])
    ensures AloneBalanced(s, Step(s, a), a.t, Step(s, a).pcs[a.t])
  {
    if s.pcs[a.t].HalWaiting? || s.pcs[a.t].Executing? || s.pcs[a.t].Mapped? {
      RoutineIsBalanced(s, a);
    } else if s.pcs[a.t].Reporting? {
      ReportIsBalanced(s, a);
    }
  }

  lemma ReportIsBalanced(s: State, a: Action)
    requires Enabled(s, a) && a.Go? && s.pcs[a.t].Reporting?
    ensures AloneBalanced(s, Step(s, a), a.t, Step(s, a).pcs[a.t])
  {
  }

  lemma RoutineIsBalanced(s: State, a: Action)
    requires Enabled(s, a) && a.Go? && (s.pcs[a.t].HalWaiting? || s.pcs[a.t].Executing? || s.pcs[a.t].Mapped?)
    ensures AloneBalanced(s, Step(s, a), a.t, Step(s, a).pcs[a.t])
  {
  }

  lemma RestIsBalanced(s: State, a: Action)
    requires Enabled(s, a)
    requires a.Go? ==> !Starts(s.pcs[a.t]) && !Kicks(s.pcs[a.t]) && Alone(s.pcs[a.t], a.hal)
    requires Had(s, a.t, Holder) == 1 ==> s.busy
    ensures AloneBalanced(s, Step(s, a), a.t, Step(s, a).pcs[a.t])
  {
    if a.Go? && (s.pcs[a.t].DoneRunning? || s.pcs[a.t].MapQueued?) {
      DpcIsBalanced(s, a);
    } else if a.Go? {
      EndIsBalanced(s, a);
    }
  }

  lemma DpcIsBalanced(s: State, a: Action)
    requires Enabled(s, a) && a.Go? && (s.pcs[a.t].DoneRunning? || s.pcs[a.t].MapQueued?)
    requires Had(s, a.t, Holder) == 1 ==> s.busy
    ensures AloneBalanced(s, Step(s, a), a.t, Step(s, a).pcs[a.t])
  {
  }

  lemma EndIsBalanced(s: State, a: Action)
    requires Enabled(s, a) && a.Go? && (s.pcs[a.t].Returning? || s.pcs[a.t].Ending?)
    ensures AloneBalanced(s, Step(s, a), a.t, Step(s, a).pcs[a.t])
  {
  }

  lemma KeptAlone(s: State, a: Action)
    requires Exact(s) && Enabled(s, a) && (a.Go? ==> Alone(s.pcs[a.t], a.hal))
    ensures Exact(Step(s, a))
  {
    var s' := Step(s, a);
    var pc := s'.pcs[a.t];
    if Had(s, a.t, Holder) == 1 {
      Playing(s.pcs, Plays, a.t, Holder);
    }
    if a.Go? && Starts(s.pcs[a.t]) {
      StartIsBalanced(s, a);
    } else if a.Go? && Kicks(s.pcs[a.t]) {
      KickIsBalanced(s, a);
    } else {
      RestIsBalanced(s, a);
    }
    Counted(s, s', a.t, pc, 0, None, Due);
    if Plays(pc, Due) {
      Playing(s'.pcs, Plays, a.t, Due);
    }
    BalancedKeeps(s, s', a.t, pc, 0, None);
  }

  lemma KeptDoneQueued(s: State, a: Action)
    requires Exact(s) && Enabled(s, a) && a.Go? && s.pcs[a.t].DoneQueued?
    ensures Exact(Step(s, a))
  {
    Nobody(s.pcs, Plays, Leaving);
    Playing(s.pcs, Plays, a.t, DoneWaiting);
    BalancedKeeps(s, Step(s, a), a.t, DoneRunning, a.n, None);
  }

  lemma KeptDeferring(s: State, a: Action)
    requires Exact(s) && Enabled(s, a) && a.Go? && s.pcs[a.t].Calling? && a.hal.Defers?
    ensures Exact(Step(s, a))
  {
    Playing(s.pcs, Plays, a.t, Holder);
    BalancedKeeps(s, Step(s, a), a.t, Then(s.pcs[a.t].dpc), a.n, Some(HalWaiting(s.pcs[a.t].rec)));
  }

  lemma KeptRetracting(s: State, a: Action)
    requires Exact(s) && Enabled(s, a) && a.Go? && s.pcs[a.t].Inserting? && SomeIn(s.pcs, MapQueued)
    ensures Exact(Step(s, a))
  {
    var m :| m in s.pcs && s.pcs[m] == MapQueued;
    Playing(Step(s, a).pcs, Plays, m, Due);
    InsertGains(s, a);
    BalancedKeeps(s, Step(s, a), a.t, Retracting(s.pcs[a.t].dpc), a.n, None);
  }

  lemma KeptInserting(s: State, a: Action)
    requires Exact(s) && Enabled(s, a) && a.Go? && s.pcs[a.t].Inserting? && !SomeIn(s.pcs, MapQueued)
    ensures Exact(Step(s, a))
  {
    Nobody(s.pcs, Plays, MapWaiting);
    Playing(Step(s, a).pcs, Plays, a.n, Due);
    InsertGains(s, a);
    BalancedKeeps(s, Step(s, a), a.t, Then(s.pcs[a.t].dpc), a.n, Some(MapQueued));
  }

  /** KeInsertQueueDpc, whatever it answers: what the roles gain. */
  lemma InsertGains(s: State, a: Action)
    requires Enabled(s, a) && a.Go? && s.pcs[a.t].Inserting?
    ensures var pc, made := if SomeIn(s.pcs, MapQueued) then Retracting(s.pcs[a.t].dpc) else Then(s.pcs[a.t].dpc),
                            if SomeIn(s.pcs, MapQueued) then None else Some(MapQueued);
            && Step(s, a).pcs == PcsAfter(s, a.t, pc, a.n, made)
            && Balanced(s, Step(s, a), a.t, pc, made)
            && Gain(s, a.t, pc, made, Leaving) == Gain(s, a.t, pc, made, DoneWaiting) == 0
            && Gain(s, a.t, pc, made, MapWaiting) == if made.Some? then 1 else 0
  {
  }

  /** MapDoneDpc is never queued already when the routine queues it, so its release is never lost. */
  lemma DoneDpcIsFree(s: State, t: Agent)
    requires Exact(s) && t in s.pcs && s.pcs[t].DoneInserting?
    ensures !SomeIn(s.pcs, DoneQueued) && Count(s, Leaving) == 0 && s.busy
  {
    Playing(s.pcs, Plays, t, Holder);
    if u :| u in s.pcs && s.pcs[u] == DoneQueued {
      Playing(s.pcs, Plays, u, DoneWaiting);
    }
  }

  lemma KeptDoneInserting(s: State, a: Action)
    requires Exact(s) && Enabled(s, a) && a.Go? && s.pcs[a.t].DoneInserting?
    ensures Exact(Step(s, a))
  {
    DoneDpcIsFree(s, a.t);
    BalancedKeeps(s, Step(s, a), a.t, Returning(s.pcs[a.t].dpc), a.n, Some(DoneQueued));
  }

  lemma StepKeepsExact(s: State, a: Action)
    requires Exact(s) && Enabled(s, a)
    ensures Exact(Step(s, a))
  {
    if a.Begin? || Alone(s.pcs[a.t], a.hal) {
      KeptAlone(s, a);
    } else if s.pcs[a.t].Calling? {
      KeptDeferring(s, a);
    } else if s.pcs[a.t].Inserting? {
      if SomeIn(s.pcs, MapQueued) {
        KeptRetracting(s, a);
      } else {
        KeptInserting(s, a);
      }
    } else if s.pcs[a.t].DoneInserting? {
      KeptDoneInserting(s, a);
    } else {
      KeptDoneQueued(s, a);
    }
  }

  /** A step moves a record on, from the queue to an agent, from one to another, or to its report. */
  predicate Handed(s: State, s': State, t: Agent, pc: Pc, made: Option<Pc>, rec: nat) {
    s'.reported[rec] - s.reported[rec] + Gain(s, t, pc, made, Carries(rec)) ==
    One(rec < s'.started) - One(rec < s.started)
  }

  lemma HandedAlone(s: State, a: Action, rec: nat)
    requires Enabled(s, a) && (a.Go? ==> s.pcs[a.t].Starting? || s.pcs[a.t].Calling? || s.pcs[a.t].Refused?)
    requires a.Go? ==> Alone(s.pcs[a.t], a.hal)
    ensures Handed(s, Step(s, a), a.t, Step(s, a).pcs[a.t], None, rec)
  {
  }

  lemma HandedReport(s: State, a: Action, rec: nat)
    requires Enabled(s, a) && a.Go? && Kicks(s.pcs[a.t])
    ensures Handed(s, Step(s, a), a.t, Step(s, a).pcs[a.t], None, rec)
  {
  }

  lemma HandedNothing(s: State, a: Action, rec: nat)
    requires Enabled(s, a) && a.Go? && !Kicks(s.pcs[a.t]) && Alone(s.pcs[a.t], a.hal)
    requires !s.pcs[a.t].Starting? && !s.pcs[a.t].Calling? && !s.pcs[a.t].Refused?
    ensures Handed(s, Step(s, a), a.t, Step(s, a).pcs[a.t], None, rec)
  {
  }

  function Made(s: State, a: Action): Option<Pc>
    requires Enabled(s, a)
  {
    if a.Go? && a.n in Step(s, a).pcs then Some(Step(s, a).pcs[a.n]) else None
  }

  lemma HandedOn(s: State, a: Action, rec: nat)
    requires Enabled(s, a) && a.Go? && !Alone(s.pcs[a.t], a.hal)
    ensures Handed(s, Step(s, a), a.t, Step(s, a).pcs[a.t], Made(s, a), rec)
    ensures Step(s, a).pcs == PcsAfter(s, a.t, Step(s, a).pcs[a.t], a.n, Made(s, a))
  {
  }

  lemma CarriedStep(s: State, a: Action, rec: nat)
    requires Enabled(s, a) && s.reported[rec] + Count(s, Carries(rec)) == One(rec < s.started)
    ensures Step(s, a).reported[rec] + Count(Step(s, a), Carries(rec)) == One(rec < Step(s, a).started)
  {
    var s' := Step(s, a);
    if a.Begin? || Alone(s.pcs[a.t], a.hal) {
      if a.Begin? || s.pcs[a.t].Starting? || s.pcs[a.t].Calling? || s.pcs[a.t].Refused? {
        HandedAlone(s, a, rec);
      } else if Kicks(s.pcs[a.t]) {
        HandedReport(s, a, rec);
      } else {
        HandedNothing(s, a, rec);
      }
      assert s'.pcs == s.pcs[a.t := s'.pcs[a.t]];
      Counted(s, s', a.t, s'.pcs[a.t], 0, None, Carries(rec));
    } else {
      HandedOn(s, a, rec);
      Counted(s, s', a.t, s'.pcs[a.t], a.n, Made(s, a), Carries(rec));
    }
  }

  lemma StepKeepsInv(s: State, a: Action)
    requires Inv(s) && Enabled(s, a)
    ensures Inv(Step(s, a))
  {
    StepKeepsExact(s, a);
    var s' := Step(s, a);
    forall rec: nat ensures s'.reported[rec] + Count(s', Carries(rec)) == One(rec < s'.started) {
      CarriedStep(s, a, rec);
    }
  }

  // ----- every run ---------------------------------------------------------------------------------

  predicate Schedule(s: State, run: seq<Action>)
    decreases |run|
  {
    run == [] || (Enabled(s, run[0]) && Schedule(Step(s, run[0]), run[1..]))
  }

  function After(s: State, run: seq<Action>): State
    requires Schedule(s, run)
    decreases |run|
  {
    if run == [] then s else After(Step(s, run[0]), run[1..])
  }

  lemma {:induction false} RunKeepsInv(s: State, run: seq<Action>)
    requires Inv(s) && Schedule(s, run)
    ensures Inv(After(s, run))
    decreases |run|
  {
    if run != [] {
      StepKeepsInv(s, run[0]);
      RunKeepsInv(Step(s, run[0]), run[1..]);
    }
  }

  ghost predicate Reachable(s: State) {
    exists i, run :: Initial(i) && Schedule(i, run) && After(i, run) == s
  }

  lemma NobodyYet(s: State, role: Role)
    requires s.pcs == map[]
    ensures Count(s, role) == 0
  {
    assert Players(s.pcs, Plays, role) == {};
  }

  lemma InitAccounted(s: State)
    requires Initial(s)
    ensures Accounted(s)
  {
    forall rec: nat ensures s.reported[rec] + Count(s, Carries(rec)) == 0 {
      NobodyYet(s, Carries(rec));
    }
  }

  lemma InitExact(s: State)
    requires Initial(s)
    ensures Exact(s)
  {
    NobodyYet(s, Holder);
    NobodyYet(s, DoneWaiting);
    NobodyYet(s, Leaving);
    NobodyYet(s, MapWaiting);
    NobodyYet(s, DpcLive);
    NobodyYet(s, BeingQueued);
  }

  lemma EveryRun(s: State)
    requires Reachable(s)
    ensures Inv(s)
  {
    var i, run :| Initial(i) && Schedule(i, run) && After(i, run) == s;
    InitAccounted(i);
    InitExact(i);
    RunKeepsInv(i, run);
  }

  /** An agent with a channel request outstanding: from the call until the routine has returned. */
  predicate Outstanding(pc: Pc) {
    pc.Calling? || pc.HalWaiting? || pc.Executing? || pc.Mapped? || pc.DoneInserting? || pc.Returning?
  }

  /** Never two channel requests outstanding. */
  lemma OneChannelRequest(s: State, t: Agent, u: Agent)
    requires Reachable(s) && t in s.pcs && u in s.pcs && Outstanding(s.pcs[t]) && Outstanding(s.pcs[u])
    ensures t == u
  {
    EveryRun(s);
    var rt := if s.pcs[t].Returning? then Leaving else Holder;
    var ru := if s.pcs[u].Returning? then Leaving else Holder;
    Playing(s.pcs, Plays, t, rt);
    Playing(s.pcs, Plays, u, ru);
    OnlyOne(s.pcs, Plays, t, u, rt);
  }

  /** No lost wakeup: while a record waits at a pump that is not busy, someone is due to start it - a
      caller or DPC at its own start, or one that will queue MapDpc, or MapDpc queued. */
  lemma NoLostWakeup(s: State) returns (t: Agent)
    requires Reachable(s) && s.waiting > 0 && !s.busy
    ensures t in s.pcs && Plays(s.pcs[t], Due)
  {
    EveryRun(s);
    t := Somebody(s.pcs, Plays, Due);
  }

  /** MapDpcsInFlight is exactly the pump DPCs queued or running plus those being queued, and an idle
      reading - not busy, none in flight - means no request, routine or DPC is live. */
  lemma IdleMeansNothingLive(s: State)
    requires Reachable(s)
    ensures s.inFlight == Count(s, DpcLive) + Count(s, BeingQueued)
    ensures !s.busy && s.inFlight == 0 ==> forall t :: t in s.pcs ==> !Live(s.pcs[t])
  {
    EveryRun(s);
    forall t | t in s.pcs && Live(s.pcs[t]) ensures s.busy || s.inFlight != 0 {
      LiveIsSeen(s, t);
    }
  }

  predicate Live(pc: Pc) {
    Outstanding(pc) || Plays(pc, DpcLive) || Plays(pc, BeingQueued)
  }

  lemma LiveIsSeen(s: State, t: Agent)
    requires Exact(s) && t in s.pcs && Live(s.pcs[t])
    ensures s.busy || s.inFlight != 0
  {
    if Plays(s.pcs[t], DpcLive) {
      Playing(s.pcs, Plays, t, DpcLive);
    } else if Plays(s.pcs[t], BeingQueued) {
      Playing(s.pcs, Plays, t, BeingQueued);
    } else if s.pcs[t].Returning? {
      Playing(s.pcs, Plays, t, Leaving);
    } else {
      Playing(s.pcs, Plays, t, Holder);
    }
  }

  /** No record is reported twice, and none before it was started; and once nobody is in the pump, every
      record ever queued was started and reported exactly once. */
  lemma EachReportedOnce(s: State)
    requires Reachable(s)
    ensures forall rec: nat :: s.reported[rec] <= One(rec < s.started)
    ensures (forall t :: t in s.pcs ==> s.pcs[t].Gone?) ==>
              s.waiting == 0 && forall rec: nat :: s.reported[rec] == One(rec < s.started)
  {
    EveryRun(s);
    if forall t :: t in s.pcs ==> s.pcs[t].Gone? {
      forall role ensures Count(s, role) == 0 {
        Nobody(s.pcs, Plays, role);
      }
    }
  }

  /** A record is in one agent's hands, from its start until its report. */
  lemma OneCarrier(s: State, t: Agent, u: Agent, rec: nat)
    requires Reachable(s) && t in s.pcs && u in s.pcs && Plays(s.pcs[t], Carries(rec)) && Plays(s.pcs[u], Carries(rec))
    ensures t == u && rec < s.started && s.reported[rec] == 0
  {
    EveryRun(s);
    Playing(s.pcs, Plays, t, Carries(rec));
    OnlyOne(s.pcs, Plays, t, u, Carries(rec));
  }

  // ----- the program's own fields -----------------------------------------------------------------

  /** The pump's fields, and each locked or interlocked section as the program runs it. The ghost half
      says where each agent is. */
  class Pump {
    var mapQueue: seq<nat>            // the records, oldest first
    var mapBusy: bool
    var mapDpcsInFlight: int
    ghost var taken: seq<nat>         // the records started, oldest first
    ghost var reported: multiset<nat>
    ghost var pcs: map<Agent, Pc>

    ghost function View(): State
      reads this
    {
      State(|mapQueue|, |taken|, reported, mapBusy, mapDpcsInFlight, pcs)
    }

    /** HcdDmaMapQueue's section. */
    method Queue(ghost t: Agent, ghost n: Agent, record: nat)
      requires Enabled(View(), Go(t, Refuses, n)) && pcs[t].Queueing?
      modifies this
      ensures mapQueue == old(mapQueue) + [record] && taken == old(taken)
      ensures mapBusy == old(mapBusy) && mapDpcsInFlight == old(mapDpcsInFlight)
      ensures View() == Step(old(View()), Go(t, Refuses, n))
    {
      mapQueue := mapQueue + [record];
      pcs := pcs[t := Starting(false)];
    }

    /** hcdMapStart's section: the oldest record taken and the pump marked busy, or nothing. */
    method StartLocked(ghost t: Agent, ghost n: Agent) returns (started: bool, record: nat)
      requires Enabled(View(), Go(t, Refuses, n)) && pcs[t].Starting?
      modifies this
      ensures View() == Step(old(View()), Go(t, Refuses, n))
      ensures started <==> !old(mapBusy) && old(mapQueue) != []
      ensures if started then old(mapQueue) == [record] + mapQueue else mapQueue == old(mapQueue)
      ensures taken == old(taken) + (if started then [record] else [])
      ensures mapBusy == (started || old(mapBusy)) && mapDpcsInFlight == old(mapDpcsInFlight)
      ensures taken + mapQueue == old(taken + mapQueue)
    {
      started, record := !mapBusy && mapQueue != [], 0;
      pcs := pcs[t := if started then Calling(pcs[t].dpc, |taken|) else Then(pcs[t].dpc)];
      if started {
        record, mapQueue, mapBusy := mapQueue[0], mapQueue[1..], true;
        taken := taken + [record];
      }
    }

    /** MapBusy cleared after a refusal, or by hcdMapDoneDpc. */
    method Release(ghost t: Agent, ghost n: Agent)
      requires Enabled(View(), Go(t, Refuses, n)) && (pcs[t].Refused? || pcs[t].DoneRunning?)
      modifies this`mapBusy, this`pcs
      ensures !mapBusy
      ensures View() == Step(old(View()), Go(t, Refuses, n))
    {
      mapBusy := false;
      pcs := pcs[t := if pcs[t].Refused? then Reporting(pcs[t].dpc, pcs[t].rec) else Starting(true)];
    }

    /** The interlocked increment before a DPC is queued. */
    method CountUp(ghost t: Agent, ghost n: Agent)
      requires Enabled(View(), Go(t, Refuses, n)) && (pcs[t].Kicking? || pcs[t].Mapped?)
      modifies this`mapDpcsInFlight, this`pcs
      ensures mapDpcsInFlight == old(mapDpcsInFlight) + 1
      ensures View() == Step(old(View()), Go(t, Refuses, n))
    {
      mapDpcsInFlight := mapDpcsInFlight + 1;
      pcs := pcs[t := if pcs[t].Kicking? then Inserting(pcs[t].dpc) else DoneInserting(pcs[t].dpc)];
    }

    /** The interlocked decrement, of an insertion that found MapDpc queued or at a DPC's end. */
    method CountDown(ghost t: Agent, ghost n: Agent)
      requires Enabled(View(), Go(t, Refuses, n)) && (pcs[t].Retracting? || pcs[t].Ending?)
      modifies this`mapDpcsInFlight, this`pcs
      ensures mapDpcsInFlight == old(mapDpcsInFlight) - 1
      ensures View() == Step(old(View()), Go(t, Refuses, n))
    {
      mapDpcsInFlight := mapDpcsInFlight - 1;
      pcs := pcs[t := if pcs[t].Retracting? then Then(pcs[t].dpc) else Gone];
    }
  }
}
