/**
 Ring ownership of one device (hcd_cfg.c): selects, function selects, releases, deconfigures, hub
 opens, streams opens and closes, port resets and the device's going, each against a controller that
 may answer any command with success, a refusal, no answer, or not be asked at all.

 The contexts the controller may hold are at most two whole assignments of names to DCIs: the one in
 place, and the one a command whose completion was lost may yet install. After a lost command the
 thread issues nothing more and serves nothing more until the slot is gone (hcd_enum.c's hcdHalted),
 so there is never a third.
 */
module RingOwner {
  import opened Common
  import opened OwnTable
  import opened RingCells

  const DCIS: nat := 32

  /** The Configure Endpoint commands the driver builds. */
  datatype Plan =
    | SwitchPlan                 // the old and the stale dropped, the new added
    | RollbackPlan               // the new dropped, the old added
    | DropAll                    // DC = 1
    | Recycle(dci: nat)          // Drop and Add of one open endpoint
    | RecycleBare(dci: nat)      // the same, its streams taken off it
    | AddBuilt                   // a configuration's or a hub's new endpoints
    | AddOpen                    // every open endpoint, after a Reset Device

  predicate DropAt(plan: Plan, d: nat, c: Cell) {
    match plan
    case SwitchPlan => c.detached.Some? || c.stale
    case RollbackPlan => c.built.Some?
    case DropAll => true
    case Recycle(dci) => d == dci
    case RecycleBare(dci) => d == dci
    case _ => false
  }

  function AddAt(plan: Plan, d: nat, c: Cell): (p: Option<Pipe>)
    ensures Addable(c, p)
  {
    match plan
    case SwitchPlan => c.built
    case RollbackPlan => c.detached
    case DropAll => None
    case Recycle(dci) => if d == dci then c.open else None
    case RecycleBare(dci) => if d == dci then WithoutBlock(c.open) else None
    case AddBuilt => c.built
    case AddOpen => c.open
  }

  /** DCI `d`'s cell: with no command lost its context is known, and what was acquired for it is
      numbered below `serial`. */
  ghost predicate Fine(c: Cell, d: nat, lost: bool, serial: nat) {
    && CellInv(c)
    && (!lost ==> c.maybe == c.ctx)
    && Numbered(c, d, serial)
  }

  ghost predicate Numbered(c: Cell, d: nat, serial: nat) {
    forall a :: a in c.made ==> a.dci == d && a.serial < serial
  }

  /** The command succeeded at this DCI. */
  predicate WentAs(plan: Plan, d: nat, c: Cell, r: Cell) {
    Went(c, r, DropAt(plan, d, c), AddAt(plan, d, c))
  }

  /** Only what a lost command may have installed differs. */
  predicate SameTables(c: Cell, r: Cell) {
    r.(maybe := c.maybe) == c
  }

  /** The switch's own command did not succeed, so what was stale is stale still. */
  predicate Refusal(told: seq<Event>) {
    told == [] || !told[0].Success?
  }

  /** A switch that found `b` has ended, having been told this: nothing of it is left in flight, each side's
      pipe met the fate that calls for, and what is open here is the new pipe, the old pipe as it was, or
      what was open beside the switch. */
  predicate SwitchOver(b: Cell, r: Cell, told: seq<Event>) {
    && r.detached.None? && r.built.None? && r.made == b.made
    && Met(b.detached, r, FateOf(false, told)) && Met(b.built, r, FateOf(true, told))
    && r.stale == ((b.stale && Refusal(told))
                   || HoldsOne(b.detached, FateOf(false, told)) || HoldsOne(b.built, FateOf(true, told)))
    && r.open == if FateOf(true, told).Publish? && b.built.Some? then b.built
                 else if FateOf(false, told).Publish? && b.detached.Some? then b.detached
                 else b.open
  }

  /** Every old and every new pipe a switch had is then in exactly one of four places: its ring published,
      held, pinned, or given back. */
  lemma SwitchSettlesEveryPipe(b: Cell, r: Cell, told: seq<Event>, p: Pipe)
    requires CellInv(b) && CellInv(r) && SwitchOver(b, r, told)
    requires Some(p) == b.detached || Some(p) == b.built
    ensures OwnedBy(r.open)[p.ring] + OwnedAll(r.retained)[p.ring] + OwnedAll(r.pinned)[p.ring] + r.back[p.ring] == 1
  {
    assert AllocInv(b, p.ring) && p.ring in b.made;
    RingInOnePlace(r, p.ring);
  }

  /** A row of the select table, in a run that has now been told `heard`: the select goes on with its story
      or ends with it. */
  predicate TurnOf(s: Select, step: Decision, heard: seq<Event>) {
    && Rank(step.next.phase) < Rank(s.phase)
    && step.next == s.(phase := step.next.phase)
    && (step.actions.issue.SendRollback? <==> step.next.phase == Rollback)
    && if step.next.phase != End then SoFar(step.next, heard)
       else && WholeStory(s.mayRollback, s.single, s.streams, heard)
            && step.answer == Answered(heard) && LastFates(step.actions, heard)
  }

  lemma TableTurns(s: Select, e: Event, told: seq<Event>)
    requires SoFar(s, told) && Heard(s, e)
    ensures TurnOf(s, SelectStep(s, e), told + [e])
  {
    SelectEnds(s, e);
    SelectFates(s, e);
    SelectTells(s, e, told);
  }

  /** An old pipe of a switch of `which` had streams open. */
  predicate HadStreams(cells: seq<Cell>, which: set<nat>) {
    exists d :: 0 <= d < |cells| && d in which && cells[d].open.Some? && cells[d].open.value.block.Some?
  }

  /** The new setting names an endpoint twice, or one left open beside the switch of `which`. */
  predicate Clash(cells: seq<Cell>, which: set<nat>, eps: seq<Endpoint>) {
    || (exists m, n :: 0 <= m < n < |eps| && eps[m].dci == eps[n].dci)
    || (exists e :: e in eps && e.dci < |cells| && e.dci !in which && cells[e.dci].open.Some?)
  }

  lemma ClashTaken(cells: seq<Cell>, now: seq<Cell>, which: set<nat>, eps: seq<Endpoint>)
    requires |cells| == |now| && forall d :: 0 <= d < |cells| ==>
               cells[d].detached.None? && now[d] == Taken(cells[d], d in which)
    ensures Clash(now, {}, eps) ==> Clash(cells, which, eps)
  {
    if e :| e in eps && e.dci < |now| && now[e.dci].open.Some? {
      assert e.dci !in which && cells[e.dci].open.Some?;
    }
  }

  /** A DCI the last switches left stale has been opened since. */
  predicate StaleOpen(cells: seq<Cell>) {
    exists d :: 0 <= d < |cells| && cells[d].open.Some? && cells[d].stale
  }

  predicate StaleBeside(cells: seq<Cell>, which: set<nat>) {
    exists d :: 0 <= d < |cells| && d !in which && cells[d].open.Some? && cells[d].stale
  }

  function IsoSum(cells: seq<Cell>): nat {
    if cells == [] then 0 else Iso(cells[0]) + IsoSum(cells[1..])
  }

  lemma {:induction false} IsoSumUpdate(cells: seq<Cell>, d: nat, c: Cell)
    requires d < |cells|
    ensures IsoSum(cells[d := c]) == IsoSum(cells) - Iso(cells[d]) + Iso(c)
    ensures Iso(cells[d]) <= IsoSum(cells)
  {
    if d == 0 {
      assert cells[d := c][1..] == cells[1..];
    } else {
      assert cells[d := c][1..] == cells[1..][d - 1 := c];
      IsoSumUpdate(cells[1..], d - 1, c);
    }
  }

  method CompletedAt(plan: Plan, d: nat, c: Cell, ghost serial: nat) returns (r: Cell)
    requires Fine(c, d, false, serial)
    ensures Fine(r, d, false, serial) && WentAs(plan, d, c, r) && Iso(r) == Iso(c)
  {
    r := Succeed(c, DropAt(plan, d, c), AddAt(plan, d, c));
  }

  method CompletedEverywhere(plan: Plan, cells: seq<Cell>, ghost serial: nat) returns (now: seq<Cell>)
    requires forall d :: 0 <= d < |cells| ==> Fine(cells[d], d, false, serial)
    ensures |now| == |cells| && IsoSum(now) == IsoSum(cells)
    ensures forall d :: 0 <= d < |cells| ==> Fine(now[d], d, false, serial) && WentAs(plan, d, cells[d], now[d])
  {
    now := [];
    while |now| < |cells|
      invariant |now| <= |cells|
      invariant forall i :: 0 <= i < |now| ==> Fine(now[i], i, false, serial) && WentAs(plan, i, cells[i], now[i])
      invariant forall i :: 0 <= i < |now| ==> Iso(now[i]) == Iso(cells[i])
    {
      var c := CompletedAt(plan, |now|, cells[|now|], serial);
      now := now + [c];
    }
    IsoSumSame(cells, now);
  }

  method LostEverywhere(plan: Plan, cells: seq<Cell>, ghost serial: nat) returns (now: seq<Cell>)
    requires forall d :: 0 <= d < |cells| ==> Fine(cells[d], d, false, serial)
    ensures |now| == |cells| && IsoSum(now) == IsoSum(cells)
    ensures forall d :: 0 <= d < |cells| ==> Fine(now[d], d, true, serial) && SameTables(cells[d], now[d])
  {
    now := [];
    while |now| < |cells|
      invariant |now| <= |cells|
      invariant forall i :: 0 <= i < |now| ==> Fine(now[i], i, true, serial) && SameTables(cells[i], now[i])
    {
      var d, c := |now|, cells[|now|];
      LostKeeps(c, DropAt(plan, d, c), AddAt(plan, d, c));
      now := now + [Lost(c, DropAt(plan, d, c), AddAt(plan, d, c))];
    }
    IsoSumSame(cells, now);
  }

  lemma {:induction false} IsoSumSame(cells: seq<Cell>, now: seq<Cell>)
    requires |cells| == |now| && forall i :: 0 <= i < |now| ==> Iso(now[i]) == Iso(cells[i])
    ensures IsoSum(cells) == IsoSum(now)
  {
    if cells != [] {
      IsoSumSame(cells[1..], now[1..]);
    }
  }

  method TakeOne(c: Cell, mine: bool, ghost d: nat, ghost lost: bool, ghost serial: nat) returns (r: Cell)
    requires Fine(c, d, lost, serial) && c.detached.None?
    ensures r == Taken(c, mine) && Fine(r, d, lost, serial) && Iso(r) == Iso(c)
  {
    r := c;
    if mine && c.open.Some? {
      r := Detach(c);
    }
  }

  /** What the other devices' pipes take of the event budget while one device is served. */
  class Budget {
    ghost var others: nat

    constructor () {
      others := 0;
    }
  }

  class Device {
    var cells: seq<Cell>
    var isoCapOut: nat
    var halted: bool              // ControllerFailed or ScratchTainted
    var serial: nat               // no acquisition so far is numbered from here on
    ghost var lost: bool          // some command's completion was never seen
    ghost var hindered: nat       // what stopped an operation short: an abort that failed, a pipe or a command
                                  // that could not be built, a deconfigure's command or a configuration not taken
    ghost var stuckOpen: nat      // deconfigures that failed
    ghost const budget: Budget

    /** Every cell's invariant. */
    ghost predicate Sound()
      reads this
    {
      && |cells| == DCIS
      && (forall d :: 0 <= d < DCIS ==> Fine(cells[d], d, lost, serial))
      && (lost ==> halted)
    }

    /** And, while this device is served, the controller's event budget in its hands. */
    ghost predicate Valid()
      reads this, budget
    {
      Sound() && isoCapOut == budget.others + IsoSum(cells)
    }

    /** No switch in flight. */
    predicate Idle()
      reads this
    {
      forall d :: 0 <= d < |cells| ==> cells[d].detached.None? && cells[d].built.None?
    }

    constructor (ghost budget: Budget)
      ensures Sound() && Idle() && !halted && IsoSum(cells) == 0 && this.budget == budget
    {
      cells := seq(DCIS, _ => EmptyCell);
      isoCapOut, halted, serial, lost, hindered, stuckOpen, this.budget := 0, false, 0, false, 0, 0, budget;
      new;
      EmptySum(DCIS);
    }

    /** The thread turns to this device with the controller's budget. */
    method Enter(cap: nat)
      requires Sound() && IsoSum(cells) <= cap
      modifies this`isoCapOut, budget
      ensures Valid() && isoCapOut == cap
    {
      isoCapOut := cap;
      budget.others := cap - IsoSum(cells);
    }

    /** One cell rewritten, with the budget it takes. */
    method Put(d: nat, c: Cell, cap: nat)
      requires Valid() && d < DCIS && Fine(c, d, lost, serial) && cap - isoCapOut == Iso(c) - Iso(cells[d])
      modifies this`cells, this`isoCapOut
      ensures Valid() && cells == old(cells)[d := c] && isoCapOut == cap
    {
      IsoSumUpdate(cells, d, c);
      cells, isoCapOut := cells[d := c], cap;
    }

    /** A Configure Endpoint carried out and answered with success. */
    method Completed(plan: Plan)
      requires Valid() && !lost
      modifies this`cells, this`isoCapOut
      ensures Valid()
      ensures forall d :: 0 <= d < DCIS ==> WentAs(plan, d, old(cells)[d], cells[d])
    {
      cells := CompletedEverywhere(plan, cells, serial);
    }

    /** The same, its completion never seen: carried out or not. */
    method NeverAnswered(plan: Plan)
      requires Valid() && !lost
      modifies this
      ensures Valid() && lost && serial == old(serial)
      ensures forall d :: 0 <= d < DCIS ==> SameTables(old(cells)[d], cells[d])
      ensures hindered == old(hindered) && stuckOpen == old(stuckOpen)
    {
      lost, halted := true, true;
      cells := LostEverywhere(plan, cells, serial);
    }

    /** hcdCfgCommand: the thread issues nothing once halted; a command that completes with success
        rewrites the contexts and reclaims what it dropped; one whose completion never came may have
        done so and halts the thread. */
    method Command(plan: Plan) returns (e: Event)
      requires Valid()
      modifies this
      ensures Valid() && serial == old(serial)
      ensures e.Success? || e.Refused? || e.Unknown?
      ensures forall d :: 0 <= d < DCIS ==> SamePipes(old(cells)[d], cells[d])
      ensures e.Success? ==> !lost && !halted
      ensures e.Success? ==> forall d :: 0 <= d < DCIS ==> WentAs(plan, d, old(cells)[d], cells[d])
      ensures e.Refused? ==> cells == old(cells) && lost == old(lost) && halted == old(halted)
      ensures e.Unknown? ==> forall d :: 0 <= d < DCIS ==> SameTables(old(cells)[d], cells[d])
      ensures hindered == old(hindered) && stuckOpen == old(stuckOpen)
    {
      var outcome: nat := *;
      e := Unknown;
      if halted || outcome > 2 {
        return;                               // nothing reached the controller
      }
      if outcome == 0 {
        Completed(plan);
        e := Success;
      } else if outcome == 1 {
        e := Refused;
      } else {
        NeverAnswered(plan);
      }
    }

    /** hcdCfgConfigureAdd: a build that fails issues nothing; a refusal some pipes can be put back
        to their ordinary interval after is tried once more. */
    method ConfigureAdd(plan: Plan) returns (e: Event)
      requires Valid()
      modifies this
      ensures Valid() && serial == old(serial)
      ensures e.Success? || e.Refused? || e.NotIssued? || e.Unknown?
      ensures forall d :: 0 <= d < DCIS ==> SamePipes(old(cells)[d], cells[d])
      ensures e.Success? ==> !lost && !halted
      ensures e.Success? ==> forall d :: 0 <= d < DCIS ==> WentAs(plan, d, old(cells)[d], cells[d])
      ensures e.Refused? || e.NotIssued? ==> cells == old(cells) && lost == old(lost) && halted == old(halted)
      ensures e.Unknown? ==> forall d :: 0 <= d < DCIS ==> SameTables(old(cells)[d], cells[d])
      ensures stuckOpen == old(stuckOpen) && hindered >= old(hindered) && (e.NotIssued? ==> hindered > old(hindered))
    {
      var pass := 0;
      e := NotIssued;
      while pass < 2
        invariant Valid() && cells == old(cells) && serial == old(serial)
        invariant lost == old(lost) && halted == old(halted)
        invariant hindered == old(hindered) && stuckOpen == old(stuckOpen) && (pass == 0 || e.Refused?)
        invariant e.NotIssued? || e.Refused?
      {
        var builds, fast: bool := *, *;
        if !builds {
          hindered := hindered + 1;
          return NotIssued;
        }
        e := Command(plan);
        if !e.Refused? || !fast {
          return;
        }
        pass := pass + 1;
      }
    }

    // ----- an interface switch ---------------------------------------------------------------

    /** hcdCfgSwitchApply. */
    method SwitchApply(actions: Actions)
      requires Valid() && forall d :: 0 <= d < DCIS ==> CanApply(cells[d], actions)
      modifies this`cells, this`isoCapOut
      ensures Valid()
      ensures forall d :: 0 <= d < DCIS ==> AppliedTo(old(cells)[d], cells[d], actions)
    {
      ghost var was := cells;
      for d := 0 to DCIS
        invariant Valid()
        invariant forall i :: d <= i < DCIS ==> cells[i] == was[i]
        invariant forall i :: 0 <= i < d ==> AppliedTo(was[i], cells[i], actions)
      {
        IsoSumUpdate(cells, d, cells[d]);
        var c, cap := ApplyOne(cells[d], actions, isoCapOut);
        Put(d, c, cap);
      }
    }

    predicate AnyBuiltOrDetached()
      reads this
    {
      exists d :: 0 <= d < |cells| && (cells[d].built.Some? || cells[d].detached.Some?)
    }

    /** hcdCfgSwitchRollback: with nothing to drop or add, a success with nothing issued. */
    method SwitchRollback() returns (e: Event)
      requires Valid()
      modifies this
      ensures Valid() && serial == old(serial)
      ensures e.Success? || e.Refused? || e.NotIssued? || e.Unknown?
      ensures forall d :: 0 <= d < DCIS ==> SamePipes(old(cells)[d], cells[d])
      ensures e.Success? ==> forall d :: 0 <= d < DCIS ==> PipeUnnamed(cells[d], cells[d].built)
      ensures e.Refused? || e.NotIssued? ==> cells == old(cells)
      ensures hindered >= old(hindered)
    {
      if !AnyBuiltOrDetached() {
        return Success;
      }
      e := ConfigureAdd(RollbackPlan);
      if e.Success? {
        forall d | 0 <= d < DCIS ensures PipeUnnamed(cells[d], cells[d].built) {
          assert WentAs(RollbackPlan, d, old(cells)[d], cells[d]);
          RollbackSupersedesNew(old(cells)[d], cells[d]);
        }
      }
    }

    /** hcdCfgSwitchConfigure: nothing to drop or add is a success with nothing issued; a plan whose
        kept endpoints are also dropped or added is not issued. */
    method SwitchConfigure() returns (e: Event)
      requires Valid() && !lost && forall d :: 0 <= d < DCIS ==> PipeUnnamed(cells[d], cells[d].built)
      modifies this
      ensures Valid() && serial == old(serial)
      ensures e.Success? || e.Refused? || e.NotIssued? || e.Unknown?
      ensures forall d :: 0 <= d < DCIS ==> SamePipes(old(cells)[d], cells[d])
      ensures e.Success? ==> forall d :: 0 <= d < DCIS ==> SwitchedOver(cells[d])
      ensures e.Refused? || e.NotIssued? ==> cells == old(cells)
      ensures hindered >= old(hindered) && (e.NotIssued? ==> hindered > old(hindered) || StaleOpen(old(cells)))
    {
      if !AnyBuiltOrDetached() && forall d :: 0 <= d < DCIS ==> !cells[d].stale {
        return Success;
      }
      if exists d :: 0 <= d < DCIS && cells[d].open.Some? && cells[d].stale {
        return NotIssued;
      }
      e := ConfigureAdd(SwitchPlan);
      if e.Success? {
        forall d | 0 <= d < DCIS ensures SwitchedOver(cells[d]) {
          assert WentAs(SwitchPlan, d, old(cells)[d], cells[d]);
          SwitchSupersedesOld(old(cells)[d], cells[d]);
        }
      }
    }

    /** What a phase waits for, with its command carried out. A control transfer may halt the thread
        and changes no context. */
    method Next(s: Select, issue: Issue, ghost start: seq<Cell>) returns (e: Event)
      requires Valid() && |start| == DCIS && s.phase != End && s.phase != Configuring
      requires forall d :: 0 <= d < DCIS ==> InPhase(s, cells[d], start[d])
      requires issue.SendRollback? <==> s.phase == Rollback
      modifies this
      ensures Valid() && serial == old(serial) && Heard(s, e)
      ensures forall d :: 0 <= d < DCIS ==> Ready(s, e, cells[d], start[d])
      ensures hindered >= old(hindered)
    {
      if issue.SendRollback? {
        e := SwitchRollback();
      } else {
        var fails: bool := *;
        halted := halted || fails;
        e := Transferred(s);
      }
    }

    /** One turn of hcdCfgSwitchRun: the table's row for this event, carried out. */
    method Turn(s: Select, e: Event, ghost told: seq<Event>, ghost start: seq<Cell>) returns (step: Decision)
      requires Valid() && |start| == DCIS && SoFar(s, told) && Heard(s, e)
      requires forall d :: 0 <= d < DCIS ==> Ready(s, e, cells[d], start[d])
      modifies this`cells, this`isoCapOut
      ensures Valid() && TurnOf(s, step, told + [e])
      ensures forall d :: 0 <= d < DCIS ==> Follows(step, cells[d], start[d], Refusal(told + [e]))
    {
      step := SelectStep(s, e);
      TableTurns(s, e, told);
      ghost var was := cells;
      forall d | 0 <= d < DCIS ensures CanApply(cells[d], step.actions) {
        TableIsEntitled(s, e, cells[d], start[d]);
      }
      SwitchApply(step.actions);
      forall d | 0 <= d < DCIS ensures Follows(step, cells[d], start[d], Refusal(told + [e])) {
        PhaseFollows(s, e, was[d], cells[d], start[d], Refusal(told + [e]));
      }
    }

    /** hcdCfgSwitchRun: a switch driven to its end. Whatever happens on the way, it is told a whole
        story, its answer is the story's, and every old and every new pipe has left the switch for the
        place the story calls for. */
    method SwitchRun(begin: Select, event: Event, ghost start: seq<Cell>)
      returns (answer: Answer, reattached: bool, ghost told: seq<Event>)
      requires Valid() && |start| == DCIS && begin.phase == Configuring && Heard(begin, event)
      requires forall d :: 0 <= d < DCIS ==> Ready(begin, event, cells[d], start[d])
      modifies this
      ensures Valid() && serial == old(serial)
      ensures |told| > 0 && told[0] == event && WholeStory(begin.mayRollback, begin.single, begin.streams, told)
      ensures answer == Answered(told) && (reattached <==> FateOf(false, told).Publish?)
      ensures forall d :: 0 <= d < DCIS ==> SwitchOver(start[d], cells[d], told)
      ensures hindered >= old(hindered)
    {
      var s, e := begin, event;
      var step := Turn(s, e, [], start);
      told := [e];
      assert [] + [e] == told;
      while step.next.phase != End
        invariant Valid() && serial == old(serial) && s == begin.(phase := s.phase) && TurnOf(s, step, told)
        invariant |told| > 0 && told[0] == event && hindered >= old(hindered)
        invariant forall d :: 0 <= d < DCIS ==> Follows(step, cells[d], start[d], Refusal(told))
        decreases Rank(s.phase)
      {
        s := step.next;
        e := Next(s, step.actions.issue, start);
        step := Turn(s, e, told, start);
        told := told + [e];
      }
      answer, reattached := step.answer, step.actions.detached.Publish?;
      forall d | 0 <= d < DCIS ensures SwitchOver(start[d], cells[d], told) {
        OverByLast(step, start[d], cells[d], told);
      }
    }

    /** hcdCfgSwitchDetach: an abort that fails leaves every pipe published; otherwise the open pipes
        of `which` are detached, kept with their rings. */
    method SwitchDetach(which: set<nat>) returns (ok: bool)
      requires Valid() && Idle()
      modifies this
      ensures Valid() && serial == old(serial) && lost == old(lost)
      ensures !ok ==> cells == old(cells)
      ensures ok ==> halted == old(halted) && forall d :: 0 <= d < DCIS ==> cells[d] == Taken(old(cells)[d], d in which)
      ensures hindered >= old(hindered) && (!ok ==> hindered > old(hindered))
    {
      ok := *;
      if !ok {
        var faults: bool := *;
        halted, hindered := halted || faults, hindered + 1;
        return;
      }
      DetachAll(which);
    }

    method DetachAll(which: set<nat>)
      requires Valid() && Idle()
      modifies this`cells, this`isoCapOut
      ensures Valid() && serial == old(serial) && lost == old(lost) && halted == old(halted)
      ensures forall d :: 0 <= d < DCIS ==> cells[d] == Taken(old(cells)[d], d in which)
      ensures hindered == old(hindered)
    {
      ghost var was := cells;
      for d := 0 to DCIS
        invariant Valid() && serial == old(serial) && lost == old(lost) && halted == old(halted)
        invariant forall i :: d <= i < DCIS ==> cells[i] == was[i]
        invariant forall i :: 0 <= i < d ==> cells[i] == Taken(was[i], i in which)
      {
        var c := TakeOne(cells[d], d in which, d, lost, serial);
        Put(d, c, isoCapOut);
      }
    }

    /** hcdCfgSwitchReserved: what the switch's own command will drop, counted. */
    method SwitchReserved() returns (n: nat)
      requires Valid()
      ensures n == Reserved(cells)
    {
      n := 0;
      for d := 0 to DCIS
        invariant n == Reserved(cells[..d])
      {
        assert cells[..d + 1] == cells[..d] + [cells[d]];
        ReservedLast(cells[..d], cells[d]);
        if cells[d].detached.Some? {
          n := n + 1;
        }
        n := n + |cells[d].retained|;
      }
      assert cells[..DCIS] == cells;
    }

    /** hcdCfgPipeNew: a pool ring, and for an isochronous endpoint its event count and perhaps a ring
        page. A refusal gives back at once whatever was acquired, since no context ever named it. */
    method PipeNew(d: nat, isoch: bool) returns (ok: bool)
      requires Valid() && d < DCIS && cells[d].open.None? && cells[d].built.None?
      modifies this`cells, this`serial, this`isoCapOut, this`hindered
      ensures Valid() && serial >= old(serial)
      ensures forall i :: 0 <= i < DCIS && i != d ==> cells[i] == old(cells)[i]
      ensures Grew(old(cells)[d], cells[d]) && cells[d].built.Some? == ok
      ensures ok ==> PipeUnnamed(cells[d], cells[d].built) && cells[d].built.value.ring.serial >= old(serial)
      ensures ok ==> cells[d].built.value.ring !in old(cells)[d].made && cells[d].built.value.ring in cells[d].made
      ensures ok ==> cells[d].built.value.isoch == isoch && Counted(cells[d].built.value)
      ensures hindered == old(hindered) + (if ok then 0 else 1)
    {
      IsoSumUpdate(cells, d, cells[d]);
      var c, cap;
      c, cap, ok := NewPipe(cells[d], d, serial, isoch, isoCapOut);
      serial, hindered := serial + 1, hindered + (if ok then 0 else 1);
      Put(d, c, cap);
    }

    /** Step 2 of a select: the new setting's pipes, stopping at the first that cannot be had or that
        names an endpoint twice or one left open beside the switch. */
    method BuildAll(eps: seq<Endpoint>) returns (ok: bool)
      requires Valid() && (forall d :: 0 <= d < DCIS ==> cells[d].built.None?)
      requires forall e :: e in eps ==> 2 <= e.dci < DCIS
      modifies this`cells, this`serial, this`isoCapOut, this`hindered
      ensures Valid() && serial >= old(serial)
      ensures forall d :: 0 <= d < DCIS ==> BuiltOn(old(cells)[d], cells[d], old(serial))
      ensures ok ==> BuiltFor(cells, eps)
      ensures hindered >= old(hindered) && (!ok ==> hindered > old(hindered) || Clash(old(cells), {}, eps))
    {
      ghost var was := cells;
      for n := 0 to |eps|
        invariant Valid() && serial >= old(serial) && hindered == old(hindered)
        invariant forall d :: 0 <= d < DCIS ==> BuiltOn(was[d], cells[d], old(serial))
        invariant BuiltFor(cells, eps[..n])
      {
        ghost var before := cells;
        var got := BuildOne(eps[n]);
        OneMoreBuilt(was, before, cells, eps[n].dci, old(serial));
        if !got {
          ClashFound(was, before, eps, n, old(serial));
          return false;
        }
        OneMoreFor(before, cells, eps[..n], eps[n]);
        assert eps[..n + 1] == eps[..n] + [eps[n]];
      }
      assert eps[..|eps|] == eps;
      return true;
    }

    /** One endpoint of the new setting: refused where there is a new pipe already, or one open beside the
        switch. */
    method BuildOne(e: Endpoint) returns (got: bool)
      requires Valid() && 2 <= e.dci < DCIS
      modifies this`cells, this`serial, this`isoCapOut, this`hindered
      ensures Valid() && serial >= old(serial)
      ensures forall i :: 0 <= i < DCIS && i != e.dci ==> cells[i] == old(cells)[i]
      ensures old(cells)[e.dci].built.Some? ==> !got && cells == old(cells)
      ensures BuiltOn(old(cells)[e.dci].(built := None), cells[e.dci].(built := None), old(serial))
      ensures got ==> MadeAs(cells[e.dci].built, e) && BuiltOn(old(cells)[e.dci], cells[e.dci], old(serial))
      ensures !got ==> cells[e.dci].built == old(cells)[e.dci].built
      ensures hindered >= old(hindered) && (got ==> hindered == old(hindered))
      ensures !got ==>
                hindered > old(hindered) || old(cells)[e.dci].built.Some? || old(cells)[e.dci].open.Some?
    {
      var usable: bool := *;
      if !usable || cells[e.dci].built.Some? || cells[e.dci].open.Some? {
        hindered := hindered + (if usable then 0 else 1);
        return false;
      }
      got := PipeNew(e.dci, e.isoch);
    }

    /** hcdCfgSelectInterface and hcdCfgSelectFunction: `which` are the endpoints of the interface or
        function, `eps` those of the new setting; only an interface's select may roll back. Whatever
        the controller and the device do, the select ends, no pipe is left in between, and the
        endpoints of `which` are the whole new setting on new rings, the whole old setting with its
        own pipes, or none; the other pipes stay. What it was `told` says which: it is a success exactly
        when the device took the new setting, by the request or by the clears of an interface with one,
        and the old pipes are put back exactly when nothing was told, an abort having failed, or both sides
        are known to be at the old setting. What it reserved before building is what its command, if it
        succeeded, dropped. One that issued no command was hindered, named an endpoint twice or one open beside
        it, or found a stale DCI open. `start` is the device with the old pipes detached and the new ones built. */
    method SelectInterface(which: set<nat>, eps: seq<Endpoint>, mayRollback: bool, single: bool)
      returns (success: bool, putBack: bool, answer: Answer, reserved: nat,
               ghost dropped: int, ghost told: seq<Event>, ghost start: seq<Cell>)
      requires Valid() && Idle() && !halted
      requires forall e :: e in eps ==> 2 <= e.dci < DCIS
      modifies this
      ensures Valid() && Idle() && success == answer.Succeeded?
      ensures told != [] ==> WholeStory(mayRollback, single, HadStreams(old(cells), which), told)
      ensures success <==> Worked(mayRollback && single, told)
      ensures putBack <==> told == [] || Restored(single, told)
      ensures answer == if told == [] then NotEstablished else Answered(told)
      ensures told != [] ==> |start| == DCIS && forall d :: 0 <= d < DCIS ==>
                && Prepared(old(cells)[d], start[d], d in which, HadStreams(old(cells), which), old(serial))
                && SwitchOver(start[d], cells[d], told)
      ensures putBack ==> !success
      ensures forall d :: 0 <= d < DCIS ==> OpenAfterwards(old(cells)[d], cells[d], d in which, success, putBack,
                                                           exists e :: e in eps && e.dci == d, old(serial))
      ensures success ==> dropped == reserved && forall e :: e in eps ==> MadeAs(cells[e.dci].open, e)
      ensures hindered >= old(hindered)
      ensures told == [] ==> hindered > old(hindered)
      ensures told == [NotIssued] ==> hindered > old(hindered) || Clash(old(cells), which, eps) || StaleOpen(start)
    {
      reserved, dropped, told := 0, 0, [];
      var detached, built, streams;
      detached, built, streams, reserved := Prepare(which, eps);
      start := cells;
      if !detached {
        success, putBack, answer := false, true, NotEstablished;
        return;
      }
      var begin := Select(Configuring, mayRollback, single, streams);
      answer, putBack, dropped, told := SwitchTo(begin, built, reserved, old(cells), old(serial), which, eps);
      success := answer.Succeeded?;
    }

    /** Steps 3 and 4 of a select of `which`, seen from the device `was` before it. */
    method SwitchTo(s: Select, built: bool, reserved: nat,
                    ghost was: seq<Cell>, ghost since: nat, ghost which: set<nat>, ghost eps: seq<Endpoint>)
      returns (answer: Answer, putBack: bool, ghost dropped: int, ghost told: seq<Event>)
      requires Valid() && !lost && s.phase == Configuring && reserved == Reserved(cells) && |was| == DCIS
      requires forall d :: 0 <= d < DCIS ==> Prepared(was[d], cells[d], d in which, s.streams, since)
      requires built ==> BuiltFor(cells, eps)
      modifies this
      ensures Valid() && Idle() && serial == old(serial) && told != []
      ensures WholeStory(s.mayRollback, s.single, s.streams, told) && answer == Answered(told)
      ensures answer.Succeeded? <==> Worked(s.mayRollback && s.single, told)
      ensures putBack <==> Restored(s.single, told)
      ensures putBack ==> !answer.Succeeded?
      ensures forall d :: 0 <= d < DCIS ==> SwitchOver(old(cells)[d], cells[d], told)
      ensures forall d :: 0 <= d < DCIS ==> OpenAfterwards(was[d], cells[d], d in which, answer.Succeeded?, putBack,
                                                           exists e :: e in eps && e.dci == d, since)
      ensures answer.Succeeded? ==>
                dropped == reserved && forall e :: e in eps ==> e.dci < DCIS && MadeAs(cells[e.dci].open, e)
      ensures hindered >= old(hindered)
      ensures told[0].NotIssued? && built ==> hindered > old(hindered) || StaleOpen(old(cells))
    {
      ghost var start := cells;
      answer, putBack, dropped, told := Switch(s, built, reserved);
      AllOpenByStory(was, start, cells, which, eps, built, s.streams, told, since);
      if answer.Succeeded? {
        PublishedAsMade(start, cells, eps, told);
      }
    }

    /** Steps 3 and 4 of a select, its new pipes built or not. */
    method Switch(s: Select, built: bool, reserved: nat)
      returns (answer: Answer, putBack: bool, ghost dropped: int, ghost told: seq<Event>)
      requires Valid() && !lost && s.phase == Configuring && reserved == Reserved(cells)
      requires forall d :: 0 <= d < DCIS ==>
                 && PipeUnnamed(cells[d], cells[d].built)
                 && (cells[d].detached.Some? && cells[d].detached.value.block.Some? ==> s.streams)
      modifies this
      ensures Valid() && serial == old(serial) && told != []
      ensures WholeStory(s.mayRollback, s.single, s.streams, told) && answer == Answered(told)
      ensures answer.Succeeded? <==> Worked(s.mayRollback && s.single, told)
      ensures answer.Succeeded? <==> FateOf(true, told).Publish?
      ensures putBack <==> Restored(s.single, told)
      ensures putBack <==> FateOf(false, told).Publish?
      ensures putBack ==> !answer.Succeeded?
      ensures answer.Succeeded? ==> built && dropped == reserved
      ensures forall d :: 0 <= d < DCIS ==> SwitchOver(old(cells)[d], cells[d], told)
      ensures hindered >= old(hindered)
      ensures told[0].NotIssued? && built ==> hindered > old(hindered) || StaleOpen(old(cells))
    {
      ghost var start := cells;
      var event := NotIssued;
      dropped := 0;
      if built {
        event := SwitchConfigure();
        dropped := Dropped(start, cells);
        if event.Success? {
          ReservationIsExact(start, cells);
        }
      }
      answer, putBack, told := SwitchRun(s, event, start);
      StoryEnds(s.mayRollback, s.single, s.streams, told);
    }

    /** Steps 1 and 2 of a select. */
    method Prepare(which: set<nat>, eps: seq<Endpoint>)
      returns (detached: bool, built: bool, streams: bool, reserved: nat)
      requires Valid() && Idle()
      requires forall e :: e in eps ==> 2 <= e.dci < DCIS
      modifies this
      ensures Valid() && lost == old(lost) && serial >= old(serial)
      ensures !detached ==> cells == old(cells)
      ensures detached ==> halted == old(halted) && forall d :: 0 <= d < DCIS ==>
                Prepared(old(cells)[d], cells[d], d in which, streams, old(serial))
      ensures detached ==> reserved == Reserved(cells) && streams == HadStreams(old(cells), which)
      ensures detached && built ==> BuiltFor(cells, eps)
      ensures hindered >= old(hindered) && (!detached ==> hindered > old(hindered))
      ensures detached && !built ==> hindered > old(hindered) || Clash(old(cells), which, eps)
    {
      built := false;
      detached, streams, reserved := DetachFor(which);
      if detached {
        ghost var taken := cells;
        built := BuildAll(eps);
        forall d | 0 <= d < DCIS ensures Prepared(old(cells)[d], cells[d], d in which, streams, old(serial)) {
          assert taken[d].detached.Some? && taken[d].detached.value.block.Some? ==>
              d in which && old(cells)[d].open.Some? && old(cells)[d].open.value.block.Some?;
          PreparedFrom(old(cells)[d], taken[d], cells[d], d in which, streams, old(serial));
        }
        ReservedSame(taken, cells, old(serial));
        ClashTaken(old(cells), taken, which, eps);
      }
    }

    /** Step 1, and what the switch's command will drop. */
    method DetachFor(which: set<nat>) returns (detached: bool, streams: bool, reserved: nat)
      requires Valid() && Idle()
      modifies this
      ensures Valid() && serial == old(serial) && lost == old(lost)
      ensures !detached ==> cells == old(cells)
      ensures detached ==> halted == old(halted) && reserved == Reserved(cells)
      ensures detached ==> streams == HadStreams(old(cells), which)
      ensures detached ==> forall d :: 0 <= d < DCIS ==> cells[d] == Taken(old(cells)[d], d in which)
      ensures hindered >= old(hindered) && (!detached ==> hindered > old(hindered))
    {
      streams, reserved := false, 0;
      detached := SwitchDetach(which);
      if detached {
        reserved := SwitchReserved();
        streams := exists d :: 0 <= d < DCIS && cells[d].detached.Some? && cells[d].detached.value.block.Some?;
        StreamsTaken(old(cells), cells, which);
      }
    }

    /** hcdCfgUnconfigureFunction and a removed function's release: one command that only drops. Not issued or
        refused, the rings it would have dropped are held; not answered, pinned. With no command issued it was
        hindered, or a DCI open beside it is stale. */
    method UnconfigureFunction(which: set<nat>) returns (ok: bool, told: Option<Event>)
      requires Valid() && Idle() && !halted
      modifies this
      ensures Valid() && Idle() && (ok <==> told == Some(Success))
      ensures told.None? ==> cells == old(cells)
      ensures told.Some? ==> forall d :: 0 <= d < DCIS ==>
                && cells[d].open == Beside(old(cells)[d].open, d in which)
                && (d in which ==> Met(old(cells)[d].open, cells[d], DropFate(told.value)))
                && cells[d].stale == ((old(cells)[d].stale && !ok)
                                      || (d in which && HoldsOne(old(cells)[d].open, DropFate(told.value))))
      ensures ok ==> forall d :: 0 <= d < DCIS ==> cells[d].retained == []
      ensures told == Some(NotIssued) ==> hindered > old(hindered) || StaleBeside(old(cells), which)
      ensures told.None? ==> hindered > old(hindered)
    {
      told := None;
      ok := SwitchDetach(which);
      if ok {
        ghost var was := old(cells);
        ghost var taken := cells;
        var e := DropDetached();
        ok, told := e.Success?, Some(e);
        forall d | 0 <= d < DCIS && d in which ensures Met(was[d].open, cells[d], DropFate(e)) {
          assert taken[d] == Taken(was[d], true);
        }
      }
    }

    method DropDetached() returns (e: Event)
      requires Valid() && !lost && forall d :: 0 <= d < DCIS ==> cells[d].built.None?
      modifies this
      ensures Valid() && Idle()
      ensures forall d :: 0 <= d < DCIS ==> cells[d].open == old(cells)[d].open
      ensures forall d :: 0 <= d < DCIS ==>
                cells[d].stale == ((old(cells)[d].stale && !e.Success?)
                                   || HoldsOne(old(cells)[d].detached, DropFate(e)))
      ensures forall d :: 0 <= d < DCIS ==> Met(old(cells)[d].detached, cells[d], DropFate(e))
      ensures e.Success? ==> forall d :: 0 <= d < DCIS ==> cells[d].retained == []
      ensures hindered >= old(hindered) && (e.NotIssued? ==> hindered > old(hindered) || StaleOpen(old(cells)))
    {
      e := SwitchConfigure();
      ghost var was := cells;
      forall d | 0 <= d < DCIS ensures CanApply(cells[d], DropStep(e)) {
        DropIsEntitled(cells[d], e);
      }
      SwitchApply(DropStep(e));
      forall d | 0 <= d < DCIS ensures DropOver(was[d], cells[d], e) {
        DropFollows(was[d], cells[d], e);
      }
    }

    /** hcdCfgDeconfigure: an endpoint that will not stop, or a command that does not succeed, ends it
        with every pipe still open; otherwise every endpoint is known Disabled and everything but the
        pinned pipes goes back. */
    method Deconfigure() returns (ok: bool)
      requires Valid() && Idle() && !lost
      modifies this
      ensures Valid() && Idle() && serial == old(serial)
      ensures !ok ==> forall d :: 0 <= d < DCIS ==> SamePipes(old(cells)[d], cells[d])
      ensures ok ==> !lost && forall d :: 0 <= d < DCIS ==> TakenDown(old(cells)[d], cells[d])
      ensures ok ==> forall d :: 0 <= d < DCIS ==> BackOrPinned(cells[d])
      ensures stuckOpen == old(stuckOpen) + (if ok then 0 else 1)
      ensures hindered >= old(hindered) && (!ok ==> hindered > old(hindered))
    {
      var stops: bool := *;
      if !stops {
        var faults: bool := *;
        halted, hindered, stuckOpen := halted || faults, hindered + 1, stuckOpen + 1;
        return false;
      }
      ok := DropNamed();
      if ok {
        ShutAll();
      } else {
        halted, hindered, stuckOpen := true, hindered + 1, stuckOpen + 1;
      }
    }

    /** With no command lost the endpoints read what their contexts are, and a slot that is not Configured has
        every one Disabled; otherwise all are dropped. */
    method DropNamed() returns (ok: bool)
      requires Valid() && !lost
      modifies this
      ensures Valid() && serial == old(serial) && (ok ==> !lost)
      ensures hindered == old(hindered) && stuckOpen == old(stuckOpen)
      ensures forall d :: 0 <= d < DCIS ==> SamePipes(old(cells)[d], cells[d])
      ensures ok ==> forall d :: 0 <= d < DCIS ==> (cells[d].open.Some? || cells[d].stale ==> cells[d].ctx == {})
    {
      ok := true;
      if exists d :: 0 <= d < DCIS && (cells[d].open.Some? || cells[d].stale) && cells[d].ctx != {} {
        ok := DropEvery();
      }
    }

    method DropEvery() returns (ok: bool)
      requires Valid() && !lost
      modifies this
      ensures Valid() && serial == old(serial) && (ok ==> !lost)
      ensures forall d :: 0 <= d < DCIS ==> SamePipes(old(cells)[d], cells[d])
      ensures ok ==> forall d :: 0 <= d < DCIS ==> DroppedAll(cells[d])
      ensures !ok ==> forall d :: 0 <= d < DCIS ==> SameTables(old(cells)[d], cells[d])
      ensures hindered == old(hindered) && stuckOpen == old(stuckOpen)
    {
      var e := Command(DropAll);
      ok := e.Success?;
      if ok {
        assert forall d :: 0 <= d < DCIS ==> WentAs(DropAll, d, old(cells)[d], cells[d]);
      }
    }

    method ShutAll()
      requires Valid() && Idle() && !lost
      requires forall d :: 0 <= d < DCIS ==> (cells[d].open.Some? || cells[d].stale ==> cells[d].ctx == {})
      modifies this`cells, this`isoCapOut
      ensures Valid()
      ensures forall d :: 0 <= d < DCIS ==> ShutDown(old(cells)[d], cells[d]) && BackOrPinned(cells[d])
    {
      ghost var was := cells;
      for d := 0 to DCIS
        invariant Valid()
        invariant forall i :: d <= i < DCIS ==> cells[i] == was[i]
        invariant forall i :: 0 <= i < d ==> ShutDown(was[i], cells[i]) && BackOrPinned(cells[i])
      {
        var recorded: bool := *;
        IsoSumUpdate(cells, d, cells[d]);
        var c, cap := Shut(cells[d], recorded, isoCapOut);
        RingsSettled(c);
        Put(d, c, cap);
      }
    }

    /** Every new pipe meets one fate: freed on a proof, pinned, or published. */
    method SettleNew(f: Fate)
      requires Valid() && (f.Free? || f.Pin? || f.Publish?)
      requires forall d :: 0 <= d < DCIS ==>
                 cells[d].detached.None? && (f.Free? ==> PipeUnnamed(cells[d], cells[d].built))
      modifies this`cells, this`isoCapOut
      ensures Valid() && Idle()
      ensures forall d :: 0 <= d < DCIS ==> Settled(old(cells)[d], cells[d], f)
    {
      var actions := Actions(Free, f, false, false, Nothing);
      SwitchApply(actions);
      forall d | 0 <= d < DCIS ensures Settled(old(cells)[d], cells[d], f) {
        assert AppliedTo(old(cells)[d], cells[d], actions);
      }
    }

    /** hcdCfgSelectOnce: deconfigured first, then the configuration's pipes made and added. A command
        that was not answered pins them, a refusal frees them; anything that fails with the command
        not refused takes them down again by a deconfigure. It fails only for a cause. */
    method SelectConfiguration(eps: seq<Endpoint>) returns (success: bool, told: Option<Event>, ghost built: seq<Cell>)
      requires Valid() && Idle() && !halted
      requires forall e :: e in eps ==> 2 <= e.dci < DCIS
      modifies this
      ensures Valid() && Idle() && (success ==> told == Some(Success))
      ensures told.None? ==> forall d :: 0 <= d < DCIS ==> SamePipes(old(cells)[d], cells[d])
      ensures told.Some? ==> |built| == DCIS && forall d :: 0 <= d < DCIS ==> built[d].open.None?
      ensures success ==> forall d :: 0 <= d < DCIS ==> (cells[d].open.Some? <==> exists e :: e in eps && e.dci == d)
      ensures success ==> forall e :: e in eps ==> MadeAs(cells[e.dci].open, e)
      ensures success ==> forall d :: 0 <= d < DCIS ==> cells[d].open == built[d].built
      ensures told == Some(Refused) ==> forall d :: 0 <= d < DCIS ==>
                cells[d].open.None? && Met(built[d].built, cells[d], Free)
      ensures told == Some(Unknown) ==> forall d :: 0 <= d < DCIS ==>
                cells[d].open.None? && Met(built[d].built, cells[d], Pin)
      ensures !success && (told == Some(Success) || told == Some(NotIssued)) ==>
                if stuckOpen == old(stuckOpen)
                then forall d :: 0 <= d < DCIS ==> cells[d].open.None? && BackOrPinned(cells[d])
                else forall d :: 0 <= d < DCIS ==> cells[d].open == built[d].built
      ensures !success ==>
                hindered > old(hindered) || Clash(built, {}, eps) || told == Some(Refused) || told == Some(Unknown)
    {
      told, built := None, cells;
      success := Deconfigure();
      if !success {
        return;
      }
      var e;
      success, e := Configure(eps);
      told, built := Some(e), cells;
      SettleNew(AddFate(e));
      if !success && !e.Unknown? && !e.Refused? {
        var down := Deconfigure();
      }
    }

    /** The new configuration's pipes and the command that adds them; NotIssued stands for a failure
        with no command, Success for whatever followed one that succeeded. */
    method Configure(eps: seq<Endpoint>) returns (success: bool, e: Event)
      requires Valid() && Idle() && !lost && forall d :: 0 <= d < DCIS ==> cells[d].open.None?
      requires forall e :: e in eps ==> 2 <= e.dci < DCIS
      modifies this
      ensures Valid() && (e.NotIssued? || e.Success? || e.Refused? || e.Unknown?) && (success ==> e.Success?)
      ensures !e.Unknown? ==> !lost
      ensures forall d :: 0 <= d < DCIS ==> cells[d].open.None? && cells[d].detached.None?
      ensures e.Refused? ==> forall d :: 0 <= d < DCIS ==> PipeUnnamed(cells[d], cells[d].built)
      ensures success ==> BuiltFor(cells, eps)
      ensures hindered >= old(hindered) && stuckOpen == old(stuckOpen)
      ensures !success ==> hindered > old(hindered) || Clash(old(cells), {}, eps) || e.Refused? || e.Unknown?
    {
      success := BuildAll(eps);
      e := NotIssued;
      if success {
        success, e := AddNew(eps);
      }
    }

    method AddIf(any: bool) returns (e: Event)
      requires Valid() && !lost
      modifies this
      ensures Valid() && (e.NotIssued? || e.Success? || e.Refused? || e.Unknown?)
      ensures (!e.Unknown? ==> !lost) && (e.Refused? ==> cells == old(cells)) && (!any ==> e.Success?)
      ensures forall d :: 0 <= d < DCIS ==> SamePipes(old(cells)[d], cells[d])
      ensures hindered >= old(hindered) && stuckOpen == old(stuckOpen) && (e.NotIssued? ==> hindered > old(hindered))
    {
      e := Success;
      if any {
        e := ConfigureAdd(AddBuilt);
      }
    }

    /** The command, and the transfers that follow it. */
    method AddNew(eps: seq<Endpoint>) returns (success: bool, e: Event)
      requires Valid() && !lost && BuiltFor(cells, eps)
      modifies this
      ensures Valid() && (e.NotIssued? || e.Success? || e.Refused? || e.Unknown?) && (success ==> e.Success?)
      ensures (!e.Unknown? ==> !lost) && (e.Refused? ==> cells == old(cells)) && BuiltFor(cells, eps)
      ensures forall d :: 0 <= d < DCIS ==> SamePipes(old(cells)[d], cells[d])
      ensures hindered >= old(hindered) && stuckOpen == old(stuckOpen)
      ensures !success ==> hindered > old(hindered) || e.Refused? || e.Unknown?
    {
      ghost var before := cells;
      e := AddIf(eps != []);
      BuiltForStill(before, cells, eps);
      var taken, faults: bool := *, *;          // SET_CONFIGURATION and the SET_INTERFACEs
      success := e.Success? && taken;
      halted, hindered := halted || faults, hindered + (if taken then 0 else 1);
    }

    /** A Configure Endpoint of which only this matters: no pipe moves, and unless it may have been
        carried out nothing changes. */
    method Attempt(plan: Plan) returns (e: Event)
      requires Valid()
      modifies this
      ensures Valid() && serial == old(serial)
      ensures e.Success? || e.Refused? || e.NotIssued? || e.Unknown?
      ensures forall d :: 0 <= d < DCIS ==> SamePipes(old(cells)[d], cells[d])
      ensures forall d :: 0 <= d < DCIS ==> BackKept(old(cells)[d], cells[d])
      ensures e.Refused? || e.NotIssued? ==> cells == old(cells)
      ensures hindered >= old(hindered) && (e.NotIssued? ==> hindered > old(hindered))
    {
      e := ConfigureAdd(plan);
      if e.Success? {
        forall d | 0 <= d < DCIS ensures BackKept(old(cells)[d], cells[d]) {
          var c := old(cells)[d];
          assert WentAs(plan, d, c, cells[d]);
          WentKeepsBack(c, cells[d], DropAt(plan, d, c), AddAt(plan, d, c));
        }
      }
    }

    /** HcdCfgHubOpen: the hub's one endpoint added with nothing dropped. */
    method HubOpen(dci: nat) returns (done: bool, event: Option<Event>)
      requires Valid() && Idle() && !halted && 2 <= dci < DCIS
      modifies this
      ensures Valid() && Idle() && done == (event == Some(Success))
      ensures event.Some? ==>
                old(cells)[dci].open.None? && exists p :: NewPipeMet(old(cells)[dci], cells[dci], p, event.value)
      ensures event.None? ==> cells[dci].pinned == old(cells)[dci].pinned
      ensures !done ==> forall d :: 0 <= d < DCIS ==> cells[d].open == old(cells)[d].open
      ensures !done ==>
                || hindered > old(hindered) || old(cells)[dci].open.Some?
                || event == Some(Refused) || event == Some(Unknown)
    {
      done, event := false, None;
      if cells[dci].open.Some? {
        return;
      }
      var built := PipeNew(dci, false);
      if !built {
        return;
      }
      ghost var p := cells[dci].built.value;
      var e := Attempt(AddBuilt);
      done, event := e.Success?, Some(e);
      SettleNew(if done then Publish else if e.Unknown? then Pin else Free);
      assert NewPipeMet(old(cells)[dci], cells[dci], p, e);
    }

    /** hcdCfgStreamsOpen once the endpoint is aborted and the device's half done: a block given to the
        pipe and installed by a Drop and Add; not answered, it is retired; refused, it goes back, and
        the endpoint may be recycled as it was. */
    method StreamsOpen(dci: nat) returns (done: bool, e: Event)
      requires Valid() && Idle() && !halted && 2 <= dci < DCIS
      requires cells[dci].open.Some? && cells[dci].open.value.block.None?
      modifies this
      ensures Valid() && Idle()
      ensures cells[dci].open.Some? && cells[dci].open.value.ring == old(cells)[dci].open.value.ring
      ensures done == cells[dci].open.value.block.Some? == e.Success?
      ensures var block := Alloc(StreamBlock, dci, old(serial));
              && (done ==> cells[dci].open.value.block == Some(block))
              && (e.Unknown? ==> block in cells[dci].retired)
              && (e.Refused? || e.NotIssued? ==> block in cells[dci].back)
    {
      AttachNewBlock(dci);
      e := Attempt(Recycle(dci));
      done := e.Success?;
      if !done {
        DetachBlock(dci, !e.Unknown?);
        var cleared: bool := *;
        if !e.Unknown? && cleared {
          var again := Attempt(Recycle(dci));
        }
      }
    }

    /** The block of a streams open that failed, off its pipe: given back if no context may name it. */
    method DetachBlock(dci: nat, proved: bool)
      requires Valid() && Idle() && dci < DCIS && cells[dci].open.Some? && cells[dci].open.value.block.Some?
      requires proved ==> !Named(cells[dci], cells[dci].open.value.block.value)
      modifies this`cells, this`isoCapOut
      ensures Valid() && Idle()
      ensures cells[dci].open.Some? && cells[dci].open.value == old(cells)[dci].open.value.(block := None)
      ensures var block := old(cells)[dci].open.value.block.value;
              if proved then block in cells[dci].back else block in cells[dci].retired
    {
      var c := TakeBlock(cells[dci], proved);
      Put(dci, c, isoCapOut);
    }

    method AttachNewBlock(dci: nat)
      requires Valid() && Idle() && dci < DCIS && cells[dci].open.Some? && cells[dci].open.value.block.None?
      modifies this`cells, this`serial, this`isoCapOut
      ensures Valid() && Idle() && cells[dci].open.Some?
      ensures var now, was := cells[dci].open.value, old(cells)[dci].open.value;
              && now.block == Some(Alloc(StreamBlock, dci, old(serial))) && now.(block := None) == was
              && !Named(cells[dci], now.block.value)
    {
      var c := AttachBlock(cells[dci], Alloc(StreamBlock, dci, serial));
      serial := serial + 1;
      Put(dci, c, isoCapOut);
    }

    /** hcdCfgStreamsClose past the device's half: only a Drop and Add without the block that succeeded
        lets the block go. */
    method StreamsClose(dci: nat) returns (closed: bool)
      requires Valid() && Idle() && !halted && 2 <= dci < DCIS
      requires cells[dci].open.Some? && cells[dci].open.value.block.Some?
      modifies this
      ensures Valid() && Idle()
      ensures closed ==> old(cells)[dci].open.value.block.value in cells[dci].back
      ensures cells[dci].open == if closed then WithoutBlock(old(cells)[dci].open) else old(cells)[dci].open
    {
      closed := TakeOffStreams(dci);
      if closed {
        var c := TakeBlock(cells[dci], true);
        Put(dci, c, isoCapOut);
      }
    }

    method TakeOffStreams(dci: nat) returns (done: bool)
      requires Valid() && dci < DCIS && cells[dci].open.Some? && cells[dci].open.value.block.Some?
      modifies this
      ensures Valid() && serial == old(serial)
      ensures forall d :: 0 <= d < DCIS ==> SamePipes(old(cells)[d], cells[d])
      ensures done ==> !Named(cells[dci], old(cells)[dci].open.value.block.value)
    {
      ghost var was := cells[dci];
      var e := ConfigureAdd(RecycleBare(dci));
      done := e.Success?;
      if done {
        assert AllocInv(was, was.open.value.block.value);
        BlockSuperseded(was, cells[dci], dci);
      }
    }

    /** A reset pipe's fresh context (hcdCfgRecycleCode). */
    method RecyclePipe(dci: nat) returns (e: Event)
      requires Valid() && Idle() && !halted && 2 <= dci < DCIS && cells[dci].open.Some?
      modifies this
      ensures Valid() && Idle() && cells[dci].open == old(cells)[dci].open
    {
      e := Attempt(Recycle(dci));
    }

    /** hcdCfgRestore: a Reset Device that succeeded has dropped every endpoint, so everything held but the
        pinned, and every retired block, goes back; the open endpoints are then added on their own rings.
        With no such success every table is as it was. */
    method ResetPort() returns (reset: bool, ok: bool)
      requires Valid() && Idle() && !halted
      modifies this
      ensures Valid() && Idle() && (ok ==> reset)
      ensures forall d :: 0 <= d < DCIS ==>
                cells[d].open == old(cells)[d].open && cells[d].pinned == old(cells)[d].pinned
      ensures reset ==> forall d :: 0 <= d < DCIS ==> Cleared(cells[d]) && !cells[d].stale
      ensures !reset ==> forall d :: 0 <= d < DCIS ==> SameTables(old(cells)[d], cells[d])
    {
      reset := DropEvery();
      ok := reset;
      if reset {
        UnmarkAll();
        var known: bool := *;
        if known {
          ok := AddBack();
        }
      }
    }

    method AddBack() returns (ok: bool)
      requires Valid() && Idle() && forall d :: 0 <= d < DCIS ==> Cleared(cells[d]) && !cells[d].stale
      modifies this
      ensures Valid() && Idle()
      ensures forall d :: 0 <= d < DCIS ==> SamePipes(old(cells)[d], cells[d]) && Cleared(cells[d]) && !cells[d].stale
    {
      ghost var was := cells;
      var e := ConfigureAdd(AddOpen);
      ok := e.Success?;
      forall d | 0 <= d < DCIS ensures Cleared(cells[d]) && !cells[d].stale {
        assert Cleared(was[d]) && !was[d].stale && SamePipes(was[d], cells[d]);
        assert if e.Success? then WentAs(AddOpen, d, was[d], cells[d])
               else cells == was || SameTables(was[d], cells[d]);
        StaysCleared(AddOpen, d, was[d], cells[d]);
      }
      forall d | 0 <= d < DCIS ensures cells[d].detached.None? && cells[d].built.None? {
        assert SamePipes(was[d], cells[d]);
      }
    }

    method UnmarkAll()
      requires Valid() && Idle() && forall d :: 0 <= d < DCIS ==> Cleared(cells[d])
      modifies this`cells, this`isoCapOut
      ensures Valid() && Idle()
      ensures forall d :: 0 <= d < DCIS ==> SamePipes(old(cells)[d].(stale := false), cells[d]) && Cleared(cells[d])
    {
      ghost var was := cells;
      for d := 0 to DCIS
        invariant Valid() && Idle()
        invariant forall i :: d <= i < DCIS ==> cells[i] == was[i]
        invariant forall i :: 0 <= i < d ==> SamePipes(was[i].(stale := false), cells[i]) && Cleared(cells[i])
      {
        var c := Unmark(cells[d]);
        Put(d, c, isoCapOut);
      }
    }

    /** HcdCfgDeviceGone: the slot disabled or lost to an HCRST, so the controller holds no context of
        the device; everything held goes back, the pinned too, and the budget is the others'. */
    method DeviceGone()
      requires Valid() && Idle()
      modifies this
      ensures Valid() && Idle() && isoCapOut == budget.others && IsoSum(cells) == 0
      ensures forall d :: 0 <= d < DCIS ==> forall a :: a in cells[d].made ==> cells[d].back[a] == 1
    {
      ghost var was := cells;
      for d := 0 to DCIS
        invariant Valid() && Idle()
        invariant forall i :: 0 <= i < d ==> Vanished(cells[i])
      {
        var c := SlotGone(cells[d]);
        IsoSumUpdate(cells, d, cells[d]);
        var cap;
        c, cap := Vanish(c, isoCapOut);
        Put(d, c, cap);
      }
      forall d, a | 0 <= d < DCIS && a in cells[d].made ensures cells[d].back[a] == 1 {
        AllGivenBack(cells[d], a);
      }
      NothingCounted(cells);
    }

    // ----- every run -------------------------------------------------------------------------

    /** The assignments of names to DCIs the controller may hold. */
    ghost predicate Possible(contexts: seq<set<Alloc>>)
      reads this
    {
      && |contexts| == |cells|
      && (|| (forall d :: 0 <= d < |cells| ==> contexts[d] == cells[d].ctx)
          || (lost && forall d :: 0 <= d < |cells| ==> contexts[d] == cells[d].maybe))
    }

    /** In every state the operations keep Valid: nothing given back, at whatever DCI, is named by any
        context the controller may hold, nor was it ever pinned, nor is it held or given back again. */
    lemma GivenBackIsNeverNamed(contexts: seq<set<Alloc>>, at: nat, d: nat, a: Alloc)
      requires Valid() && Possible(contexts) && at < DCIS && d < DCIS && a in cells[at].back
      ensures a !in contexts[d] && a !in cells[at].pins && Places(cells[at], a) == 0 && cells[at].back[a] == 1
    {
      NothingNamedIsBack(cells[at], a);
      assert AllocInv(cells[at], a) && AllocInv(cells[d], a);
    }

    /** Any number of requests, in any order, each with any outcome. The thread serves nothing once
        halted. */
    method Serve(requests: nat)
      requires Valid() && Idle()
      modifies this
      ensures Valid() && Idle()
    {
      var n := 0;
      while n < requests && !halted
        invariant Valid() && Idle()
      {
        ServeOne();
        n := n + 1;
      }
    }

    method ServeOne()
      requires Valid() && Idle() && !halted
      modifies this
      ensures Valid() && Idle()
    {
      var request, dci: nat := *, *;
      var which: set<nat> := *;
      var eps: seq<Endpoint> := *;
      var mayRollback, single: bool := *, *;
      var usable := forall e :: e in eps ==> 2 <= e.dci < DCIS;
      if request == 0 && usable {
        var _, _, _, _, _, _, _ := SelectInterface(which, eps, mayRollback, single);
      } else if request == 1 {
        var _, _ := UnconfigureFunction(which);
      } else if request == 2 && usable {
        var _, _, _ := SelectConfiguration(eps);
      } else if request == 3 {
        var _, _ := ResetPort();
      } else if 2 <= dci < DCIS {
        ServeEndpoint(request, dci);
      }
    }

    method ServeEndpoint(request: nat, dci: nat)
      requires Valid() && Idle() && !halted && 2 <= dci < DCIS
      modifies this
      ensures Valid() && Idle()
    {
      var open := cells[dci].open;
      if request == 4 {
        var _, _ := HubOpen(dci);
      } else if open.Some? && request == 5 {
        var _ := RecyclePipe(dci);
      } else if open.Some? && open.value.block.None? {
        var _, _ := StreamsOpen(dci);
      } else if open.Some? {
        var _ := StreamsClose(dci);
      }
    }
  }

  /** The controller: its devices, served one at a time, and the one event budget they share. */
  class Controller {
    var devices: seq<Device>
    var isoCapOut: nat
    ghost var shares: seq<nat>    // what each device's pipes take

    /** The budget given out is the sum over every pipe of every device. */
    ghost predicate Valid()
      reads this, devices, set d | d in devices :: d.budget
    {
      && |shares| == |devices|
      && (forall i, j :: 0 <= i < j < |devices| ==>
            devices[i] != devices[j] && devices[i].budget != devices[j].budget)
      && (forall i :: 0 <= i < |devices| ==>
            devices[i].Sound() && devices[i].Idle() && shares[i] == IsoSum(devices[i].cells))
      && isoCapOut == Sum(shares)
    }

    constructor ()
      ensures Valid() && devices == [] && isoCapOut == 0
    {
      devices, isoCapOut, shares := [], 0, [];
    }

    /** A device enumerated: no pipe of its own yet. */
    method Arrive()
      requires Valid()
      modifies this
      ensures Valid() && |devices| == |old(devices)| + 1 && devices[..|old(devices)|] == old(devices)
      ensures fresh(devices[|old(devices)|]) && fresh(devices[|old(devices)|].budget) && isoCapOut == old(isoCapOut)
    {
      var budget := new Budget();
      var d := new Device(budget);
      SumLast(shares, 0);
      devices, shares := devices + [d], shares + [0];
    }

    /** Any number of requests of one device, and its going if it goes. */
    method Serve(i: nat, requests: nat, goes: bool)
      requires Valid() && i < |devices|
      modifies this`isoCapOut, this`shares, devices[i], devices[i].budget
      ensures Valid()
      ensures goes ==> isoCapOut == old(isoCapOut) - old(shares)[i]
    {
      var d := devices[i];
      SumUpdate(shares, i, shares[i]);
      isoCapOut := ServeDevice(d, isoCapOut, requests, goes);
      SumUpdate(shares, i, IsoSum(d.cells));
      shares := shares[i := IsoSum(d.cells)];
    }
  }

  method ServeDevice(d: Device, cap: nat, requests: nat, goes: bool) returns (capOut: nat)
    requires d.Sound() && d.Idle() && IsoSum(d.cells) <= cap
    modifies d, d.budget
    ensures d.Sound() && d.Idle() && capOut == cap - old(IsoSum(d.cells)) + IsoSum(d.cells)
    ensures goes ==> IsoSum(d.cells) == 0
  {
    d.Enter(cap);
    d.Serve(requests);
    if goes {
      d.DeviceGone();
    }
    capOut := d.isoCapOut;
  }

  function Sum(shares: seq<nat>): nat {
    if shares == [] then 0 else shares[0] + Sum(shares[1..])
  }

  lemma {:induction false} SumUpdate(shares: seq<nat>, i: nat, n: nat)
    requires i < |shares|
    ensures Sum(shares[i := n]) == Sum(shares) - shares[i] + n && shares[i] <= Sum(shares)
  {
    if i == 0 {
      assert shares[i := n][1..] == shares[1..];
    } else {
      assert shares[i := n][1..] == shares[1..][i - 1 := n];
      SumUpdate(shares[1..], i - 1, n);
    }
  }

  lemma {:induction false} SumLast(shares: seq<nat>, n: nat)
    ensures Sum(shares + [n]) == Sum(shares) + n
  {
    if shares == [] {
      assert (shares + [n])[1..] == [];
    } else {
      assert (shares + [n])[1..] == shares[1..] + [n];
      SumLast(shares[1..], n);
    }
  }

  /** The rings a switch's own command drops: the pipes it detached and every held one not pinned. */
  function Reserved(cells: seq<Cell>): nat {
    if cells == [] then 0
    else (if cells[0].detached.Some? then 1 else 0) + |cells[0].retained| + Reserved(cells[1..])
  }

  lemma {:induction false} ReservedLast(cells: seq<Cell>, c: Cell)
    ensures Reserved(cells + [c]) == Reserved(cells) + (if c.detached.Some? then 1 else 0) + |c.retained|
  {
    if cells == [] {
      assert ([] + [c])[1..] == [];
    } else {
      assert (cells + [c])[1..] == cells[1..] + [c];
      ReservedLast(cells[1..], c);
    }
  }

  function Dropped(was: seq<Cell>, now: seq<Cell>): int
    requires |was| == |now|
  {
    if was == [] then 0
    else (if was[0].detached.Some? && PipeUnnamed(now[0], was[0].detached) then 1 else 0)
         + |was[0].retained| - |now[0].retained| + Dropped(was[1..], now[1..])
  }

  /** What hcdCfgSwitchReserved asks for outside the cap is exactly what the command, if it succeeds,
      drops: since every held pipe's DCI is stale, none is left behind. */
  lemma {:induction false} ReservationIsExact(was: seq<Cell>, now: seq<Cell>)
    requires |was| == |now|
    requires forall d :: 0 <= d < |was| ==> SamePipes(was[d], now[d]) && SwitchedOver(now[d])
    ensures Dropped(was, now) == Reserved(was)
  {
    if was != [] {
      ReservationIsExact(was[1..], now[1..]);
    }
  }

  lemma {:induction false} ReservedSame(was: seq<Cell>, now: seq<Cell>, serial: nat)
    requires |was| == |now| && forall d :: 0 <= d < |was| ==> BuiltOn(was[d], now[d], serial)
    ensures Reserved(was) == Reserved(now)
  {
    if was != [] {
      ReservedSame(was[1..], now[1..], serial);
    }
  }

  /** What a phase's control transfers came to. */
  method Transferred(s: Select) returns (e: Event)
    requires s.phase == Setif || s.phase == Clears || s.phase == Reclears
    ensures Heard(s, e)
  {
    var done, stalled: bool := *, *;
    if s.phase == Setif {
      e := if done then SetifDone else if stalled && s.mayRollback then SetifStalled else SetifFailed;
    } else {
      e := if done then ClearsDone else ClearsFailed;
    }
  }

  lemma OverByLast(step: Decision, b: Cell, r: Cell, told: seq<Event>)
    requires step.next.phase == End && Follows(step, r, b, Refusal(told)) && LastFates(step.actions, told)
    ensures SwitchOver(b, r, told)
  {
  }

  /** What is open at one DCI after a select: the whole new setting if it succeeded, the old pipes if they were
      put back, none of the switch's otherwise; what was open beside it always. */
  predicate OpenAfterwards(was: Cell, now: Cell, mine: bool, success: bool, putBack: bool, named: bool, serial: nat) {
    if putBack then now.open == was.open
    else if success && named then now.open.Some? && now.open.value.ring.serial >= serial
    else now.open == Beside(was.open, mine)
  }

  lemma OpenByStory(was: Cell, b: Cell, r: Cell, mine: bool, streams: bool, told: seq<Event>, serial: nat)
    requires Prepared(was, b, mine, streams, serial) && SwitchOver(b, r, told)
    ensures OpenAfterwards(was, r, mine, FateOf(true, told).Publish?, FateOf(false, told).Publish?, b.built.Some?,
                           serial)
  {
  }

  lemma AllOpenByStory(was: seq<Cell>, start: seq<Cell>, now: seq<Cell>, which: set<nat>, eps: seq<Endpoint>,
                       built: bool, streams: bool, told: seq<Event>, serial: nat)
    requires |was| == |start| == |now|
    requires forall d :: 0 <= d < |was| ==> Prepared(was[d], start[d], d in which, streams, serial)
    requires forall d :: 0 <= d < |was| ==> SwitchOver(start[d], now[d], told)
    requires built ==> BuiltFor(start, eps)
    requires FateOf(true, told).Publish? ==> built && !FateOf(false, told).Publish?
    ensures forall d :: 0 <= d < |was| ==>
              OpenAfterwards(was[d], now[d], d in which, FateOf(true, told).Publish?, FateOf(false, told).Publish?,
                             exists e :: e in eps && e.dci == d, serial)
  {
    forall d | 0 <= d < |was|
      ensures OpenAfterwards(was[d], now[d], d in which, FateOf(true, told).Publish?, FateOf(false, told).Publish?,
                             exists e :: e in eps && e.dci == d, serial)
    {
      OpenByStory(was[d], start[d], now[d], d in which, streams, told, serial);
    }
  }

  lemma PublishedAsMade(start: seq<Cell>, now: seq<Cell>, eps: seq<Endpoint>, told: seq<Event>)
    requires |start| == |now| && FateOf(true, told).Publish?
    requires forall d :: 0 <= d < |start| ==> SwitchOver(start[d], now[d], told)
    requires BuiltFor(start, eps)
    ensures forall e :: e in eps ==> MadeAs(now[e.dci].open, e)
  {
  }

  /** The new pipes are exactly those of the endpoints. */
  predicate BuiltFor(cells: seq<Cell>, eps: seq<Endpoint>) {
    && (forall e :: e in eps ==> e.dci < |cells| && MadeAs(cells[e.dci].built, e))
    && (forall d :: 0 <= d < |cells| && cells[d].built.Some? ==> exists e :: e in eps && e.dci == d)
  }

  lemma BuiltForStill(before: seq<Cell>, now: seq<Cell>, eps: seq<Endpoint>)
    requires |before| == |now| && BuiltFor(before, eps)
    requires forall d :: 0 <= d < |now| ==> now[d].built == before[d].built
    ensures BuiltFor(now, eps)
  {
  }

  lemma OneMoreFor(before: seq<Cell>, now: seq<Cell>, eps: seq<Endpoint>, e: Endpoint)
    requires |before| == |now| && e.dci < |now| && BuiltFor(before, eps)
    requires forall i :: 0 <= i < |now| && i != e.dci ==> now[i] == before[i]
    requires before[e.dci].built.None? && MadeAs(now[e.dci].built, e)
    ensures BuiltFor(now, eps + [e])
  {
    forall d | 0 <= d < |now| && now[d].built.Some? ensures exists x :: x in eps + [e] && x.dci == d {
      if d == e.dci {
        assert e in eps + [e];
      } else {
        var x :| x in eps && x.dci == d;
        assert x in eps + [e];
      }
    }
  }

  lemma OneMoreBuilt(was: seq<Cell>, before: seq<Cell>, now: seq<Cell>, d: nat, serial: nat)
    requires |was| == |before| == |now| && d < |now|
    requires forall i :: 0 <= i < |was| ==> BuiltOn(was[i], before[i], serial)
    requires forall i :: 0 <= i < |was| && i != d ==> now[i] == before[i]
    requires now[d] == before[d] || (before[d].built.None? && BuiltOn(before[d], now[d], serial))
    ensures forall i :: 0 <= i < |was| ==> BuiltOn(was[i], now[i], serial)
  {
    forall i | 0 <= i < |was| ensures BuiltOn(was[i], now[i], serial) {
      assert BuiltOn(was[i], before[i], serial);
    }
  }

  /** An endpoint that found a new pipe or an open one names another's DCI, or one left open. */
  lemma ClashFound(was: seq<Cell>, before: seq<Cell>, eps: seq<Endpoint>, n: nat, serial: nat)
    requires |was| == |before| && n < |eps| && eps[n].dci < |was| && BuiltFor(before, eps[..n])
    requires BuiltOn(was[eps[n].dci], before[eps[n].dci], serial)
    ensures before[eps[n].dci].built.Some? || before[eps[n].dci].open.Some? ==> Clash(was, {}, eps)
  {
    if before[eps[n].dci].built.Some? {
      var e :| e in eps[..n] && e.dci == eps[n].dci;
      var m :| 0 <= m < n && eps[m] == e;
    } else if before[eps[n].dci].open.Some? {
      assert eps[n] in eps;
    }
  }

  lemma StreamsTaken(was: seq<Cell>, now: seq<Cell>, which: set<nat>)
    requires |was| == |now| && forall d :: 0 <= d < |was| ==>
               was[d].detached.None? && now[d] == Taken(was[d], d in which)
    ensures HadStreams(was, which) <==>
            exists d :: 0 <= d < |now| && now[d].detached.Some? && now[d].detached.value.block.Some?
  {
    if d :| 0 <= d < |was| && d in which && was[d].open.Some? && was[d].open.value.block.Some? {
      assert now[d].detached == was[d].open;
    }
    if d :| 0 <= d < |now| && now[d].detached.Some? && now[d].detached.value.block.Some? {
      assert now[d] == Taken(was[d], d in which);
    }
  }

  lemma PreparedFrom(c: Cell, taken: Cell, r: Cell, mine: bool, streams: bool, serial: nat)
    requires c.detached.None? && taken == Taken(c, mine) && taken.built.None? && BuiltOn(taken, r, serial)
    requires taken.detached.Some? && taken.detached.value.block.Some? ==> streams
    ensures Prepared(c, r, mine, streams, serial)
  {
  }

  lemma DropIsEntitled(c: Cell, e: Event)
    requires e.Success? ==> SwitchedOver(c)
    ensures CanApply(c, DropStep(e))
  {
  }

  /** What a command that only drops makes of what it dropped. */
  function DropFate(e: Event): Fate {
    if e.Success? then Free else if e.NotIssued? || e.Refused? then Retain else Pin
  }

  predicate DropOver(c: Cell, r: Cell, e: Event) {
    && r.detached.None? && r.built == c.built && r.open == c.open && Met(c.detached, r, DropFate(e))
    && (e.Success? ==> r.retained == c.retained)
    && r.stale == ((c.stale && !e.Success?) || HoldsOne(c.detached, DropFate(e)))
  }

  lemma DropFollows(c: Cell, r: Cell, e: Event)
    requires AppliedTo(c, r, DropStep(e))
    ensures DropOver(c, r, e)
  {
  }

  /** What a switch's command that succeeded leaves: no old pipe named, none held that is not pinned. */
  predicate SwitchedOver(c: Cell) {
    PipeUnnamed(c, c.detached) && c.retained == []
  }

  predicate Vanished(c: Cell) {
    c.open.None? && c.detached.None? && c.built.None? && c.retained == [] && c.pinned == [] && c.retired == multiset{}
  }

  lemma {:induction false} NothingCounted(cells: seq<Cell>)
    requires forall d :: 0 <= d < |cells| ==> Vanished(cells[d])
    ensures IsoSum(cells) == 0
  {
    if cells != [] {
      NothingCounted(cells[1..]);
    }
  }

  lemma BlockSuperseded(c: Cell, r: Cell, dci: nat)
    requires c.open.Some? && c.open.value.block.Some? && AllocInv(c, c.open.value.block.value)
    requires WentAs(RecycleBare(dci), dci, c, r)
    ensures !Named(r, c.open.value.block.value)
  {
    WentBare(c, r, dci);
    BlockUnnamed(c, r, c.open.value);
  }

  lemma WentBare(c: Cell, r: Cell, dci: nat)
    requires WentAs(RecycleBare(dci), dci, c, r)
    ensures Went(c, r, true, WithoutBlock(c.open))
  {
  }

  lemma BlockUnnamed(c: Cell, r: Cell, p: Pipe)
    requires c.open == Some(p) && p.block.Some? && AllocInv(c, p.block.value) && Went(c, r, true, WithoutBlock(c.open))
    ensures !Named(r, p.block.value)
  {
    HeldOnceAtMost(c, p, p.block.value);
    BlockAlone(p, p.block.value);
    NamesOnly(c, r, WithoutBlock(c.open), p.block.value);
  }

  lemma HeldOnceAtMost(c: Cell, p: Pipe, a: Alloc)
    requires c.open == Some(p) && AllocInv(c, a)
    ensures Owned(p)[a] <= 1
  {
    assert OwnedBy(c.open)[a] <= Places(c, a);
  }

  /** After a command that dropped the endpoint its context names only what it added. */
  lemma NamesOnly(c: Cell, r: Cell, add: Option<Pipe>, a: Alloc)
    requires Went(c, r, true, add) && a !in OwnedBy(add)
    ensures !Named(r, a)
  {
  }

  lemma BlockAlone(p: Pipe, b: Alloc)
    requires p.block == Some(b) && Owned(p)[b] <= 1
    ensures b !in OwnedBy(WithoutBlock(Some(p)))
  {
  }

  /** A hub's new pipe `p`, on a ring not acquired before, met what its command's outcome calls for: published
      after a success, pinned after no answer, its ring given back otherwise. */
  predicate NewPipeMet(c: Cell, r: Cell, p: Pipe, e: Event) {
    && p.ring !in c.made && p.ring in r.made && !p.isoch
    && r.open == (if e.Success? then Some(p) else c.open)
    && r.pinned == (if e.Unknown? then [Closed(p)] + c.pinned else c.pinned)
    && (e.Refused? || e.NotIssued? ==> WentBack(Some(p), r))
  }

  /** What a configuration's command makes of the pipes it would have added; with none sent they are taken
      down by a deconfigure, as after one that succeeded. */
  function AddFate(e: Event): Fate {
    if e.Unknown? then Pin else if e.Refused? then Free else Publish
  }

  /** A new pipe, if there was one, met its fate: published, pinned, or its ring given back. */
  predicate Settled(c: Cell, r: Cell, f: Fate) {
    && r.detached.None? && r.built.None? && r.made == c.made
    && r.open == (if f.Publish? && c.built.Some? then c.built else c.open)
    && r.pinned == (if f.Pin? && c.built.Some? then [Closed(c.built.value)] + c.pinned else c.pinned)
    && (f.Free? ==> WentBack(c.built, r))
  }

  /** Nothing held but the pinned, and nothing retired. */
  predicate Cleared(c: Cell) {
    c.retained == [] && c.retired == multiset{}
  }

  lemma StaysCleared(plan: Plan, d: nat, c: Cell, r: Cell)
    requires Cleared(c) && (WentAs(plan, d, c, r) || SameTables(c, r) || r == c)
    ensures Cleared(r) && r.stale == c.stale
  {
  }

  method Unmark(c: Cell) returns (r: Cell)
    requires CellInv(c) && c.retained == []
    ensures CellInv(r) && r == c.(stale := false)
  {
    r := c.(stale := false);
    forall a ensures AllocInv(r, a) {
      MovedAlloc(c, r, a);
    }
  }

  /** A DCI after a command that dropped every endpoint, and what it reclaimed. */
  predicate DroppedAll(c: Cell) {
    c.ctx == {} && c.retained == [] && c.retired == multiset{}
  }

  /** A DCI after a deconfigure: its endpoint Disabled if it had a pipe or was stale, and nothing of it left
      open, held or stale. */
  predicate TakenDown(c: Cell, r: Cell) {
    && (c.open.Some? || c.stale ==> r.ctx == {})
    && r.open.None? && r.retained == [] && !r.stale && r.pinned == c.pinned
  }

  /** Every ring ever acquired here is pinned or given back. */
  ghost predicate BackOrPinned(c: Cell) {
    forall a :: a in c.made && a.kind.Ring? ==> OwnedAll(c.pinned)[a] + c.back[a] == 1
  }

  lemma RingsSettled(c: Cell)
    requires CellInv(c) && c.open.None? && c.detached.None? && c.built.None? && c.retained == []
    ensures BackOrPinned(c)
  {
    forall a | a in c.made && a.kind.Ring? ensures OwnedAll(c.pinned)[a] + c.back[a] == 1 {
      RingInOnePlace(c, a);
    }
  }

  predicate ShutDown(c: Cell, r: Cell) {
    r.open.None? && r.detached.None? && r.built.None? && r.retained == [] && !r.stale
    && r.pinned == c.pinned && r.pins == c.pins
    && r.ctx == c.ctx
  }

  /** A DCI whose old pipe is detached if the switch is its own, and whose new pipe, if any, is on a
      new ring that no context names. */
  predicate Prepared(c: Cell, r: Cell, mine: bool, streams: bool, serial: nat) {
    && r.open == Beside(c.open, mine)
    && r.detached == (if mine then c.open else None)
    && (r.detached.Some? && r.detached.value.block.Some? ==> streams)
    && PipeUnnamed(r, r.built)
    && (r.built.Some? ==> r.built.value.ring.serial >= serial)
  }

  /** What a switch leaves open beside itself. */
  function Beside(open: Option<Pipe>, mine: bool): Option<Pipe> {
    if mine then None else open
  }

  datatype Endpoint = Endpoint(dci: nat, isoch: bool)

  /** The pipe of this endpoint. */
  predicate MadeAs(p: Option<Pipe>, e: Endpoint) {
    p.Some? && p.value.isoch == e.isoch
  }

  /** A new pipe perhaps, on a ring acquired since `serial`, that no context names. */
  predicate BuiltOn(c: Cell, r: Cell, serial: nat) {
    Grew(c, r) && (r.built.Some? ==> PipeUnnamed(r, r.built) && r.built.value.ring.serial >= serial)
  }

  /** A pool ring, and for an isochronous endpoint alone an event count and perhaps a page, for a DCI with
      neither an open nor a new pipe. */
  method Acquire(c: Cell, d: nat, serial: nat, isoch: bool, cap: nat) returns (r: Cell, left: nat)
    requires CellInv(c) && c.open.None? && c.built.None?
    requires Numbered(c, d, serial)
    ensures CellInv(r) && Grew(c, r) && r.built.Some? && left - cap == Iso(r) - Iso(c)
    ensures Numbered(r, d, serial + 1) && r.built.value.isoch == isoch
    ensures PipeUnnamed(r, r.built) && r.built.value.ring == Alloc(Ring, d, serial) && r.built.value.ring in r.made
  {
    var count, trbs, paged;
    count, left, trbs, paged := 0, cap, POOL_RING_TRBS, false;
    if isoch {
      count, left, trbs, paged := CountIso(cap);
    }
    var p := Pipe(Alloc(Ring, d, serial), None, if paged then Some(Alloc(IsoPage, d, serial)) else None,
                  isoch, trbs, count);
    assert forall a :: a in Names(Some(p)) ==> a.dci == d && a.serial == serial;
    r := Build(c, p);
  }

  /** The refusal's way out of hcdCfgPipeNew. */
  method Unbuild(c: Cell, cap: nat) returns (r: Cell, left: nat)
    requires CellInv(c) && c.built.Some? && PipeUnnamed(c, c.built) && Iso(c) <= cap
    ensures CellInv(r) && Grew(c.(built := None), r) && r.built.None? && r.made == c.made
    ensures left - cap == Iso(r) - Iso(c) && WentBack(c.built, r)
  {
    BuiltInHand(c);
    r, left := GiveUp(c.(built := None), c.built.value, PROVEN, cap);
  }

  method NewPipe(c: Cell, d: nat, serial: nat, isoch: bool, cap: nat) returns (r: Cell, left: nat, ok: bool)
    requires CellInv(c) && c.open.None? && c.built.None? && Iso(c) <= cap
    requires Numbered(c, d, serial)
    ensures CellInv(r) && Grew(c, r) && r.built.Some? == ok && left - cap == Iso(r) - Iso(c)
    ensures Numbered(r, d, serial + 1)
    ensures ok ==> PipeUnnamed(r, r.built) && r.built.value.ring == Alloc(Ring, d, serial)
                   && r.built.value.ring in r.made && r.built.value.isoch == isoch
  {
    r, left, ok := c, cap, false;
    var acquired: bool := *;
    if acquired {
      r, left := Acquire(c, d, serial, isoch, cap);
      ok := *;                                  // the block of packets, and the ring's own set-up
      if !ok {
        r, left := Unbuild(r, left);
      }
    }
  }

  /** An endpoint taken by a switch. */
  function Taken(c: Cell, mine: bool): Cell {
    if mine && c.open.Some? then c.(detached := c.open, open := None) else c
  }

  /** Only the new pipe, and what was acquired and given back making it, differ. */
  predicate Grew(c: Cell, r: Cell) {
    r.(built := c.built, made := c.made, back := c.back, retired := c.retired, kept := c.kept) == c
  }

  /** hcdCfgIsoPage's accounting: counted at the allowance asked for, and corrected to the pool
      ring's count when no memory comes of the grant. */
  method CountIso(cap: nat) returns (count: nat, capOut: nat, trbs: nat, paged: bool)
    ensures capOut == cap + count && trbs >= 2 && count == trbs - 2 + ISO_EVENTS_OVER_TRBS
    ensures !paged ==> trbs == POOL_RING_TRBS
  {
    var poolCount := POOL_RING_TRBS - 2 + ISO_EVENTS_OVER_TRBS;
    var wanted: nat := *;
    var granted, memory: bool := *, *;
    paged := granted && wanted >= 2;
    trbs := if paged then wanted else POOL_RING_TRBS;
    count := if paged then wanted - 2 + ISO_EVENTS_OVER_TRBS else poolCount;
    capOut := cap + count;
    if paged && !memory {
      var corrected: int := capOut - (count - poolCount);
      capOut, count, trbs, paged := corrected, poolCount, POOL_RING_TRBS, false;
    }
  }

  lemma {:induction false} EmptySum(n: nat)
    ensures IsoSum(seq(n, _ => EmptyCell)) == 0
  {
    if n > 0 {
      assert seq(n, _ => EmptyCell)[1..] == seq(n - 1, _ => EmptyCell);
      EmptySum(n - 1);
    }
  }
}
