/**
 The firmware-table set of hcd_acpi.c: one allocation, read by requests, published on the
 controller, taken off it by a release, a stop or the answer that carried its last byte, and
 freed by whoever leaves it Gone with no reader.

 Every section run under AcpiLock, every touch of the gate and every free is one atomic step of
 one thread; a run is any interleaving of such steps. Table reading, physical memory and the
 answer's layout are the environment's choice.
 */
module AcpiTables {
  import opened Common

  type Thread = nat
  type SetId = nat

  /** AcpiEpoch is a 32-bit count. */
  const EPOCHS: nat := 0x1_0000_0000

  /** The head of a set (HCD_ACPI_SET). Its body shares its fate. */
  datatype TableSet = TableSet(readers: nat, gone: bool, gen: nat)

  /** Where a thread stands. `adm` is how many stops the controller had seen when the request was
      admitted; the program keeps it modulo EPOCHS. */
  datatype Pc =
    | Admitting(release: bool, first: bool)         // before the admission's lock; first: from == 0
    | Deciding(adm: nat, first: bool, held: Option<SetId>)
    | Waiting(adm: nat)
    | Gated(adm: nat)                               // holds the gate from here ...
    | Reading(adm: nat)
    | Publishing(adm: nat, made: SetId)
    | Discarding(made: SetId)
    | Refused
    | Ungating(held: Option<SetId>)                 // ... to here
    | Answering(held: Option<SetId>)
    | LastByte(id: SetId)
    | Putting(id: SetId)
    | Stopping
    | Freeing(id: SetId)                            // no lock held, about to free
    | Done

  datatype State = State(
    cur: Option<SetId>,              // hc->AcpiSet
    closed: bool,                    // hc->AcpiClosed
    stops: nat,                      // hc->AcpiEpoch is stops % EPOCHS
    gen: nat,                        // hc->AcpiGen
    gateFree: bool,                  // hc->AcpiGate signalled
    sets: map<SetId, TableSet>,      // the sets allocated
    freed: multiset<SetId>,          // every free ever made
    next: SetId,                     // identities are not reused
    pcs: map<Thread, Pc>)

  datatype Action =
    | Begin(t: Thread, pc: Pc)
    | Admit(t: Thread)
    | Decide(t: Thread, refused: bool)
    | Wait(t: Thread, got: bool)
    | TestGated(t: Thread)
    | Read(t: Thread, ok: bool)
    | Publish(t: Thread)
    | Discard(t: Thread)
    | Ungate(t: Thread)
    | Answer(t: Thread, last: bool)
    | TakeOff(t: Thread)
    | Put(t: Thread)
    | Stop(t: Thread)
    | Free(t: Thread)
    | Open

  function Init(): State {
    State(None, true, 0, 0, true, map[], multiset{}, 0, map[])
  }

  // ----- the sections under AcpiLock ------------------------------------------------------

  /** A 32-bit increment that skips 0. */
  function NextGen(gen: nat): nat {
    var g := (gen + 1) % EPOCHS;
    if g == 0 then 1 else g
  }

  function Go(s: State, t: Thread, pc: Pc): State {
    s.(pcs := s.pcs[t := pc])
  }

  /** hcdAcpiDetach: the set off the controller; whoever called frees it if nobody reads it. */
  function Detached(s: State): State
    requires s.cur.Some? ==> s.cur.value in s.sets
  {
    if s.cur.None? then s
    else s.(cur := None, sets := s.sets[s.cur.value := s.sets[s.cur.value].(gone := true)])
  }

  function DetachPc(s: State): Pc
    requires s.cur.Some? ==> s.cur.value in s.sets
  {
    if s.cur.Some? && s.sets[s.cur.value].readers == 0 then Freeing(s.cur.value) else Done
  }

  function AddReader(s: State, id: SetId): State
    requires id in s.sets
  {
    s.(sets := s.sets[id := s.sets[id].(readers := s.sets[id].readers + 1)])
  }

  function Released(s: State, id: SetId): State
  {
    s.(sets := s.sets - {id}, freed := s.freed + multiset{id})
  }

  predicate SameEpoch(s: State, adm: nat) {
    s.stops % EPOCHS == adm % EPOCHS
  }

  function PublishStep(s: State, t: Thread): State
    requires t in s.pcs && s.pcs[t].Publishing? && s.pcs[t].made in s.sets
  {
    var id := s.pcs[t].made;
    if !s.closed && SameEpoch(s, s.pcs[t].adm) && s.cur.None? then
      var g := NextGen(s.gen);
      Go(s.(gen := g, cur := Some(id), sets := s.sets[id := s.sets[id].(gen := g)]),
         t, Ungating(Some(id)))
    else
      Go(s, t, Discarding(id))
  }

  function TestGatedStep(s: State, t: Thread): State
    requires t in s.pcs && s.pcs[t].Gated?
    requires s.cur.Some? ==> s.cur.value in s.sets
  {
    if s.closed || !SameEpoch(s, s.pcs[t].adm) then Go(s, t, Refused)
    else if s.cur.Some? then Go(AddReader(s, s.cur.value), t, Ungating(s.cur))
    else Go(s, t, Reading(s.pcs[t].adm))
  }

  function AdmitStep(s: State, t: Thread): State
    requires t in s.pcs && s.pcs[t].Admitting?
    requires s.cur.Some? ==> s.cur.value in s.sets
  {
    var pc := s.pcs[t];
    if s.closed then Go(s, t, Done)
    else if pc.release then Go(Detached(s), t, DetachPc(s))
    else if s.cur.Some? then Go(AddReader(s, s.cur.value), t, Deciding(s.stops, pc.first, s.cur))
    else Go(s, t, Deciding(s.stops, pc.first, None))
  }

  function PutStep(s: State, t: Thread): State
    requires t in s.pcs && s.pcs[t].Putting?
    requires s.pcs[t].id in s.sets && s.sets[s.pcs[t].id].readers > 0
  {
    var id := s.pcs[t].id;
    var set' := s.sets[id].(readers := s.sets[id].readers - 1);
    Go(s.(sets := s.sets[id := set']), t,
       if set'.readers == 0 && set'.gone then Freeing(id) else Done)
  }

  function TakeOffStep(s: State, t: Thread): State
    requires t in s.pcs && s.pcs[t].LastByte? && s.pcs[t].id in s.sets
  {
    var id := s.pcs[t].id;
    if s.cur == Some(id) then Go(Detached(s), t, Putting(id)) else Go(s, t, Putting(id))
  }

  // ----- one step -------------------------------------------------------------------------

  /** Which actions a thread can take: only where its program counter is, never what the
      invariant promises. */
  predicate Enabled(s: State, a: Action) {
    match a
    case Begin(t, pc) => (t !in s.pcs || s.pcs[t].Done?) && (pc.Admitting? || pc.Stopping?)
    case Admit(t) => t in s.pcs && s.pcs[t].Admitting?
    case Decide(t, _) => t in s.pcs && s.pcs[t].Deciding?
    case Wait(t, got) => t in s.pcs && s.pcs[t].Waiting? && (got ==> s.gateFree)
    case TestGated(t) => t in s.pcs && s.pcs[t].Gated?
    case Read(t, _) => t in s.pcs && s.pcs[t].Reading?
    case Publish(t) => t in s.pcs && s.pcs[t].Publishing?
    case Discard(t) => t in s.pcs && s.pcs[t].Discarding?
    case Ungate(t) => t in s.pcs && (s.pcs[t].Ungating? || s.pcs[t].Refused?)
    case Answer(t, _) => t in s.pcs && s.pcs[t].Answering?
    case TakeOff(t) => t in s.pcs && s.pcs[t].LastByte?
    case Put(t) => t in s.pcs && s.pcs[t].Putting?
    case Stop(t) => t in s.pcs && s.pcs[t].Stopping?
    case Free(t) => t in s.pcs && s.pcs[t].Freeing?
    case Open => true
  }

  /** Every set a step is about to dereference: what must still be allocated for the step to
      mean anything. */
  function Touches(s: State, a: Action): set<SetId>
    requires Enabled(s, a)
  {
    var onHc := if s.cur.Some? then {s.cur.value} else {};
    match a
    case Admit(_) => onHc
    case TestGated(_) => onHc
    case Publish(t) => {s.pcs[t].made}
    case Discard(t) => {s.pcs[t].made}
    case Answer(t, _) => if s.pcs[t].held.Some? then {s.pcs[t].held.value} else {}
    case TakeOff(t) => {s.pcs[t].id}
    case Put(t) => {s.pcs[t].id}
    case Stop(_) => onHc
    case Free(t) => {s.pcs[t].id}
    case _ => {}
  }

  /** What a step that drops a reader needs of the count: that it does not wrap below 0. */
  predicate Counted(s: State, a: Action)
    requires Enabled(s, a)
  {
    a.Put? && s.pcs[a.t].id in s.sets ==> s.sets[s.pcs[a.t].id].readers > 0
  }

  function Step(s: State, a: Action): State
    requires Enabled(s, a) && Touches(s, a) <= s.sets.Keys && Counted(s, a)
  {
    match a
    case Begin(t, pc) => Go(s, t, pc)
    case Admit(t) => AdmitStep(s, t)
    case Decide(t, refused) =>
      var pc := s.pcs[t];
      Go(s, t, if !refused && pc.held.None? && pc.first then Waiting(pc.adm) else Answering(pc.held))
    case Wait(t, got) =>
      if got then Go(s.(gateFree := false), t, Gated(s.pcs[t].adm)) else Go(s, t, Answering(None))
    case TestGated(t) => TestGatedStep(s, t)
    case Read(t, ok) =>
      if ok then
        Go(s.(sets := s.sets[s.next := TableSet(1, false, 0)], next := s.next + 1),
           t, Publishing(s.pcs[t].adm, s.next))
      else Go(s, t, Ungating(None))
    case Publish(t) => PublishStep(s, t)
    case Discard(t) => Go(Released(s, s.pcs[t].made), t, Refused)
    case Ungate(t) =>
      Go(s.(gateFree := true), t, if s.pcs[t].Ungating? then Answering(s.pcs[t].held) else Done)
    case Answer(t, last) =>
      var h := s.pcs[t].held;
      Go(s, t, if h.None? then Done else if last then LastByte(h.value) else Putting(h.value))
    case TakeOff(t) => TakeOffStep(s, t)
    case Put(t) => PutStep(s, t)
    case Stop(t) => Go(Detached(s).(stops := s.stops + 1, closed := true), t, DetachPc(s))
    case Free(t) => Go(Released(s, s.pcs[t].id), t, Done)
    case Open => s.(closed := false)
  }

  // ----- the invariant --------------------------------------------------------------------

  /** What a thread can be to a set, or to the gate. */
  datatype Role =
    | Reader(id: SetId)        // counts itself in Readers
    | Maker(id: SetId)         // made it and has not published it
    | Freer(id: SetId)         // is about to free it
    | GateHolder
    | FoundNone                // holds the gate and found AcpiSet NULL

  predicate Plays(pc: Pc, role: Role) {
    match role
    case Reader(id) => (
      match pc
      case Deciding(_, _, h) => h == Some(id)
      case Publishing(_, made) => made == id
      case Discarding(made) => made == id
      case Ungating(h) => h == Some(id)
      case Answering(h) => h == Some(id)
      case LastByte(x) => x == id
      case Putting(x) => x == id
      case _ => false)
    case Maker(id) => (pc.Publishing? || pc.Discarding?) && pc.made == id
    case Freer(id) => pc == Freeing(id)
    case GateHolder => pc.Gated? || pc.Reading? || pc.Publishing? || pc.Discarding? || pc.Refused? || pc.Ungating?
    case FoundNone => pc.Reading? || pc.Publishing?
  }

  function Count(s: State, role: Role): nat {
    |Players(s.pcs, Plays, role)|
  }

  function Share(pc: Pc, role: Role): nat {
    One(Plays(pc, role))
  }

  function Had(s: State, t: Thread, role: Role): nat {
    if t in s.pcs then Share(s.pcs[t], role) else 0
  }

  /** One set's state, as the counts of the threads around it fix it: the reader count is the
      number of readers; a set Gone with no reader has exactly one thread about to free it and no
      other set has any; a set neither Gone nor on the controller is its maker's alone; a set was
      freed once if it is no longer allocated and never otherwise. */
  ghost predicate SetInv(s: State, id: SetId) {
    var readers, makers, freers := Count(s, Reader(id)), Count(s, Maker(id)), Count(s, Freer(id));
    && s.freed[id] == (if id < s.next && id !in s.sets then 1 else 0)
    && (id !in s.sets ==> s.cur != Some(id) && readers == makers == freers == 0)
    && (id in s.sets ==>
          var x := s.sets[id];
          && id < s.next
          && x.readers == readers
          && (x.gone ==> s.cur != Some(id))
          && freers == (if x.gone && readers == 0 then 1 else 0)
          && makers == (if !x.gone && s.cur != Some(id) then 1 else 0)
          && (makers == 1 ==> readers == 1))
  }

  ghost predicate GateInv(s: State) {
    && Count(s, GateHolder) == (if s.gateFree then 0 else 1)
    && (Count(s, FoundNone) > 0 ==> s.cur.None?)
  }

  predicate Admitted(stops: nat, pc: Pc) {
    match pc
    case Deciding(adm, _, _) => adm <= stops
    case Waiting(adm) => adm <= stops
    case Gated(adm) => adm <= stops
    case Reading(adm) => adm <= stops
    case Publishing(adm, _) => adm <= stops
    case _ => true
  }

  ghost predicate Inv(s: State) {
    && (forall id :: SetInv(s, id))
    && GateInv(s)
    && AllAdmitted(s)
  }

  // ----- proofs ---------------------------------------------------------------------------

  /** A reader that is not the maker is counted beside it. */
  lemma ReaderBesideMaker(s: State, t: Thread, id: SetId)
    requires t in s.pcs && Plays(s.pcs[t], Reader(id)) && !Plays(s.pcs[t], Maker(id))
    ensures Count(s, Reader(id)) > Count(s, Maker(id))
  {
    var makers, readers := Players(s.pcs, Plays, Maker(id)), Players(s.pcs, Plays, Reader(id));
    assert makers + {t} <= readers;
    assert |readers| == |makers + {t}| + |readers - (makers + {t})|;
  }

  lemma FoundNoneHasGate(s: State)
    ensures Count(s, FoundNone) <= Count(s, GateHolder)
  {
    var none, gate := Players(s.pcs, Plays, FoundNone), Players(s.pcs, Plays, GateHolder);
    assert none <= gate;
    assert |gate| == |none| + |gate - none|;
  }

  /** Nothing is dereferenced after it was freed, and no count wraps below 0: every enabled step of
      a state that satisfies the invariant finds what it touches allocated and never freed. */
  lemma NeverReadAfterFree(s: State, a: Action)
    requires Inv(s) && Enabled(s, a)
    ensures Touches(s, a) <= s.sets.Keys && Counted(s, a)
    ensures forall id :: id in Touches(s, a) ==> s.freed[id] == 0
  {
    forall id | id in Touches(s, a)
      ensures id in s.sets && s.freed[id] == 0
    {
      assert SetInv(s, id);
      if id !in s.sets {
        Nobody(s.pcs, Plays, Reader(id));
        Nobody(s.pcs, Plays, Freer(id));
      }
    }
    if a.Put? {
      Playing(s.pcs, Plays, a.t, Reader(s.pcs[a.t].id));
      assert SetInv(s, s.pcs[a.t].id);
    }
  }

  ghost predicate CanStep(s: State, a: Action) {
    Enabled(s, a) && Touches(s, a) <= s.sets.Keys && Counted(s, a)
  }

  lemma MovedAround(s: State, t: Thread, pc: Pc, id: SetId)
    ensures var pcs' := s.pcs[t := pc];
            && |Players(pcs', Plays, Reader(id))| ==
               Count(s, Reader(id)) + Share(pc, Reader(id)) - Had(s, t, Reader(id))
            && |Players(pcs', Plays, Maker(id))| == Count(s, Maker(id)) + Share(pc, Maker(id)) - Had(s, t, Maker(id))
            && |Players(pcs', Plays, Freer(id))| == Count(s, Freer(id)) + Share(pc, Freer(id)) - Had(s, t, Freer(id))
  {
    Moved(s.pcs, Plays, t, pc, Reader(id));
    Moved(s.pcs, Plays, t, pc, Maker(id));
    Moved(s.pcs, Plays, t, pc, Freer(id));
  }

  lemma CountsStay(s: State, s': State, t: Thread, id: SetId)
    requires t in s'.pcs && s'.pcs == s.pcs[t := s'.pcs[t]]
    requires forall role | role == Reader(id) || role == Maker(id) || role == Freer(id) ::
               Share(s'.pcs[t], role) == Had(s, t, role)
    ensures Count(s', Reader(id)) == Count(s, Reader(id))
    ensures Count(s', Maker(id)) == Count(s, Maker(id))
    ensures Count(s', Freer(id)) == Count(s, Freer(id))
  {
    MovedAround(s, t, s'.pcs[t], id);
  }

  /** A step that moves one thread between places with the same part in this set, and touches
      nothing of it, keeps the set's invariant. */
  lemma SetKeptElsewhere(s: State, s': State, t: Thread, id: SetId)
    requires SetInv(s, id)
    requires t in s'.pcs && s'.pcs == s.pcs[t := s'.pcs[t]]
    requires forall role | role == Reader(id) || role == Maker(id) || role == Freer(id) ::
               Share(s'.pcs[t], role) == Had(s, t, role)
    requires (s'.cur == Some(id)) == (s.cur == Some(id)) && s'.freed[id] == s.freed[id]
    requires s'.next == s.next || (s'.next == s.next + 1 && id != s.next)
    requires id in s'.sets <==> id in s.sets
    requires id in s.sets ==> s'.sets[id].(gen := 0) == s.sets[id].(gen := 0)
    ensures SetInv(s', id)
  {
    CountsStay(s, s', t, id);
  }

  lemma SetKeptMoves(s: State, a: Action, id: SetId)
    requires SetInv(s, id) && CanStep(s, a) && (a.Begin? || a.Decide? || a.Wait? || a.Ungate? || a.Answer?)
    ensures SetInv(Step(s, a), id)
  {
    SetKeptElsewhere(s, Step(s, a), a.t, id);
  }

  lemma SetKeptAdmit(s: State, a: Action, id: SetId)
    requires SetInv(s, id) && CanStep(s, a) && a.Admit?
    ensures SetInv(Step(s, a), id)
  {
    if s.cur == Some(id) {
      MovedAround(s, a.t, Step(s, a).pcs[a.t], id);
    } else {
      SetKeptElsewhere(s, Step(s, a), a.t, id);
    }
  }

  lemma SetKeptTestGated(s: State, a: Action, id: SetId)
    requires SetInv(s, id) && CanStep(s, a) && a.TestGated?
    ensures SetInv(Step(s, a), id)
  {
    MovedAround(s, a.t, Step(s, a).pcs[a.t], id);
  }

  lemma SetKeptRead(s: State, a: Action, id: SetId)
    requires SetInv(s, id) && CanStep(s, a) && a.Read?
    ensures SetInv(Step(s, a), id)
  {
    MovedAround(s, a.t, Step(s, a).pcs[a.t], id);
  }

  lemma SetKeptPublish(s: State, t: Thread, id: SetId)
    requires SetInv(s, id) && CanStep(s, Publish(t))
    ensures SetInv(PublishStep(s, t), id)
  {
    if PublishStep(s, t).cur == Some(id) && s.cur != Some(id) {
      MovedAround(s, t, Ungating(Some(id)), id);
    } else {
      SetKeptElsewhere(s, PublishStep(s, t), t, id);
    }
  }

  lemma SetKeptFreed(s: State, a: Action, id: SetId)
    requires SetInv(s, id) && CanStep(s, a) && (a.Discard? || a.Free?)
    ensures SetInv(Step(s, a), id)
  {
    MovedAround(s, a.t, Step(s, a).pcs[a.t], id);
  }

  lemma SetKeptTakeOff(s: State, t: Thread, id: SetId)
    requires SetInv(s, id) && CanStep(s, TakeOff(t))
    ensures SetInv(TakeOffStep(s, t), id)
  {
    if s.pcs[t].id == id && s.cur == Some(id) {
      Playing(s.pcs, Plays, t, Reader(id));
      CountsStay(s, TakeOffStep(s, t), t, id);
    } else {
      SetKeptElsewhere(s, TakeOffStep(s, t), t, id);
    }
  }

  lemma SetKeptPut(s: State, a: Action, id: SetId)
    requires SetInv(s, id) && CanStep(s, a) && a.Put?
    ensures SetInv(Step(s, a), id)
  {
    if s.pcs[a.t].id == id {
      ReaderBesideMaker(s, a.t, id);
      MovedAround(s, a.t, Step(s, a).pcs[a.t], id);
    } else {
      SetKeptElsewhere(s, Step(s, a), a.t, id);
    }
  }

  lemma SetKeptStop(s: State, a: Action, id: SetId)
    requires SetInv(s, id) && CanStep(s, a) && a.Stop?
    ensures SetInv(Step(s, a), id)
  {
    if s.cur == Some(id) {
      MovedAround(s, a.t, Step(s, a).pcs[a.t], id);
    } else {
      SetKeptElsewhere(s, Step(s, a), a.t, id);
    }
  }

  lemma SetKept(s: State, a: Action, id: SetId)
    requires SetInv(s, id) && CanStep(s, a)
    ensures SetInv(Step(s, a), id)
  {
    match a
    case Admit(_) => SetKeptAdmit(s, a, id);
    case TestGated(_) => SetKeptTestGated(s, a, id);
    case Read(_, _) => SetKeptRead(s, a, id);
    case Publish(t) => SetKeptPublish(s, t, id);
    case Discard(_) => SetKeptFreed(s, a, id);
    case Free(_) => SetKeptFreed(s, a, id);
    case TakeOff(t) => SetKeptTakeOff(s, t, id);
    case Put(_) => SetKeptPut(s, a, id);
    case Stop(_) => SetKeptStop(s, a, id);
    case Open =>
    case _ => SetKeptMoves(s, a, id);
  }

  /** How the gate's two roles and the controller's set move in one step. */
  lemma GateKeptBy(s: State, s': State, t: Thread)
    requires GateInv(s)
    requires t in s'.pcs && s'.pcs == s.pcs[t := s'.pcs[t]]
    requires (if s'.gateFree then 0 else 1) - (if s.gateFree then 0 else 1)
             == Share(s'.pcs[t], GateHolder) - Had(s, t, GateHolder)
    requires s'.cur == s.cur || s'.cur.None? || Had(s, t, FoundNone) == 1
    requires Share(s'.pcs[t], FoundNone) == 1 ==> s'.cur.None?
    ensures GateInv(s')
  {
    FoundNoneHasGate(s);
    FoundNoneHasGate(s');
    Moved(s.pcs, Plays, t, s'.pcs[t], GateHolder);
    Moved(s.pcs, Plays, t, s'.pcs[t], FoundNone);
  }

  lemma GateKeptByHolder(s: State, a: Action)
    requires GateInv(s) && CanStep(s, a) && (a.TestGated? || a.Read? || a.Publish? || a.Discard? || a.Ungate?)
    ensures GateInv(Step(s, a))
  {
    Playing(s.pcs, Plays, a.t, GateHolder);
    if Plays(s.pcs[a.t], FoundNone) {
      Playing(s.pcs, Plays, a.t, FoundNone);
    }
    GateKeptBy(s, Step(s, a), a.t);
  }

  lemma GateKeptByDetach(s: State, a: Action)
    requires GateInv(s) && CanStep(s, a) && (a.Admit? || a.Stop?)
    ensures GateInv(Step(s, a))
  {
    GateKeptBy(s, Step(s, a), a.t);
  }

  lemma GateKeptByOther(s: State, a: Action)
    requires GateInv(s) && CanStep(s, a) && (a.TakeOff? || a.Put? || a.Free?)
    ensures GateInv(Step(s, a))
  {
    GateKeptBy(s, Step(s, a), a.t);
  }

  lemma GateKeptByMove(s: State, a: Action)
    requires GateInv(s) && CanStep(s, a) && (a.Begin? || a.Decide? || a.Wait? || a.Answer?)
    ensures GateInv(Step(s, a))
  {
    GateKeptBy(s, Step(s, a), a.t);
  }

  lemma GateKept(s: State, a: Action)
    requires GateInv(s) && CanStep(s, a)
    ensures GateInv(Step(s, a))
  {
    if a.TestGated? || a.Read? || a.Publish? || a.Discard? || a.Ungate? {
      GateKeptByHolder(s, a);
    } else if a.Admit? || a.Stop? {
      GateKeptByDetach(s, a);
    } else if a.TakeOff? || a.Put? || a.Free? {
      GateKeptByOther(s, a);
    } else if !a.Open? {
      GateKeptByMove(s, a);
    }
  }

  ghost predicate AllAdmitted(s: State) {
    forall t :: t in s.pcs ==> Admitted(s.stops, s.pcs[t])
  }

  lemma AdmittedKept(s: State, a: Action)
    requires AllAdmitted(s) && CanStep(s, a)
    ensures AllAdmitted(Step(s, a))
  {
    var s' := Step(s, a);
    forall t | t in s'.pcs ensures Admitted(s'.stops, s'.pcs[t]) {
      if a.Open? || t != a.t {
        assert t in s.pcs && s'.pcs[t] == s.pcs[t];
      }
    }
  }

  lemma StepKeepsInv(s: State, a: Action)
    requires Inv(s) && Enabled(s, a)
    ensures CanStep(s, a) && Inv(Step(s, a))
  {
    NeverReadAfterFree(s, a);
    forall id ensures SetInv(Step(s, a), id) {
      SetKept(s, a, id);
    }
    GateKept(s, a);
    AdmittedKept(s, a);
  }

  lemma InitHasInv()
    ensures Inv(Init())
  {
    var s := Init();
    forall role ensures Count(s, role) == 0 {
      assert Players(s.pcs, Plays, role) == {};
    }
  }

  // ----- every run ------------------------------------------------------------------------

  /** The state a schedule leads to, or None once a step would touch what is not allocated. */
  function After(s: State, run: seq<Action>): Option<State>
    decreases |run|
  {
    if run == [] then Some(s)
    else if Enabled(s, run[0]) && Touches(s, run[0]) <= s.sets.Keys && Counted(s, run[0])
    then After(Step(s, run[0]), run[1..])
    else None
  }

  /** A schedule of enabled steps: any interleaving of any threads. */
  predicate Schedule(s: State, run: seq<Action>)
    decreases |run|
  {
    run == [] || (Enabled(s, run[0]) &&
                  (Touches(s, run[0]) <= s.sets.Keys && Counted(s, run[0]) ==>
                     Schedule(Step(s, run[0]), run[1..])))
  }

  ghost predicate Reachable(s: State) {
    exists run :: Schedule(Init(), run) && After(Init(), run) == Some(s)
  }

  lemma {:induction false} RunKeepsInv(s: State, run: seq<Action>)
    requires Inv(s) && Schedule(s, run)
    ensures After(s, run).Some? && Inv(After(s, run).value)
    decreases |run|
  {
    if run != [] {
      StepKeepsInv(s, run[0]);
      RunKeepsInv(Step(s, run[0]), run[1..]);
    }
  }

  /** No interleaving ever gets stuck on a set that is gone from memory. */
  lemma EveryRunIsSafe(run: seq<Action>)
    requires Schedule(Init(), run)
    ensures After(Init(), run).Some? && Inv(After(Init(), run).value)
  {
    InitHasInv();
    RunKeepsInv(Init(), run);
  }

  lemma ReachableHasInv(s: State)
    requires Reachable(s)
    ensures Inv(s)
  {
    var run :| Schedule(Init(), run) && After(Init(), run) == Some(s);
    EveryRunIsSafe(run);
  }

  /** In every reachable state each set ever made is allocated and never freed, or freed once. */
  lemma FreedExactlyOnce(s: State, id: SetId)
    requires Reachable(s)
    ensures id < s.next ==> (id in s.sets && s.freed[id] == 0) || (id !in s.sets && s.freed[id] == 1)
    ensures id >= s.next ==> id !in s.sets && s.freed[id] == 0
  {
    ReachableHasInv(s);
    assert SetInv(s, id);
  }

  /** A free happens only to an allocated set off the controller that no other thread reads or is
      about to free; the maker's own discard is the only free of a set that is not Gone. */
  lemma FreedOnlyUnread(s: State, a: Action, id: SetId)
    requires Reachable(s) && Enabled(s, a)
    requires (a.Free? && s.pcs[a.t].id == id) || (a.Discard? && s.pcs[a.t].made == id)
    ensures id in s.sets && s.freed[id] == 0 && s.cur != Some(id)
    ensures s.sets[id].gone == a.Free? && s.sets[id].readers == (if a.Free? then 0 else 1)
    ensures forall u :: u in s.pcs && u != a.t ==> !Plays(s.pcs[u], Reader(id)) && !Plays(s.pcs[u], Freer(id))
  {
    ReachableHasInv(s);
    NeverReadAfterFree(s, a);
    assert SetInv(s, id);
    var mine := if a.Free? then Freer(id) else Maker(id);
    Playing(s.pcs, Plays, a.t, mine);
    if a.Free? {
      Nobody(s.pcs, Plays, Reader(id));
      OthersIdle(s, a.t, Freer(id));
    } else {
      OthersIdle(s, a.t, Reader(id));
      Nobody(s.pcs, Plays, Freer(id));
    }
  }

  lemma OthersIdle(s: State, t: Thread, role: Role)
    requires Count(s, role) <= 1 && t in s.pcs && Plays(s.pcs[t], role)
    ensures forall u :: u in s.pcs && u != t ==> !Plays(s.pcs[u], role)
  {
    forall u | u in s.pcs && u != t ensures !Plays(s.pcs[u], role) {
      if Plays(s.pcs[u], role) {
        OnlyOne(s.pcs, Plays, t, u, role);
      }
    }
  }

  /** A set Gone with no reader is never left behind: exactly one thread is about to free it. */
  lemma GoneUnreadIsBeingFreed(s: State, id: SetId) returns (t: Thread)
    requires Reachable(s) && id in s.sets && s.sets[id].gone && s.sets[id].readers == 0
    ensures t in s.pcs && s.pcs[t] == Freeing(id)
    ensures forall u :: u in s.pcs && s.pcs[u] == Freeing(id) ==> u == t
  {
    ReachableHasInv(s);
    assert SetInv(s, id);
    t := Somebody(s.pcs, Plays, Freer(id));
    OthersIdle(s, t, Freer(id));
  }

  /** With every thread done, what is allocated is what is on the controller. */
  lemma NothingLeaks(s: State)
    requires Reachable(s) && forall t :: t in s.pcs ==> s.pcs[t].Done?
    ensures s.sets.Keys == (if s.cur.Some? then {s.cur.value} else {})
    ensures s.cur.Some? ==> s.sets[s.cur.value].readers == 0 && !s.sets[s.cur.value].gone
    ensures s.gateFree
  {
    ReachableHasInv(s);
    forall role ensures Count(s, role) == 0 {
      assert Players(s.pcs, Plays, role) == {};
    }
    forall id ensures id in s.sets <==> s.cur == Some(id) {
      assert SetInv(s, id);
    }
    if s.cur.Some? {
      assert SetInv(s, s.cur.value);
    }
  }

  /** At most one thread holds the gate, and the gate is not free while one does. */
  lemma OneGateHolder(s: State, t: Thread, u: Thread)
    requires Reachable(s)
    requires t in s.pcs && Plays(s.pcs[t], GateHolder) && u in s.pcs && Plays(s.pcs[u], GateHolder)
    ensures t == u && !s.gateFree
  {
    ReachableHasInv(s);
    Playing(s.pcs, Plays, t, GateHolder);
    OnlyOne(s.pcs, Plays, t, u, GateHolder);
  }

  function StepsToUngate(pc: Pc): nat {
    match pc
    case Gated(_) => 5
    case Reading(_) => 4
    case Publishing(_, _) => 3
    case Discarding(_) => 2
    case Refused => 1
    case Ungating(_) => 1
    case _ => 0
  }

  /** Every path that took the gate gives it back: each step of the holder brings it nearer, no
      other thread's step moves it, and the step that leaves the gate frees it. */
  lemma HolderReleases(s: State, a: Action, t: Thread)
    requires Reachable(s) && Enabled(s, a) && t in s.pcs && Plays(s.pcs[t], GateHolder)
    ensures CanStep(s, a) && t in Step(s, a).pcs
    ensures !a.Open? && a.t == t ==> StepsToUngate(Step(s, a).pcs[t]) < StepsToUngate(s.pcs[t])
    ensures a.Open? || a.t != t ==> Step(s, a).pcs[t] == s.pcs[t]
    ensures !Plays(Step(s, a).pcs[t], GateHolder) ==> Step(s, a).gateFree
  {
    ReachableHasInv(s);
    NeverReadAfterFree(s, a);
    if a.Open? || a.t != t {
      OnlyOwnMoves(s, a, t);
    } else {
      OwnStepNearer(s, a);
    }
  }

  lemma OwnStepNearer(s: State, a: Action)
    requires CanStep(s, a) && !a.Open? && a.t in s.pcs && Plays(s.pcs[a.t], GateHolder)
    ensures a.t in Step(s, a).pcs && StepsToUngate(Step(s, a).pcs[a.t]) < StepsToUngate(s.pcs[a.t])
    ensures !Plays(Step(s, a).pcs[a.t], GateHolder) ==> Step(s, a).gateFree
  {
  }

  /** A step changes one thread's place: its own. */
  lemma OnlyOwnMoves(s: State, a: Action, t: Thread)
    requires CanStep(s, a) && t in s.pcs && (a.Open? || a.t != t)
    ensures t in Step(s, a).pcs && Step(s, a).pcs[t] == s.pcs[t]
  {
    match a
    case Begin(_, _) =>
    case Admit(_) =>
    case Decide(_, _) =>
    case Wait(_, _) =>
    case TestGated(_) =>
    case Read(_, _) =>
    case Publish(_) =>
    case Discard(_) =>
    case Ungate(_) =>
    case Answer(_, _) =>
    case TakeOff(_) =>
    case Put(_) =>
    case Stop(_) =>
    case Free(_) =>
    case Open =>
  }

  /** At the publish test the controller has no set, and the set just read is published exactly
      when admission is open and the stops since the request's admission are a multiple of 2^32. */
  lemma PublishedExactlyWhen(s: State, t: Thread)
    requires Reachable(s) && t in s.pcs && s.pcs[t].Publishing?
    ensures CanStep(s, Publish(t)) && s.cur.None? && s.pcs[t].adm <= s.stops
    ensures Step(s, Publish(t)).cur == Some(s.pcs[t].made) <==>
            !s.closed && (s.stops - s.pcs[t].adm) % EPOCHS == 0
    ensures Step(s, Publish(t)).cur != Some(s.pcs[t].made) ==>
            Step(s, Publish(t)).cur.None? && Step(s, Publish(t)).pcs[t] == Discarding(s.pcs[t].made)
  {
    ReachableHasInv(s);
    NeverReadAfterFree(s, Publish(t));
    Playing(s.pcs, Plays, t, FoundNone);
    assert Admitted(s.stops, s.pcs[t]);
    SameModulo(s.stops, s.pcs[t].adm);
  }

  lemma SameModulo(a: nat, b: nat)
    requires b <= a
    ensures a % EPOCHS == b % EPOCHS <==> (a - b) % EPOCHS == 0
  {
    assert a % 0x1_0000_0000 == b % 0x1_0000_0000 <==> (a - b) % 0x1_0000_0000 == 0;
  }

  /** So a reading made across a stop is never published, even after a start reopens admission,
      as long as fewer than 2^32 stops came between. */
  lemma NeverPublishedAcrossStop(s: State, t: Thread)
    requires Reachable(s) && t in s.pcs && s.pcs[t].Publishing?
    requires 0 < s.stops - s.pcs[t].adm < EPOCHS
    ensures CanStep(s, Publish(t)) && Step(s, Publish(t)).cur.None?
  {
    PublishedExactlyWhen(s, t);
  }

  // ----- what a stop leaves ---------------------------------------------------------------

  /** A stop closes admission and takes the set off the controller for good: Gone, freed by its last reader,
      or, with none, by the stop itself. Nothing else is touched. */
  lemma StopForgets(s: State, t: Thread)
    requires Reachable(s) && Enabled(s, Stop(t))
    ensures CanStep(s, Stop(t))
    ensures var r := Step(s, Stop(t));
            && r.cur.None? && r.closed && r.stops == s.stops + 1
            && (s.cur.Some? ==> var id := s.cur.value;
                  && id in r.sets && r.sets[id] == s.sets[id].(gone := true)
                  && (r.pcs[t] == Freeing(id) <==> s.sets[id].readers == 0))
            && (forall id :: s.cur != Some(id) ==>
                  (id in r.sets <==> id in s.sets) && (id in s.sets ==> r.sets[id] == s.sets[id]))
  {
    ReachableHasInv(s);
    NeverReadAfterFree(s, Stop(t));
  }

  /** So does a release that is admitted, with admission left open. */
  lemma ReleaseForgets(s: State, t: Thread)
    requires Reachable(s) && Enabled(s, Admit(t)) && s.pcs[t].release
    ensures CanStep(s, Admit(t))
    ensures var r := Step(s, Admit(t));
            && r.closed == s.closed && r.stops == s.stops
            && (if s.closed then r.cur == s.cur && r.sets == s.sets else r.cur.None?)
            && (!s.closed && s.cur.Some? ==> var id := s.cur.value;
                  && id in r.sets && r.sets[id] == s.sets[id].(gone := true)
                  && (r.pcs[t] == Freeing(id) <==> s.sets[id].readers == 0))
  {
    ReachableHasInv(s);
    NeverReadAfterFree(s, Admit(t));
  }

  /** Some step of the run publishes `id`. */
  predicate PublishedIn(s: State, run: seq<Action>, id: SetId)
    decreases |run|
  {
    run != [] && Enabled(s, run[0]) && Touches(s, run[0]) <= s.sets.Keys && Counted(s, run[0]) &&
    ((run[0].Publish? && s.pcs[run[0].t].made == id) || PublishedIn(Step(s, run[0]), run[1..], id))
  }

  /** Only a publication puts a set on the controller. */
  lemma PutThereByPublish(s: State, a: Action, id: SetId)
    requires CanStep(s, a) && Step(s, a).cur == Some(id) && s.cur != Some(id)
    ensures a.Publish? && s.pcs[a.t].made == id
  {
  }

  lemma {:induction false} OnlyWhatWasPublished(s: State, run: seq<Action>, id: SetId)
    requires Inv(s) && Schedule(s, run) && s.cur != Some(id)
    requires After(s, run).Some? && After(s, run).value.cur == Some(id)
    ensures PublishedIn(s, run, id)
    decreases |run|
  {
    StepKeepsInv(s, run[0]);
    if Step(s, run[0]).cur == Some(id) {
      PutThereByPublish(s, run[0], id);
    } else {
      OnlyWhatWasPublished(Step(s, run[0]), run[1..], id);
    }
  }

  /** Whatever runs after a stop, starts included: a set on the controller then was published after it. */
  lemma NoSetOutlivesAStop(s: State, t: Thread, run: seq<Action>, id: SetId)
    requires Reachable(s) && Enabled(s, Stop(t)) && CanStep(s, Stop(t))
    requires Schedule(Step(s, Stop(t)), run) && After(Step(s, Stop(t)), run).Some?
    requires After(Step(s, Stop(t)), run).value.cur == Some(id)
    ensures PublishedIn(Step(s, Stop(t)), run, id)
  {
    ReachableHasInv(s);
    StepKeepsInv(s, Stop(t));
    OnlyWhatWasPublished(Step(s, Stop(t)), run, id);
  }

  // ----- the wrap of AcpiEpoch ------------------------------------------------------------

  lemma {:induction false} AfterJoined(s: State, run: seq<Action>, more: seq<Action>)
    requires Schedule(s, run) && After(s, run).Some? && Schedule(After(s, run).value, more)
    ensures Schedule(s, run + more) && After(s, run + more) == After(After(s, run).value, more)
    decreases |run|
  {
    if run == [] {
      assert run + more == more;
    } else {
      assert (run + more)[1..] == run[1..] + more;
      AfterJoined(Step(s, run[0]), run[1..], more);
    }
  }

  /** `n` stops by one thread, with nothing on the controller. */
  lemma {:induction false} StopsInARow(s: State, u: Thread, n: nat) returns (run: seq<Action>)
    requires s.cur.None? && u in s.pcs && s.pcs[u].Done?
    ensures Schedule(s, run)
    ensures After(s, run) == Some(s.(stops := s.stops + n, closed := s.closed || n > 0))
    decreases n
  {
    run := [];
    if n > 0 {
      var s1 := Step(s, Begin(u, Stopping));
      var s2 := Step(s1, Stop(u));
      assert s2 == s.(stops := s.stops + 1, closed := true) by {
        assert s2.pcs == s.pcs;
      }
      var rest := StopsInARow(s2, u, n - 1);
      run := [Begin(u, Stopping), Stop(u)] + rest;
      assert run[1..] == [Stop(u)] + rest && run[1..][1..] == rest;
    }
  }

  lemma ReachableOn(s: State, run: seq<Action>)
    requires Reachable(s) && Schedule(s, run) && After(s, run).Some?
    ensures Reachable(After(s, run).value)
  {
    var before :| Schedule(Init(), before) && After(Init(), before) == Some(s);
    AfterJoined(Init(), before, run);
  }

  lemma ReachableStep(s: State, a: Action)
    requires Reachable(s) && CanStep(s, a)
    ensures Reachable(Step(s, a))
  {
    assert [a][1..] == [];
    assert After(s, [a]) == After(Step(s, a), []);
    ReachableOn(s, [a]);
  }

  /** Thread 1 has stopped the controller and a start has opened it again. */
  lemma StartedAgain() returns (s: State)
    ensures Reachable(s) && !s.closed && s.cur.None? && s.gateFree && s.next == 0
    ensures s.pcs == map[1 := Done]
  {
    s := Init();
    assert Schedule(s, []) && After(s, []) == Some(s);
    ReachableStep(s, Begin(1, Stopping));
    s := Step(s, Begin(1, Stopping));
    ReachableStep(s, Stop(1));
    s := Step(s, Stop(1));
    ReachableStep(s, Open);
    s := Step(s, Open);
  }

  lemma RequestWaiting() returns (s: State)
    ensures Reachable(s) && !s.closed && s.cur.None? && s.gateFree && s.next == 0
    ensures s.pcs == map[0 := Waiting(s.stops), 1 := Done]
  {
    s := StartedAgain();
    ReachableStep(s, Begin(0, Admitting(false, true)));
    s := Step(s, Begin(0, Admitting(false, true)));
    ReachableStep(s, Admit(0));
    s := Step(s, Admit(0));
    ReachableStep(s, Decide(0, false));
    s := Step(s, Decide(0, false));
  }

  /** Thread 0 has read a set; thread 1 has nothing to do; admission is open. */
  lemma ReadingDone() returns (s: State)
    ensures Reachable(s) && !s.closed && s.cur.None?
    ensures s.pcs == map[0 := Publishing(s.stops, 0), 1 := Done]
  {
    s := RequestWaiting();
    ReachableStep(s, Wait(0, true));
    s := Step(s, Wait(0, true));
    ReachableStep(s, TestGated(0));
    s := Step(s, TestGated(0));
    ReachableStep(s, Read(0, true));
    s := Step(s, Read(0, true));
  }

  /** The exception is real: after 2^32 stops the epoch has come round, and a set read before all
      of them is published. */
  lemma WrappedEpochPublishes() returns (s: State)
    ensures Reachable(s) && 0 in s.pcs && s.pcs[0].Publishing?
    ensures s.stops - s.pcs[0].adm == EPOCHS
    ensures CanStep(s, Publish(0)) && Step(s, Publish(0)).cur == Some(s.pcs[0].made)
  {
    s := ReadingDone();
    var run := StopsInARow(s, 1, EPOCHS);
    ReachableOn(s, run);
    s := After(s, run).value;
    ReachableStep(s, Open);
    s := Step(s, Open);
    PublishedExactlyWhen(s, 0);
  }

  lemma NextEpoch(stops: nat)
    ensures (stops + 1) % EPOCHS == if stops % EPOCHS == EPOCHS - 1 then 0 else stops % EPOCHS + 1
  {
  }

  // ----- one request from end to end --------------------------------------------------------

  /** A first request's own steps up to its answer, its wait, its reading and its publication succeeding. */
  function ReadingOf(t: Thread): seq<Action> {
    [Admit(t), Decide(t, false), Wait(t, true), TestGated(t), Read(t, true), Publish(t), Ungate(t)]
  }

  /** Its steps from the answer on; `frees`: it leaves the set to be freed. */
  function AnswerOf(t: Thread, last: bool, frees: bool): seq<Action> {
    [Answer(t, last)] + (if last then [TakeOff(t)] else []) + [Put(t)] + (if frees then [Free(t)] else [])
  }

  lemma {:induction false} AfterBoth(s: State, a: seq<Action>, b: seq<Action>)
    requires After(s, a).Some?
    ensures After(s, a + b) == After(After(s, a).value, b)
    decreases |a|
  {
    if a == [] {
      assert a + b == b;
    } else {
      assert (a + b)[1..] == a[1..] + b;
      AfterBoth(Step(s, a[0]), a[1..], b);
    }
  }

  lemma AfterOne(s: State, a: Action)
    requires CanStep(s, a)
    ensures After(s, [a]) == Some(Step(s, a))
  {
    assert After(Step(s, a), []) == Some(Step(s, a));
  }

  /** A request that found no set reads the tables and publishes them for itself. */
  lemma ReadsForItself(s: State, t: Thread) returns (r: State)
    requires s.cur.None? && !s.closed && s.gateFree && t in s.pcs && s.pcs[t] == Admitting(false, true)
    ensures After(s, ReadingOf(t)) == Some(r)
    ensures r == s.(cur := Some(s.next), gen := NextGen(s.gen), next := s.next + 1,
                    sets := s.sets[s.next := TableSet(1, false, NextGen(s.gen))],
                    pcs := s.pcs[t := Answering(Some(s.next))])
  {
    var a := Waits(s, t);
    var b := ReadsGated(a, t);
    AfterBoth(s, [Admit(t), Decide(t, false), Wait(t, true)], [TestGated(t), Read(t, true)] + [Publish(t), Ungate(t)]);
    assert ReadingOf(t) == [Admit(t), Decide(t, false), Wait(t, true)]
                         + ([TestGated(t), Read(t, true)] + [Publish(t), Ungate(t)]);
    r := b;
  }

  lemma Waits(s: State, t: Thread) returns (r: State)
    requires s.cur.None? && !s.closed && s.gateFree && t in s.pcs && s.pcs[t] == Admitting(false, true)
    ensures After(s, [Admit(t), Decide(t, false), Wait(t, true)]) == Some(r)
    ensures r == s.(gateFree := false, pcs := s.pcs[t := Gated(s.stops)])
  {
    var a := Step(s, Admit(t));
    var b := Step(a, Decide(t, false));
    r := Step(b, Wait(t, true));
    AfterOne(s, Admit(t));
    AfterOne(a, Decide(t, false));
    AfterOne(b, Wait(t, true));
    AfterBoth(s, [Admit(t)], [Decide(t, false)]);
    AfterBoth(s, [Admit(t)] + [Decide(t, false)], [Wait(t, true)]);
    assert [Admit(t), Decide(t, false), Wait(t, true)] == [Admit(t)] + [Decide(t, false)] + [Wait(t, true)];
  }

  lemma ReadsGated(s: State, t: Thread) returns (r: State)
    requires s.cur.None? && !s.closed && t in s.pcs && s.pcs[t] == Gated(s.stops)
    ensures After(s, [TestGated(t), Read(t, true)] + [Publish(t), Ungate(t)]) == Some(r)
    ensures r == s.(cur := Some(s.next), gen := NextGen(s.gen), next := s.next + 1, gateFree := true,
                    sets := s.sets[s.next := TableSet(1, false, NextGen(s.gen))],
                    pcs := s.pcs[t := Answering(Some(s.next))])
  {
    var a := Step(s, TestGated(t));
    var b := Step(a, Read(t, true));
    AfterOne(s, TestGated(t));
    AfterOne(a, Read(t, true));
    AfterBoth(s, [TestGated(t)], [Read(t, true)]);
    assert [TestGated(t), Read(t, true)] == [TestGated(t)] + [Read(t, true)];
    r := Publishes(b, t);
    AfterBoth(s, [TestGated(t), Read(t, true)], [Publish(t), Ungate(t)]);
  }

  lemma Publishes(s: State, t: Thread) returns (r: State)
    requires s.cur.None? && !s.closed && t in s.pcs && s.pcs[t].Publishing? && s.pcs[t].adm == s.stops
    requires s.pcs[t].made in s.sets
    ensures After(s, [Publish(t), Ungate(t)]) == Some(r)
    ensures var id := s.pcs[t].made;
            r == s.(cur := Some(id), gen := NextGen(s.gen), gateFree := true,
                    sets := s.sets[id := s.sets[id].(gen := NextGen(s.gen))],
                    pcs := s.pcs[t := Answering(Some(id))])
  {
    var a := Step(s, Publish(t));
    r := Step(a, Ungate(t));
    AfterOne(s, Publish(t));
    AfterOne(a, Ungate(t));
    AfterBoth(s, [Publish(t)], [Ungate(t)]);
    assert [Publish(t), Ungate(t)] == [Publish(t)] + [Ungate(t)];
  }

  /** Whether the reader of `id` that answers with its last byte, or not, leaves it to be freed. */
  predicate LeavesUnread(s: State, id: SetId, last: bool)
    requires id in s.sets
  {
    s.sets[id].readers == 1 && (s.sets[id].gone || (last && s.cur == Some(id)))
  }

  lemma AnswerGiven(s: State, t: Thread, id: SetId, last: bool) returns (r: State)
    requires t in s.pcs && s.pcs[t] == Answering(Some(id)) && id in s.sets
    ensures After(s, [Answer(t, last)] + (if last then [TakeOff(t)] else [])) == Some(r)
    ensures var off := last && s.cur == Some(id);
            r == s.(cur := if off then None else s.cur, pcs := s.pcs[t := Putting(id)],
                    sets := s.sets[id := s.sets[id].(gone := s.sets[id].gone || off)])
  {
    r := Step(s, Answer(t, last));
    AfterOne(s, Answer(t, last));
    assert r.pcs[t] == if last then LastByte(id) else Putting(id);
    if last {
      AfterOne(r, TakeOff(t));
      AfterBoth(s, [Answer(t, last)], [TakeOff(t)]);
      r := Step(r, TakeOff(t));
      assert r.pcs == s.pcs[t := Putting(id)];
    } else {
      assert [Answer(t, last)] + [] == [Answer(t, last)];
    }
  }

  lemma ReaderLeaves(s: State, t: Thread, id: SetId) returns (r: State)
    requires t in s.pcs && s.pcs[t] == Putting(id) && id in s.sets && s.sets[id].readers > 0
    ensures var frees := LeavesUnread(s, id, false);
            && After(s, [Put(t)] + (if frees then [Free(t)] else [])) == Some(r)
            && r == if frees then Released(s.(pcs := s.pcs[t := Done]), id)
                    else s.(pcs := s.pcs[t := Done],
                            sets := s.sets[id := s.sets[id].(readers := s.sets[id].readers - 1)])
  {
    r := Step(s, Put(t));
    AfterOne(s, Put(t));
    if LeavesUnread(s, id, false) {
      assert r.pcs[t] == Freeing(id);
      AfterOne(r, Free(t));
      AfterBoth(s, [Put(t)], [Free(t)]);
      r := Step(r, Free(t));
      assert r.pcs == s.pcs[t := Done] && r.sets == s.sets - {id};
    } else {
      assert [Put(t)] + [] == [Put(t)];
    }
  }

  /** An answer's end: the set off the controller if it carried the last byte, the reader off the set, and the
      set freed if nobody else holds it. */
  lemma Lets(s: State, t: Thread, id: SetId, last: bool) returns (r: State)
    requires t in s.pcs && s.pcs[t] == Answering(Some(id)) && id in s.sets && s.sets[id].readers > 0
    ensures After(s, AnswerOf(t, last, LeavesUnread(s, id, last))) == Some(r)
    ensures r == Left(s, t, id, last)
  {
    var a := AnswerGiven(s, t, id, last);
    r := ReaderLeaves(a, t, id);
    LetsIsLeft(s, t, id, last, a, r);
    var off, put := if last then [TakeOff(t)] else [], if LeavesUnread(s, id, last) then [Free(t)] else [];
    AfterBoth(s, [Answer(t, last)] + off, [Put(t)] + put);
    assert AnswerOf(t, last, LeavesUnread(s, id, last)) == [Answer(t, last)] + off + ([Put(t)] + put);
  }

  lemma LetsIsLeft(s: State, t: Thread, id: SetId, last: bool, a: State, r: State)
    requires t in s.pcs && id in s.sets && s.sets[id].readers > 0
    requires a == s.(cur := if last && s.cur == Some(id) then None else s.cur, pcs := s.pcs[t := Putting(id)],
                     sets := s.sets[id := s.sets[id].(gone := s.sets[id].gone || (last && s.cur == Some(id)))])
    requires r == if LeavesUnread(a, id, false) then Released(a.(pcs := a.pcs[t := Done]), id)
                  else a.(pcs := a.pcs[t := Done],
                          sets := a.sets[id := a.sets[id].(readers := a.sets[id].readers - 1)])
    ensures LeavesUnread(a, id, false) == LeavesUnread(s, id, last) && r == Left(s, t, id, last)
  {
    assert a.pcs[t := Done] == s.pcs[t := Done];
    SameSets(s.sets, a.sets, id, a.sets[id].(readers := a.sets[id].readers - 1));
  }

  lemma SameSets(sets: map<SetId, TableSet>, sets': map<SetId, TableSet>, id: SetId, x: TableSet)
    requires id in sets && id in sets' && sets' == sets[id := sets'[id]]
    ensures sets' - {id} == sets - {id} && sets'[id := x] == sets[id := x]
  {
  }

  function Left(s: State, t: Thread, id: SetId, last: bool): State
    requires id in s.sets && s.sets[id].readers > 0
  {
    var off := last && s.cur == Some(id);
    var s' := s.(cur := if off then None else s.cur, pcs := s.pcs[t := Done]);
    if LeavesUnread(s, id, last) then Released(s', id)
    else s'.(sets := s.sets[id := TableSet(s.sets[id].readers - 1, s.sets[id].gone || off, s.sets[id].gen)])
  }

  /** A first request served from end to end, nothing in its way: the answer is from the set it read; one that
      carries the last byte leaves the controller as it was, with that set freed, and one that does not leaves
      the set on the controller, unread, for the next request. */
  lemma FirstRequestServed(s: State, t: Thread, last: bool) returns (r: State)
    requires Reachable(s) && s.cur.None? && !s.closed && s.gateFree && t in s.pcs && s.pcs[t] == Admitting(false, true)
    ensures After(s, ReadingOf(t) + AnswerOf(t, last, last)) == Some(r)
    ensures r.pcs == s.pcs[t := Done] && r.gateFree && !r.closed
    ensures if last then r.cur.None? && r.sets == s.sets && r.freed == s.freed + multiset{s.next}
            else r.cur == Some(s.next) && r.freed == s.freed
                 && r.sets == s.sets[s.next := TableSet(0, false, NextGen(s.gen))]
  {
    ReachableHasInv(s);
    assert SetInv(s, s.next);
    var a := ReadsForItself(s, t);
    r := Lets(a, t, s.next, last);
    AfterBoth(s, ReadingOf(t), AnswerOf(t, last, last));
  }

  lemma SharesTheSet(s: State, t: Thread, first: bool, refused: bool) returns (r: State)
    requires s.cur.Some? && s.cur.value in s.sets && !s.closed && t in s.pcs && s.pcs[t] == Admitting(false, first)
    ensures After(s, [Admit(t), Decide(t, refused)]) == Some(r)
    ensures r == AddReader(s, s.cur.value).(pcs := s.pcs[t := Answering(s.cur)])
  {
    var a := Step(s, Admit(t));
    AfterOne(s, Admit(t));
    r := Step(a, Decide(t, refused));
    AfterOne(a, Decide(t, refused));
    AfterBoth(s, [Admit(t)], [Decide(t, refused)]);
    assert [Admit(t), Decide(t, refused)] == [Admit(t)] + [Decide(t, refused)];
  }

  /** The requests after it are served from that set without a reading; the one that carries the last byte, with
      no other reader, has it freed. */
  lemma NextRequestServed(s: State, t: Thread, first: bool, refused: bool, last: bool) returns (r: State)
    requires Reachable(s) && s.cur.Some? && !s.closed && t in s.pcs && s.pcs[t] == Admitting(false, first)
    ensures s.cur.value in s.sets
    ensures var id := s.cur.value; var frees := last && s.sets[id].readers == 0;
            && After(s, [Admit(t), Decide(t, refused)] + AnswerOf(t, last, frees)) == Some(r)
            && r.pcs == s.pcs[t := Done] && r.cur == (if last then None else s.cur) && r.next == s.next
            && (if frees then r.sets == s.sets - {id} && r.freed == s.freed + multiset{id}
                else r.sets == s.sets[id := s.sets[id].(gone := last)] && r.freed == s.freed)
  {
    OnHcIsThere(s);
    var id := s.cur.value;
    var a := SharesTheSet(s, t, first, refused);
    r := Lets(a, t, id, last);
    AfterBoth(s, [Admit(t), Decide(t, refused)], AnswerOf(t, last, LeavesUnread(a, id, last)));
    assert LeavesUnread(a, id, last) == (last && s.sets[id].readers == 0);
    SameSets(s.sets, a.sets, id, s.sets[id].(gone := last));
  }

  lemma OnHcIsThere(s: State)
    requires Reachable(s) && s.cur.Some?
    ensures s.cur.value in s.sets && !s.sets[s.cur.value].gone
  {
    ReachableHasInv(s);
    assert SetInv(s, s.cur.value);
  }

  // ----- the program's own fields ---------------------------------------------------------

  /** The fields of the controller, and each section under AcpiLock as the program runs it. The
      epoch is the 32-bit count the program keeps. What the ghost half holds no program field
      holds: the count of stops it stands for, the history of frees and where each thread is. */
  class Controller {
    var acpiSet: Option<SetId>
    var acpiClosed: bool
    var acpiEpoch: nat
    var acpiGen: nat
    var acpiGate: bool
    var heap: map<SetId, TableSet>
    var nextId: SetId
    ghost var stops: nat
    ghost var freed: multiset<SetId>
    ghost var pcs: map<Thread, Pc>

    ghost predicate Valid() reads this {
      acpiEpoch == stops % EPOCHS && acpiGen < EPOCHS
    }

    ghost function View(): State reads this {
      State(acpiSet, acpiClosed, stops, acpiGen, acpiGate, heap, freed, nextId, pcs)
    }

    constructor ()
      ensures Valid() && View() == Init()
    {
      acpiSet, acpiClosed, acpiEpoch, acpiGen, acpiGate := None, true, 0, 0, true;
      heap, nextId, stops, freed, pcs := map[], 0, 0, multiset{}, map[];
    }

    /** HcdAcpiOpen. */
    method OpenAdmission()
      requires Valid()
      modifies this
      ensures Valid() && View() == Step(old(View()), Open) && !acpiClosed
    {
      acpiClosed := false;
    }

    /** hcdAcpiDetach, the caller holding the lock. */
    method Detach() returns (drop: Option<SetId>)
      requires acpiSet.Some? ==> acpiSet.value in heap
      modifies this
      ensures View() == Detached(old(View())) && acpiEpoch == old(acpiEpoch)
      ensures acpiSet.None?
      ensures drop == if old(acpiSet.Some? && heap[acpiSet.value].readers == 0) then old(acpiSet) else None
      ensures heap == if old(acpiSet).None? then old(heap)
                      else old(heap)[old(acpiSet).value := old(heap)[old(acpiSet).value].(gone := true)]
    {
      drop := None;
      if acpiSet.Some? {
        var id := acpiSet.value;
        acpiSet := None;
        heap := heap[id := heap[id].(gone := true)];
        if heap[id].readers == 0 {
          drop := Some(id);
        }
      }
    }

    /** HcdAcpiForget up to the lock's release; a set answered is the caller's to free. */
    method Forget(ghost t: Thread) returns (drop: Option<SetId>)
      requires Valid() && CanStep(View(), Stop(t))
      modifies this
      ensures Valid() && View() == Step(old(View()), Stop(t))
      ensures acpiSet.None? && acpiClosed && acpiEpoch == (old(acpiEpoch) + 1) % EPOCHS
      ensures old(acpiSet).Some? ==> heap[old(acpiSet).value].gone
      ensures drop == if old(acpiSet.Some? && heap[acpiSet.value].readers == 0) then old(acpiSet) else None
      ensures pcs[t] == if drop.Some? then Freeing(drop.value) else Done
    {
      drop := Detach();
      NextEpoch(stops);
      acpiEpoch := if acpiEpoch == EPOCHS - 1 then 0 else acpiEpoch + 1;
      acpiClosed := true;
      stops := stops + 1;
      pcs := pcs[t := if drop.Some? then Freeing(drop.value) else Done];
    }

    /** hcdAcpiPut up to the lock's release. */
    method PutReader(ghost t: Thread, id: SetId) returns (free: bool)
      requires Valid() && CanStep(View(), Put(t)) && pcs[t].id == id
      modifies this
      ensures Valid() && View() == Step(old(View()), Put(t))
      ensures heap == old(heap)[id := old(heap)[id].(readers := old(heap)[id].readers - 1)]
      ensures free <==> heap[id].readers == 0 && heap[id].gone
      ensures pcs[t] == if free then Freeing(id) else Done
    {
      heap := heap[id := heap[id].(readers := heap[id].readers - 1)];
      free := heap[id].readers == 0 && heap[id].gone;
      pcs := pcs[t := if free then Freeing(id) else Done];
    }

    /** The admission of HcdAcpiRequest: refused, or its epoch and either the set it reads or the
        set its release leaves it to free. */
    method AdmitRequest(ghost t: Thread, release: bool)
      returns (admitted: bool, epoch: nat, mine: Option<SetId>, drop: Option<SetId>)
      requires Valid() && CanStep(View(), Admit(t)) && pcs[t].release == release
      modifies this
      ensures Valid() && View() == Step(old(View()), Admit(t))
      ensures admitted == !old(acpiClosed) && epoch == stops % EPOCHS
      ensures mine == (if admitted && !release then old(acpiSet) else None)
      ensures mine.Some? ==> heap[mine.value].readers == old(heap)[mine.value].readers + 1
      ensures acpiSet == if admitted && release then None else old(acpiSet)
      ensures drop == if admitted && release && old(acpiSet.Some? && heap[acpiSet.value].readers == 0)
                      then old(acpiSet) else None
      ensures pcs[t] == if !admitted then Done
                        else if !release then Deciding(stops, old(pcs)[t].first, mine)
                        else if drop.Some? then Freeing(drop.value) else Done
    {
      admitted, epoch, mine, drop := !acpiClosed, acpiEpoch, None, None;
      ghost var pc := Done;
      if admitted && release {
        drop := Detach();
        pc := if drop.Some? then Freeing(drop.value) else Done;
      } else if admitted {
        mine := acpiSet;
        if mine.Some? {
          heap := heap[mine.value := heap[mine.value].(readers := heap[mine.value].readers + 1)];
        }
        pc := Deciding(stops, pcs[t].first, mine);
      }
      pcs := pcs[t := pc];
    }

    /** The test made with the gate held, before anything is read. */
    method TestGate(ghost t: Thread, epoch: nat) returns (refused: bool, mine: Option<SetId>)
      requires Valid() && CanStep(View(), TestGated(t)) && epoch == pcs[t].adm % EPOCHS
      modifies this
      ensures Valid() && View() == Step(old(View()), TestGated(t))
      ensures refused <==> old(acpiClosed) || old(acpiEpoch) != epoch
      ensures mine == (if refused then None else old(acpiSet)) && acpiSet == old(acpiSet)
      ensures mine.Some? ==> heap[mine.value].readers == old(heap)[mine.value].readers + 1
      ensures pcs[t] == if refused then Refused else if mine.Some? then Ungating(mine)
                        else Reading(old(pcs)[t].adm)
    {
      refused, mine := acpiClosed || acpiEpoch != epoch, None;
      ghost var pc := Refused;
      if !refused {
        mine := acpiSet;
        if mine.Some? {
          heap := heap[mine.value := heap[mine.value].(readers := heap[mine.value].readers + 1)];
        }
        pc := if mine.Some? then Ungating(mine) else Reading(pcs[t].adm);
      }
      pcs := pcs[t := pc];
    }

    /** The answer that carried the last byte takes its set off the controller if it is on it. */
    method LastByteSent(ghost t: Thread, id: SetId)
      requires Valid() && CanStep(View(), TakeOff(t)) && pcs[t].id == id
      modifies this
      ensures Valid() && View() == Step(old(View()), TakeOff(t))
      ensures acpiSet != Some(id) && (old(acpiSet) == Some(id) ==> heap[id].gone)
      ensures old(acpiSet) != Some(id) ==> acpiSet == old(acpiSet) && heap == old(heap)
    {
      if acpiSet == Some(id) {
        acpiSet := None;
        heap := heap[id := heap[id].(gone := true)];
      }
      pcs := pcs[t := Putting(id)];
    }

    /** The publish test of HcdAcpiRequest: `epoch` is the one its admission took. */
    method PublishMade(ghost t: Thread, epoch: nat, made: SetId) returns (published: bool)
      requires Valid() && CanStep(View(), Publish(t)) && pcs[t].made == made
      requires epoch == pcs[t].adm % EPOCHS
      modifies this
      ensures Valid() && View() == Step(old(View()), Publish(t))
      ensures published <==> !old(acpiClosed) && old(acpiEpoch) == epoch && old(acpiSet).None?
      ensures published ==> acpiSet == Some(made) && heap[made].gen == acpiGen != 0 && acpiGen != old(acpiGen)
      ensures !published ==> acpiSet == old(acpiSet) && heap == old(heap) && acpiGen == old(acpiGen)
      ensures pcs[t] == if published then Ungating(Some(made)) else Discarding(made)
    {
      published := !acpiClosed && acpiEpoch == epoch && acpiSet.None?;
      if published {
        acpiGen := if acpiGen == EPOCHS - 1 then 1 else acpiGen + 1;
        heap := heap[made := heap[made].(gen := acpiGen)];
        acpiSet := Some(made);
        pcs := pcs[t := Ungating(Some(made))];
      } else {
        pcs := pcs[t := Discarding(made)];
      }
    }
  }
}
