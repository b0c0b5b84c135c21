/**
 Slow IRPs deferred behind a suspended link (hcd_cfg.c): the deferral, its cancel routine, the
 undeferral, a PDO's flush, the device's flush and the shutdown's flush.

 The lists change under the controller lock; an IRP's cancel routine is swapped atomically by
 IoSetCancelRoutine and IoCancelIrp, which do not take that lock, so a cancel can fall between any two
 steps of a deferral, and between any two entries of the undeferral's walk. One thread serves, defers and
 undefers. A run is any interleaving of these steps over any number of IRPs.
 */
module DeferredIrps {
  import opened Common

  type Id = nat
  type Dev = nat
  type Pdo = nat

  datatype List = Nowhere | SlowIrps | SlowDeferred

  /** Who has the IRP in hand. `Serving`: the thread. `Deferring(step)`: the thread inside hcdCfgDefer,
      the controller lock held. `Finishing`: whoever took it off a list to complete it. */
  datatype Hand = NoHand | Serving | Deferring(step: nat) | Finishing

  /** Its cancel routine: not called, called, past its lock. */
  datatype Routine = Quiet | Called | Unlisted

  datatype Irp = Irp(
    dev: Dev, pdo: Pdo,
    stamp: nat,               // its place in the order of submission
    list: List,
    hand: Hand,
    armed: bool,              // hcdCfgDeferCancel is installed
    cancel: bool,             // irp->Cancel
    routine: Routine,
    completed: nat,
    handedOn: nat,            // held on its PDO instead (hcdCfgHoldUnreadable)
    refs: bool,               // holds a device reference
    pending: bool)            // counted in UrbsPending

  /** Who holds the controller lock past one step: a deferral, or the undeferral's walk of a device's list,
      with the entries still to visit, the lists as they were, and what it has claimed. */
  datatype Lock =
    | Free
    | Deferral(i: Id)
    | Walk(dev: Dev, todo: seq<Id>, was: seq<Id>, queued: seq<Id>, claimed: set<Id>)

  datatype State = State(
    irps: map<Id, Irp>,
    slow: seq<Id>,                  // hc->SlowIrps
    deferred: map<Dev, seq<Id>>,    // dev->SlowDeferred
    lock: Lock,
    thread: Option<Id>,             // the IRP the thread has dequeued
    submitted: nat,
    closing: set<Pdo>,
    devRefs: map<Dev, int>,
    urbsPending: map<Pdo, int>)

  datatype Action =
    | Queue(i: Id, dev: Dev, pdo: Pdo)
    | Dequeue(i: Id)
    | PutBack(i: Id)
    | Serve(i: Id)
    | Defer(i: Id)
    | DeferArm(i: Id)
    | DeferTest(i: Id)
    | DeferDisarm(i: Id)
    | IoCancel(i: Id)
    | CancelUnlist(i: Id)
    | CancelFinish(i: Id)
    | UndeferBegin(dev: Dev)
    | UndeferNext(i: Id)
    | UndeferEnd
    | ClaimToFinish(i: Id)    // a flush's claim of a deferred IRP
    | FlushSlow(i: Id)
    | Finish(i: Id, park: bool)
    | Close(pdo: Pdo)

  function Init(): State {
    State(map[], [], map[], Free, None, 0, {}, map[], map[])
  }

  function Deferred(s: State, dev: Dev): seq<Id> {
    if dev in s.deferred then s.deferred[dev] else []
  }

  function Get(m: map<nat, int>, k: nat): int {
    if k in m then m[k] else 0
  }

  // ----- one step ------------------------------------------------------------------------------------

  /** Whether an IRP can take its own step: what takes the controller lock waits while another holds it. */
  predicate CanMove(x: Irp, a: Action, lock: Lock) {
    match a
    case Dequeue(_) => lock.Free? && x.list == SlowIrps
    case PutBack(_) => lock.Free? && x.hand == Serving
    case Serve(_) => x.hand == Serving
    case Defer(_) => lock.Free? && x.hand == Serving
    case DeferArm(_) => x.hand == Deferring(0)
    case DeferTest(_) => x.hand == Deferring(1)
    case DeferDisarm(_) => x.hand == Deferring(2)
    case IoCancel(_) => x.completed == 0 && x.handedOn == 0
    case CancelUnlist(_) => lock.Free? && x.routine == Called
    case CancelFinish(_) => x.routine == Unlisted
    case UndeferNext(i) => AtEntry(lock, i) && x.list == SlowDeferred
    case ClaimToFinish(_) => lock.Free? && x.list == SlowDeferred
    case FlushSlow(_) => lock.Free? && x.list == SlowIrps
    case Finish(_, _) => x.hand == Finishing
    case _ => false
  }

  /** The steps of no one IRP. */
  predicate OfNone(a: Action) {
    a.Close? || a.UndeferBegin? || a.UndeferEnd?
  }

  predicate Enabled(s: State, a: Action) {
    if a.Queue? then a.i !in s.irps && s.lock.Free?
    else if a.Close? then s.lock.Free?
    else if a.UndeferBegin? then s.lock.Free? && s.thread.None?
    else if a.UndeferEnd? then s.lock.Walk? && s.lock.todo == []
    else
      && a.i in s.irps && CanMove(s.irps[a.i], a, s.lock)
      && (a.Dequeue? ==> s.thread.None? && s.slow != [] && s.slow[0] == a.i)
  }

  /** The IRP after its own step. */
  function Moved(x: Irp, a: Action, closing: bool): Irp {
    match a
    case Dequeue(_) => x.(list := Nowhere, hand := Serving)
    case PutBack(_) => x.(list := SlowIrps, hand := NoHand)
    case Serve(_) => Completed(x)
    case Defer(_) => if closing then x.(hand := Finishing) else x.(list := SlowDeferred, hand := Deferring(0))
    case DeferArm(_) => x.(armed := true, hand := Deferring(1))
    case DeferTest(_) => if x.cancel then x.(hand := Deferring(2)) else x.(hand := NoHand)
    case DeferDisarm(_) =>
      if x.armed then x.(armed := false, list := Nowhere, hand := Finishing) else x.(hand := NoHand)
    case IoCancel(_) =>
      if x.armed then x.(cancel := true, armed := false, routine := Called) else x.(cancel := true)
    case CancelUnlist(_) => x.(list := if x.list == SlowDeferred then Nowhere else x.list, routine := Unlisted)
    case CancelFinish(_) => Completed(x)
    case UndeferNext(_) => if x.armed then x.(armed := false, list := SlowIrps) else x
    case ClaimToFinish(_) => if x.armed then x.(armed := false, list := Nowhere, hand := Finishing) else x
    case FlushSlow(_) => x.(list := Nowhere, hand := Finishing)
    case Finish(_, park) => if park then x.(handedOn := x.handedOn + 1, hand := NoHand, refs := false) else Completed(x)
    case _ => x
  }

  /** hcdCfgComplete: completed, and both counts given back. */
  function Completed(x: Irp): Irp {
    x.(completed := x.completed + 1, hand := NoHand, routine := Quiet, refs := false, pending := false)
  }

  function LockAfter(x: Irp, a: Action, closing: bool, lock: Lock): Lock {
    match a
    case Defer(i) => if closing then lock else Deferral(i)
    case DeferTest(i) => if x.cancel then lock else Free
    case DeferDisarm(_) => Free
    case UndeferNext(i) =>
      if !lock.Walk? || lock.todo == [] then lock
      else lock.(todo := lock.todo[..|lock.todo| - 1], claimed := if x.armed then lock.claimed + {i} else lock.claimed)
    case _ => lock
  }

  /** The thread has the IRP from its dequeuing until it puts it back, completes it or has deferred it. */
  function ThreadAfter(y: Irp, a: Action, thread: Option<Id>): Option<Id> {
    if a.Dequeue? then Some(a.i)
    else if !OfNone(a) && thread == Some(a.i) && !y.hand.Serving? && !y.hand.Deferring? then None
    else thread
  }

  /** RemoveHeadList, RemoveEntryList or InsertHeadList on SlowIrps; and, on a device's list, RemoveEntryList
      or InsertTailList. */
  function SlowAfter(slow: seq<Id>, a: Action, x: Irp, y: Irp): seq<Id>
    requires !OfNone(a)
  {
    if a.Dequeue? && slow != [] then slow[1..]
    else if x.list == SlowIrps && y.list != SlowIrps then Except(slow, {a.i})
    else if x.list != SlowIrps && y.list == SlowIrps then [a.i] + slow
    else slow
  }

  function DeferredAfter(list: seq<Id>, a: Action, x: Irp, y: Irp): seq<Id>
    requires !OfNone(a)
  {
    if x.list == SlowDeferred && y.list != SlowDeferred then Except(list, {a.i})
    else if x.list != SlowDeferred && y.list == SlowDeferred then list + [a.i]
    else list
  }

  function New(dev: Dev, pdo: Pdo, stamp: nat): Irp {
    Irp(dev, pdo, stamp, SlowIrps, NoHand, false, false, Quiet, 0, 0, true, true)
  }

  function Step(s: State, a: Action): State
    requires Enabled(s, a)
  {
    match a
    case Queue(i, dev, pdo) =>
      s.(irps := s.irps[i := New(dev, pdo, s.submitted)],
         slow := s.slow + [i],
         submitted := s.submitted + 1,
         devRefs := s.devRefs[dev := Get(s.devRefs, dev) + 1],
         urbsPending := s.urbsPending[pdo := Get(s.urbsPending, pdo) + 1])
    case Close(pdo) => s.(closing := s.closing + {pdo})
    case UndeferBegin(dev) => s.(lock := Walk(dev, Deferred(s, dev), Deferred(s, dev), s.slow, {}))
    case UndeferEnd => s.(lock := Free)
    case _ =>
      var x := s.irps[a.i];
      var y := Moved(x, a, x.pdo in s.closing);
      s.(irps := s.irps[a.i := y],
         slow := SlowAfter(s.slow, a, x, y),
         deferred := s.deferred[x.dev := DeferredAfter(Deferred(s, x.dev), a, x, y)],
         lock := LockAfter(x, a, x.pdo in s.closing, s.lock),
         thread := ThreadAfter(y, a, s.thread),
         devRefs := s.devRefs[x.dev := Get(s.devRefs, x.dev) - (if x.refs && !y.refs then 1 else 0)],
         urbsPending := s.urbsPending[x.pdo := Get(s.urbsPending, x.pdo) - (if x.pending && !y.pending then 1 else 0)])
  }

  // ----- the invariant --------------------------------------------------------------------------------

  /** Exactly one party answers for an IRP that is not settled: a list (armed, or its cancel routine
      called), the thread, a deferral in progress, a flush, or the cancel routine past its lock. */
  predicate Answered(x: Irp) {
    if x.completed + x.handedOn > 0 then
      && x.completed + x.handedOn == 1
      && x.list == Nowhere && x.hand == NoHand && !x.armed && x.routine == Quiet
      && !x.refs && x.pending == (x.handedOn == 1)
    else
      && x.refs && x.pending
      && match x.hand
         case Serving => x.list == Nowhere && !x.armed && x.routine == Quiet
         case Finishing => x.list == Nowhere && !x.armed && x.routine == Quiet
         case Deferring(step) =>
           && x.list == SlowDeferred && step <= 2
           && (step == 0 ==> !x.armed && x.routine == Quiet)
           && (step > 0 ==> x.armed == (x.routine == Quiet) && x.routine != Unlisted)
           && ((step > 0 && !x.armed) || step == 2 ==> x.cancel)
         case NoHand =>
           || (x.list == SlowIrps && !x.armed && x.routine == Quiet)
           || (x.list == SlowDeferred && x.armed && x.routine == Quiet && !x.cancel)
           || (x.list == SlowDeferred && !x.armed && x.routine == Called && x.cancel)
           || (x.list == Nowhere && !x.armed && x.routine == Unlisted)
  }

  function RefHolders(irps: map<Id, Irp>, dev: Dev): set<Id> {
    set i | i in irps && irps[i].refs && irps[i].dev == dev
  }

  function PendingHolders(irps: map<Id, Irp>, pdo: Pdo): set<Id> {
    set i | i in irps && irps[i].pending && irps[i].pdo == pdo
  }

  /** One IRP, the lock and the thread: it answers, it holds the lock exactly while its deferral is in
      progress, and it is the thread's exactly while it is served or deferred. */
  predicate Single(x: Irp, i: Id, lock: Lock, thread: Option<Id>) {
    && Answered(x)
    && (x.hand.Deferring? <==> lock == Deferral(i))
    && (x.hand.Serving? || x.hand.Deferring? <==> thread == Some(i))
  }

  ghost predicate Inv(s: State) {
    && (forall i :: i in s.irps ==> Single(s.irps[i], i, s.lock, s.thread))
    && (forall dev :: Get(s.devRefs, dev) == |RefHolders(s.irps, dev)|)
    && (forall pdo :: Get(s.urbsPending, pdo) == |PendingHolders(s.irps, pdo)|)
    && Listed(s) && Stamped(s) && Walking(s)
    && (forall dev :: InOrder(s.irps, Waiting(s, dev)))
  }

  /** Each list holds exactly the IRPs linked on it. */
  ghost predicate Listed(s: State) {
    && (forall i :: i in s.slow <==> i in s.irps && s.irps[i].list == SlowIrps)
    && (forall dev, i :: i in Deferred(s, dev) <==>
          i in s.irps && s.irps[i].list == SlowDeferred && s.irps[i].dev == dev)
  }

  ghost predicate Stamped(s: State) {
    && (s.thread.Some? ==> s.thread.value in s.irps)
    && forall i :: i in s.irps ==> s.irps[i].stamp < s.submitted
  }

  /** Of two IRPs of a device that no cancel routine owns, the first was submitted first. */
  predicate Before(irps: map<Id, Irp>, i: Id, j: Id) {
    && i in irps && j in irps && i != j
    && (irps[i].dev == irps[j].dev && irps[i].routine == Quiet && irps[j].routine == Quiet ==>
          irps[i].stamp < irps[j].stamp)
  }

  predicate InOrder(irps: map<Id, Irp>, list: seq<Id>) {
    forall p, q {:trigger Before(irps, list[p], list[q])} :: 0 <= p < q < |list| ==> Before(irps, list[p], list[q])
  }

  function InHand(s: State): seq<Id> {
    if s.thread.Some? && s.thread.value in s.irps && s.irps[s.thread.value].hand.Serving? then [s.thread.value] else []
  }

  /** What waits for a device: deferred, in the thread's hand, queued. */
  function Waiting(s: State, dev: Dev): seq<Id> {
    Deferred(s, dev) + InHand(s) + s.slow
  }

  /** How far the undeferral's walk has come: what it claimed is ahead of what was queued, in order, and what
      it left behind is its cancel routine's. */
  ghost predicate WalkAt(w: Lock, list: seq<Id>, slow: seq<Id>, irps: map<Id, Irp>)
    requires w.Walk?
  {
    && |w.todo| <= |w.was| && w.todo == w.was[..|w.todo|]
    && list == w.todo + Left(w)
    && slow == Only(w.was[|w.todo|..], w.claimed) + w.queued
    && (forall i :: i in Left(w) ==> i in irps && irps[i].routine == Called)
    && (forall i :: i in w.claimed ==> i in slow)
  }

  /** What the walk has visited and left. */
  function Left(w: Lock): seq<Id>
    requires w.Walk?
  {
    if |w.todo| <= |w.was| then Except(w.was[|w.todo|..], w.claimed) else []
  }

  ghost predicate Walking(s: State) {
    s.lock.Walk? ==> s.thread.None? && WalkAt(s.lock, Deferred(s, s.lock.dev), s.slow, s.irps)
  }

  /** The walk is at entry `i`. */
  predicate AtEntry(w: Lock, i: Id) {
    w.Walk? && w.todo != [] && w.todo[|w.todo| - 1] == i
  }

  // ----- proofs ------------------------------------------------------------------------------------------

  lemma MovedKeeps(x: Irp, a: Action, closing: bool, lock: Lock, thread: Option<Id>)
    requires !a.Queue? && !OfNone(a) && Single(x, a.i, lock, thread) && CanMove(x, a, lock)
    requires lock.Walk? ==> thread.None?
    ensures var y := Moved(x, a, closing);
            Single(y, a.i, LockAfter(x, a, closing, lock), ThreadAfter(y, a, thread))
  {
  }

  lemma MovedSame(x: Irp, a: Action, closing: bool)
    ensures var y := Moved(x, a, closing);
            y.dev == x.dev && y.pdo == x.pdo && y.stamp == x.stamp && (y.refs ==> x.refs) && (y.pending ==> x.pending)
  {
  }

  /** Another IRP's step leaves this one as it was, and neither the lock nor the thread is taken from it. */
  lemma OthersKeep(x: Irp, i: Id, y: Irp, a: Action, closing: bool, lock: Lock, thread: Option<Id>)
    requires !a.Queue? && !OfNone(a) && a.i != i && (a.Dequeue? ==> thread.None?)
    requires Single(x, i, lock, thread) && Single(y, a.i, lock, thread) && CanMove(y, a, lock)
    ensures Single(x, i, LockAfter(y, a, closing, lock), ThreadAfter(Moved(y, a, closing), a, thread))
  {
  }

  /** What every step does to the map of IRPs: one changes, and it gives counts back or keeps them. */
  ghost predicate OneStepped(s: State, a: Action)
    requires Enabled(s, a) && !OfNone(a)
  {
    var s' := Step(s, a);
    && s'.irps.Keys == s.irps.Keys + {a.i}
    && (forall i :: i in s.irps && i != a.i ==> s'.irps[i] == s.irps[i])
    && (!a.Queue? ==> var x, y := s.irps[a.i], s'.irps[a.i];
                      y.dev == x.dev && y.pdo == x.pdo && y.stamp == x.stamp
                      && (y.refs ==> x.refs) && (y.pending ==> x.pending))
  }

  lemma RefsKept(s: State, a: Action, dev: Dev)
    requires Enabled(s, a) && !OfNone(a) && OneStepped(s, a) && Get(s.devRefs, dev) == |RefHolders(s.irps, dev)|
    ensures Get(Step(s, a).devRefs, dev) == |RefHolders(Step(s, a).irps, dev)|
  {
    OneMoved(RefHolders(s.irps, dev), RefHolders(Step(s, a).irps, dev), a.i);
  }

  lemma PendingKept(s: State, a: Action, pdo: Pdo)
    requires Enabled(s, a) && !OfNone(a) && OneStepped(s, a) && Get(s.urbsPending, pdo) == |PendingHolders(s.irps, pdo)|
    ensures Get(Step(s, a).urbsPending, pdo) == |PendingHolders(Step(s, a).irps, pdo)|
  {
    OneMoved(PendingHolders(s.irps, pdo), PendingHolders(Step(s, a).irps, pdo), a.i);
  }

  lemma StepsOne(s: State, a: Action)
    requires Enabled(s, a) && !OfNone(a)
    ensures OneStepped(s, a)
  {
    if !a.Queue? {
      MovedSame(s.irps[a.i], a, s.irps[a.i].pdo in s.closing);
    }
  }

  lemma IrpsKept(s: State, a: Action, i: Id)
    requires Enabled(s, a) && !OfNone(a) && i in Step(s, a).irps && Stamped(s) && Walking(s)
    requires i in s.irps ==> Single(s.irps[i], i, s.lock, s.thread)
    requires a.i in s.irps ==> Single(s.irps[a.i], a.i, s.lock, s.thread)
    ensures Single(Step(s, a).irps[i], i, Step(s, a).lock, Step(s, a).thread)
  {
    if !a.Queue? {
      var x := s.irps[a.i];
      if i == a.i {
        MovedKeeps(x, a, x.pdo in s.closing, s.lock, s.thread);
      } else {
        OthersKeep(s.irps[i], i, x, a, x.pdo in s.closing, s.lock, s.thread);
      }
    }
  }

  // ----- the lists' order ------------------------------------------------------------------------------

  /** The entries of `list` in `these`, in their order. */
  function Only(list: seq<Id>, these: set<Id>): seq<Id> {
    if list == [] then [] else (if list[0] in these then [list[0]] else []) + Only(list[1..], these)
  }

  function Except(list: seq<Id>, these: set<Id>): seq<Id> {
    if list == [] then [] else (if list[0] in these then [] else [list[0]]) + Except(list[1..], these)
  }

  lemma {:induction false} ExceptIn(list: seq<Id>, these: set<Id>)
    ensures forall i :: i in Except(list, these) <==> i in list && i !in these
    ensures forall i :: i in Only(list, these) <==> i in list && i in these
  {
    if list != [] {
      ExceptIn(list[1..], these);
    }
  }

  lemma {:induction false} ExceptJoins(a: seq<Id>, b: seq<Id>, these: set<Id>)
    ensures Except(a + b, these) == Except(a, these) + Except(b, these)
  {
    if a == [] {
      assert a + b == b;
    } else {
      assert (a + b)[1..] == a[1..] + b;
      ExceptJoins(a[1..], b, these);
    }
  }

  lemma {:induction false} ExceptNone(list: seq<Id>, i: Id)
    requires i !in list
    ensures Except(list, {i}) == list
  {
    if list != [] {
      ExceptNone(list[1..], i);
    }
  }

  lemma {:induction false} OneMoreClaimed(list: seq<Id>, these: set<Id>, i: Id)
    requires i !in list
    ensures Only(list, these + {i}) == Only(list, these) && Except(list, these + {i}) == Except(list, these)
  {
    if list != [] {
      OneMoreClaimed(list[1..], these, i);
    }
  }

  predicate AllBefore(irps: map<Id, Irp>, a: seq<Id>, b: seq<Id>) {
    forall i, j {:trigger Before(irps, i, j)} :: i in a && j in b ==> Before(irps, i, j)
  }

  /** A list is in order exactly when its parts are and the first comes before the second. */
  lemma InOrderParts(irps: map<Id, Irp>, a: seq<Id>, b: seq<Id>)
    requires InOrder(irps, a + b)
    ensures InOrder(irps, a) && InOrder(irps, b) && AllBefore(irps, a, b)
  {
    var l := a + b;
    forall p, q | 0 <= p < q < |a| ensures Before(irps, a[p], a[q]) {
      assert Before(irps, l[p], l[q]);
    }
    forall p, q | 0 <= p < q < |b| ensures Before(irps, b[p], b[q]) {
      assert Before(irps, l[|a| + p], l[|a| + q]);
    }
    forall i, j | i in a && j in b ensures Before(irps, i, j) {
      var p :| 0 <= p < |a| && a[p] == i;
      var q :| 0 <= q < |b| && b[q] == j;
      assert Before(irps, l[p], l[|a| + q]);
    }
  }

  lemma InOrderJoined(irps: map<Id, Irp>, a: seq<Id>, b: seq<Id>)
    requires InOrder(irps, a) && InOrder(irps, b) && AllBefore(irps, a, b)
    ensures InOrder(irps, a + b)
  {
    var l := a + b;
    forall p, q | 0 <= p < q < |l| ensures Before(irps, l[p], l[q]) {
      if q < |a| {
        assert Before(irps, a[p], a[q]);
      } else if p >= |a| {
        assert Before(irps, b[p - |a|], b[q - |a|]);
      } else {
        assert l[p] in a && l[q] in b;
      }
    }
  }

  lemma {:induction false} ExceptInOrder(irps: map<Id, Irp>, list: seq<Id>, these: set<Id>)
    requires InOrder(irps, list)
    ensures InOrder(irps, Except(list, these))
  {
    if list != [] {
      var first, rest := list[..1], list[1..];
      assert list == first + rest;
      InOrderParts(irps, first, rest);
      ExceptInOrder(irps, rest, these);
      ExceptIn(rest, these);
      if list[0] !in these {
        assert [list[0]] == first;
        InOrderJoined(irps, first, Except(rest, these));
      } else {
        assert Except(list, these) == Except(rest, these);
      }
    }
  }

  /** Of what a cancel routine owns nothing is promised, so an entry may move ahead past it. */
  lemma MovedUp(irps: map<Id, Irp>, a: seq<Id>, i: Id, owned: seq<Id>, c: seq<Id>)
    requires InOrder(irps, (a + [i] + owned) + c) && forall k :: k in owned ==> k in irps && irps[k].routine != Quiet
    ensures InOrder(irps, (a + owned) + ([i] + c))
  {
    var one := [i];
    InOrderParts(irps, a + one + owned, c);
    InOrderParts(irps, a + one, owned);
    InOrderParts(irps, a, one);
    assert forall x :: x in a || x in one ==> x in a + one;
    assert forall x :: x in a || x in one || x in owned ==> x in a + one + owned;
    InOrderJoined(irps, a, owned);
    InOrderJoined(irps, one, c);
    forall x, y | x in a + owned && y in one + c ensures Before(irps, x, y) {
      if x in owned && y in one {
        assert Before(irps, i, x);
      }
    }
    InOrderJoined(irps, a + owned, one + c);
  }

  /** The order is one of stamps, and stamps stay; an IRP still waiting has not become its device's again. */
  lemma InOrderStays(irps: map<Id, Irp>, irps': map<Id, Irp>, list: seq<Id>)
    requires InOrder(irps, list)
    requires forall j :: j in list && j in irps ==>
               && j in irps' && irps'[j].dev == irps[j].dev && irps'[j].stamp == irps[j].stamp
               && (irps'[j].routine == Quiet ==> irps[j].routine == Quiet)
    ensures InOrder(irps', list)
  {
    forall p, q | 0 <= p < q < |list| ensures Before(irps', list[p], list[q]) {
      assert Before(irps, list[p], list[q]);
      assert list[p] in list && list[q] in list;
    }
  }

  lemma HeadIsOnce(irps: map<Id, Irp>, ahead: seq<Id>, slow: seq<Id>)
    requires InOrder(irps, ahead + slow) && slow != []
    ensures slow[0] !in slow[1..]
  {
    InOrderParts(irps, ahead, slow);
    forall q | 0 < q < |slow| ensures slow[q] != slow[0] {
      assert Before(irps, slow[0], slow[q]);
    }
  }

  /** What the step of one IRP does to the lists, to what is in the thread's hand and to the IRP itself. */
  ghost predicate Effect(s: State, a: Action, s': State) {
    && !OfNone(a) && !a.Queue? && a.i in s.irps && a.i in s'.irps
    && var x, y := s.irps[a.i], s'.irps[a.i];
       && s'.irps == s.irps[a.i := y] && y.dev == x.dev && y.stamp == x.stamp && s'.submitted == s.submitted
       && s'.slow == SlowAfter(s.slow, a, x, y)
       && Deferred(s', x.dev) == DeferredAfter(Deferred(s, x.dev), a, x, y)
       && (forall dev :: dev != x.dev ==> Deferred(s', dev) == Deferred(s, dev))
       && (y.routine == Quiet && x.routine != Quiet ==> y.list == Nowhere && !y.hand.Serving?)
       && (s.thread.Some? && s.thread.value in s.irps && s'.thread.Some? ==> s'.thread.value in s'.irps)
       && (s.thread.None? && s'.thread.Some? ==> s'.thread.value == a.i)
       && HandEffect(s, a, s', x, y)
  }

  ghost predicate HandEffect(s: State, a: Action, s': State, x: Irp, y: Irp)
    requires !OfNone(a)
  {
    && (if a.Dequeue? then
          x.list == SlowIrps && y.list == Nowhere && s.slow != [] && s.slow[0] == a.i
          && InHand(s) == [] && InHand(s') == [a.i]
        else
          InHand(s') == if InHand(s) == [a.i] && !y.hand.Serving? then [] else InHand(s))
    && (x.list == Nowhere && y.list != Nowhere ==> InHand(s) == [a.i] && InHand(s') == [])
    && (InHand(s) == [a.i] ==> x.list == Nowhere) && (y.hand.Serving? ==> y.list == Nowhere)
    && (x.list == SlowDeferred && y.list == SlowIrps <==> a.UndeferNext? && x.armed)
    && (x.list == SlowIrps ==> y.list != SlowDeferred)
    && (a.UndeferNext? ==> x.list == SlowDeferred && InHand(s) == [] && (!x.armed ==> y == x))
  }

  lemma StepHand(s: State, a: Action)
    requires Enabled(s, a) && !OfNone(a) && !a.Queue? && Walking(s) && Stamped(s)
    requires Single(s.irps[a.i], a.i, s.lock, s.thread)
    requires s.thread.Some? ==> Single(s.irps[s.thread.value], s.thread.value, s.lock, s.thread)
    ensures HandEffect(s, a, Step(s, a), s.irps[a.i], Step(s, a).irps[a.i])
  {
    var x := s.irps[a.i];
    MovedLists(x, a, x.pdo in s.closing, s.lock, s.thread);
    HandsMet(s, a, Step(s, a), x, Moved(x, a, x.pdo in s.closing));
  }

  lemma MovedLists(x: Irp, a: Action, closing: bool, lock: Lock, thread: Option<Id>)
    requires !a.Queue? && !OfNone(a) && Single(x, a.i, lock, thread) && CanMove(x, a, lock)
    ensures ListMove(x, a, Moved(x, a, closing))
  {
  }

  /** How the step of one IRP moves it between the lists and the thread's hand. */
  predicate ListMove(x: Irp, a: Action, y: Irp) {
    && (a.Dequeue? ==> x.list == SlowIrps && y.list == Nowhere && y.hand.Serving?)
    && (!a.Dequeue? && y.hand.Serving? ==> x.hand.Serving?)
    && (x.list == Nowhere && y.list != Nowhere ==> x.hand.Serving? && !y.hand.Serving?)
    && (x.hand.Serving? ==> x.list == Nowhere) && (y.hand.Serving? ==> y.list == Nowhere)
    && (x.list == SlowDeferred && y.list == SlowIrps <==> a.UndeferNext? && x.armed)
    && (x.list == SlowIrps ==> y.list != SlowDeferred)
    && (a.UndeferNext? ==> x.list == SlowDeferred && (!x.armed ==> y == x))
  }

  lemma HandsMet(s: State, a: Action, s': State, x: Irp, y: Irp)
    requires !OfNone(a) && a.i in s.irps && x == s.irps[a.i] && ListMove(x, a, y)
    requires s'.irps == s.irps[a.i := y] && s'.thread == ThreadAfter(y, a, s.thread)
    requires x.hand.Serving? || x.hand.Deferring? <==> s.thread == Some(a.i)
    requires a.Dequeue? ==> s.thread.None? && s.slow != [] && s.slow[0] == a.i
    requires a.UndeferNext? ==> s.thread.None?
    ensures HandEffect(s, a, s', x, y)
  {
  }

  lemma StepEffect(s: State, a: Action)
    requires Inv(s) && Enabled(s, a) && !OfNone(a) && !a.Queue? && OneStepped(s, a)
    ensures Effect(s, a, Step(s, a))
  {
    assert Single(s.irps[a.i], a.i, s.lock, s.thread);
    assert s.thread.Some? ==> Single(s.irps[s.thread.value], s.thread.value, s.lock, s.thread);
    StepHand(s, a);
    StepFields(s, a);
    FieldsEffect(s, a, Step(s, a));
  }

  lemma FieldsEffect(s: State, a: Action, s': State)
    requires !OfNone(a) && !a.Queue? && a.i in s.irps && a.i in s'.irps
    requires Fields(s, a, s', s.irps[a.i], s'.irps[a.i])
    requires s'.irps[a.i].dev == s.irps[a.i].dev && s'.irps[a.i].stamp == s.irps[a.i].stamp
    requires HandEffect(s, a, s', s.irps[a.i], s'.irps[a.i])
    ensures Effect(s, a, s')
  {
  }

  ghost predicate Fields(s: State, a: Action, s': State, x: Irp, y: Irp)
    requires !OfNone(a)
  {
    && s'.irps == s.irps[a.i := y] && s'.submitted == s.submitted && s'.slow == SlowAfter(s.slow, a, x, y)
    && s'.deferred == s.deferred[x.dev := DeferredAfter(Deferred(s, x.dev), a, x, y)]
    && s'.thread == ThreadAfter(y, a, s.thread)
    && (y.routine == Quiet && x.routine != Quiet ==> y.list == Nowhere && !y.hand.Serving?)
  }

  /** The fields the step of one IRP sets. */
  lemma StepFields(s: State, a: Action)
    requires Enabled(s, a) && !OfNone(a) && !a.Queue? && Single(s.irps[a.i], a.i, s.lock, s.thread)
    ensures Fields(s, a, Step(s, a), s.irps[a.i], Step(s, a).irps[a.i])
  {
  }

  lemma SlowKept(s: State, a: Action, s': State, j: Id)
    requires Listed(s) && Effect(s, a, s') && InOrder(s.irps, Waiting(s, s.irps[a.i].dev))
    ensures j in s'.slow <==> j in s'.irps && s'.irps[j].list == SlowIrps
  {
    if a.Dequeue? {
      HeadIsOnce(s.irps, Deferred(s, s.irps[a.i].dev) + InHand(s), s.slow);
      HeadOff(s.slow, j);
    } else {
      ExceptIn(s.slow, {a.i});
    }
  }

  lemma HeadOff(slow: seq<Id>, j: Id)
    requires slow != [] && slow[0] !in slow[1..]
    ensures j in slow[1..] <==> j in slow && j != slow[0]
  {
    assert slow == [slow[0]] + slow[1..];
  }

  lemma DeferredKept(s: State, a: Action, s': State, dev: Dev, j: Id)
    requires Listed(s) && Effect(s, a, s')
    ensures j in Deferred(s', dev) <==> j in s'.irps && s'.irps[j].list == SlowDeferred && s'.irps[j].dev == dev
  {
    ExceptIn(Deferred(s, dev), {a.i});
  }

  lemma ListedKept(s: State, a: Action, s': State)
    requires Listed(s) && Effect(s, a, s') && InOrder(s.irps, Waiting(s, s.irps[a.i].dev))
    ensures Listed(s')
  {
    forall j ensures j in s'.slow <==> j in s'.irps && s'.irps[j].list == SlowIrps {
      SlowKept(s, a, s', j);
    }
    forall dev, j ensures j in Deferred(s', dev) <==>
                          j in s'.irps && s'.irps[j].list == SlowDeferred && s'.irps[j].dev == dev {
      DeferredKept(s, a, s', dev, j);
    }
  }

  /** Three parts with one entry gone from whichever holds it. */
  lemma ExceptParts(d: seq<Id>, h: seq<Id>, slow: seq<Id>, i: Id)
    ensures Except(d + h + slow, {i}) == Except(d, {i}) + Except(h, {i}) + Except(slow, {i})
    ensures i !in d ==> Except(d, {i}) == d
    ensures i !in h ==> Except(h, {i}) == h
    ensures i !in slow ==> Except(slow, {i}) == slow
    ensures Except([i], {i}) == []
  {
    ExceptJoins(d + h, slow, {i});
    ExceptJoins(d, h, {i});
    if i !in d { ExceptNone(d, i); }
    if i !in h { ExceptNone(h, i); }
    if i !in slow { ExceptNone(slow, i); }
    assert [i][1..] == [];
  }

  /** A step that neither queues nor undefers leaves what waits as it was, or takes its own IRP out of it. */
  lemma WaitingAfter(s: State, a: Action, s': State, dev: Dev)
    requires Listed(s) && Effect(s, a, s') && !(a.UndeferNext? && s.irps[a.i].armed)
    ensures Waiting(s', dev) == Waiting(s, dev) || Waiting(s', dev) == Except(Waiting(s, dev), {a.i})
  {
    var i, x, y := a.i, s.irps[a.i], s'.irps[a.i];
    var d, slow := Deferred(s, dev), s.slow;
    if a.Dequeue? {
      assert slow == [i] + slow[1..];
      assert d + [] + slow == d + [i] + slow[1..];
    } else if x.list == Nowhere && y.list != Nowhere {
      PutOnList(s, a, s', dev);
    } else {
      TakenOut(s, a, s', dev);
    }
  }

  /** Put back, or deferred: on its list it is where it was in the thread's hand. */
  lemma PutOnList(s: State, a: Action, s': State, dev: Dev)
    requires Listed(s) && Effect(s, a, s') && s.irps[a.i].list == Nowhere && s'.irps[a.i].list != Nowhere
    ensures Waiting(s', dev) == Waiting(s, dev) || Waiting(s', dev) == Except(Waiting(s, dev), {a.i})
  {
    var i, x, y := a.i, s.irps[a.i], s'.irps[a.i];
    var d, slow := Deferred(s, dev), s.slow;
    if y.list == SlowIrps {
      HandPlaces(d, i, slow);
    } else if dev == x.dev {
      HandPlaces(d, i, slow);
    } else {
      ExceptParts(d, [i], slow, i);
    }
  }

  lemma HandPlaces(d: seq<Id>, i: Id, slow: seq<Id>)
    ensures d + [] + ([i] + slow) == d + [i] + slow == (d + [i]) + [] + slow
  {
    assert d + [] == d && (d + [i]) + [] == d + [i];
    assert d + ([i] + slow) == d + [i] + slow;
  }

  lemma TakenOut(s: State, a: Action, s': State, dev: Dev)
    requires Listed(s) && Effect(s, a, s') && !(a.UndeferNext? && s.irps[a.i].armed) && !a.Dequeue?
    requires s.irps[a.i].list == Nowhere ==> s'.irps[a.i].list == Nowhere
    ensures Waiting(s', dev) == Waiting(s, dev) || Waiting(s', dev) == Except(Waiting(s, dev), {a.i})
  {
    var i, x, y := a.i, s.irps[a.i], s'.irps[a.i];
    var d, h, slow := Deferred(s, dev), InHand(s), s.slow;
    ExceptParts(d, h, slow, i);
    assert x.list != SlowIrps ==> i !in slow;
    assert x.list != SlowDeferred || x.dev != dev ==> i !in d;
    assert h != [i] ==> i !in h;
  }

  /** An entry on its device's list is there once, and comes off it alone. */
  lemma TakenOnce(irps: map<Id, Irp>, ahead: seq<Id>, i: Id, owned: seq<Id>, rest: seq<Id>)
    requires InOrder(irps, (ahead + [i] + owned) + rest)
    ensures i !in ahead && i !in owned && Except(ahead + [i] + owned, {i}) == ahead + owned
  {
    InOrderParts(irps, ahead + [i] + owned, rest);
    ThereOnce(irps, ahead, i, owned);
    ExceptOne(ahead, i, owned);
  }

  lemma {:induction false} ExceptOne(ahead: seq<Id>, i: Id, owned: seq<Id>)
    requires i !in ahead && i !in owned
    ensures Except(ahead + [i] + owned, {i}) == ahead + owned
  {
    var list := ahead + [i] + owned;
    if ahead == [] {
      assert list[1..] == owned && ahead + owned == owned;
      ExceptNone(owned, i);
    } else {
      assert list[1..] == ahead[1..] + [i] + owned;
      ExceptOne(ahead[1..], i, owned);
      assert ahead + owned == [ahead[0]] + (ahead[1..] + owned);
    }
  }

  lemma ThereOnce(irps: map<Id, Irp>, ahead: seq<Id>, i: Id, owned: seq<Id>)
    requires InOrder(irps, ahead + [i] + owned)
    ensures i !in ahead && i !in owned
  {
    var l, n := ahead + [i] + owned, |ahead|;
    forall p | 0 <= p < |l| && p != n ensures l[p] != i {
      assert l[n] == i && (if p < n then Before(irps, l[p], l[n]) else Before(irps, l[n], l[p]));
    }
    assert forall p :: 0 <= p < n ==> ahead[p] == l[p];
    assert forall p :: 0 <= p < |owned| ==> owned[p] == l[n + 1 + p];
  }

  /** Where the undeferral's walk is: the entries ahead, the one it is at, and those it left behind. */
  lemma WalkPlace(w: Lock, list: seq<Id>, slow: seq<Id>, irps: map<Id, Irp>, i: Id)
    requires AtEntry(w, i) && WalkAt(w, list, slow, irps)
    ensures var n := |w.todo|;
            && w.todo[..n - 1] == w.was[..n - 1] && w.was[n - 1..] == [i] + w.was[n..]
            && i in list && list == w.todo[..n - 1] + [i] + Left(w)
  {
    LastOf(w.was, w.todo, i);
  }

  lemma LastOf(was: seq<Id>, todo: seq<Id>, i: Id)
    requires todo != [] && |todo| <= |was| && todo == was[..|todo|] && todo[|todo| - 1] == i
    ensures var n := |todo|;
            && todo == todo[..n - 1] + [i] && todo[..n - 1] == was[..n - 1] && was[n - 1..] == [i] + was[n..]
            && i in todo
  {
    assert was[|todo| - 1] == i;
  }

  /** An entry the undeferral's walk claims goes ahead of what is queued. */
  lemma UndeferredInOrder(s: State, a: Action, s': State, dev: Dev)
    requires Listed(s) && Walking(s) && Effect(s, a, s') && a.UndeferNext? && s.irps[a.i].armed
    requires AtEntry(s.lock, a.i)
    requires InOrder(s.irps, Waiting(s, dev)) && InOrder(s.irps, Waiting(s, s.irps[a.i].dev))
    ensures InOrder(s.irps, Waiting(s', dev))
  {
    if dev == s.irps[a.i].dev {
      AheadOfItsOwn(s, a, s');
    } else {
      AheadOfOthers(s, s.irps[a.i].dev, dev, a.i);
      WaitingIs(s', dev, Deferred(s, dev), [a.i] + s.slow);
    }
  }

  lemma WaitingIs(s: State, dev: Dev, d: seq<Id>, slow: seq<Id>)
    requires Deferred(s, dev) == d && InHand(s) == [] && s.slow == slow
    ensures Waiting(s, dev) == d + slow
  {
    assert d + [] == d;
  }

  lemma AheadOfItsOwn(s: State, a: Action, s': State)
    requires Listed(s) && Walking(s) && Effect(s, a, s') && a.UndeferNext? && s.irps[a.i].armed
    requires AtEntry(s.lock, a.i)
    requires InOrder(s.irps, Waiting(s, s.irps[a.i].dev))
    ensures InOrder(s.irps, Waiting(s', s.irps[a.i].dev))
  {
    var i, w, dev := a.i, s.lock, s.irps[a.i].dev;
    WalkPlace(w, Deferred(s, w.dev), s.slow, s.irps, i);
    ClaimedUp(s.irps, w.todo[..|w.todo| - 1], i, Left(w), Deferred(s, dev), s.slow);
  }

  /** An entry taken off its place on a list and put ahead of what follows the list. */
  lemma ClaimedUp(irps: map<Id, Irp>, ahead: seq<Id>, i: Id, owned: seq<Id>, list: seq<Id>, slow: seq<Id>)
    requires list == ahead + [i] + owned && InOrder(irps, list + [] + slow)
    requires forall k :: k in owned ==> k in irps && irps[k].routine != Quiet
    ensures Except(list, {i}) == ahead + owned && InOrder(irps, Except(list, {i}) + [] + ([i] + slow))
    ensures i !in owned
  {
    assert list + [] == list;
    TakenOnce(irps, ahead, i, owned, slow);
    MovedUp(irps, ahead, i, owned, slow);
    assert Except(list, {i}) + [] == ahead + owned;
  }

  lemma AheadOfOthers(s: State, own: Dev, dev: Dev, i: Id)
    requires Listed(s) && InHand(s) == [] && i in Deferred(s, own) && dev != own
    requires InOrder(s.irps, Waiting(s, dev)) && InOrder(s.irps, Waiting(s, own))
    ensures InOrder(s.irps, Deferred(s, dev) + ([i] + s.slow))
  {
    var d, one := Deferred(s, dev), [i];
    WaitingIs(s, own, Deferred(s, own), s.slow);
    WaitingIs(s, dev, d, s.slow);
    InOrderParts(s.irps, Deferred(s, own), s.slow);
    InOrderParts(s.irps, d, s.slow);
    InOrderJoined(s.irps, one, s.slow);
    InOrderJoined(s.irps, d, one + s.slow);
  }

  /** An IRP whose cancel routine has run is on no list. */
  lemma NoneComesBack(s: State, a: Action, s': State, dev: Dev)
    requires Listed(s') && Effect(s, a, s') && s'.irps[a.i].routine == Quiet && a.i in Waiting(s', dev)
    ensures s.irps[a.i].routine == Quiet
  {
    assert a.i in Deferred(s', dev) || a.i in InHand(s') || a.i in s'.slow;
  }

  lemma OrderKept(s: State, a: Action, s': State, dev: Dev)
    requires Listed(s) && Listed(s') && Walking(s) && Effect(s, a, s')
    requires a.UndeferNext? ==> AtEntry(s.lock, a.i)
    requires InOrder(s.irps, Waiting(s, dev)) && InOrder(s.irps, Waiting(s, s.irps[a.i].dev))
    ensures InOrder(s'.irps, Waiting(s', dev))
  {
    OrderBefore(s, a, s', dev);
    if a.i in Waiting(s', dev) && s'.irps[a.i].routine == Quiet {
      NoneComesBack(s, a, s', dev);
    }
    OneChanged(s.irps, a.i, s'.irps[a.i], Waiting(s', dev));
  }

  lemma OneChanged(irps: map<Id, Irp>, i: Id, y: Irp, list: seq<Id>)
    requires i in irps && y.dev == irps[i].dev && y.stamp == irps[i].stamp && InOrder(irps, list)
    requires i in list && y.routine == Quiet ==> irps[i].routine == Quiet
    ensures InOrder(irps[i := y], list)
  {
    InOrderStays(irps, irps[i := y], list);
  }

  lemma OrderBefore(s: State, a: Action, s': State, dev: Dev)
    requires Listed(s) && Walking(s) && Effect(s, a, s') && (a.UndeferNext? ==> AtEntry(s.lock, a.i))
    requires InOrder(s.irps, Waiting(s, dev)) && InOrder(s.irps, Waiting(s, s.irps[a.i].dev))
    ensures InOrder(s.irps, Waiting(s', dev))
  {
    if a.UndeferNext? && s.irps[a.i].armed {
      UndeferredInOrder(s, a, s', dev);
    } else {
      WaitingAfter(s, a, s', dev);
      ExceptInOrder(s.irps, Waiting(s, dev), {a.i});
    }
  }

  /** A request queued is the last submitted. */
  lemma QueuedLast(s: State, a: Action, dev: Dev)
    requires Inv(s) && Enabled(s, a) && a.Queue?
    ensures InOrder(Step(s, a).irps, Waiting(Step(s, a), dev))
  {
    var s', list := Step(s, a), Waiting(s, dev);
    assert InHand(s') == InHand(s) && Waiting(s', dev) == list + [a.i];
    InOrderStays(s.irps, s'.irps, list);
    forall j | j in list ensures Before(s'.irps, j, a.i) {
      assert j in Deferred(s, dev) || j in InHand(s) || j in s.slow;
    }
    InOrderJoined(s'.irps, list, [a.i]);
  }

  lemma QueuedListed(s: State, a: Action)
    requires Inv(s) && Enabled(s, a) && a.Queue?
    ensures Listed(Step(s, a)) && Stamped(Step(s, a)) && Walking(Step(s, a))
  {
    var s' := Step(s, a);
    forall dev, j ensures j in Deferred(s', dev) <==>
                          j in s'.irps && s'.irps[j].list == SlowDeferred && s'.irps[j].dev == dev {
      assert Deferred(s', dev) == Deferred(s, dev);
    }
  }

  /** During the walk nothing else moves on the lists, and what its cancel routine owns stays so. */
  lemma WalkUndisturbed(s: State, a: Action)
    requires Enabled(s, a) && !OfNone(a) && s.lock.Walk? && s.thread.None? && !a.UndeferNext?
    requires a.i in s.irps ==> Single(s.irps[a.i], a.i, s.lock, s.thread)
    ensures var s' := Step(s, a);
            && s'.lock == s.lock && s'.slow == s.slow && s'.thread == s.thread && !a.Queue?
            && Deferred(s', s.lock.dev) == Deferred(s, s.lock.dev)
            && (s.irps[a.i].routine == Called ==> s'.irps[a.i].routine == Called)
  {
  }

  /** The walk leaves an entry to its cancel routine. */
  lemma WalkPasses(w: Lock, list: seq<Id>, slow: seq<Id>, irps: map<Id, Irp>, i: Id)
    requires AtEntry(w, i) && WalkAt(w, list, slow, irps) && i !in slow && i in irps && irps[i].routine == Called
    ensures WalkAt(w.(todo := w.todo[..|w.todo| - 1]), list, slow, irps)
  {
    var n, w' := |w.todo|, w.(todo := w.todo[..|w.todo| - 1]);
    WalkPlace(w, list, slow, irps, i);
    PassedLists(w.was[n..], w.was[n - 1..], w.claimed, i, w.todo[..n - 1]);
  }

  lemma PassedLists(rest: seq<Id>, all: seq<Id>, claimed: set<Id>, i: Id, ahead: seq<Id>)
    requires all == [i] + rest && i !in claimed
    ensures Except(all, claimed) == [i] + Except(rest, claimed) && Only(all, claimed) == Only(rest, claimed)
    ensures ahead + [i] + Except(rest, claimed) == ahead + Except(all, claimed)
  {
    assert all[1..] == rest;
    assert ahead + [i] + Except(rest, claimed) == ahead + ([i] + Except(rest, claimed));
  }

  /** The walk claims an entry. */
  lemma WalkClaims(w: Lock, list: seq<Id>, slow: seq<Id>, irps: map<Id, Irp>, i: Id)
    requires AtEntry(w, i) && WalkAt(w, list, slow, irps) && i !in slow && InOrder(irps, list + [] + slow)
    ensures WalkAt(w.(todo := w.todo[..|w.todo| - 1], claimed := w.claimed + {i}), Except(list, {i}), [i] + slow, irps)
    ensures i !in Left(w) && Left(w.(todo := w.todo[..|w.todo| - 1], claimed := w.claimed + {i})) == Left(w)
  {
    var n := |w.todo|;
    WalkPlace(w, list, slow, irps, i);
    ClaimedUp(irps, w.todo[..n - 1], i, Left(w), list, slow);
    ClaimedLists(w.was[n..], w.was[n - 1..], w.claimed, i, slow, w.queued);
  }

  lemma ClaimedLists(rest: seq<Id>, all: seq<Id>, claimed: set<Id>, i: Id, slow: seq<Id>, queued: seq<Id>)
    requires all == [i] + rest && slow == Only(rest, claimed) + queued && i !in slow && i !in Except(rest, claimed)
    ensures Except(all, claimed + {i}) == Except(rest, claimed) && [i] + slow == Only(all, claimed + {i}) + queued
  {
    ExceptIn(rest, claimed);
    assert forall k :: k in Only(rest, claimed) ==> k in slow;
    OneMoreClaimed(rest, claimed, i);
    assert all[1..] == rest;
    assert [i] + (Only(rest, claimed) + queued) == ([i] + Only(rest, claimed)) + queued;
  }

  /** A walk stands as it did if the lists are the same and what it left is still the cancel routines'. */
  lemma WalkStands(w: Lock, list: seq<Id>, slow: seq<Id>, irps: map<Id, Irp>, irps': map<Id, Irp>)
    requires w.Walk? && WalkAt(w, list, slow, irps)
    requires forall i :: i in Left(w) && i in irps ==> i in irps' && irps'[i].routine == irps[i].routine
    ensures WalkAt(w, list, slow, irps')
  {
  }

  /** What the walk's step does to the lists. */
  lemma WalkedLists(s: State, a: Action, s': State, x: Irp, y: Irp)
    requires a.UndeferNext? && a.i in s.irps && s.irps[a.i] == x && Fields(s, a, s', x, y) && x.list == SlowDeferred
    requires if x.armed then y.list == SlowIrps else y == x
    ensures if x.armed
            then Deferred(s', x.dev) == Except(Deferred(s, x.dev), {a.i}) && s'.slow == [a.i] + s.slow
            else Deferred(s', x.dev) == Deferred(s, x.dev) && s'.slow == s.slow && s'.irps == s.irps
  {
    assert x == y ==> s.irps[a.i := y] == s.irps;
  }

  /** The walk one entry on. */
  lemma WalkGoesOn(w: Lock, list: seq<Id>, slow: seq<Id>, irps: map<Id, Irp>, i: Id,
                   list': seq<Id>, slow': seq<Id>, irps': map<Id, Irp>)
    requires AtEntry(w, i) && WalkAt(w, list, slow, irps) && i !in slow && i in irps
    requires InOrder(irps, list + [] + slow) && forall j :: j in irps && j != i ==> j in irps' && irps'[j] == irps[j]
    requires if irps[i].armed then list' == Except(list, {i}) && slow' == [i] + slow
             else irps[i].routine == Called && list' == list && slow' == slow && irps' == irps
    ensures WalkAt(LockAfter(irps[i], UndeferNext(i), false, w), list', slow', irps')
  {
    if irps[i].armed {
      WalkOn(w, list, slow, irps, i, irps');
    } else {
      WalkPasses(w, list, slow, irps, i);
    }
  }

  lemma WalkOn(w: Lock, list: seq<Id>, slow: seq<Id>, irps: map<Id, Irp>, i: Id, irps': map<Id, Irp>)
    requires AtEntry(w, i) && WalkAt(w, list, slow, irps) && i !in slow && InOrder(irps, list + [] + slow)
    requires forall j :: j in irps && j != i ==> j in irps' && irps'[j] == irps[j]
    ensures WalkAt(w.(todo := w.todo[..|w.todo| - 1], claimed := w.claimed + {i}), Except(list, {i}), [i] + slow, irps')
  {
    var w' := w.(todo := w.todo[..|w.todo| - 1], claimed := w.claimed + {i});
    WalkClaims(w, list, slow, irps, i);
    WalkStands(w', Except(list, {i}), [i] + slow, irps, irps');
  }

  lemma WalkStep(s: State, a: Action, s': State, x: Irp, y: Irp)
    requires Walking(s) && a.UndeferNext? && AtEntry(s.lock, a.i) && a.i in s.irps && s.irps[a.i] == x
    requires x.dev == s.lock.dev && a.i !in s.slow && Fields(s, a, s', x, y) && x.list == SlowDeferred
    requires if x.armed then y.list == SlowIrps else y == x && x.routine == Called
    requires InOrder(s.irps, Deferred(s, s.lock.dev) + [] + s.slow)
    ensures WalkAt(LockAfter(x, UndeferNext(a.i), false, s.lock), Deferred(s', s.lock.dev), s'.slow, s'.irps)
  {
    WalkedLists(s, a, s', x, y);
    WalkGoesOn(s.lock, Deferred(s, x.dev), s.slow, s.irps, a.i, Deferred(s', x.dev), s'.slow, s'.irps);
  }

  lemma EntryListed(s: State, i: Id)
    requires Listed(s) && Walking(s) && AtEntry(s.lock, i)
    ensures i in s.irps && s.irps[i].list == SlowDeferred && s.irps[i].dev == s.lock.dev && i !in s.slow
    ensures Waiting(s, s.lock.dev) == Deferred(s, s.lock.dev) + [] + s.slow
  {
    WalkPlace(s.lock, Deferred(s, s.lock.dev), s.slow, s.irps, i);
  }

  lemma WalkingKept(s: State, a: Action)
    requires Inv(s) && Enabled(s, a) && !OfNone(a) && !a.Queue?
    ensures Walking(Step(s, a))
  {
    assert Single(s.irps[a.i], a.i, s.lock, s.thread);
    if a.UndeferNext? {
      EntryListed(s, a.i);
      StepFields(s, a);
      WalkStep(s, a, Step(s, a), s.irps[a.i], Step(s, a).irps[a.i]);
    } else if s.lock.Walk? {
      WalkUndisturbed(s, a);
    }
  }

  lemma ListsKept(s: State, a: Action, s': State)
    requires Listed(s) && Walking(s) && Stamped(s) && Effect(s, a, s')
    requires a.UndeferNext? ==> AtEntry(s.lock, a.i)
    requires forall dev :: InOrder(s.irps, Waiting(s, dev))
    ensures Listed(s') && Stamped(s') && forall dev :: InOrder(s'.irps, Waiting(s', dev))
  {
    ListedKept(s, a, s');
    forall dev ensures InOrder(s'.irps, Waiting(s', dev)) {
      OrderKept(s, a, s', dev);
    }
  }

  lemma NoneKeeps(s: State, a: Action)
    requires Inv(s) && Enabled(s, a) && OfNone(a)
    ensures Inv(Step(s, a))
  {
    var s' := Step(s, a);
    if a.UndeferBegin? {
      WalkBegins(a.dev, Deferred(s, a.dev), s.slow, s.irps);
      assert Deferred(s', a.dev) == Deferred(s, a.dev);
    }
    OnlyLock(s, s');
  }

  /** What changes neither the IRPs nor the lists. */
  lemma OnlyLock(s: State, s': State)
    requires Inv(s) && s' == s.(lock := s'.lock, closing := s'.closing) && Walking(s')
    requires s'.lock == s.lock || (!s.lock.Deferral? && !s'.lock.Deferral?)
    ensures Inv(s')
  {
    assert forall dev :: Deferred(s', dev) == Deferred(s, dev);
    forall dev ensures InOrder(s'.irps, Waiting(s', dev)) {
      assert Waiting(s', dev) == Waiting(s, dev);
    }
    forall i | i in s'.irps ensures Single(s'.irps[i], i, s'.lock, s'.thread) {
      LockPassed(s.irps[i], i, s.lock, s'.lock, s.thread);
    }
  }

  lemma LockPassed(x: Irp, i: Id, lock: Lock, lock': Lock, thread: Option<Id>)
    requires Single(x, i, lock, thread) && (lock' == lock || (!lock.Deferral? && !lock'.Deferral?))
    ensures Single(x, i, lock', thread)
  {
  }

  lemma WalkBegins(dev: Dev, list: seq<Id>, slow: seq<Id>, irps: map<Id, Irp>)
    ensures WalkAt(Walk(dev, list, list, slow, {}), list, slow, irps)
  {
    assert list[|list|..] == [] && list[..|list|] == list && [] + slow == slow && list + [] == list;
  }

  lemma StepKeepsInv(s: State, a: Action)
    requires Inv(s) && Enabled(s, a)
    ensures Inv(Step(s, a))
  {
    if OfNone(a) {
      NoneKeeps(s, a);
    } else {
      StepsOne(s, a);
      forall i | i in Step(s, a).irps ensures Single(Step(s, a).irps[i], i, Step(s, a).lock, Step(s, a).thread) {
        IrpsKept(s, a, i);
      }
      forall dev ensures Get(Step(s, a).devRefs, dev) == |RefHolders(Step(s, a).irps, dev)| {
        RefsKept(s, a, dev);
      }
      forall pdo ensures Get(Step(s, a).urbsPending, pdo) == |PendingHolders(Step(s, a).irps, pdo)| {
        PendingKept(s, a, pdo);
      }
      if a.Queue? {
        QueuedListed(s, a);
        forall dev ensures InOrder(Step(s, a).irps, Waiting(Step(s, a), dev)) {
          QueuedLast(s, a, dev);
        }
      } else {
        StepEffect(s, a);
        WalkingKept(s, a);
        ListsKept(s, a, Step(s, a));
      }
    }
  }

  // ----- every run -----------------------------------------------------------------------------------------

  predicate Schedule(s: State, run: seq<Action>)
    decreases |run|
  {
    run == [] || (Enabled(s, run[0]) && Schedule(Step(s, run[0]), run[1..]))
  }

  function After(s: State, run: seq<Action>): State
    requires Schedule(s, run)
    decreases |run|
  {
    if run == [] then s else After(Step(s, run[0]), run[1..])
  }

  lemma {:induction false} RunKeepsInv(s: State, run: seq<Action>)
    requires Inv(s) && Schedule(s, run)
    ensures Inv(After(s, run))
    decreases |run|
  {
    if run != [] {
      StepKeepsInv(s, run[0]);
      RunKeepsInv(Step(s, run[0]), run[1..]);
    }
  }

  ghost predicate Reachable(s: State) {
    exists run :: Schedule(Init(), run) && After(Init(), run) == s
  }

  lemma ReachableHasInv(s: State)
    requires Reachable(s)
    ensures Inv(s)
  {
    assert forall dev :: RefHolders(map[], dev) == {};
    assert forall pdo :: PendingHolders(map[], pdo) == {};
    var run :| Schedule(Init(), run) && After(Init(), run) == s;
    RunKeepsInv(Init(), run);
  }

  /** Who answers for an IRP: each case excludes every other. */
  datatype Party = Settled | QueueHead | Thread | DeferringThread | Flush | OnDevice | CancelRoutine

  function PartyOf(x: Irp): Party {
    if x.completed + x.handedOn > 0 then Settled
    else if x.hand.Serving? then Thread
    else if x.hand.Deferring? then DeferringThread
    else if x.hand.Finishing? then Flush
    else if x.list == SlowIrps then QueueHead
    else if x.armed then OnDevice
    else CancelRoutine
  }

  /** The step that party takes next with it; a queued or a waiting IRP's is the thread's. */
  function NextOf(s: State, i: Id): Action
    requires i in s.irps
  {
    var x := s.irps[i];
    match PartyOf(x)
    case QueueHead => if s.slow == [] then UndeferEnd else Dequeue(s.slow[0])
    case Thread => Serve(i)
    case DeferringThread =>
      if x.hand.step == 0 then DeferArm(i) else if x.hand.step == 1 then DeferTest(i) else DeferDisarm(i)
    case Flush => Finish(i, false)
    case OnDevice => UndeferBegin(x.dev)
    case CancelRoutine => if x.routine == Called then CancelUnlist(i) else CancelFinish(i)
    case Settled => Close(x.pdo)
  }

  /** An IRP is completed or handed on at most once, in whatever order the cancel, the undeferral and the
      flushes come; until it is, exactly one party answers for it and can take its next step as soon as
      the lock is free, and the thread too if the step is its. */
  lemma ExactlyOnce(s: State, i: Id)
    requires Reachable(s) && i in s.irps
    ensures s.irps[i].completed + s.irps[i].handedOn <= 1
    ensures PartyOf(s.irps[i]) == Settled <==> s.irps[i].completed + s.irps[i].handedOn == 1
    ensures var party := PartyOf(s.irps[i]);
            && party != Settled && (s.lock.Free? || s.lock == Deferral(i))
            && (party == QueueHead || party == OnDevice ==> s.thread.None?)
            ==> Enabled(s, NextOf(s, i))
  {
    ReachableHasInv(s);
    assert Single(s.irps[i], i, s.lock, s.thread);
  }

  /** The undeferral's walk can always go on. */
  lemma WalkCanGoOn(s: State)
    requires Reachable(s) && s.lock.Walk?
    ensures if s.lock.todo == [] then Enabled(s, UndeferEnd)
            else Enabled(s, UndeferNext(s.lock.todo[|s.lock.todo| - 1]))
  {
    ReachableHasInv(s);
    if s.lock.todo != [] {
      EntryListed(s, s.lock.todo[|s.lock.todo| - 1]);
    }
  }

  /** So can the thread with the IRP it has, the lock free or its own. */
  lemma ThreadGoesOn(s: State)
    requires Reachable(s) && s.thread.Some? && (s.lock.Free? || s.lock == Deferral(s.thread.value))
    ensures s.thread.value in s.irps && Enabled(s, NextOf(s, s.thread.value))
  {
    ReachableHasInv(s);
    ExactlyOnce(s, s.thread.value);
    assert Single(s.irps[s.thread.value], s.thread.value, s.lock, s.thread);
  }

  /** In every run: what waits for a device and is no cancel routine's - deferred, in the thread's hand, queued -
      waits in the order it was submitted. */
  lemma WaitsInSubmissionOrder(s: State, dev: Dev, p: nat, q: nat)
    requires Reachable(s) && p < q < |Waiting(s, dev)|
    ensures var i, j := Waiting(s, dev)[p], Waiting(s, dev)[q];
            && i in s.irps && j in s.irps && i != j
            && (s.irps[i].dev == s.irps[j].dev && s.irps[i].routine == Quiet && s.irps[j].routine == Quiet ==>
                  s.irps[i].stamp < s.irps[j].stamp)
  {
    ReachableHasInv(s);
    assert Before(s.irps, Waiting(s, dev)[p], Waiting(s, dev)[q]);
  }

  /** In every run: an undeferral at its end has put exactly the IRPs it claimed, in their order, ahead of what
      was queued when it began, and left exactly those whose cancel routine had been called. */
  lemma UndeferralKeepsOrder(s: State)
    requires Reachable(s) && s.lock.Walk? && s.lock.todo == []
    ensures s.slow == Only(s.lock.was, s.lock.claimed) + s.lock.queued
    ensures Deferred(s, s.lock.dev) == Except(s.lock.was, s.lock.claimed)
    ensures forall i :: i in s.lock.was ==> i in s.irps && (i !in s.lock.claimed <==> s.irps[i].routine == Called)
  {
    ReachableHasInv(s);
    var w := s.lock;
    assert w.was[0..] == w.was;
    ExceptIn(w.was, w.claimed);
    forall i | i in w.was ensures i in s.irps && (i !in w.claimed <==> s.irps[i].routine == Called) {
      if i in w.claimed {
        assert i in s.slow;
        assert Single(s.irps[i], i, s.lock, s.thread);
      }
    }
  }

  /** A claimer takes only an IRP whose routine it cleared: one whose cancel routine was called is left to
      that routine, and the routine finds it on the list. */
  lemma ClaimersLeaveTheCancelled(s: State, i: Id)
    requires Reachable(s) && i in s.irps && s.irps[i].routine == Called
    ensures s.irps[i].list == SlowDeferred && i in Deferred(s, s.irps[i].dev)
    ensures Enabled(s, UndeferNext(i)) ==> Step(s, UndeferNext(i)).irps[i] == s.irps[i]
    ensures s.lock.Free? ==> Step(s, ClaimToFinish(i)).irps[i] == s.irps[i]
  {
    ReachableHasInv(s);
    assert Single(s.irps[i], i, s.lock, s.thread);
    ClaimersPassIt(s, i);
  }

  lemma ClaimersPassIt(s: State, i: Id)
    requires i in s.irps && s.irps[i].list == SlowDeferred && !s.irps[i].armed
    ensures Enabled(s, UndeferNext(i)) ==> Step(s, UndeferNext(i)).irps[i] == s.irps[i]
    ensures s.lock.Free? ==> Step(s, ClaimToFinish(i)).irps[i] == s.irps[i]
  {
  }

  /** A cancel is never spent on a deferred IRP: past its deferral, one that has been cancelled has its cancel
      routine called, whenever the cancel came, before it was served, while it was, or between the
      deferral's steps; and the routine takes it off the list and completes it. */
  lemma CancelReachesTheDeferred(s: State, i: Id)
    requires Reachable(s) && i in s.irps && s.irps[i].list == SlowDeferred && s.lock != Deferral(i)
    ensures s.irps[i].cancel <==> s.irps[i].routine == Called
    ensures s.irps[i].cancel ==> !s.irps[i].armed
    ensures s.irps[i].cancel && s.lock.Free? ==>
              && Enabled(s, CancelUnlist(i)) && Enabled(Step(s, CancelUnlist(i)), CancelFinish(i))
              && var r := Step(Step(s, CancelUnlist(i)), CancelFinish(i));
                 r.irps[i].completed == 1 && i !in Deferred(r, s.irps[i].dev)
  {
    ReachableHasInv(s);
    assert Single(s.irps[i], i, s.lock, s.thread);
    ExceptIn(Deferred(s, s.irps[i].dev), {i});
  }

  /** Nothing is put on a device's deferred list for a PDO whose Closing is set: whatever runs from then on, an
      IRP of it on that list was there already. */
  lemma {:induction false} NoneDeferredOnceClosing(s: State, run: seq<Action>, i: Id)
    requires Schedule(s, run) && i in After(s, run).irps && After(s, run).irps[i].pdo in s.closing
    ensures After(s, run).irps[i].list == SlowDeferred ==> i in s.irps && s.irps[i].list == SlowDeferred
    decreases |run|
  {
    if run != [] {
      var r := Step(s, run[0]);
      ClosingStays(s, run[0]);
      NoneDeferredOnceClosing(r, run[1..], i);
      if i in r.irps && r.irps[i].list == SlowDeferred {
        PdoStays(r, run[1..], i);
        NotDeferredByStep(s, run[0], i);
      }
    }
  }

  lemma ClosingStays(s: State, a: Action)
    requires Enabled(s, a)
    ensures s.closing <= Step(s, a).closing
  {
  }

  lemma NotDeferredByStep(s: State, a: Action, i: Id)
    requires Enabled(s, a) && i in Step(s, a).irps && Step(s, a).irps[i].pdo in s.closing
    requires Step(s, a).irps[i].list == SlowDeferred
    ensures i in s.irps && s.irps[i].list == SlowDeferred
  {
  }

  lemma {:induction false} PdoStays(s: State, run: seq<Action>, i: Id)
    requires Schedule(s, run) && i in s.irps
    ensures i in After(s, run).irps && After(s, run).irps[i].pdo == s.irps[i].pdo
    decreases |run|
  {
    if run != [] {
      if !OfNone(run[0]) { StepsOne(s, run[0]); }
      PdoStays(Step(s, run[0]), run[1..], i);
    }
  }

  /** References and UrbsPending are conserved: each count is exactly the IRPs that still hold one. */
  lemma CountsAreHolders(s: State, dev: Dev, pdo: Pdo)
    requires Reachable(s)
    ensures Get(s.devRefs, dev) == |RefHolders(s.irps, dev)|
    ensures Get(s.urbsPending, pdo) == |PendingHolders(s.irps, pdo)|
    ensures (forall i :: i in s.irps && s.irps[i].dev == dev ==> PartyOf(s.irps[i]) == Settled) ==>
              Get(s.devRefs, dev) == 0
  {
    ReachableHasInv(s);
    if forall i :: i in s.irps && s.irps[i].dev == dev ==> PartyOf(s.irps[i]) == Settled {
      forall i ensures i !in RefHolders(s.irps, dev) {
        assert i in s.irps ==> Single(s.irps[i], i, s.lock, s.thread);
      }
      assert RefHolders(s.irps, dev) == {};
    }
  }

  // ----- the list walk ------------------------------------------------------------------------------------------

  lemma {:induction false} OnlyLast(list: seq<Id>, last: Id, these: set<Id>)
    ensures Only(list + [last], these) == Only(list, these) + (if last in these then [last] else [])
  {
    var all, end := list + [last], if last in these then [last] else [];
    if list == [] {
      assert all == [last] && all[1..] == [];
    } else {
      var first := if list[0] in these then [list[0]] else [];
      assert all[0] == list[0] && all[1..] == list[1..] + [last];
      OnlyLast(list[1..], last, these);
      assert first + (Only(list[1..], these) + end) == (first + Only(list[1..], these)) + end;
    }
  }

  lemma {:induction false} ExceptLast(list: seq<Id>, last: Id, these: set<Id>)
    ensures Except(list + [last], these) == Except(list, these) + (if last in these then [] else [last])
  {
    var all, end := list + [last], if last in these then [] else [last];
    if list == [] {
      assert all == [last] && all[1..] == [];
    } else {
      var first := if list[0] in these then [] else [list[0]];
      assert all[0] == list[0] && all[1..] == list[1..] + [last];
      ExceptLast(list[1..], last, these);
      assert first + (Except(list[1..], these) + end) == (first + Except(list[1..], these)) + end;
    }
  }

  /** hcdCfgDeferredTake onto the head (the undeferral): walked from the end, the entries claimed keep
      their order ahead of what was queued. `armed` are those whose cancel routine the walk finds still
      installed. */
  method TakeToHead(deferred: seq<Id>, armed: set<Id>, to: seq<Id>) returns (left: seq<Id>, out: seq<Id>)
    ensures left == Except(deferred, armed) && out == Only(deferred, armed) + to
  {
    left, out := [], to;
    var n: nat := |deferred|;
    while n > 0
      invariant n <= |deferred|
      invariant out == Only(deferred[n..], armed) + to && left == Except(deferred[n..], armed)
    {
      n := n - 1;
      var entry := deferred[n];
      assert deferred[n..][1..] == deferred[n + 1..];
      if entry in armed { out := [entry] + out; } else { left := [entry] + left; }
    }
  }

  /** The same onto the tail (a flush). */
  method TakeToTail(deferred: seq<Id>, armed: set<Id>, to: seq<Id>) returns (left: seq<Id>, out: seq<Id>)
    ensures left == Except(deferred, armed) && out == to + Only(deferred, armed)
  {
    left, out := [], to;
    for n := 0 to |deferred|
      invariant out == to + Only(deferred[..n], armed) && left == Except(deferred[..n], armed)
    {
      var entry := deferred[n];
      assert deferred[..n + 1] == deferred[..n] + [entry];
      OnlyLast(deferred[..n], entry, armed);
      ExceptLast(deferred[..n], entry, armed);
      if entry in armed { out := out + [entry]; } else { left := left + [entry]; }
    }
    assert deferred[..|deferred|] == deferred;
  }
}
