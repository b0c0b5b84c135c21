/**
 One endpoint's share of a device: everything hcd_cfg.c keeps at one DCI, and everything the
 controller may hold there. The driver's tables are all indexed by DCI and its loops treat each DCI
 alone, so what is safe is decided here, cell by cell; RingOwner runs the operations over all cells.

 A ring, stream block or page is named by its acquisition: the same memory acquired again later is
 another `Alloc`. Giving one back demands, in every function that does, that no Endpoint Context the
 controller may hold names it.
 */
module RingCells {
  import opened Common
  import opened OwnTable

  datatype Kind = Ring | StreamBlock | IsoPage

  datatype Alloc = Alloc(kind: Kind, dci: nat, serial: nat)

  /** A pipe object; its pool ring's acquisition is its handle. `trbs`: of the ring it runs on, the page's if
      it has one. */
  datatype Pipe = Pipe(ring: Alloc, block: Option<Alloc>, page: Option<Alloc>, isoch: bool, trbs: nat, isoCount: nat)

  /** XHCI_POOL_RING_TRBS and XHCI_ISO_EVENTS_OVER_TRBS. */
  const POOL_RING_TRBS: nat := 64
  const ISO_EVENTS_OVER_TRBS: nat := 5

  /** What a pipe takes of the event budget: an isochronous one its ring's capacity and the events beyond,
      any other nothing. */
  function Share(p: Pipe): nat {
    if p.isoch && p.trbs >= 2 then p.trbs - 2 + ISO_EVENTS_OVER_TRBS else 0
  }

  /** A page is an isochronous pipe's; without one the ring is the pool's; the count is the share. */
  predicate Counted(p: Pipe) {
    && p.trbs >= 2 && (if p.page.Some? then p.isoch else p.trbs == POOL_RING_TRBS)
    && p.isoCount == Share(p)
  }

  datatype Cell = Cell(
    open: Option<Pipe>,           // dev->Pipes[dci]
    detached: Option<Pipe>,       // sw->Old[dci]
    built: Option<Pipe>,          // sw->New[dci]
    retained: seq<Pipe>,          // dev->Retained of this DCI, not pinned
    pinned: seq<Pipe>,            // dev->Retained of this DCI, pinned
    retired: multiset<Alloc>,     // StreamsRetired and IsoPagesRetired of this DCI
    kept: multiset<Alloc>,        // pages kept for good, for want of a proof and of a record to retire them
    stale: bool,                  // dev->Stale's bit
    ctx: set<Alloc>,              // what the Endpoint Context names
    maybe: set<Alloc>,            // what it names if the command whose completion was lost took effect
    made: set<Alloc>,             // every acquisition ever made here
    pins: set<Alloc>,             // every one ever pinned, as long as the slot is there
    back: multiset<Alloc>)        // every one given back

  const EmptyCell := Cell(None, None, None, [], [], multiset{}, multiset{}, false, {}, {}, {}, {}, multiset{})

  function WithoutBlock(p: Option<Pipe>): Option<Pipe> {
    if p.Some? then Some(p.value.(block := None)) else None
  }

  // ----- what is held ---------------------------------------------------------------------

  function Part(a: Option<Alloc>): multiset<Alloc> {
    if a.Some? then multiset{a.value} else multiset{}
  }

  function Owned(p: Pipe): multiset<Alloc> {
    multiset{p.ring} + Part(p.block) + Part(p.page)
  }

  function OwnedBy(p: Option<Pipe>): multiset<Alloc> {
    if p.Some? then Owned(p.value) else multiset{}
  }

  function OwnedAll(ps: seq<Pipe>): multiset<Alloc> {
    if ps == [] then multiset{} else Owned(ps[0]) + OwnedAll(ps[1..])
  }

  /** In how many places of the driver's tables `a` is held. */
  function Places(c: Cell, a: Alloc): nat {
    OwnedBy(c.open)[a] + OwnedBy(c.detached)[a] + OwnedBy(c.built)[a]
    + OwnedAll(c.retained)[a] + OwnedAll(c.pinned)[a] + c.retired[a] + c.kept[a]
  }

  // ----- the invariant --------------------------------------------------------------------

  predicate Named(c: Cell, a: Alloc) {
    a in c.ctx || a in c.maybe
  }

  /** No context the controller may hold names any of `m`. */
  ghost predicate Unnamed(c: Cell, m: multiset<Alloc>) {
    forall a :: a in m ==> !Named(c, a)
  }

  predicate PartUnnamed(c: Cell, a: Option<Alloc>) {
    a.Some? ==> !Named(c, a.value)
  }

  /** No context the controller may hold names anything of the pipe. */
  predicate PipeUnnamed(c: Cell, p: Option<Pipe>) {
    p.Some? ==> !Named(c, p.value.ring) && PartUnnamed(c, p.value.block) && PartUnnamed(c, p.value.page)
  }

  /** An acquisition is held in exactly one place or was given back exactly once; one that any context
      may name is held; one ever pinned is pinned still; none is kept for good, since whatever is given up
      has a proof. */
  predicate AllocInv(c: Cell, a: Alloc) {
    && Places(c, a) + c.back[a] == (if a in c.made then 1 else 0)
    && (Named(c, a) ==> Places(c, a) == 1)
    && c.kept[a] == 0 && (a.kind.Ring? ==> c.retired[a] == 0)
    && (a in c.pins ==> OwnedAll(c.pinned)[a] == 1)
  }

  /** A held pipe that is not pinned has its DCI marked stale, and a switch's pipes are of DCIs with
      no open pipe. */
  predicate Shaped(c: Cell) {
    && (c.retained != [] ==> c.stale)
    && (c.open.Some? ==> c.detached.None? && c.built.None?)
    && Kinded(c.open) && Kinded(c.detached) && Kinded(c.built)
    && (forall p :: p in c.retained ==> p.isoCount == 0)
    && (forall p :: p in c.pinned ==> p.isoCount == 0)
  }

  predicate Kinded(p: Option<Pipe>) {
    p.Some? ==> && p.value.ring.kind.Ring?
                && (p.value.block.Some? ==> p.value.block.value.kind.StreamBlock?)
                && (p.value.page.Some? ==> p.value.page.value.kind.IsoPage?)
                && Counted(p.value)
  }

  ghost predicate CellInv(c: Cell) {
    (forall a :: AllocInv(c, a)) && Shaped(c)
  }

  /** The property itself: nothing given back is named, or was ever pinned, or is given back twice. */
  lemma NothingNamedIsBack(c: Cell, a: Alloc)
    requires CellInv(c) && a in c.back
    ensures !Named(c, a) && a !in c.pins && Places(c, a) == 0 && c.back[a] == 1
  {
    assert AllocInv(c, a);
  }

  // ----- one Configure Endpoint, seen at one DCI -------------------------------------------

  function Names(p: Option<Pipe>): set<Alloc> {
    set a | a in OwnedBy(p)
  }

  /** The context after a Configure Endpoint with these flags: a Drop empties it, an Add writes it;
      an Add over an enabled endpoint with no Drop is undefined, so either may be named. */
  function Installed(ctx: set<Alloc>, drop: bool, add: Option<Pipe>): set<Alloc> {
    (if drop then {} else ctx) + Names(add)
  }

  function Rewritten(c: Cell, drop: bool, add: Option<Pipe>): Cell {
    var named := Installed(c.ctx, drop, add);
    c.(ctx := named, maybe := named)
  }

  /** hcdCfgRetainedReclaim of this DCI: every held pipe that is not pinned given back. */
  function RetainedBack(c: Cell): Cell
    requires Unnamed(c, OwnedAll(c.retained))
  {
    c.(retained := [], back := c.back + OwnedAll(c.retained))
  }

  /** hcdCfgRetiredReclaim of this DCI. */
  function RetiredBack(c: Cell): Cell
    requires Unnamed(c, c.retired)
  {
    c.(retired := multiset{}, back := c.back + c.retired)
  }

  /** A command issued whose completion was never seen. */
  function Lost(c: Cell, drop: bool, add: Option<Pipe>): Cell {
    c.(maybe := Installed(c.ctx, drop, add))
  }

  /** What a Configure Endpoint can add here: a pipe the driver holds. */
  predicate Addable(c: Cell, add: Option<Pipe>) {
    add == c.open || add == WithoutBlock(c.open) || add == c.detached || add == c.built || add.None?
  }

  /** Whatever a command can add is held: taking its stream block off the open pipe takes nothing else. */
  lemma AddableIsHeld(c: Cell, add: Option<Pipe>, a: Alloc)
    requires Addable(c, add)
    ensures OwnedBy(add)[a] <= Places(c, a)
  {
    if add == WithoutBlock(c.open) {
      LessItsBlock(c.open, a);
    }
  }

  lemma LessItsBlock(p: Option<Pipe>, a: Alloc)
    ensures OwnedBy(WithoutBlock(p))[a] <= OwnedBy(p)[a]
  {
  }

  lemma RewrittenAlloc(c: Cell, drop: bool, add: Option<Pipe>, a: Alloc)
    requires AllocInv(c, a) && Addable(c, add)
    ensures AllocInv(Rewritten(c, drop, add), a)
  {
    AddableIsHeld(c, add, a);
    assert Places(Rewritten(c, drop, add), a) == Places(c, a);
  }

  lemma RewrittenKeeps(c: Cell, drop: bool, add: Option<Pipe>)
    requires CellInv(c) && Addable(c, add)
    ensures CellInv(Rewritten(c, drop, add))
  {
    forall a ensures AllocInv(Rewritten(c, drop, add), a) {
      RewrittenAlloc(c, drop, add, a);
    }
  }

  lemma LostAlloc(c: Cell, drop: bool, add: Option<Pipe>, a: Alloc)
    requires AllocInv(c, a) && Addable(c, add)
    ensures AllocInv(Lost(c, drop, add), a)
  {
    AddableIsHeld(c, add, a);
    assert Places(Lost(c, drop, add), a) == Places(c, a);
  }

  lemma LostKeeps(c: Cell, drop: bool, add: Option<Pipe>)
    requires CellInv(c) && Addable(c, add)
    ensures CellInv(Lost(c, drop, add))
  {
    forall a ensures AllocInv(Lost(c, drop, add), a) {
      LostAlloc(c, drop, add, a);
    }
  }

  lemma AddedIsNotHeld(c: Cell, add: Option<Pipe>, a: Alloc)
    requires AllocInv(c, a) && Addable(c, add) && a in OwnedBy(add)
    ensures a !in c.retired && a !in OwnedAll(c.retained)
  {
    if add == WithoutBlock(c.open) {
      LessItsBlock(c.open, a);
    }
  }

  /** What a Drop leaves named is only the pipe it adds. */
  lemma DropUnnames(c: Cell, add: Option<Pipe>)
    requires CellInv(c) && Addable(c, add)
    ensures Unnamed(Rewritten(c, true, add), c.retired) && Unnamed(Rewritten(c, true, add), OwnedAll(c.retained))
  {
    forall a | Named(Rewritten(c, true, add), a) ensures a !in c.retired && a !in OwnedAll(c.retained) {
      AddedIsNotHeld(c, add, a);
    }
  }

  /** hcdCfgRetainedReclaim, the caller's proof in hand. */
  method ReclaimRetained(c: Cell) returns (r: Cell)
    requires CellInv(c) && Unnamed(c, OwnedAll(c.retained))
    ensures CellInv(r) && r.(retained := c.retained, back := c.back) == c && r.retained == []
  {
    r := RetainedBack(c);
    forall a ensures AllocInv(r, a) {
      assert AllocInv(c, a);
    }
  }

  method ReclaimRetired(c: Cell) returns (r: Cell)
    requires CellInv(c) && Unnamed(c, c.retired)
    ensures CellInv(r) && r.(retired := c.retired, back := c.back) == c && r.retired == multiset{}
  {
    r := RetiredBack(c);
    forall a ensures AllocInv(r, a) {
      assert AllocInv(c, a);
    }
  }

  // ----- giving a pipe up, or holding it ----------------------------------------------------

  /** What the caller of hcdCfgPipeFreeEx can show: a proof about this pipe's ring, the device gone,
      or the endpoint read Disabled; and whether a record to retire a page with could be had. */
  datatype Proof = Proof(released: bool, gone: bool, disabled: bool, recorded: bool)

  const PROVEN := Proof(true, false, false, true)

  function FreedBlock(p: Pipe, proof: Proof): Option<Alloc> {
    if proof.gone || proof.disabled then p.block else None
  }

  function FreedPage(p: Pipe, proof: Proof): Option<Alloc> {
    if proof.released || proof.gone || proof.disabled then p.page else None
  }

  /** Nothing that goes back may be named. */
  predicate CanFree(c: Cell, p: Pipe, proof: Proof) {
    !Named(c, p.ring) && PartUnnamed(c, FreedBlock(p, proof)) && PartUnnamed(c, FreedPage(p, proof))
  }

  /** Where something that was in a pipe goes: back, to the device's retired list, or nowhere for good. */
  datatype Where = Back | Retire | Keep

  /** hcdCfgRetain: held closed, its event count returned, its DCI stale. */
  function Held(c: Cell, p: Pipe, pin: bool): Cell {
    var q := p.(isoCount := 0);
    if pin then c.(pinned := [q] + c.pinned, pins := c.pins + Names(Some(p)), stale := true)
    else c.(retained := [q] + c.retained, stale := true)
  }

  /** `c` with `p` out of its tables and not yet anywhere else. */
  predicate InHand(c: Cell, p: Pipe, a: Alloc) {
    && Places(c, a) + Owned(p)[a] + c.back[a] == (if a in c.made then 1 else 0)
    && (Named(c, a) ==> Places(c, a) + Owned(p)[a] == 1)
    && c.kept[a] == 0 && (a.kind.Ring? ==> c.retired[a] == 0)
    && (a in c.pins ==> OwnedAll(c.pinned)[a] == 1)
    && Kinded(Some(p))
  }

  /** The same with `n` of `a` still in hand. */
  predicate Holding(c: Cell, n: nat, a: Alloc) {
    && Places(c, a) + n + c.back[a] == (if a in c.made then 1 else 0)
    && (Named(c, a) ==> Places(c, a) + n == 1)
    && (a.kind.Ring? ==> c.retired[a] + c.kept[a] == 0)
    && (a in c.pins ==> OwnedAll(c.pinned)[a] == 1)
  }

  ghost predicate AllHolding(c: Cell, m: multiset<Alloc>) {
    forall a :: Holding(c, m[a], a)
  }

  /** Only what is back, retired or kept differs, and nothing given back is taken again. */
  predicate PutAwayOnly(c: Cell, r: Cell) {
    r.(back := c.back, retired := c.retired, kept := c.kept) == c && c.back <= r.back
  }

  function Placed(c: Cell, x: Option<Alloc>, w: Where): Cell {
    match w
    case Back => c.(back := c.back + Part(x))
    case Retire => c.(retired := c.retired + Part(x))
    case Keep => c.(kept := c.kept + Part(x))
  }

  /** One part of a pipe in hand, `left` the rest of it. */
  method PutAway(c: Cell, x: Option<Alloc>, w: Where, ghost left: multiset<Alloc>) returns (r: Cell)
    requires AllHolding(c, Part(x) + left)
    requires if w.Back? then PartUnnamed(c, x) else x.Some? ==> !x.value.kind.Ring?
    ensures AllHolding(r, left) && r == Placed(c, x, w)
  {
    r := Placed(c, x, w);
    forall a ensures Holding(r, left[a], a) {
      assert Holding(c, (Part(x) + left)[a], a);
      PutAwayAlloc(c, x, w, left[a], a);
    }
  }

  lemma PutAwayAlloc(c: Cell, x: Option<Alloc>, w: Where, n: nat, a: Alloc)
    requires Holding(c, Part(x)[a] + n, a)
    requires if w.Back? then PartUnnamed(c, x) else x.Some? ==> !x.value.kind.Ring?
    ensures Holding(Placed(c, x, w), n, a)
  {
    match w
    case Back => BackAlloc(c, x, n, a);
    case Retire => RetireAlloc(c, x, n, a);
    case Keep => KeepAlloc(c, x, n, a);
  }

  lemma BackAlloc(c: Cell, x: Option<Alloc>, n: nat, a: Alloc)
    requires Holding(c, Part(x)[a] + n, a) && PartUnnamed(c, x)
    ensures Holding(Placed(c, x, Back), n, a)
  {
    assert Placed(c, x, Back).back[a] == c.back[a] + Part(x)[a];
  }

  lemma RetireAlloc(c: Cell, x: Option<Alloc>, n: nat, a: Alloc)
    requires Holding(c, Part(x)[a] + n, a) && (x.Some? ==> !x.value.kind.Ring?)
    ensures Holding(Placed(c, x, Retire), n, a)
  {
    assert Placed(c, x, Retire).retired[a] == c.retired[a] + Part(x)[a];
  }

  lemma KeepAlloc(c: Cell, x: Option<Alloc>, n: nat, a: Alloc)
    requires Holding(c, Part(x)[a] + n, a) && (x.Some? ==> !x.value.kind.Ring?)
    ensures Holding(Placed(c, x, Keep), n, a)
  {
    assert Placed(c, x, Keep).kept[a] == c.kept[a] + Part(x)[a];
  }

  lemma HeldKeepsAlloc(c: Cell, p: Pipe, pin: bool, a: Alloc)
    requires InHand(c, p, a)
    ensures AllocInv(Held(c, p, pin), a)
  {
    var q := p.(isoCount := 0);
    OneMoreHeld(q, if pin then c.pinned else c.retained, a);
    assert Owned(q)[a] == Owned(p)[a];
  }

  lemma OneMoreHeld(q: Pipe, ps: seq<Pipe>, a: Alloc)
    ensures OwnedAll([q] + ps)[a] == Owned(q)[a] + OwnedAll(ps)[a]
  {
    assert ([q] + ps)[1..] == ps;
  }

  /** What a pipe is once held: its event count returned. */
  function Closed(p: Pipe): Pipe {
    p.(isoCount := 0)
  }

  function IsoOf(p: Option<Pipe>): nat {
    if p.Some? then Share(p.value) else 0
  }

  /** The event budget this DCI's isochronous pipes take; held ones have returned theirs (Shaped). */
  function Iso(c: Cell): nat {
    IsoOf(c.open) + IsoOf(c.detached) + IsoOf(c.built)
  }

  /** hcdCfgIsoCountReturn: the subtraction saturates, and never has to. */
  method IsoCountReturn(p: Pipe, cap: nat) returns (left: nat)
    ensures p.isoCount <= cap ==> left + p.isoCount == cap
  {
    left := if cap >= p.isoCount then cap - p.isoCount else 0;
  }

  /** Giving up or holding a pipe changes no slot and nothing the controller may hold. */
  predicate SameSlots(c: Cell, r: Cell) {
    r.open == c.open && r.detached == c.detached && r.built == c.built && r.ctx == c.ctx && r.maybe == c.maybe
    && r.made == c.made
  }

  ghost predicate AllInHand(c: Cell, p: Pipe) {
    forall a :: InHand(c, p, a)
  }

  /** Where each part of a pipe given up is: its ring back, its block and page back on a proof, retired
      without one, and a page with neither a proof nor a record kept for good. */
  predicate GivenUp(c: Cell, p: Pipe, proof: Proof, r: Cell) {
    && PutAwayOnly(c, r)
    && r.back == c.back + Part(Some(p.ring)) + Part(FreedBlock(p, proof)) + Part(FreedPage(p, proof))
    && r.retired == c.retired + (if FreedBlock(p, proof).Some? then multiset{} else Part(p.block))
                    + (if FreedPage(p, proof).Some? || !proof.recorded then multiset{} else Part(p.page))
    && r.kept == c.kept + (if FreedPage(p, proof).Some? || proof.recorded then multiset{} else Part(p.page))
  }

  /** hcdCfgPipeFreeEx of a pipe already out of its table. */
  method PipeFreeEx(c: Cell, p: Pipe, proof: Proof, cap: nat) returns (r: Cell, left: nat)
    requires AllInHand(c, p) && CanFree(c, p, proof) && p.isoCount <= cap
    ensures AllHolding(r, multiset{})
    ensures GivenUp(c, p, proof, r) && left + p.isoCount == cap
  {
    InHandIsHolding(c, p);
    left := IsoCountReturn(p, cap);
    var free := proof.gone || proof.disabled;
    var block := if free then Back else Retire;
    var page := if free || proof.released then Back else if proof.recorded then Retire else Keep;
    r := PutAway(c, Some(p.ring), Back, Part(p.block) + Part(p.page));
    r := PutAway(r, p.block, block, Part(p.page));
    assert Part(p.page) == Part(p.page) + multiset{};
    r := PutAway(r, p.page, page, multiset{});
    AllPutAway(c, p, proof, block, page);
  }

  /** The lists after the ring, the block and the page have gone where they go. */
  lemma AllPutAway(c: Cell, p: Pipe, proof: Proof, block: Where, page: Where)
    requires block == if proof.gone || proof.disabled then Back else Retire
    requires page == if proof.gone || proof.disabled || proof.released then Back
                     else if proof.recorded then Retire else Keep
    ensures GivenUp(c, p, proof, Placed(Placed(Placed(c, Some(p.ring), Back), p.block, block), p.page, page))
  {
    var a := Placed(c, Some(p.ring), Back);
    var b := Placed(a, p.block, block);
    BlockPlaced(a, p, proof, block);
    PagePlaced(b, p, proof, page);
  }

  lemma BlockPlaced(c: Cell, p: Pipe, proof: Proof, w: Where)
    requires w == if proof.gone || proof.disabled then Back else Retire
    ensures Placed(c, p.block, w).back == c.back + Part(FreedBlock(p, proof))
    ensures Placed(c, p.block, w).retired
            == c.retired + (if FreedBlock(p, proof).Some? then multiset{} else Part(p.block))
  {
  }

  lemma PagePlaced(c: Cell, p: Pipe, proof: Proof, w: Where)
    requires w == if proof.gone || proof.disabled || proof.released then Back
                  else if proof.recorded then Retire else Keep
    ensures Placed(c, p.page, w).back == c.back + Part(FreedPage(p, proof))
    ensures Placed(c, p.page, w).retired
            == c.retired + (if FreedPage(p, proof).Some? || !proof.recorded then multiset{} else Part(p.page))
    ensures Placed(c, p.page, w).kept
            == c.kept + (if FreedPage(p, proof).Some? || proof.recorded then multiset{} else Part(p.page))
  {
  }

  /** A pipe given up on a proof of its own ring, or of its endpoint or device: nothing of it is kept for
      good, and its ring and page are back. */
  method GiveUp(c: Cell, p: Pipe, proof: Proof, cap: nat) returns (r: Cell, left: nat)
    requires AllInHand(c, p) && CanFree(c, p, proof) && p.isoCount <= cap
    requires proof.released || proof.gone || proof.disabled
    ensures forall a :: AllocInv(r, a)
    ensures PutAwayOnly(c, r) && WentBack(Some(p), r) && left + p.isoCount == cap
  {
    r, left := PipeFreeEx(c, p, proof, cap);
    forall a ensures AllocInv(r, a) {
      assert InHand(c, p, a) && Holding(r, multiset{}[a], a);
    }
  }

  lemma InHandIsHolding(c: Cell, p: Pipe)
    requires AllInHand(c, p)
    ensures AllHolding(c, Part(Some(p.ring)) + (Part(p.block) + Part(p.page))) && Kinded(Some(p))
  {
    forall a ensures Holding(c, (Part(Some(p.ring)) + (Part(p.block) + Part(p.page)))[a], a) {
      assert InHand(c, p, a);
    }
    assert InHand(c, p, p.ring);
  }

  method RetainPipe(c: Cell, p: Pipe, pin: bool, cap: nat) returns (r: Cell, left: nat)
    requires AllInHand(c, p) && p.isoCount <= cap
    ensures forall a :: AllocInv(r, a)
    ensures SameSlots(c, r) && r.stale && r.back == c.back && c.pins <= r.pins && left + p.isoCount == cap
    ensures r.retained == (if pin then c.retained else [Closed(p)] + c.retained)
    ensures r.pinned == (if pin then [Closed(p)] + c.pinned else c.pinned)
  {
    r := Held(c, p, pin);
    left := IsoCountReturn(p, cap);
    forall a ensures AllocInv(r, a) {
      assert InHand(c, p, a);
      HeldKeepsAlloc(c, p, pin, a);
    }
  }

  // ----- one step's actions (hcdCfgSwitchApply) at one DCI ------------------------------------

  predicate Settles(f: Fate) {
    f.Free? || f.Retain? || f.Pin?
  }

  /** The pipe as a list, if its fate was this one. */
  function HeldBy(p: Option<Pipe>, f: Fate, fate: Fate): seq<Pipe> {
    if p.Some? && f == fate then [Closed(p.value)] else []
  }

  /** A pipe taken out of its slot meets its fate. */
  method Settle(c: Cell, p: Option<Pipe>, f: Fate, cap: nat) returns (r: Cell, left: nat)
    requires Settles(f) && p.Some? && AllInHand(c, p.value) && (f.Free? ==> PipeUnnamed(c, p))
    requires p.value.isoCount <= cap
    ensures forall a :: AllocInv(r, a)
    ensures SameSlots(c, r) && c.back <= r.back && c.pins <= r.pins && left + p.value.isoCount == cap
    ensures r.retained == HeldBy(p, f, Retain) + c.retained && r.pinned == HeldBy(p, f, Pin) + c.pinned
    ensures r.stale == (c.stale || !f.Free?) && (f.Free? ==> WentBack(p, r))
  {
    if f.Free? {
      r, left := GiveUp(c, p.value, PROVEN, cap);
    } else {
      r, left := RetainPipe(c, p.value, f.Pin?, cap);
    }
  }

  lemma BuiltInHand(c: Cell)
    requires CellInv(c) && c.built.Some?
    ensures AllInHand(c.(built := None), c.built.value)
  {
    forall a ensures InHand(c.(built := None), c.built.value, a) {
      assert AllocInv(c, a);
    }
  }

  lemma DetachedInHand(c: Cell)
    requires CellInv(c) && c.detached.Some?
    ensures AllInHand(c.(detached := None), c.detached.value)
  {
    forall a ensures InHand(c.(detached := None), c.detached.value, a) {
      assert AllocInv(c, a);
    }
  }

  method SettleBuilt(c: Cell, f: Fate, cap: nat) returns (r: Cell, left: nat)
    requires CellInv(c) && (f.Free? ==> PipeUnnamed(c, c.built)) && Iso(c) <= cap
    ensures CellInv(r) && SameSlots(c, r.(built := c.built))
    ensures c.back <= r.back && c.pins <= r.pins && left - cap == Iso(r) - Iso(c)
    ensures r.built == (if Settles(f) then None else c.built)
    ensures r.retained == HeldBy(c.built, f, Retain) + c.retained && r.pinned == HeldBy(c.built, f, Pin) + c.pinned
    ensures r.stale == (c.stale || (c.built.Some? && Settles(f) && !f.Free?))
    ensures f.Free? ==> WentBack(c.built, r)
  {
    r, left := c, cap;
    if c.built.Some? && Settles(f) {
      BuiltInHand(c);
      r, left := Settle(c.(built := None), c.built, f, cap);
    }
  }

  method SettleDetached(c: Cell, f: Fate, cap: nat) returns (r: Cell, left: nat)
    requires CellInv(c) && (f.Free? ==> PipeUnnamed(c, c.detached)) && Iso(c) <= cap
    ensures CellInv(r) && SameSlots(c, r.(detached := c.detached))
    ensures c.back <= r.back && c.pins <= r.pins && left - cap == Iso(r) - Iso(c)
    ensures r.detached == (if Settles(f) then None else c.detached)
    ensures r.retained == HeldBy(c.detached, f, Retain) + c.retained
    ensures r.pinned == HeldBy(c.detached, f, Pin) + c.pinned
    ensures r.stale == (c.stale || (c.detached.Some? && Settles(f) && !f.Free?))
    ensures f.Free? ==> WentBack(c.detached, r)
  {
    r, left := c, cap;
    if c.detached.Some? && Settles(f) {
      DetachedInHand(c);
      r, left := Settle(c.(detached := None), c.detached, f, cap);
    }
  }

  /** XHCI_OWN_A_FREE_OLD_STREAMS: the old pipe kept, its stream block given back. */
  method FreeOldStreams(c: Cell) returns (r: Cell)
    requires CellInv(c) && PipeUnnamed(c, c.detached)
    ensures CellInv(r) && SameSlots(c, r.(detached := c.detached)) && r.detached == WithoutBlock(c.detached)
    ensures r.retained == c.retained && r.pinned == c.pinned && r.pins == c.pins && r.stale == c.stale
    ensures c.back <= r.back
    ensures c.detached.Some? && c.detached.value.block.Some? ==> c.detached.value.block.value in r.back
  {
    r := c;
    if c.detached.Some? {
      r := c.(detached := WithoutBlock(c.detached), back := c.back + Part(c.detached.value.block));
      forall a ensures AllocInv(r, a) {
        BlockFreedAlloc(c, r, c.detached.value, a);
      }
    }
  }

  lemma BlockFreedAlloc(c: Cell, r: Cell, p: Pipe, a: Alloc)
    requires AllocInv(c, a) && c.detached == Some(p) && PartUnnamed(c, p.block)
    requires r == c.(detached := WithoutBlock(c.detached), back := c.back + Part(p.block))
    ensures AllocInv(r, a)
  {
    assert OwnedBy(c.detached)[a] == OwnedBy(r.detached)[a] + Part(p.block)[a];
  }

  /** A pipe given up: its ring and its page, if it had one, back. */
  predicate WentBack(p: Option<Pipe>, r: Cell) {
    p.Some? ==> p.value.ring in r.back && (p.value.page.Some? ==> p.value.page.value in r.back)
  }

  /** What the actions rely on: a proof for everything they give back, no held pipe left unmarked,
      and one side at most published, the other settled. */
  predicate CanApply(c: Cell, actions: Actions) {
    && (actions.staleCleared ==> c.retained == [])
    && (actions.freeOldStreams || actions.detached.Free? ==> PipeUnnamed(c, c.detached))
    && (actions.built.Free? ==> PipeUnnamed(c, c.built))
    && (actions.built.Publish? ==> actions.detached.Free?)
    && (actions.detached.Publish? ==> actions.built.Free? || c.built.None?)
  }

  function OldAfter(c: Cell, actions: Actions): Option<Pipe> {
    if actions.freeOldStreams then WithoutBlock(c.detached) else c.detached
  }

  function OpenAfter(c: Cell, actions: Actions): Option<Pipe> {
    if actions.built.Publish? && c.built.Some? then c.built
    else if actions.detached.Publish? && c.detached.Some? then OldAfter(c, actions)
    else c.open
  }

  /** A cell after one step's actions: every slot and list, and what was given back. */
  predicate AppliedTo(c: Cell, r: Cell, actions: Actions) {
    && r.ctx == c.ctx && r.maybe == c.maybe && r.made == c.made && c.pins <= r.pins
    && r.open == OpenAfter(c, actions)
    && r.built == (if actions.built.Leave? then c.built else None)
    && r.detached == (if actions.detached.Leave? then OldAfter(c, actions) else None)
    && r.retained == HeldBy(OldAfter(c, actions), actions.detached, Retain)
                     + HeldBy(c.built, actions.built, Retain) + c.retained
    && r.pinned == HeldBy(OldAfter(c, actions), actions.detached, Pin)
                   + HeldBy(c.built, actions.built, Pin) + c.pinned
    && (actions.built.Free? ==> WentBack(c.built, r))
    && (actions.detached.Free? ==> WentBack(c.detached, r))
    && c.back <= r.back
    && r.stale == ((c.stale && !actions.staleCleared)
                   || HoldsOne(c.detached, actions.detached) || HoldsOne(c.built, actions.built))
  }

  /** A pipe whose fate was to be held, so that its DCI is marked. */
  predicate HoldsOne(p: Option<Pipe>, f: Fate) {
    p.Some? && (f.Retain? || f.Pin?)
  }

  /** The frees and the holds first, then what is published or put back. */
  method ApplyOne(c: Cell, actions: Actions, cap: nat) returns (r: Cell, left: nat)
    requires CellInv(c) && CanApply(c, actions) && Iso(c) <= cap
    ensures CellInv(r) && left - cap == Iso(r) - Iso(c) && AppliedTo(c, r, actions)
  {
    r := MarksAndStreams(c, actions);
    r, left := SettleBoth(r, actions, cap);
    r := PublishOne(r, actions);
  }

  method MarksAndStreams(c: Cell, actions: Actions) returns (r: Cell)
    requires CellInv(c) && CanApply(c, actions)
    ensures CellInv(r) && SameSlots(c, r.(detached := c.detached)) && r.detached == OldAfter(c, actions)
    ensures r.retained == c.retained && r.pinned == c.pinned && r.pins == c.pins && c.back <= r.back
    ensures r.stale == (c.stale && !actions.staleCleared)
  {
    r := c;
    if actions.staleCleared {
      r := c.(stale := false);
      forall a ensures AllocInv(r, a) {
        MovedAlloc(c, r, a);
      }
    }
    if actions.freeOldStreams {
      r := FreeOldStreams(r);
    }
  }

  method SettleBoth(c: Cell, actions: Actions, cap: nat) returns (r: Cell, left: nat)
    requires CellInv(c) && Iso(c) <= cap
    requires actions.built.Free? ==> PipeUnnamed(c, c.built)
    requires actions.detached.Free? ==> PipeUnnamed(c, c.detached)
    ensures CellInv(r) && c.pins <= r.pins && left - cap == Iso(r) - Iso(c) && c.back <= r.back
    ensures r.stale == (c.stale || HoldsOne(c.detached, actions.detached) || HoldsOne(c.built, actions.built))
    ensures SameSlots(c, r.(built := c.built, detached := c.detached))
    ensures r.built == (if Settles(actions.built) then None else c.built)
    ensures r.detached == (if Settles(actions.detached) then None else c.detached)
    ensures r.retained ==
            HeldBy(c.detached, actions.detached, Retain) + HeldBy(c.built, actions.built, Retain) + c.retained
    ensures r.pinned == HeldBy(c.detached, actions.detached, Pin) + HeldBy(c.built, actions.built, Pin) + c.pinned
    ensures actions.built.Free? ==> WentBack(c.built, r)
    ensures actions.detached.Free? ==> WentBack(c.detached, r)
  {
    r, left := SettleBuilt(c, actions.built, cap);
    r, left := SettleDetached(r, actions.detached, left);
  }

  method PublishOne(c: Cell, actions: Actions) returns (r: Cell)
    requires CellInv(c)
    requires (actions.built.Publish? ==> c.detached.None?) && (actions.detached.Publish? ==> c.built.None?)
    ensures CellInv(r) && Iso(r) == Iso(c) && r.back == c.back
    ensures r.ctx == c.ctx && r.maybe == c.maybe && r.made == c.made
    ensures r.retained == c.retained && r.pinned == c.pinned && r.pins == c.pins && r.stale == c.stale
    ensures r.built == (if actions.built.Publish? then None else c.built)
    ensures r.detached == (if actions.detached.Publish? then None else c.detached)
    ensures r.open == (if actions.built.Publish? && c.built.Some? then c.built
                       else if actions.detached.Publish? && c.detached.Some? then c.detached else c.open)
  {
    r := c;
    if actions.built.Publish? && c.built.Some? {
      r := c.(open := c.built, built := None);
      forall a ensures AllocInv(r, a) {
        PublishedBuilt(c, a);
      }
    } else if actions.detached.Publish? && c.detached.Some? {
      r := c.(open := c.detached, detached := None);
      forall a ensures AllocInv(r, a) {
        PublishedDetached(c, a);
      }
    }
  }

  lemma PublishedBuilt(c: Cell, a: Alloc)
    requires AllocInv(c, a) && c.open.None?
    ensures AllocInv(c.(open := c.built, built := None), a)
  {
  }

  lemma PublishedDetached(c: Cell, a: Alloc)
    requires AllocInv(c, a) && c.open.None?
    ensures AllocInv(c.(open := c.detached, detached := None), a)
  {
  }

  /** A pipe that only changed slots. */
  lemma MovedAlloc(c: Cell, r: Cell, a: Alloc)
    requires AllocInv(c, a)
    requires r.(open := c.open, built := c.built, detached := c.detached, stale := c.stale) == c
    requires OwnedBy(r.open)[a] + OwnedBy(r.built)[a] + OwnedBy(r.detached)[a]
             == OwnedBy(c.open)[a] + OwnedBy(c.built)[a] + OwnedBy(c.detached)[a]
    ensures AllocInv(r, a)
  {
  }

  // ----- the other transitions of one DCI -----------------------------------------------------

  /** A Configure Endpoint that succeeded: the context rewritten, what it dropped reclaimed, no slot
      and no pinned pipe touched. */
  predicate Went(c: Cell, r: Cell, drop: bool, add: Option<Pipe>) {
    && r.open == c.open && r.detached == c.detached && r.built == c.built
    && r.pinned == c.pinned && r.kept == c.kept && r.stale == c.stale && r.made == c.made && r.pins == c.pins
    && r.ctx == r.maybe == Installed(c.ctx, drop, add)
    && r.retained == (if drop then [] else c.retained)
    && r.retired == (if drop then multiset{} else c.retired)
  }

  /** hcdCfgCommand after a success. */
  method Succeed(c: Cell, drop: bool, add: Option<Pipe>) returns (r: Cell)
    requires CellInv(c) && Addable(c, add)
    ensures CellInv(r) && Went(c, r, drop, add)
  {
    RewrittenKeeps(c, drop, add);
    if drop {
      DropUnnames(c, add);
      r := ReclaimBoth(Rewritten(c, true, add));
    } else {
      r := Rewritten(c, false, add);
    }
  }

  method ReclaimBoth(c: Cell) returns (r: Cell)
    requires CellInv(c) && Unnamed(c, c.retired) && Unnamed(c, OwnedAll(c.retained))
    ensures CellInv(r) && r == c.(retained := [], retired := multiset{}, back := r.back)
  {
    r := ReclaimRetired(c);
    r := ReclaimRetained(r);
  }

  /** The switch's own command, if it succeeded, took every old pipe's names away and released every
      held pipe that is not pinned. */
  lemma SwitchSupersedesOld(c: Cell, r: Cell)
    requires CellInv(c) && CellInv(r) && Went(c, r, c.detached.Some? || c.stale, c.built)
    ensures PipeUnnamed(r, r.detached) && r.retained == []
  {
    if c.detached.Some? {
      NotNamedBy(c, r, c.detached.value, c.built);
    }
  }

  lemma RollbackSupersedesNew(c: Cell, r: Cell)
    requires CellInv(c) && CellInv(r) && Went(c, r, c.built.Some?, c.detached)
    ensures PipeUnnamed(r, r.built)
  {
    if c.built.Some? {
      NotNamedBy(c, r, c.built.value, c.detached);
    }
  }

  /** One side of a switch has nothing of the other's. */
  lemma NotNamedBy(c: Cell, r: Cell, p: Pipe, other: Option<Pipe>)
    requires CellInv(c) && r.ctx == r.maybe == Names(other)
    requires (Some(p) == c.detached && other == c.built) || (Some(p) == c.built && other == c.detached)
    ensures PipeUnnamed(r, Some(p))
  {
    NotOthers(c, r, p, other, p.ring);
    if p.block.Some? {
      NotOthers(c, r, p, other, p.block.value);
    }
    if p.page.Some? {
      NotOthers(c, r, p, other, p.page.value);
    }
  }

  lemma NotOthers(c: Cell, r: Cell, p: Pipe, other: Option<Pipe>, a: Alloc)
    requires CellInv(c) && r.ctx == r.maybe == Names(other) && a in Owned(p)
    requires (Some(p) == c.detached && other == c.built) || (Some(p) == c.built && other == c.detached)
    ensures !Named(r, a)
  {
    OneSide(c, OwnedBy(Some(p)), OwnedBy(other), a);
  }

  lemma OneSide(c: Cell, mine: multiset<Alloc>, others: multiset<Alloc>, a: Alloc)
    requires CellInv(c) && a in mine
    requires (mine == OwnedBy(c.detached) && others == OwnedBy(c.built))
             || (mine == OwnedBy(c.built) && others == OwnedBy(c.detached))
    ensures a !in others
  {
    assert AllocInv(c, a);
  }

  /** A new pipe built on rings acquired here for the first time: no context names them. */
  method Build(c: Cell, p: Pipe) returns (r: Cell)
    requires CellInv(c) && c.open.None? && c.built.None? && Kinded(Some(p)) && p.block.None?
    requires p.ring !in c.made && (p.page.Some? ==> p.page.value !in c.made)
    ensures CellInv(r) && r.(built := None, made := c.made) == c && r.built == Some(p)
    ensures r.made == c.made + Names(Some(p)) && PipeUnnamed(r, r.built)
  {
    r := c.(built := Some(p), made := c.made + Names(Some(p)));
    forall a ensures AllocInv(r, a) {
      BuiltAlloc(c, p, a);
    }
    assert AllocInv(c, p.ring);
    if p.page.Some? {
      assert AllocInv(c, p.page.value);
    }
  }

  lemma BuiltAlloc(c: Cell, p: Pipe, a: Alloc)
    requires AllocInv(c, a) && c.built.None? && Kinded(Some(p)) && p.block.None?
    requires p.ring !in c.made && (p.page.Some? ==> p.page.value !in c.made)
    ensures AllocInv(c.(built := Some(p), made := c.made + Names(Some(p))), a)
  {
    assert a in OwnedBy(Some(p)) <==> a == p.ring || p.page == Some(a);
  }

  /** hcdCfgSwitchDetach at one DCI. */
  method Detach(c: Cell) returns (r: Cell)
    requires CellInv(c) && c.detached.None? && c.open.Some?
    ensures CellInv(r) && r == c.(detached := c.open, open := None)
  {
    r := c.(detached := c.open, open := None);
    forall a ensures AllocInv(r, a) {
      MovedAlloc(c, r, a);
    }
  }

  /** hcdCfgCloseMask at one DCI: freed with no proof but the device's going or the endpoint's state. */
  method Close(c: Cell, proof: Proof, cap: nat) returns (r: Cell, left: nat)
    requires proof.gone || proof.disabled
    requires CellInv(c) && c.ctx == {} && c.maybe == {} && c.detached.None? && c.built.None?
    requires Iso(c) <= cap
    ensures CellInv(r) && SameSlots(c.(open := None), r) && left - cap == Iso(r) - Iso(c)
    ensures r.retained == c.retained && r.pinned == c.pinned && r.pins == c.pins && r.stale == c.stale
    ensures WentBack(c.open, r)
  {
    r, left := c, cap;
    if c.open.Some? {
      forall a ensures InHand(c.(open := None), c.open.value, a) {
        assert AllocInv(c, a);
      }
      r, left := GiveUp(c.(open := None), c.open.value, proof, cap);
    }
  }

  /** A stream block acquired and given to the open pipe, for the command that would install it. */
  method AttachBlock(c: Cell, b: Alloc) returns (r: Cell)
    requires CellInv(c) && c.open.Some? && c.open.value.block.None? && b.kind.StreamBlock? && b !in c.made
    ensures CellInv(r) && !Named(r, b) && Iso(r) == Iso(c)
    ensures r == c.(open := Some(c.open.value.(block := Some(b))), made := c.made + {b})
  {
    r := c.(open := Some(c.open.value.(block := Some(b))), made := c.made + {b});
    forall a ensures AllocInv(r, a) {
      AttachedAlloc(c, c.open.value, b, a);
    }
    assert AllocInv(c, b);
  }

  lemma AttachedAlloc(c: Cell, p: Pipe, b: Alloc, a: Alloc)
    requires AllocInv(c, a) && c.open == Some(p) && p.block.None? && b.kind.StreamBlock? && b !in c.made
    ensures AllocInv(c.(open := Some(p.(block := Some(b))), made := c.made + {b}), a)
  {
    assert Owned(p.(block := Some(b)))[a] == Owned(p)[a] + multiset{b}[a];
  }

  /** The open pipe's stream block taken off it: given back on a proof, retired without one. */
  method TakeBlock(c: Cell, proven: bool) returns (r: Cell)
    requires CellInv(c) && c.open.Some? && c.open.value.block.Some?
    requires proven ==> !Named(c, c.open.value.block.value)
    ensures CellInv(r) && r.open == WithoutBlock(c.open) && SamePipes(c.(open := r.open), r) && Iso(r) == Iso(c)
    ensures r.ctx == c.ctx && r.maybe == c.maybe && r.made == c.made
    ensures r.stale == c.stale && r.retained == c.retained && r.pinned == c.pinned
    ensures if proven then c.open.value.block.value in r.back else c.open.value.block.value in r.retired
  {
    var b := c.open.value.block.value;
    r := c.(open := WithoutBlock(c.open));
    if proven {
      r := r.(back := c.back + multiset{b});
    } else {
      r := r.(retired := c.retired + multiset{b});
    }
    forall a ensures AllocInv(r, a) {
      TakenAlloc(c, r, b, a);
    }
  }

  lemma TakenAlloc(c: Cell, r: Cell, b: Alloc, a: Alloc)
    requires AllocInv(c, a) && c.open.Some? && c.open.value.block == Some(b) && b.kind.StreamBlock?
    requires || (r == c.(open := WithoutBlock(c.open), back := c.back + multiset{b}) && !Named(c, b))
             || r == c.(open := WithoutBlock(c.open), retired := c.retired + multiset{b})
    ensures AllocInv(r, a)
  {
    OwnedWithout(c.open.value, b, a);
    assert r.back[a] + r.retired[a] == c.back[a] + c.retired[a] + multiset{b}[a];
  }

  lemma OwnedWithout(p: Pipe, b: Alloc, a: Alloc)
    requires p.block == Some(b)
    ensures OwnedBy(Some(p))[a] == OwnedBy(WithoutBlock(Some(p)))[a] + multiset{b}[a]
  {
  }

  predicate SamePipes(c: Cell, r: Cell) {
    && r.open == c.open && r.detached == c.detached && r.built == c.built
    && r.made == c.made && r.pinned == c.pinned && r.stale == c.stale
  }

  /** What was given back stays given back. */
  ghost predicate BackKept(c: Cell, r: Cell) {
    forall a :: a in c.back ==> a in r.back
  }

  lemma WentKeepsBack(c: Cell, r: Cell, drop: bool, add: Option<Pipe>)
    requires CellInv(c) && CellInv(r) && Went(c, r, drop, add)
    ensures BackKept(c, r)
  {
    forall a | a in c.back ensures a in r.back {
      assert AllocInv(c, a) && AllocInv(r, a);
      assert OwnedAll([])[a] == 0;
    }
  }

  /** A deconfigure's end at one DCI whose endpoint is known Disabled if it had a pipe or was stale:
      the held pipes given back, the mark cleared, the open pipe closed. */
  method Shut(c: Cell, recorded: bool, cap: nat) returns (r: Cell, left: nat)
    requires CellInv(c) && c.detached.None? && c.built.None? && Iso(c) <= cap
    requires c.open.Some? || c.stale ==> c.ctx == {} && c.maybe == {}
    ensures CellInv(r) && left - cap == Iso(r) - Iso(c) && r.made == c.made
    ensures r.open.None? && r.detached.None? && r.built.None? && r.retained == [] && !r.stale
    ensures r.ctx == c.ctx && r.maybe == c.maybe && r.pinned == c.pinned && r.pins == c.pins
    ensures WentBack(c.open, r)
  {
    assert c.retained == [] ==> OwnedAll(c.retained) == multiset{};
    r := ReclaimRetained(c);
    forall a ensures AllocInv(r.(stale := false), a) {
      MovedAlloc(r, r.(stale := false), a);
    }
    r, left := r.(stale := false), cap;
    if r.open.Some? {
      r, left := Close(r, Proof(false, false, true, recorded), cap);
    }
  }

  /** The slot disabled, or taken by an HCRST: no context of the device is left. */
  method SlotGone(c: Cell) returns (r: Cell)
    requires CellInv(c)
    ensures CellInv(r) && r == c.(ctx := {}, maybe := {})
  {
    r := c.(ctx := {}, maybe := {});
    forall a ensures AllocInv(r, a) {
      assert AllocInv(c, a);
    }
  }

  /** The slot gone: no context names anything, and everything held goes back, pinned or not. */
  method Vanish(c: Cell, cap: nat) returns (r: Cell, left: nat)
    requires CellInv(c) && c.ctx == {} && c.maybe == {} && c.detached.None? && c.built.None? && Iso(c) <= cap
    ensures CellInv(r) && left - cap == Iso(r) - Iso(c) && r.made == c.made
    ensures r.ctx == {} && r.maybe == {} && !r.stale
    ensures r.open.None? && r.detached.None? && r.built.None?
    ensures r.retained == [] && r.pinned == [] && r.retired == multiset{}
  {
    r, left := Close(c, Proof(false, true, false, true), cap);
    r := LetGo(r);
  }

  /** What no context names any more given back, pinned or not. */
  method LetGo(c: Cell) returns (r: Cell)
    requires CellInv(c) && c.ctx == {} && c.maybe == {}
    ensures CellInv(r) && r.retained == [] && r.pinned == [] && r.retired == multiset{}
    ensures SameSlots(c, r) && !r.stale
  {
    r := ReclaimRetained(c);
    r := ReclaimRetired(r);
    r := UnpinAll(r);
  }

  method UnpinAll(c: Cell) returns (r: Cell)
    requires CellInv(c) && Unnamed(c, OwnedAll(c.pinned)) && c.retained == []
    ensures CellInv(r) && r == c.(pinned := [], pins := {}, stale := false, back := r.back)
  {
    r := c.(pinned := [], pins := {}, stale := false, back := c.back + OwnedAll(c.pinned));
    forall a ensures AllocInv(r, a) {
      assert AllocInv(c, a);
    }
  }

  /** Once nothing is held, every acquisition has been given back, once. */
  lemma AllGivenBack(c: Cell, a: Alloc)
    requires CellInv(c) && c.open.None? && c.detached.None? && c.built.None?
    requires c.retained == [] && c.pinned == [] && c.retired == multiset{} && a in c.made
    ensures c.back[a] == 1
  {
    assert AllocInv(c, a);
  }

  /** A pool ring is always in exactly one of: an open pipe, a pipe of the switch in flight, held,
      pinned, given back. */
  lemma RingInOnePlace(c: Cell, a: Alloc)
    requires CellInv(c) && a in c.made && a.kind.Ring?
    ensures OwnedBy(c.open)[a] + OwnedBy(c.detached)[a] + OwnedBy(c.built)[a]
            + OwnedAll(c.retained)[a] + OwnedAll(c.pinned)[a] + c.back[a] == 1
  {
    assert AllocInv(c, a);
  }

  // ----- a switch, phase by phase, at one DCI ---------------------------------------------------

  /** `b` is the cell as the switch found it with its pipes detached and built, `c` as it is while
      the switch waits in this phase. Before its command no context names a new pipe; after it, and
      until a rollback succeeds, none names an old one. */
  predicate InPhase(s: Select, c: Cell, b: Cell) {
    && c.open == b.open && c.made == b.made && c.stale == (b.stale && s.phase == Configuring)
    && (b.detached.Some? && b.detached.value.block.Some? ==> s.streams)
    && match s.phase
       case Configuring => c.detached == b.detached && c.built == b.built && PipeUnnamed(c, c.built)
       case Setif => c.detached == WithoutBlock(b.detached) && c.built == b.built && PipeUnnamed(c, c.detached)
       case Clears => c.detached == WithoutBlock(b.detached) && c.built == b.built && PipeUnnamed(c, c.detached)
       case Rollback => c.detached == b.detached && c.built == b.built && PipeUnnamed(c, c.detached)
       case Reclears => c.detached == b.detached && c.built.None? && Met(b.built, c, Free)
       case End => c.detached.None? && c.built.None?
  }

  /** A pipe met its fate: its ring and page back, held, pinned, or published. */
  predicate Met(p: Option<Pipe>, r: Cell, f: Fate) {
    p.Some? ==> match f
                case Free => WentBack(p, r)
                case Retain => Closed(p.value) in r.retained && r.stale
                case Pin => Closed(p.value) in r.pinned
                case Publish => r.open == p
                case Leave => true
  }

  /** What holds once the phase's event is in, its command's effect included. */
  predicate Ready(s: Select, e: Event, c: Cell, b: Cell) {
    match s.phase
    case Configuring =>
      && c.open == b.open && c.detached == b.detached && c.built == b.built && c.made == b.made
      && c.stale == (b.stale && s.phase == Configuring)
      && (b.detached.Some? && b.detached.value.block.Some? ==> s.streams)
      && (e.NotIssued? || e.Refused? ==> PipeUnnamed(c, c.built))
      && (e.Success? ==> PipeUnnamed(c, c.detached) && c.retained == [])
    case Rollback =>
      && c.open == b.open && c.detached == b.detached && c.built == b.built && c.made == b.made
      && c.stale == (b.stale && s.phase == Configuring)
      && (b.detached.Some? && b.detached.value.block.Some? ==> s.streams)
      && (e.NotIssued? || e.Refused? ==> PipeUnnamed(c, c.detached))
      && (e.Success? ==> PipeUnnamed(c, c.built))
    case _ => InPhase(s, c, b)
  }

  /** Where a switch that ended left this DCI: the new pipe, the old one as it was, or whatever was
      open beside the switch. */
  function EndsOpen(b: Cell, d: Decision): Option<Pipe> {
    if d.actions.built.Publish? && b.built.Some? then b.built
    else if d.actions.detached.Publish? && b.detached.Some? then b.detached
    else b.open
  }

  /** Every row of the table is entitled to what it gives back. */
  lemma TableIsEntitled(s: Select, e: Event, c: Cell, b: Cell)
    requires s.phase != End && Ready(s, e, c, b)
    ensures CanApply(c, SelectStep(s, e).actions)
  {
  }

  /** `marked`: the switch's own command did not succeed, so what was stale is stale still. */
  predicate Follows(d: Decision, r: Cell, b: Cell, marked: bool) {
    if d.next.phase == End then
      && r.detached.None? && r.built.None? && r.made == b.made && r.open == EndsOpen(b, d)
      && r.stale == ((b.stale && marked) || HoldsOne(b.detached, d.actions.detached)
                     || HoldsOne(b.built, d.actions.built))
      && Met(b.detached, r, d.actions.detached)
      && Met(b.built, r, if d.actions.built.Leave? then Free else d.actions.built)
    else InPhase(d.next, r, b)
  }

  lemma FollowsConfiguring(s: Select, e: Event, c: Cell, r: Cell, b: Cell, marked: bool)
    requires marked == (s.phase == Configuring && !e.Success?)
    requires s.phase == Configuring && Heard(s, e) && Ready(s, e, c, b) && AppliedTo(c, r, SelectStep(s, e).actions)
    ensures Follows(SelectStep(s, e), r, b, marked)
  {
  }

  lemma FollowsSetif(s: Select, e: Event, c: Cell, r: Cell, b: Cell, marked: bool)
    requires marked == (s.phase == Configuring && !e.Success?)
    requires s.phase == Setif && Heard(s, e) && Ready(s, e, c, b) && AppliedTo(c, r, SelectStep(s, e).actions)
    ensures Follows(SelectStep(s, e), r, b, marked)
  {
  }

  lemma FollowsClears(s: Select, e: Event, c: Cell, r: Cell, b: Cell, marked: bool)
    requires marked == (s.phase == Configuring && !e.Success?)
    requires s.phase == Clears && Heard(s, e) && Ready(s, e, c, b) && AppliedTo(c, r, SelectStep(s, e).actions)
    ensures Follows(SelectStep(s, e), r, b, marked)
  {
  }

  lemma FollowsRollback(s: Select, e: Event, c: Cell, r: Cell, b: Cell, marked: bool)
    requires marked == (s.phase == Configuring && !e.Success?)
    requires s.phase == Rollback && Heard(s, e) && Ready(s, e, c, b) && AppliedTo(c, r, SelectStep(s, e).actions)
    ensures Follows(SelectStep(s, e), r, b, marked)
  {
  }

  lemma FollowsReclears(s: Select, e: Event, c: Cell, r: Cell, b: Cell, marked: bool)
    requires marked == (s.phase == Configuring && !e.Success?)
    requires s.phase == Reclears && Heard(s, e) && Ready(s, e, c, b) && AppliedTo(c, r, SelectStep(s, e).actions)
    ensures Follows(SelectStep(s, e), r, b, marked)
  {
  }

  lemma PhaseFollows(s: Select, e: Event, c: Cell, r: Cell, b: Cell, marked: bool)
    requires marked == (s.phase == Configuring && !e.Success?)
    requires s.phase != End && Heard(s, e) && Ready(s, e, c, b) && AppliedTo(c, r, SelectStep(s, e).actions)
    ensures Follows(SelectStep(s, e), r, b, marked)
  {
    match s.phase
    case Configuring => FollowsConfiguring(s, e, c, r, b, marked);
    case Setif => FollowsSetif(s, e, c, r, b, marked);
    case Clears => FollowsClears(s, e, c, r, b, marked);
    case Rollback => FollowsRollback(s, e, c, r, b, marked);
    case Reclears => FollowsReclears(s, e, c, r, b, marked);
  }
}
