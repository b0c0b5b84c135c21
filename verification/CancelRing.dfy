/**
 Cancelling TDs on a stopped ring (hcd_cfg.c's hcdCfgCancelPipe, with HcdDevStopSettle, XhciXferStopPlace,
 XhciXferCancelPlace and the ring's index walk). The ring is an array of slots closed by a Link TRB, so
 positions wrap; the queue lists the outstanding TDs in order, with No Ops in the gaps earlier cancels left.
 */
module CancelRing {
  import opened Common

  /** One slot: the k-th TRB of a TD, or a No Op (which a slot past the enqueue may be taken for). */
  datatype Trb = Work(td: nat, k: nat) | NoOp

  /** An outstanding TD: where it starts, how many slots it takes, the record it belongs to, whether that
      record's cancel (or its truncation) takes it off, and whether it is held after a short packet for
      the second event that ends it (XHCI_XFER_FLAG_SHORT_DEFERRED). */
  datatype Td = Td(id: nat, first: nat, count: nat, record: nat, taken: bool, held: bool)

  const PIPE_XFERS: nat := 4                   // HCD_PIPE_XFERS
  const MOST_TAKEN: nat := 2 * PIPE_XFERS

  // ----- positions that wrap -----------------------------------------------------------------

  /** Slot `i` steps past slot 0, `m` usable slots to a lap. */
  function Wrap(i: nat, m: nat): (r: nat)
    requires i < 2 * m
    ensures r < m
  {
    if i < m then i else i - m
  }

  /** How many steps from `from` to `to`. */
  function Dist(from: nat, to: nat, m: nat): (r: nat)
    requires from < m && to < m
    ensures r < m && Wrap(from + r, m) == to
  {
    if from <= to then to - from else to + m - from
  }

  /** What lies from `from` up to `to`, in the order the controller meets it. */
  function Slice(slots: seq<Trb>, from: nat, to: nat): (r: seq<Trb>)
    requires from < |slots| && to < |slots|
    ensures |r| == Dist(from, to, |slots|)
  {
    seq(Dist(from, to, |slots|), i requires 0 <= i < Dist(from, to, |slots|) => slots[Wrap(from + i, |slots|)])
  }

  lemma SliceFrom(slots: seq<Trb>, from: nat, to: nat, steps: nat)
    requires from < |slots| && to < |slots| && steps <= Dist(from, to, |slots|)
    ensures Slice(slots, Wrap(from + steps, |slots|), to) == Slice(slots, from, to)[steps..]
  {
    var m := |slots|;
    var a, b := Slice(slots, Wrap(from + steps, m), to), Slice(slots, from, to)[steps..];
    assert Dist(Wrap(from + steps, m), to, m) == Dist(from, to, m) - steps;
    forall i | 0 <= i < |a| ensures a[i] == b[i] {
      assert Wrap(Wrap(from + steps, m) + i, m) == Wrap(from + (steps + i), m);
    }
  }

  // ----- what the controller executes -----------------------------------------------------------

  /** The TRBs carried out, No Ops skipped. */
  function Executed(line: seq<Trb>): seq<Trb> {
    if line == [] then []
    else if line[0].NoOp? then Executed(line[1..])
    else [line[0]] + Executed(line[1..])
  }

  function Body(t: Td): (r: seq<Trb>)
    ensures |r| == t.count
  {
    seq(t.count, k requires 0 <= k < t.count => Work(t.id, k))
  }

  function Bodies(q: seq<Td>): seq<Trb> {
    if q == [] then [] else Body(q[0]) + Bodies(q[1..])
  }

  function Survivors(q: seq<Td>): seq<Td> {
    if q == [] then [] else (if q[0].taken then [] else [q[0]]) + Survivors(q[1..])
  }

  // ----- the queue laid out on the ring ------------------------------------------------------------

  predicate AllNoOps(line: seq<Trb>, from: nat, to: nat)
    requires from <= to <= |line|
  {
    forall i :: from <= i < to ==> line[i].NoOp?
  }

  /** `at(t)`: a TD's distance from the ring's dequeue. */
  function At(t: Td, dequeue: nat, m: nat): nat
    requires t.first < m && dequeue < m
  {
    Dist(dequeue, t.first, m)
  }

  /** From `b` on the line holds exactly the TDs of `q`, whole, in order, with No Ops between. */
  predicate Laid(line: seq<Trb>, q: seq<Td>, b: nat, dequeue: nat, m: nat)
    requires b <= |line| && dequeue < m
    decreases |q|
  {
    if q == [] then AllNoOps(line, b, |line|)
    else
      && q[0].first < m && q[0].count > 0
      && var at := At(q[0], dequeue, m);
         && b <= at && at + q[0].count <= |line|
         && AllNoOps(line, b, at)
         && line[at..at + q[0].count] == Body(q[0])
         && Laid(line, q[1..], at + q[0].count, dequeue, m)
  }

  lemma {:induction false} ExecutedJoins(a: seq<Trb>, b: seq<Trb>)
    ensures Executed(a + b) == Executed(a) + Executed(b)
  {
    if a == [] {
      assert a + b == b;
    } else {
      assert (a + b)[1..] == a[1..] + b;
      ExecutedJoins(a[1..], b);
    }
  }

  lemma {:induction false} NoOpsExecuteNothing(line: seq<Trb>)
    requires forall i :: 0 <= i < |line| ==> line[i].NoOp?
    ensures Executed(line) == []
  {
    if line != [] {
      NoOpsExecuteNothing(line[1..]);
    }
  }

  lemma {:induction false} WorkExecutesWhole(line: seq<Trb>)
    requires forall i :: 0 <= i < |line| ==> line[i].Work?
    ensures Executed(line) == line
  {
    if line != [] {
      WorkExecutesWhole(line[1..]);
    }
  }

  lemma GapThenBody(line: seq<Trb>, t: Td, b: nat, at: nat)
    requires b <= at && at + t.count <= |line| && AllNoOps(line, b, at) && line[at..at + t.count] == Body(t)
    ensures Executed(line[b..]) == Body(t) + Executed(line[at + t.count..])
  {
    var gap, rest := line[b..at], line[at + t.count..];
    assert line[b..] == gap + (Body(t) + rest);
    ExecutedJoins(gap, Body(t) + rest);
    ExecutedJoins(Body(t), rest);
    NoOpsExecuteNothing(gap);
    WorkExecutesWhole(Body(t));
  }

  /** Run from the gap before its first TD, a laid-out line executes the TDs, whole and in order. */
  lemma {:induction false} LaidExecutes(line: seq<Trb>, q: seq<Td>, b: nat, dequeue: nat, m: nat)
    requires b <= |line| && dequeue < m && Laid(line, q, b, dequeue, m)
    ensures Executed(line[b..]) == Bodies(q)
    decreases |q|
  {
    if q == [] {
      NoOpsExecuteNothing(line[b..]);
    } else {
      var next := LaidTail(line, q, b, dequeue, m);
      LaidExecutes(line, q[1..], next, dequeue, m);
      FirstBody(q, Executed(line[next..]));
    }
  }

  /** The first TD and the gap before it run, and then the rest of the line, laid out for the rest. */
  lemma LaidTail(line: seq<Trb>, q: seq<Td>, b: nat, dequeue: nat, m: nat) returns (next: nat)
    requires b <= |line| && dequeue < m && q != [] && Laid(line, q, b, dequeue, m)
    ensures next <= |line| && Laid(line, q[1..], next, dequeue, m)
    ensures Executed(line[b..]) == Body(q[0]) + Executed(line[next..])
  {
    var at := At(q[0], dequeue, m);
    GapThenBody(line, q[0], b, at);
    next := at + q[0].count;
  }

  lemma FirstBody(q: seq<Td>, rest: seq<Trb>)
    requires q != [] && rest == Bodies(q[1..])
    ensures Body(q[0]) + rest == Bodies(q)
  {
  }

  // ----- taking TDs off in place ----------------------------------------------------------------

  /** Whether position `i` of the line belongs to a TD that is taken off. */
  predicate InTaken(q: seq<Td>, i: nat, dequeue: nat, m: nat)
    requires dequeue < m && forall t :: t in q ==> t.first < m
  {
    exists t :: t in q && t.taken && At(t, dequeue, m) <= i < At(t, dequeue, m) + t.count
  }

  lemma {:induction false} LaidInRange(line: seq<Trb>, q: seq<Td>, b: nat, dequeue: nat, m: nat)
    requires b <= |line| && dequeue < m && Laid(line, q, b, dequeue, m)
    ensures forall t :: t in q ==> t.first < m && t.count > 0
                                   && b <= At(t, dequeue, m) && At(t, dequeue, m) + t.count <= |line|
    decreases |q|
  {
    if q != [] {
      LaidInRange(line, q[1..], At(q[0], dequeue, m) + q[0].count, dequeue, m);
    }
  }

  lemma LaidEarlier(line: seq<Trb>, q: seq<Td>, b: nat, b': nat, dequeue: nat, m: nat)
    requires b <= b' <= |line| && dequeue < m && Laid(line, q, b', dequeue, m) && AllNoOps(line, b, b')
    ensures Laid(line, q, b, dequeue, m)
  {
  }

  /** A line whose taken TDs became No Ops, all else as it was, is laid out for the survivors. */
  lemma {:induction false} SurvivorsLaid(line: seq<Trb>, line': seq<Trb>, q: seq<Td>, b: nat, dequeue: nat, m: nat)
    requires b <= |line| == |line'| && dequeue < m && Laid(line, q, b, dequeue, m)
    requires forall t :: t in q ==> t.first < m
    requires forall i :: b <= i < |line| ==> line'[i] == if InTaken(q, i, dequeue, m) then NoOp else line[i]
    ensures Laid(line', Survivors(q), b, dequeue, m)
    decreases |q|
  {
    LaidInRange(line, q, b, dequeue, m);
    if q != [] {
      var next := At(q[0], dequeue, m) + q[0].count;
      LaidInRange(line, q[1..], next, dequeue, m);
      forall i | b <= i < |line|
        ensures InTaken(q, i, dequeue, m) <==>
                InTaken(q[1..], i, dequeue, m) || (q[0].taken && At(q[0], dequeue, m) <= i < next)
      {
        HeadOrRest(q, i, dequeue, m);
      }
      SurvivorsLaid(line, line', q[1..], next, dequeue, m);
      OneMore(line, line', q, b, dequeue, m);
    }
  }

  lemma HeadOrRest(q: seq<Td>, i: nat, dequeue: nat, m: nat)
    requires q != [] && dequeue < m && forall t :: t in q ==> t.first < m
    ensures InTaken(q, i, dequeue, m) <==>
            InTaken(q[1..], i, dequeue, m)
            || (q[0].taken && At(q[0], dequeue, m) <= i < At(q[0], dequeue, m) + q[0].count)
  {
    if t :| t in q && t.taken && At(t, dequeue, m) <= i < At(t, dequeue, m) + t.count {
      assert t == q[0] || t in q[1..];
    }
  }

  /** The survivors' layout extended by the queue's first TD, or by the gap it became. */
  lemma OneMore(line: seq<Trb>, line': seq<Trb>, q: seq<Td>, b: nat, dequeue: nat, m: nat)
    requires q != [] && b <= |line| == |line'| && dequeue < m && Laid(line, q, b, dequeue, m)
    requires var at, next := At(q[0], dequeue, m), At(q[0], dequeue, m) + q[0].count;
             && Laid(line', Survivors(q[1..]), next, dequeue, m)
             && forall i :: b <= i < next ==> line'[i] == if q[0].taken && at <= i then NoOp else line[i]
    ensures Laid(line', Survivors(q), b, dequeue, m)
  {
    var at := At(q[0], dequeue, m);
    var next := at + q[0].count;
    if q[0].taken {
      LaidEarlier(line', Survivors(q[1..]), b, next, dequeue, m);
      assert Survivors(q) == Survivors(q[1..]);
    } else {
      assert line'[at..next] == line[at..next];
      assert Survivors(q)[1..] == Survivors(q[1..]);
    }
  }

  /** The same layout, seen from a dequeue moved on within the gap before it. */
  lemma {:induction false} Rebased(line: seq<Trb>, q: seq<Td>, b: nat, dequeue: nat, m: nat, steps: nat)
    requires steps <= b <= |line| < m && dequeue < m && Laid(line, q, b, dequeue, m)
    ensures Laid(line[steps..], q, b - steps, Wrap(dequeue + steps, m), m)
    decreases |q|
  {
    if q != [] {
      var at := At(q[0], dequeue, m);
      Rebased(line, q[1..], at + q[0].count, dequeue, m, steps);
      assert At(q[0], Wrap(dequeue + steps, m), m) == at - steps;
      assert line[steps..][at - steps..at - steps + q[0].count] == line[at..at + q[0].count];
    }
  }

  // ----- where the controller goes on ---------------------------------------------------------------

  /** The placement: nothing moves while the TD the controller stopped in survives and the endpoint is
      not in Error; otherwise to the oldest survivor's first TRB, or to the enqueue. */
  function Place(q: seq<Td>, enqueue: nat, error: bool): Option<nat> {
    if !error && (q == [] || !q[0].taken) then None
    else Some(Target(Survivors(q), enqueue))
  }

  /** Every record has at most two TDs outstanding, so no more than MOST_TAKEN are ever taken off. */
  function OfRecord(q: seq<Td>, r: nat): nat {
    if q == [] then 0 else (if q[0].record == r then 1 else 0) + OfRecord(q[1..], r)
  }

  function Taken(q: seq<Td>): seq<Td> {
    if q == [] then [] else (if q[0].taken then [q[0]] else []) + Taken(q[1..])
  }

  predicate TwoPerRecord(q: seq<Td>) {
    && (forall t :: t in q ==> t.record < PIPE_XFERS)
    && (forall r :: 0 <= r < PIPE_XFERS ==> OfRecord(q, r) <= 2)
  }

  lemma {:induction false} TakenByRecord(q: seq<Td>)
    requires forall t :: t in q ==> t.record < PIPE_XFERS
    ensures |Taken(q)| <= OfRecord(q, 0) + OfRecord(q, 1) + OfRecord(q, 2) + OfRecord(q, 3)
  {
    if q != [] {
      TakenByRecord(q[1..]);
    }
  }

  lemma {:induction false} TakenOnly(q: seq<Td>)
    ensures forall t :: t in Taken(q) <==> t in q && t.taken
    ensures forall t :: t in Survivors(q) <==> t in q && !t.taken
  {
    if q != [] {
      TakenOnly(q[1..]);
    }
  }

  /** The survivors of a queue keep its records' bound. */
  lemma {:induction false} SurvivorsPerRecord(q: seq<Td>, r: nat)
    ensures OfRecord(Survivors(q), r) <= OfRecord(q, r)
  {
    if q != [] {
      SurvivorsPerRecord(q[1..], r);
      if q[0].taken {
        assert Survivors(q) == Survivors(q[1..]);
      } else {
        assert Survivors(q)[1..] == Survivors(q[1..]);
      }
    }
  }

  /** What the controller will execute from position `at` of the line. */
  function RunsFrom(line: seq<Trb>, at: nat): seq<Trb>
    requires at <= |line|
  {
    Executed(line[at..])
  }

  /** A cancel that moves nothing: the rest of the head from where the controller stopped, then the
      other survivors, whole and in order. */
  lemma StayedRuns(line: seq<Trb>, line': seq<Trb>, rest: seq<Td>, stop: nat, next: nat, dequeue: nat, m: nat)
    requires stop <= next <= |line| == |line'| && dequeue < m
    requires Laid(line', rest, next, dequeue, m) && line'[..next] == line[..next]
    ensures RunsFrom(line', stop) == Executed(line[stop..next]) + Bodies(rest)
  {
    assert line'[stop..] == line'[..next][stop..] + line'[next..];
    assert line[stop..next] == line[..next][stop..];
    ExecutedJoins(line[stop..next], line'[next..]);
    LaidExecutes(line', rest, next, dequeue, m);
  }

  // ----- the program's loops ------------------------------------------------------------------------

  /** The cancelled TDs gathered into an array of MOST_TAKEN: none is ever left out for want of room. */
  method Gather(q: seq<Td>) returns (cancelled: seq<Td>)
    requires TwoPerRecord(q)
    ensures cancelled == Taken(q) && |cancelled| <= MOST_TAKEN
  {
    TakenByRecord(q);
    cancelled := [];
    for n := 0 to |q|
      invariant cancelled + Taken(q[n..]) == Taken(q)
    {
      assert q[n..][1..] == q[n + 1..];
      assert Taken(q[n..]) == (if q[n].taken then [q[n]] else []) + Taken(q[n + 1..]);
      if q[n].taken && |cancelled| < MOST_TAKEN {
        cancelled := cancelled + [q[n]];
      }
    }
  }

  method CancelPlace(q: seq<Td>, cancelled: seq<Td>, enqueue: nat, error: bool) returns (target: Option<nat>)
    requires forall t :: t in q ==> (t in cancelled <==> t.taken)
    ensures target == Place(q, enqueue, error)
  {
    var move, survivor: Option<Td> := error, None;
    for n := 0 to |q|
      invariant move == (error || (n > 0 && q[0].taken))
      invariant survivor.None? ==> Survivors(q) == Survivors(q[n..])
      invariant survivor.Some? ==> Survivors(q) != [] && Survivors(q)[0] == survivor.value
    {
      assert q[n..][1..] == q[n + 1..];
      var taken, i := false, 0;
      while i < |cancelled| && !taken
        invariant i <= |cancelled| && (taken <==> q[n] in cancelled[..i])
      {
        assert cancelled[..i + 1] == cancelled[..i] + [cancelled[i]];
        taken := cancelled[i] == q[n];
        i := i + 1;
      }
      assert taken ==> q[n] in cancelled;
      assert !taken ==> cancelled[..i] == cancelled;
      if taken {
        move := move || n == 0;
      } else if survivor.None? {
        survivor := Some(q[n]);
      }
    }
    if !move {
      return None;
    }
    return if survivor.Some? then Some(survivor.value.first) else Some(enqueue);
  }

  /** XhciRingNextIndex. */
  function Next(i: nat, m: nat): nat
    requires i < m
  {
    if i + 1 == m then 0 else i + 1
  }

  predicate InTd(t: Td, slot: nat, m: nat)
    requires t.first < m && slot < m
  {
    Dist(t.first, slot, m) < t.count
  }

  lemma SlotOfLine(t: Td, i: nat, length: nat, dequeue: nat, m: nat)
    requires t.first < m && dequeue < m && i < length < m && At(t, dequeue, m) + t.count <= length
    ensures InTd(t, Wrap(dequeue + i, m), m) <==> At(t, dequeue, m) <= i < At(t, dequeue, m) + t.count
  {
  }

  /** A TD's slots turned into No Ops, from its first to its last, across the wrap. */
  method BlankTd(slots: array<Trb>, t: Td)
    requires t.first < slots.Length && 0 < t.count < slots.Length
    modifies slots
    ensures forall i :: 0 <= i < slots.Length ==> slots[i] == if InTd(t, i, slots.Length) then NoOp else old(slots[i])
  {
    var m := slots.Length;
    var last := Wrap(t.first + t.count - 1, m);
    var index := t.first;
    ghost var k := 0;
    while index != last
      invariant 0 <= k < t.count && index == Wrap(t.first + k, m)
      invariant forall i :: 0 <= i < m ==> slots[i] == if Dist(t.first, i, m) < k then NoOp else old(slots[i])
      decreases t.count - k
    {
      slots[index] := NoOp;
      index := Next(index, m);
      k := k + 1;
    }
    slots[index] := NoOp;
  }

  /** Some TD of `ts` other than the head covers this slot. */
  predicate Covered(ts: seq<Td>, head: Option<Td>, slot: nat, m: nat)
    requires slot < m && forall t :: t in ts ==> t.first < m
  {
    exists t :: t in ts && Some(t) != head && InTd(t, slot, m)
  }

  method BlankAll(slots: array<Trb>, cancelled: seq<Td>, head: Option<Td>)
    requires forall t :: t in cancelled ==> t.first < slots.Length && 0 < t.count < slots.Length
    modifies slots
    ensures forall i :: 0 <= i < slots.Length ==>
              slots[i] == if Covered(cancelled, head, i, slots.Length) then NoOp else old(slots[i])
  {
    for n := 0 to |cancelled|
      invariant forall i :: 0 <= i < slots.Length ==>
                  slots[i] == if Covered(cancelled[..n], head, i, slots.Length) then NoOp else old(slots[i])
    {
      assert cancelled[..n + 1] == cancelled[..n] + [cancelled[n]];
      if Some(cancelled[n]) != head {
        BlankTd(slots, cancelled[n]);
      }
    }
    assert cancelled[..|cancelled|] == cancelled;
  }

  /** On the line, blanking the cancelled TDs but the head is blanking the taken ones after it. */
  lemma CoveredIsTaken(line: seq<Trb>, q: seq<Td>, dequeue: nat, m: nat, i: nat)
    requires q != [] && i < |line| < m && dequeue < m && Laid(line, q, 0, dequeue, m)
    requires forall t :: t in q ==> t.first < m
    ensures forall t :: t in Taken(q) ==> t.first < m
    ensures Covered(Taken(q), Some(q[0]), Wrap(dequeue + i, m), m) <==> InTaken(q[1..], i, dequeue, m)
  {
    TakenOnly(q);
    LaidInRange(line, q, 0, dequeue, m);
    LaidInRange(line, q[1..], At(q[0], dequeue, m) + q[0].count, dequeue, m);
    forall t | t in q ensures Some(t) != Some(q[0]) <==> t in q[1..] {
      assert t == q[0] || t in q[1..];
    }
    forall t | t in q
      ensures InTd(t, Wrap(dequeue + i, m), m) <==> At(t, dequeue, m) <= i < At(t, dequeue, m) + t.count
    {
      SlotOfLine(t, i, |line|, dequeue, m);
    }
  }

  /** What the blanking made of a queue's TDs: each taken one but the head is No Ops, every other is as it was. */
  ghost predicate Fates(slots: seq<Trb>, q: seq<Td>) {
    forall j :: 0 <= j < |q| ==> FateOf(slots, q[j], j > 0 && q[j].taken)
  }

  ghost predicate FateOf(slots: seq<Trb>, t: Td, rewritten: bool) {
    && t.first < |slots| && t.count < |slots|
    && forall k :: 0 <= k < t.count ==>
         slots[Wrap(t.first + k, |slots|)] == if rewritten then NoOp else Work(t.id, k)
  }

  /** TDs laid out on a line follow one another. */
  lemma {:induction false} LaidInOrder(line: seq<Trb>, q: seq<Td>, b: nat, dequeue: nat, m: nat)
    requires b <= |line| && dequeue < m && Laid(line, q, b, dequeue, m) && Indexed(q, m)
    ensures forall i, j :: 0 <= i < j < |q| ==> EndOf(q[i], dequeue, m) <= At(q[j], dequeue, m)
    decreases |q|
  {
    if q != [] {
      var next := EndOf(q[0], dequeue, m);
      LaidInOrder(line, q[1..], next, dequeue, m);
      LaidInRange(line, q[1..], next, dequeue, m);
      forall i, j | 0 <= i < j < |q| ensures EndOf(q[i], dequeue, m) <= At(q[j], dequeue, m) {
        assert q[j] == q[1..][j - 1];
        assert i > 0 ==> q[i] == q[1..][i - 1];
      }
    }
  }

  lemma {:induction false} BodyOnLine(line: seq<Trb>, q: seq<Td>, b: nat, dequeue: nat, m: nat, j: nat)
    requires b <= |line| && dequeue < m && Laid(line, q, b, dequeue, m) && Indexed(q, m) && j < |q|
    ensures var at := At(q[j], dequeue, m); at + q[j].count <= |line| && line[at..at + q[j].count] == Body(q[j])
    decreases |q|
  {
    if j > 0 {
      BodyOnLine(line, q[1..], EndOf(q[0], dequeue, m), dequeue, m, j - 1);
    }
  }

  /** A position inside the j-th TD is one of a taken TD after the head exactly if the j-th is one. */
  lemma InTakenIsOwn(line: seq<Trb>, q: seq<Td>, dequeue: nat, m: nat, j: nat, i: nat)
    requires dequeue < m && Laid(line, q, 0, dequeue, m) && Indexed(q, m) && j < |q|
    requires At(q[j], dequeue, m) <= i < EndOf(q[j], dequeue, m)
    ensures Indexed(q[1..], m) && (InTaken(q[1..], i, dequeue, m) <==> j > 0 && q[j].taken)
  {
    LaidInOrder(line, q, 0, dequeue, m);
    if t :| t in q[1..] && t.taken && At(t, dequeue, m) <= i < At(t, dequeue, m) + t.count {
      var n :| 0 <= n < |q[1..]| && q[1..][n] == t;
      assert q[n + 1] == t;
    }
    if j > 0 {
      assert q[1..][j - 1] == q[j] && q[j] in q[1..];
    }
  }

  lemma BlankedFates(slots: seq<Trb>, line: seq<Trb>, q: seq<Td>, dequeue: nat, enqueue: nat)
    requires dequeue < |slots| && enqueue < |slots| && |line| == Dist(dequeue, enqueue, |slots|)
    requires q != [] && Indexed(q, |slots|) && Laid(line, q, 0, dequeue, |slots|)
    requires forall i :: 0 <= i < |line| ==>
               Slice(slots, dequeue, enqueue)[i] == if InTaken(q[1..], i, dequeue, |slots|) then NoOp else line[i]
    ensures Fates(slots, q)
  {
    LaidInRange(line, q, 0, dequeue, |slots|);
    forall j | 0 <= j < |q| ensures FateOf(slots, q[j], j > 0 && q[j].taken) {
      assert q[j] in q;
      forall k | 0 <= k < q[j].count
        ensures slots[Wrap(q[j].first + k, |slots|)] == if j > 0 && q[j].taken then NoOp else Work(q[j].id, k)
      {
        SlotFate(line, q, dequeue, |slots|, j, k);
        SlotOfSlice(slots, dequeue, enqueue, q[j].first, k);
      }
    }
  }

  lemma SlotOfSlice(slots: seq<Trb>, dequeue: nat, enqueue: nat, first: nat, k: nat)
    requires dequeue < |slots| && enqueue < |slots| && first < |slots|
    requires Dist(dequeue, first, |slots|) + k < Dist(dequeue, enqueue, |slots|)
    ensures k < |slots|
    ensures Slice(slots, dequeue, enqueue)[Dist(dequeue, first, |slots|) + k] == slots[Wrap(first + k, |slots|)]
  {
    SlotAt(dequeue, first, k, |slots|);
  }

  /** What the line has at the k-th slot of the j-th TD, and whether the blanking reaches it. */
  lemma SlotFate(line: seq<Trb>, q: seq<Td>, dequeue: nat, m: nat, j: nat, k: nat)
    requires dequeue < m && Laid(line, q, 0, dequeue, m) && Indexed(q, m) && j < |q| && k < q[j].count
    ensures At(q[j], dequeue, m) + k < |line| && line[At(q[j], dequeue, m) + k] == Work(q[j].id, k)
    ensures InTaken(q[1..], At(q[j], dequeue, m) + k, dequeue, m) <==> j > 0 && q[j].taken
  {
    var at := At(q[j], dequeue, m);
    BodyOnLine(line, q, 0, dequeue, m, j);
    assert line[at + k] == line[at..at + q[j].count][k] == Body(q[j])[k];
    InTakenIsOwn(line, q, dequeue, m, j, at + k);
  }

  lemma SlotAt(dequeue: nat, first: nat, k: nat, m: nat)
    requires dequeue < m && first < m && Dist(dequeue, first, m) + k < m
    ensures k < m && Wrap(dequeue + (Dist(dequeue, first, m) + k), m) == Wrap(first + k, m)
  {
  }

  /** The controller stopped in no TD after the queue's head. */
  ghost predicate NotAfterHead(q: seq<Td>, stopped: nat, m: nat) {
    forall j :: 0 < j < |q| ==> q[j].first < m && stopped < m && !InTd(q[j], stopped, m)
  }

  lemma HeadOnly(line: seq<Trb>, q: seq<Td>, dequeue: nat, stopped: nat, m: nat)
    requires dequeue < m && stopped < m && |line| < m && Laid(line, q, 0, dequeue, m) && Indexed(q, m)
    requires Dist(dequeue, stopped, m) <= |line|
    ensures q == [] || Dist(dequeue, stopped, m) < EndOf(q[0], dequeue, m) ==> NotAfterHead(q, stopped, m)
  {
    LaidInOrder(line, q, 0, dequeue, m);
    LaidInRange(line, q, 0, dequeue, m);
    forall j | 0 < j < |q| && Dist(dequeue, stopped, m) < EndOf(q[0], dequeue, m) ensures !InTd(q[j], stopped, m) {
      assert q[j] in q;
      WhereStopped(q[j], Dist(dequeue, stopped, m), |line|, dequeue, stopped, m);
    }
  }

  // ----- what the controller has passed ---------------------------------------------------------------

  predicate Indexed(q: seq<Td>, m: nat) {
    forall t :: t in q ==> t.first < m
  }

  /** How many TDs at the front of the queue lie wholly before position `stop`. */
  function Passed(q: seq<Td>, stop: nat, dequeue: nat, m: nat): (n: nat)
    requires dequeue < m && Indexed(q, m)
    ensures n <= |q|
  {
    if q == [] || At(q[0], dequeue, m) + q[0].count > stop then 0 else 1 + Passed(q[1..], stop, dequeue, m)
  }

  /** Whether all of those are held: the readings that are not UNREAD. */
  predicate PassedHeld(q: seq<Td>, stop: nat, dequeue: nat, m: nat)
    requires dequeue < m && Indexed(q, m)
  {
    forall i :: 0 <= i < Passed(q, stop, dequeue, m) ==> q[i].held
  }

  /** Every TD of `q` is `steps` or more past the dequeue. */
  predicate AllPast(q: seq<Td>, steps: nat, dequeue: nat, m: nat)
    requires dequeue < m && Indexed(q, m)
  {
    forall t :: t in q ==> steps <= At(t, dequeue, m)
  }

  /** Passed is the same count seen from a dequeue moved on within the gap before the queue. */
  lemma {:induction false} PassedRebased(q: seq<Td>, stop: nat, dequeue: nat, m: nat, steps: nat, d: nat)
    requires steps <= stop && steps < m && dequeue < m && Indexed(q, m) && AllPast(q, steps, dequeue, m)
    requires d == Wrap(dequeue + steps, m)
    ensures Passed(q, stop - steps, d, m) == Passed(q, stop, dequeue, m)
    decreases |q|
  {
    if q != [] {
      Nearer(dequeue, steps, q[0].first, m);
      PassedRebased(q[1..], stop, dequeue, m, steps, d);
    }
  }

  /** XhciXferStopPlace's walk of a reading that is on the ring: how many held TDs the controller has passed,
      or None - UNREAD - at the first passed TD that is not held. */
  method StopPlace(ghost line: seq<Trb>, q: seq<Td>, index: nat, dequeue: nat, enqueue: nat, m: nat)
    returns (passed: Option<nat>)
    requires dequeue < m && index < m && enqueue < m && Indexed(q, m)
    requires |line| == Dist(dequeue, enqueue, m) && Dist(dequeue, index, m) <= |line| && Laid(line, q, 0, dequeue, m)
    ensures var stop := Dist(dequeue, index, m);
            passed == if PassedHeld(q, stop, dequeue, m) then Some(Passed(q, stop, dequeue, m)) else None
  {
    LaidInRange(line, q, 0, dequeue, m);
    var at := Dist(dequeue, index, m);
    for n := 0 to |q|
      invariant Passed(q, at, dequeue, m) == n + Passed(q[n..], at, dequeue, m)
      invariant forall i :: 0 <= i < n ==> q[i].held
    {
      var t := q[n];
      assert q[n..][1..] == q[n + 1..] && t in q;
      WhereStopped(t, at, |line|, dequeue, index, m);
      if InTd(t, index, m) || (index != enqueue && Dist(dequeue, t.first, m) > at) {
        return Some(n);
      }
      if !t.held {
        return None;
      }
    }
    return Some(|q|);
  }

  lemma WhereStopped(t: Td, at: nat, length: nat, dequeue: nat, index: nat, m: nat)
    requires t.first < m && dequeue < m && index < m && at == Dist(dequeue, index, m) <= length < m
    requires t.count > 0 && At(t, dequeue, m) + t.count <= length
    ensures InTd(t, index, m) <==> At(t, dequeue, m) <= at < At(t, dequeue, m) + t.count
  {
  }

  /** How far the first `n` TDs reach. */
  function Reach(q: seq<Td>, n: nat, dequeue: nat, m: nat): nat
    requires n <= |q| && dequeue < m && Indexed(q, m)
  {
    if n == 0 then 0 else EndOf(q[n - 1], dequeue, m)
  }

  predicate Short(q: seq<Td>, dequeue: nat, m: nat)
    requires dequeue < m && Indexed(q, m)
  {
    forall t :: t in q ==> EndOf(t, dequeue, m) < m
  }

  /** XhciXferDrainSettled `n` times: each retires the head, and leaves the ring's dequeue past it. */
  method RetirePassed(q: seq<Td>, dequeue: nat, n: nat, m: nat) returns (left: seq<Td>, past: nat)
    requires n <= |q| && dequeue < m && Indexed(q, m) && Short(q, dequeue, m)
    ensures left == q[n..] && past == Wrap(dequeue + Reach(q, n, dequeue, m), m)
  {
    left, past := q, dequeue;
    for k := 0 to n
      invariant left == q[k..] && past == Wrap(dequeue + Reach(q, k, dequeue, m), m)
    {
      PastTd(left[0], dequeue, m);
      past := Wrap(left[0].first + left[0].count, m);
      left := left[1..];
    }
  }

  lemma {:induction false} LaidSuffix(line: seq<Trb>, q: seq<Td>, b: nat, n: nat, dequeue: nat, m: nat)
    requires b <= |line| && dequeue < m && Laid(line, q, b, dequeue, m) && n <= |q| && Indexed(q, m)
    ensures var reach := if n == 0 then b else Reach(q, n, dequeue, m);
            reach <= |line| && Laid(line, q[n..], reach, dequeue, m)
    decreases n
  {
    if n == 0 {
      assert q[n..] == q;
    } else {
      LaidSuffix(line, q[1..], At(q[0], dequeue, m) + q[0].count, n - 1, dequeue, m);
      assert q[1..][n - 1..] == q[n..];
      assert n > 1 ==> q[1..][n - 2] == q[n - 1];
    }
  }

  lemma {:induction false} PassedSuffix(q: seq<Td>, stop: nat, n: nat, dequeue: nat, m: nat)
    requires dequeue < m && Indexed(q, m) && n <= Passed(q, stop, dequeue, m)
    ensures Passed(q[n..], stop, dequeue, m) == Passed(q, stop, dequeue, m) - n
    ensures Reach(q, n, dequeue, m) <= stop
    decreases n
  {
    if n == 0 {
      assert q[n..] == q;
    } else {
      PassedSuffix(q[1..], stop, n - 1, dequeue, m);
      assert q[1..][n - 1..] == q[n..];
      assert n > 1 ==> q[1..][n - 2] == q[n - 1];
    }
  }

  /** The ring from the dequeue moved on past its first `n` TDs, which reach to `b`. */
  lemma SettledLine(slots: seq<Trb>, q: seq<Td>, dequeue: nat, enqueue: nat, n: nat, b: nat, d: nat)
    requires dequeue < |slots| && enqueue < |slots| && n <= |q| && Indexed(q, |slots|)
    requires Laid(Slice(slots, dequeue, enqueue), q, 0, dequeue, |slots|)
    requires b == Reach(q, n, dequeue, |slots|) < |slots| && d == Wrap(dequeue + b, |slots|)
    ensures b <= Dist(dequeue, enqueue, |slots|) && Slice(slots, d, enqueue) == Slice(slots, dequeue, enqueue)[b..]
    ensures Laid(Slice(slots, d, enqueue), q[n..], 0, d, |slots|)
  {
    var line := Slice(slots, dequeue, enqueue);
    LaidSuffix(line, q, 0, n, dequeue, |slots|);
    SliceFrom(slots, dequeue, enqueue, b);
    Rebased(line, q[n..], b, dequeue, |slots|, b);
  }

  /** What the settled ring's places are to the places before. */
  lemma SettledPlaces(q: seq<Td>, dequeue: nat, stopped: nat, m: nat, n: nat, b: nat, d: nat)
    requires dequeue < m && stopped < m && Indexed(q, m) && n <= Passed(q, Dist(dequeue, stopped, m), dequeue, m)
    requires b == Reach(q, n, dequeue, m) < m && AllPast(q[n..], b, dequeue, m) && d == Wrap(dequeue + b, m)
    ensures Dist(dequeue, d, m) == b && Dist(dequeue, stopped, m) == Dist(d, stopped, m) + b
    ensures Passed(q[n..], Dist(d, stopped, m), d, m) == Passed(q, Dist(dequeue, stopped, m), dequeue, m) - n
    ensures n < |q| ==> At(q[n], dequeue, m) == At(q[n], d, m) + b
  {
    var stop := Dist(dequeue, stopped, m);
    PassedSuffix(q, stop, n, dequeue, m);
    Farther(dequeue, b, m);
    Nearer(dequeue, b, stopped, m);
    PassedRebased(q[n..], stop, dequeue, m, b, d);
    if n < |q| {
      assert q[n] in q[n..];
      Nearer(dequeue, b, q[n].first, m);
    }
  }

  lemma LaidIsShort(line: seq<Trb>, q: seq<Td>, dequeue: nat, m: nat)
    requires dequeue < m && |line| < m && Laid(line, q, 0, dequeue, m) && Indexed(q, m)
    ensures Short(q, dequeue, m)
  {
    LaidInRange(line, q, 0, dequeue, m);
  }

  /** The dequeue the first `n` retired TDs leave, and the ring from there. */
  lemma SettledAt(slots: seq<Trb>, q: seq<Td>, dequeue: nat, enqueue: nat, stopped: nat, n: nat) returns (d: nat)
    requires dequeue < |slots| && enqueue < |slots| && stopped < |slots| && Indexed(q, |slots|)
    requires Laid(Slice(slots, dequeue, enqueue), q, 0, dequeue, |slots|)
    requires Dist(dequeue, stopped, |slots|) <= Dist(dequeue, enqueue, |slots|)
    requires n <= Passed(q, Dist(dequeue, stopped, |slots|), dequeue, |slots|)
    ensures Short(q, dequeue, |slots|) && Indexed(q[n..], |slots|) && Reach(q, n, dequeue, |slots|) < |slots|
    ensures d == Wrap(dequeue + Reach(q, n, dequeue, |slots|), |slots|) && d < |slots| && (n == 0 ==> d == dequeue)
    ensures Dist(dequeue, stopped, |slots|) == Dist(d, stopped, |slots|) + Dist(dequeue, d, |slots|)
    ensures Dist(dequeue, d, |slots|) <= Dist(dequeue, enqueue, |slots|)
    ensures Slice(slots, d, enqueue) == Slice(slots, dequeue, enqueue)[Dist(dequeue, d, |slots|)..]
    ensures Laid(Slice(slots, d, enqueue), q[n..], 0, d, |slots|)
    ensures Passed(q[n..], Dist(d, stopped, |slots|), d, |slots|)
            == Passed(q, Dist(dequeue, stopped, |slots|), dequeue, |slots|) - n
    ensures n < |q| ==> At(q[n], dequeue, |slots|) == At(q[n], d, |slots|) + Dist(dequeue, d, |slots|)
  {
    var line, b := Slice(slots, dequeue, enqueue), Reach(q, n, dequeue, |slots|);
    LaidIsShort(line, q, dequeue, |slots|);
    SuffixIsPast(line, q, n, dequeue, |slots|);
    d := Wrap(dequeue + b, |slots|);
    SettledLine(slots, q, dequeue, enqueue, n, b, d);
    SettledPlaces(q, dequeue, stopped, |slots|, n, b, d);
  }

  lemma SuffixIsPast(line: seq<Trb>, q: seq<Td>, n: nat, dequeue: nat, m: nat)
    requires dequeue < m && |line| < m && n <= |q| && Indexed(q, m) && Laid(line, q, 0, dequeue, m)
    ensures Reach(q, n, dequeue, m) < m && Indexed(q[n..], m) && AllPast(q[n..], Reach(q, n, dequeue, m), dequeue, m)
  {
    LaidSuffix(line, q, 0, n, dequeue, m);
    LaidInRange(line, q[n..], Reach(q, n, dequeue, m), dequeue, m);
  }

  class TransferRing {
    const slots: array<Trb>        // the Link TRB left out
    var enqueue: nat
    var dequeue: nat               // the software's
    var stopped: nat               // the controller's, the endpoint Stopped
    var queue: seq<Td>

    ghost predicate Placed()
      reads this
    {
      enqueue < slots.Length && dequeue < slots.Length && stopped < slots.Length
    }

    /** The outstanding part of the ring, in order. */
    ghost function Line(): seq<Trb>
      reads this, slots
      requires Placed()
    {
      Slice(slots[..], dequeue, enqueue)
    }

    /** How far past the software's dequeue the controller stopped. */
    ghost function Stop(): nat
      reads this
      requires Placed()
    {
      Dist(dequeue, stopped, slots.Length)
    }

    /** The queue is laid out on the ring, and the controller stopped somewhere on it. */
    ghost predicate Valid()
      reads this, slots
    {
      && Placed()
      && TwoPerRecord(queue) && Indexed(queue, slots.Length)
      && Laid(Line(), queue, 0, dequeue, slots.Length)
      && Stop() <= |Line()|
    }

    /** The controller is in the queue's head, or in the gap before it: what the cancel goes by. */
    ghost predicate InHead()
      reads this
      requires Placed()
    {
      queue != [] ==> queue[0].first < slots.Length && Stop() < HeadEnd(queue, dequeue, slots.Length)
    }

    constructor (trbs: seq<Trb>, enqueue: nat, dequeue: nat, stopped: nat, queue: seq<Td>)
      ensures slots.Length == |trbs| && slots[..] == trbs && fresh(slots)
      ensures this.enqueue == enqueue && this.dequeue == dequeue && this.stopped == stopped && this.queue == queue
    {
      slots := new Trb[|trbs|](i requires 0 <= i < |trbs| => trbs[i]);
      this.enqueue, this.dequeue, this.stopped, this.queue := enqueue, dequeue, stopped, queue;
    }

    /** What the controller carries out if its doorbell rings now. */
    ghost function Runs(): seq<Trb>
      reads this, slots
      requires Placed()
    {
      Executed(Slice(slots[..], stopped, enqueue))
    }

    /** Every cancelled TD but the head becomes No Ops; up to the head's end nothing is rewritten. */
    method BlankCancelled(cancelled: seq<Td>)
      requires Valid() && cancelled == Taken(queue)
      modifies slots
      ensures Placed() && |Line()| == |old(Line())|
      ensures queue == [] ==> Line() == old(Line())
      ensures queue != [] ==> HeadKept(old(Line()), Line(), queue, dequeue, slots.Length)
      ensures Fates(slots[..], queue)
    {
      var m := slots.Length;
      ghost var line := Line();
      LaidInRange(line, queue, 0, dequeue, m);
      TakenOnly(queue);
      BlankAll(slots, cancelled, if queue == [] then None else Some(queue[0]));
      if queue != [] {
        forall i | 0 <= i < |line| ensures Line()[i] == if InTaken(queue[1..], i, dequeue, m) then NoOp else line[i] {
          CoveredIsTaken(line, queue, dequeue, m, i);
        }
        RestBlanked(line, Line(), queue, dequeue, m);
        BlankedFates(slots[..], line, queue, dequeue, enqueue);
      } else {
        assert slots[..] == old(slots[..]);
      }
    }

    /** HcdDevStopSettle: the held TDs the reading shows passed are retired, oldest first; an UNREAD reading -
        `readable` says whether there was one to read at all - settles nothing. Afterwards the controller is
        in the head, or before it, if and only if no TD it has passed was left: that is, exactly when every
        passed TD was held and the reading could be read, or none was passed. */
    method StopSettle(readable: bool) returns (ghost settled: nat)
      requires Valid()
      modifies this`queue, this`dequeue
      ensures Valid() && settled <= |old(queue)| && queue == old(queue)[settled..]
      ensures settled == if readable && old(AllPassedHeld()) then old(PassedNow()) else 0
      ensures InHead() <==> old(StopIsRead(readable))
      ensures InHead() ==> NotAfterHead(queue, stopped, slots.Length)
      ensures settled == 0 ==> dequeue == old(dequeue)
      ensures old(Stop()) == Stop() + Dist(old(dequeue), dequeue, slots.Length)
      ensures Line() == old(Line())[Dist(old(dequeue), dequeue, slots.Length)..]
      ensures queue != [] ==> At(queue[0], old(dequeue), slots.Length)
                              == At(queue[0], dequeue, slots.Length) + Dist(old(dequeue), dequeue, slots.Length)
    {
      settled := 0;
      if readable {
        var passed := StopPlace(Line(), queue, stopped, dequeue, enqueue, slots.Length);
        if passed.Some? {
          settled := passed.value;
          Settle(passed.value);
        }
      }
      HeadOnly(Line(), queue, dequeue, stopped, slots.Length);
    }

    method Settle(n: nat)
      requires Valid() && n == PassedNow()
      modifies this`queue, this`dequeue
      ensures Valid() && PassedNow() == 0 && n <= |old(queue)| && queue == old(queue)[n..]
      ensures n == 0 ==> dequeue == old(dequeue)
      ensures old(Stop()) == Stop() + Dist(old(dequeue), dequeue, slots.Length)
      ensures Line() == old(Line())[Dist(old(dequeue), dequeue, slots.Length)..]
      ensures queue != [] ==> At(queue[0], old(dequeue), slots.Length)
                              == At(queue[0], dequeue, slots.Length) + Dist(old(dequeue), dequeue, slots.Length)
    {
      ghost var trbs := slots[..];
      ghost var d := SettledAt(trbs, queue, dequeue, enqueue, stopped, n);
      SuffixPerRecord(queue, n);
      queue, dequeue := RetirePassed(queue, dequeue, n, slots.Length);
      assert slots[..] == trbs && dequeue == d;
    }

    ghost function PassedNow(): nat
      reads this
      requires Placed() && Indexed(queue, slots.Length)
    {
      Passed(queue, Stop(), dequeue, slots.Length)
    }

    ghost predicate AllPassedHeld()
      reads this
      requires Placed() && Indexed(queue, slots.Length)
    {
      PassedHeld(queue, Stop(), dequeue, slots.Length)
    }

    /** The rest of hcdCfgCancelPipe, going by the queue's order. If its Set TR Dequeue, when it has one to
        send, succeeds, the controller goes on with exactly the survivors, whole; with none to send, and the
        controller in the head, with the rest of the head and then exactly the other survivors. No slot up
        to the head's end is rewritten. */
    method CancelByOrder(error: bool, ghost line: seq<Trb>, ghost q: seq<Td>, ghost stop: nat)
      returns (moved: bool, ok: bool)
      requires Valid() && line == Line() && q == queue && stop == Stop()
      modifies this`queue, this`dequeue, this`stopped, slots
      ensures Placed() && queue == Survivors(q)
      ensures moved <==> error || (q != [] && q[0].taken)
      ensures q != [] ==> HeadKept(line, Slice(slots[..], old(dequeue), enqueue), q, old(dequeue), slots.Length)
      ensures ok && moved ==> Valid() && InHead() && Runs() == Bodies(queue)
      ensures !moved ==> ok && Valid() && stopped == old(stopped) && dequeue == old(dequeue)
      ensures !moved && q != [] && stop < HeadEnd(q, old(dequeue), slots.Length) ==>
                && InHead()
                && Runs() == Executed(line[stop..HeadEnd(q, old(dequeue), slots.Length)]) + Bodies(Survivors(q[1..]))
      ensures !moved && q == [] ==> Runs() == []
      ensures !moved && q != [] && stop >= HeadEnd(q, old(dequeue), slots.Length) ==> LeavesOutHead(Runs(), queue)
      ensures Fates(slots[..], q)
    {
      var cancelled := Gather(queue);
      TakenOnly(queue);
      var target := CancelPlace(queue, cancelled, enqueue, error);
      BlankCancelled(cancelled);
      moved := target.Some?;
      if moved {
        ok := MoveTo(target.value, line);
      } else {
        StayPut(line);
        ok := true;
      }
    }

    /** hcdCfgCancelPipe past the quiesce: the settle, unless the endpoint is in Error, then the cancel by the
        queue's order. For every stop: if every TD the controller had passed was held and its saved dequeue
        could be read, or it had passed none, then what the controller goes on with is the rest of the TD it
        stopped in, if that survives and nothing moved, and exactly the other survivors, in their order; and
        nothing up to the end of the TD it stopped in is rewritten. If not, and nothing moved, it leaves the
        surviving head out. Exactly the taken TDs after the settled queue's head are rewritten. */
    method CancelPipe(error: bool, readable: bool) returns (moved: bool, ok: bool, ghost settled: nat)
      requires Valid()
      modifies this`queue, this`dequeue, this`stopped, slots
      ensures Placed() && settled <= |old(queue)| && queue == Survivors(old(queue)[settled..])
      ensures settled == if !error && readable && old(AllPassedHeld()) then old(PassedNow()) else 0
      ensures moved <==> error || (settled < |old(queue)| && old(queue)[settled].taken)
      ensures ok && moved ==> Valid() && InHead() && Runs() == Bodies(queue)
      ensures !moved ==> ok && Valid() && stopped == old(stopped) && (settled == 0 ==> dequeue == old(dequeue))
      ensures !error && old(StopIsRead(readable)) && settled < |old(queue)| ==>
                GoesOn(slots[..], old(Line()), old(queue)[settled..], old(Stop()), old(dequeue), enqueue, moved, Runs())
      ensures !moved && settled == |old(queue)| ==> Runs() == []
      ensures !error && !moved && !old(StopIsRead(readable)) ==> LeavesOutHead(Runs(), queue)
      ensures !error && old(StopIsRead(readable)) ==>
                NotAfterHead(old(queue)[settled..], old(stopped), slots.Length)
      ensures Fates(slots[..], old(queue)[settled..])
    {
      settled := 0;
      if error {
        moved, ok := CancelByOrder(true, Line(), queue, Stop());
      } else {
        moved, ok, settled := CancelStopped(readable);
      }
    }

    method CancelStopped(readable: bool) returns (moved: bool, ok: bool, ghost settled: nat)
      requires Valid()
      modifies this`queue, this`dequeue, this`stopped, slots
      ensures Placed() && settled <= |old(queue)| && queue == Survivors(old(queue)[settled..])
      ensures settled == if readable && old(AllPassedHeld()) then old(PassedNow()) else 0
      ensures moved <==> settled < |old(queue)| && old(queue)[settled].taken
      ensures ok && moved ==> Valid() && InHead() && Runs() == Bodies(queue)
      ensures !moved ==> ok && Valid() && stopped == old(stopped) && (settled == 0 ==> dequeue == old(dequeue))
      ensures old(StopIsRead(readable)) && settled < |old(queue)| ==>
                GoesOn(slots[..], old(Line()), old(queue)[settled..], old(Stop()), old(dequeue), enqueue, moved, Runs())
      ensures !moved && settled == |old(queue)| ==> Runs() == []
      ensures !moved && !old(StopIsRead(readable)) ==> LeavesOutHead(Runs(), queue)
      ensures old(StopIsRead(readable)) ==> NotAfterHead(old(queue)[settled..], old(stopped), slots.Length)
      ensures Fates(slots[..], old(queue)[settled..])
    {
      settled := StopSettle(readable);
      ghost var line, q, stop, deq := Line(), queue, Stop(), dequeue;
      ghost var read := q == [] || stop < HeadEnd(q, deq, slots.Length);
      assert read == InHead() == old(StopIsRead(readable));
      moved, ok := CancelByOrder(false, line, q, stop);
      if q != [] && read {
        HeadGoesOn(slots[..], old(Line()), line, q, old(Stop()), stop, old(dequeue), deq, enqueue, moved, Runs());
      }
    }

    /** What the premise comes to before the settle: none passed, or all passed held and the reading read. */
    ghost predicate StopIsRead(readable: bool)
      reads this
      requires Placed() && Indexed(queue, slots.Length)
    {
      PassedNow() == 0 || (readable && AllPassedHeld())
    }

    method MoveTo(target: nat, ghost line: seq<Trb>) returns (ok: bool)
      requires Placed() && TwoPerRecord(queue) && Indexed(queue, slots.Length)
      requires Laid(line, queue, 0, dequeue, slots.Length)
      requires Cleaned(line, Line(), queue, dequeue, slots.Length)
      requires target == Target(Survivors(queue), enqueue)
      modifies this`queue, this`dequeue, this`stopped
      ensures Placed() && queue == Survivors(old(queue))
      ensures ok ==> Valid() && InHead() && Runs() == Bodies(queue)
    {
      MovedOutcome(slots[..], line, queue, dequeue, enqueue);
      SurvivorsBounded(queue, slots.Length);
      dequeue, queue := target, Survivors(queue);
      ok := *;                                  // the Set TR Dequeue command
      if ok {
        stopped := target;
      }
    }

    method StayPut(ghost line: seq<Trb>)
      requires Placed() && TwoPerRecord(queue) && Indexed(queue, slots.Length)
      requires Laid(line, queue, 0, dequeue, slots.Length)
      requires Cleaned(line, Line(), queue, dequeue, slots.Length) && Stop() <= |Line()|
      requires queue != [] ==> !queue[0].taken
      modifies this`queue
      ensures Valid() && queue == Survivors(old(queue))
      ensures old(queue) == [] ==> Runs() == []
      ensures old(queue) != [] && old(InHead()) ==>
                && InHead()
                && Runs() == Executed(line[Stop()..HeadEnd(old(queue), dequeue, slots.Length)])
                             + Bodies(Survivors(old(queue)[1..]))
      ensures old(queue) != [] && !old(InHead()) ==> LeavesOutHead(Runs(), queue)
    {
      StayedFate(slots[..], line, queue, dequeue, enqueue, stopped);
      SurvivorsBounded(queue, slots.Length);
      queue := Survivors(queue);
    }
  }

  function EndOf(t: Td, dequeue: nat, m: nat): nat
    requires t.first < m && dequeue < m
  {
    At(t, dequeue, m) + t.count
  }

  /** The first of `q` is the TD the controller stopped in, or the next it will enter: it is not rewritten,
      and if nothing moved the controller goes on with the rest of it and then exactly the survivors after
      it. `line` and `stop` are the ring and the stop as they were, from `dequeue`. */
  ghost predicate GoesOn(slots: seq<Trb>, line: seq<Trb>, q: seq<Td>, stop: nat, dequeue: nat, enqueue: nat,
                         moved: bool, runs: seq<Trb>)
    requires q != [] && q[0].first < |slots| && dequeue < |slots| && enqueue < |slots|
  {
    var end := EndOf(q[0], dequeue, |slots|);
    && stop < end <= |line| == Dist(dequeue, enqueue, |slots|)
    && q[0].count <= end && Slice(slots, dequeue, enqueue)[end - q[0].count..end] == Body(q[0])
    && (!moved ==> runs == Executed(line[stop..end]) + Bodies(Survivors(q[1..])))
  }

  /** What a cancel says of a ring whose dequeue the settle had moved on by `b`, said of the ring before. */
  lemma HeadGoesOn(
      slots: seq<Trb>, line0: seq<Trb>, line: seq<Trb>, q: seq<Td>, stop0: nat, stop: nat, from: nat, to: nat,
      enqueue: nat, moved: bool, runs: seq<Trb>)
    requires from < |slots| && to < |slots| && enqueue < |slots| && q != [] && q[0].first < |slots|
    requires |line0| == Dist(from, enqueue, |slots|) && Dist(from, to, |slots|) <= |line0|
    requires line == line0[Dist(from, to, |slots|)..] && stop0 == stop + Dist(from, to, |slots|)
    requires At(q[0], from, |slots|) == At(q[0], to, |slots|) + Dist(from, to, |slots|)
    requires Laid(line, q, 0, to, |slots|) && HeadKept(line, Slice(slots, to, enqueue), q, to, |slots|)
    requires stop < HeadEnd(q, to, |slots|)
    requires !moved ==> runs == Executed(line[stop..HeadEnd(q, to, |slots|)]) + Bodies(Survivors(q[1..]))
    ensures GoesOn(slots, line0, q, stop0, from, enqueue, moved, runs)
  {
    var b, at, next := Dist(from, to, |slots|), At(q[0], to, |slots|), HeadEnd(q, to, |slots|);
    SliceFrom(slots, from, enqueue, b);
    KeptPart(Slice(slots, from, enqueue), line, Body(q[0]), b, at, next);
    PartOfPart(line0, b, stop, next);
  }

  lemma KeptPart(now: seq<Trb>, line: seq<Trb>, body: seq<Trb>, b: nat, at: nat, next: nat)
    requires at <= next <= |line| && b + |line| == |now|
    requires now[b..][..next] == line[..next] && line[at..next] == body
    ensures now[b + at..b + next] == body
  {
    forall k | 0 <= k < next - at ensures now[b + at + k] == body[k] {
      assert now[b..][..next][at + k] == line[..next][at + k] == line[at..next][k];
    }
  }

  lemma PartOfPart(line: seq<Trb>, b: nat, i: nat, j: nat)
    requires b <= |line| && i <= j <= |line| - b
    ensures line[b..][i..j] == line[b + i..b + j]
  {
  }

  /** The line the blanking left, for a queue that may be empty. */
  ghost predicate Cleaned(line: seq<Trb>, line': seq<Trb>, q: seq<Td>, dequeue: nat, m: nat) {
    if q == [] then line' == line else HeadKept(line, line', q, dequeue, m)
  }

  lemma SurvivingHead(line: seq<Trb>, line': seq<Trb>, q: seq<Td>, dequeue: nat, m: nat)
    requires dequeue < m && Laid(line, q, 0, dequeue, m) && Cleaned(line, line', q, dequeue, m)
    requires q != [] ==> !q[0].taken
    ensures Laid(line', Survivors(q), 0, dequeue, m)
  {
    if q != [] {
      var at, next := At(q[0], dequeue, m), HeadEnd(q, dequeue, m);
      assert Survivors(q)[1..] == Survivors(q[1..]);
      assert line'[at..next] == line'[..next][at..] == line[..next][at..] == line[at..next];
      assert forall i :: 0 <= i < at ==> line'[i] == line'[..next][i] == line[..next][i] == line[i];
    }
  }

  /** From the head's end if the head is taken, from the start otherwise, the survivors are laid out. */
  lemma SurvivorsSomewhere(line: seq<Trb>, line': seq<Trb>, q: seq<Td>, dequeue: nat, m: nat) returns (b: nat)
    requires dequeue < m && Laid(line, q, 0, dequeue, m) && Cleaned(line, line', q, dequeue, m)
    ensures b <= |line'| && Laid(line', Survivors(q), b, dequeue, m)
  {
    b := 0;
    if q != [] && q[0].taken {
      b := HeadEnd(q, dequeue, m);
      assert Survivors(q) == Survivors(q[1..]);
    } else {
      SurvivingHead(line, line', q, dequeue, m);
    }
  }

  function Target(s: seq<Td>, enqueue: nat): nat {
    if s == [] then enqueue else s[0].first
  }

  /** Run from the first of the TDs laid out, or from the enqueue if there is none, the ring executes
      exactly those TDs, whole and in order, and is laid out for them from there. */
  lemma RunsFromTarget(slots: seq<Trb>, s: seq<Td>, b: nat, dequeue: nat, enqueue: nat)
    requires dequeue < |slots| && enqueue < |slots|
    requires b <= Dist(dequeue, enqueue, |slots|) && Laid(Slice(slots, dequeue, enqueue), s, b, dequeue, |slots|)
    ensures Target(s, enqueue) < |slots|
    ensures Laid(Slice(slots, Target(s, enqueue), enqueue), s, 0, Target(s, enqueue), |slots|)
    ensures Executed(Slice(slots, Target(s, enqueue), enqueue)) == Bodies(s)
  {
    var m, line := |slots|, Slice(slots, dequeue, enqueue);
    var steps := if s == [] then |line| else At(s[0], dequeue, m);
    assert Laid(line, s, steps, dequeue, m);
    assert Wrap(dequeue + steps, m) == Target(s, enqueue);
    SliceFrom(slots, dequeue, enqueue, steps);
    Rebased(line, s, steps, dequeue, m, steps);
    LaidExecutes(line, s, steps, dequeue, m);
  }

  lemma MovedOutcome(slots: seq<Trb>, line: seq<Trb>, q: seq<Td>, dequeue: nat, enqueue: nat)
    requires dequeue < |slots| && enqueue < |slots|
    requires Laid(line, q, 0, dequeue, |slots|) && Cleaned(line, Slice(slots, dequeue, enqueue), q, dequeue, |slots|)
    ensures var s := Survivors(q);
            && Target(s, enqueue) < |slots|
            && Laid(Slice(slots, Target(s, enqueue), enqueue), s, 0, Target(s, enqueue), |slots|)
            && Executed(Slice(slots, Target(s, enqueue), enqueue)) == Bodies(s)
  {
    var b := SurvivorsSomewhere(line, Slice(slots, dequeue, enqueue), q, dequeue, |slots|);
    RunsFromTarget(slots, Survivors(q), b, dequeue, enqueue);
  }

  /** What runs when nothing moved, wherever the controller stopped. */
  lemma StayedFate(slots: seq<Trb>, line: seq<Trb>, q: seq<Td>, dequeue: nat, enqueue: nat, stopped: nat)
    requires dequeue < |slots| && enqueue < |slots| && stopped < |slots| && (q != [] ==> !q[0].taken)
    requires Laid(line, q, 0, dequeue, |slots|) && Cleaned(line, Slice(slots, dequeue, enqueue), q, dequeue, |slots|)
    requires Dist(dequeue, stopped, |slots|) <= Dist(dequeue, enqueue, |slots|)
    ensures Laid(Slice(slots, dequeue, enqueue), Survivors(q), 0, dequeue, |slots|)
    ensures q == [] ==> Executed(Slice(slots, stopped, enqueue)) == []
    ensures q != [] ==> Survivors(q) != [] && Survivors(q)[0] == q[0]
    ensures q != [] && Dist(dequeue, stopped, |slots|) < HeadEnd(q, dequeue, |slots|) ==>
              Executed(Slice(slots, stopped, enqueue)) ==
              Executed(line[Dist(dequeue, stopped, |slots|)..HeadEnd(q, dequeue, |slots|)]) + Bodies(Survivors(q[1..]))
    ensures q != [] && Dist(dequeue, stopped, |slots|) >= HeadEnd(q, dequeue, |slots|) ==>
              LeavesOutHead(Executed(Slice(slots, stopped, enqueue)), Survivors(q))
  {
    SurvivingHead(line, Slice(slots, dequeue, enqueue), q, dequeue, |slots|);
    if q == [] {
      NothingRuns(slots, dequeue, enqueue, stopped);
    } else {
      HeadBodies(q);
      if Dist(dequeue, stopped, |slots|) < HeadEnd(q, dequeue, |slots|) {
        StayedOutcome(slots, line, q, dequeue, enqueue, stopped);
      } else {
        StayedPast(slots, line, q, dequeue, enqueue, stopped);
      }
    }
  }

  lemma StayedOutcome(slots: seq<Trb>, line: seq<Trb>, q: seq<Td>, dequeue: nat, enqueue: nat, stopped: nat)
    requires dequeue < |slots| && enqueue < |slots| && stopped < |slots| && q != [] && !q[0].taken
    requires Laid(line, q, 0, dequeue, |slots|) && HeadKept(line, Slice(slots, dequeue, enqueue), q, dequeue, |slots|)
    requires Dist(dequeue, stopped, |slots|) < HeadEnd(q, dequeue, |slots|)
    ensures Laid(Slice(slots, dequeue, enqueue), Survivors(q), 0, dequeue, |slots|)
    ensures Survivors(q) != [] && Survivors(q)[0] == q[0]
    ensures Executed(Slice(slots, stopped, enqueue)) ==
            Executed(line[Dist(dequeue, stopped, |slots|)..HeadEnd(q, dequeue, |slots|)]) + Bodies(Survivors(q[1..]))
  {
    var m, line', stop := |slots|, Slice(slots, dequeue, enqueue), Dist(dequeue, stopped, |slots|);
    SurvivingHead(line, line', q, dequeue, m);
    SliceFrom(slots, dequeue, enqueue, stop);
    StayedRuns(line, line', Survivors(q[1..]), stop, HeadEnd(q, dequeue, m), dequeue, m);
  }

  /** The head survives and none of it runs: what runs is the end of the survivors' TRBs. */
  ghost predicate LeavesOutHead(runs: seq<Trb>, survivors: seq<Td>) {
    && survivors != [] && 0 < survivors[0].count && |runs| + survivors[0].count <= |Bodies(survivors)|
    && runs == Bodies(survivors)[|Bodies(survivors)| - |runs|..]
  }

  /** Stopped past the head's end with nothing moved, the controller leaves the surviving head out. */
  lemma StayedPast(slots: seq<Trb>, line: seq<Trb>, q: seq<Td>, dequeue: nat, enqueue: nat, stopped: nat)
    requires dequeue < |slots| && enqueue < |slots| && stopped < |slots| && q != [] && !q[0].taken
    requires Laid(line, q, 0, dequeue, |slots|) && HeadKept(line, Slice(slots, dequeue, enqueue), q, dequeue, |slots|)
    requires HeadEnd(q, dequeue, |slots|) <= Dist(dequeue, stopped, |slots|) <= Dist(dequeue, enqueue, |slots|)
    ensures LeavesOutHead(Executed(Slice(slots, stopped, enqueue)), Survivors(q))
  {
    var line', stop := Slice(slots, dequeue, enqueue), Dist(dequeue, stopped, |slots|);
    SliceFrom(slots, dequeue, enqueue, stop);
    HeadBodies(q);
    RunsInParts(line', Survivors(q[1..]), HeadEnd(q, dequeue, |slots|), stop, dequeue, |slots|);
    EndOfAll(q[0], Survivors(q), Executed(line'[HeadEnd(q, dequeue, |slots|)..stop]), Executed(line'[stop..]));
  }

  lemma HeadBodies(q: seq<Td>)
    requires q != [] && !q[0].taken
    ensures Survivors(q) != [] && Survivors(q)[0] == q[0] && Survivors(q)[1..] == Survivors(q[1..])
    ensures Bodies(Survivors(q)) == Body(q[0]) + Bodies(Survivors(q[1..]))
  {
    assert Survivors(q)[1..] == Survivors(q[1..]);
  }

  lemma EndOfAll(head: Td, survivors: seq<Td>, skipped: seq<Trb>, runs: seq<Trb>)
    requires survivors != [] && survivors[0] == head && 0 < head.count
    requires Bodies(survivors) == Body(head) + (skipped + runs)
    ensures LeavesOutHead(runs, survivors)
  {
    LastPart(Body(head), skipped, runs);
  }

  lemma RunsInParts(line: seq<Trb>, rest: seq<Td>, next: nat, stop: nat, dequeue: nat, m: nat)
    requires next <= stop <= |line| && dequeue < m && Laid(line, rest, next, dequeue, m)
    ensures Bodies(rest) == Executed(line[next..stop]) + Executed(line[stop..])
  {
    LaidExecutes(line, rest, next, dequeue, m);
    assert line[next..] == line[next..stop] + line[stop..];
    ExecutedJoins(line[next..stop], line[stop..]);
  }

  lemma LastPart(a: seq<Trb>, b: seq<Trb>, c: seq<Trb>)
    ensures var all := a + (b + c); |a| + |c| <= |all| && all[|all| - |c|..] == c
  {
  }

  lemma NothingRuns(slots: seq<Trb>, dequeue: nat, enqueue: nat, stopped: nat)
    requires dequeue < |slots| && enqueue < |slots| && stopped < |slots|
    requires Laid(Slice(slots, dequeue, enqueue), [], 0, dequeue, |slots|)
    requires Dist(dequeue, stopped, |slots|) <= Dist(dequeue, enqueue, |slots|)
    ensures Executed(Slice(slots, stopped, enqueue)) == []
  {
    var stop := Dist(dequeue, stopped, |slots|);
    SliceFrom(slots, dequeue, enqueue, stop);
    NoOpsExecuteNothing(Slice(slots, dequeue, enqueue)[stop..]);
  }

  ghost function HeadEnd(q: seq<Td>, dequeue: nat, m: nat): nat
    requires q != [] && q[0].first < m && dequeue < m
  {
    At(q[0], dequeue, m) + q[0].count
  }

  /** The line after the blanking: untouched up to the head's end, the surviving rest after it. */
  ghost predicate HeadKept(line: seq<Trb>, line': seq<Trb>, q: seq<Td>, dequeue: nat, m: nat) {
    && q != [] && q[0].first < m && dequeue < m
    && var next := HeadEnd(q, dequeue, m);
       && next <= |line| == |line'|
       && line'[..next] == line[..next]
       && Laid(line', Survivors(q[1..]), next, dequeue, m)
  }

  lemma RestBlanked(line: seq<Trb>, line': seq<Trb>, q: seq<Td>, dequeue: nat, m: nat)
    requires q != [] && |line| == |line'| < m && dequeue < m && Laid(line, q, 0, dequeue, m)
    requires forall t :: t in q ==> t.first < m
    requires forall i :: 0 <= i < |line| ==> line'[i] == if InTaken(q[1..], i, dequeue, m) then NoOp else line[i]
    ensures HeadKept(line, line', q, dequeue, m)
  {
    var next := HeadEnd(q, dequeue, m);
    LaidInRange(line, q[1..], next, dequeue, m);
    SurvivorsLaid(line, line', q[1..], next, dequeue, m);
  }

  lemma PastTd(t: Td, dequeue: nat, m: nat)
    requires t.first < m && dequeue < m && t.count < m && EndOf(t, dequeue, m) < m
    ensures Wrap(t.first + t.count, m) == Wrap(dequeue + EndOf(t, dequeue, m), m)
    ensures Dist(dequeue, Wrap(dequeue + EndOf(t, dequeue, m), m), m) == EndOf(t, dequeue, m)
  {
  }

  lemma Farther(from: nat, steps: nat, m: nat)
    requires from < m && steps < m
    ensures Dist(from, Wrap(from + steps, m), m) == steps
  {
  }

  lemma Nearer(from: nat, steps: nat, to: nat, m: nat)
    requires from < m && to < m && steps <= Dist(from, to, m)
    ensures Dist(Wrap(from + steps, m), to, m) == Dist(from, to, m) - steps
  {
  }

  lemma {:induction false} SuffixPerRecord(q: seq<Td>, n: nat)
    requires TwoPerRecord(q) && n <= |q|
    ensures TwoPerRecord(q[n..])
  {
    if n > 0 {
      forall r | 0 <= r < PIPE_XFERS ensures OfRecord(q[1..], r) <= 2 {
        assert OfRecord(q[1..], r) <= OfRecord(q, r);
      }
      SuffixPerRecord(q[1..], n - 1);
      assert q[1..][n - 1..] == q[n..];
    } else {
      assert q[n..] == q;
    }
  }

  lemma SurvivorsBounded(q: seq<Td>, m: nat)
    requires TwoPerRecord(q) && Indexed(q, m)
    ensures TwoPerRecord(Survivors(q)) && Indexed(Survivors(q), m)
  {
    TakenOnly(q);
    forall r | 0 <= r < PIPE_XFERS ensures OfRecord(Survivors(q), r) <= 2 {
      SurvivorsPerRecord(q, r);
    }
  }

  /** The condition is needed: a surviving TD, one slot, not held, that the controller has passed - as QEMU's
      saved fetch pointer has a TD it fetched and did not run - and a cancelled one it stopped in. */
  const Kept := Td(0, 0, 1, 0, false, false)
  const Cancelled := Td(1, 1, 1, 1, true, false)
  const Unread: seq<Trb> := [Work(0, 0), Work(1, 0), NoOp, NoOp]

  method UnreadStopFails() returns (r: TransferRing)
    ensures r.slots.Length == 4 && r.Valid() && r.queue == [Kept] && r.stopped == 1 && r.enqueue == 2
    ensures Unread[r.stopped] == Work(Cancelled.id, 0) && r.slots[r.stopped] == NoOp  // what it stopped in, rewritten
    ensures r.Runs() == [] && Bodies(r.queue) == [Work(Kept.id, 0)]                   // the survivor, skipped
  {
    r := new TransferRing(Unread, 2, 0, 1, [Kept, Cancelled]);
    UnreadIsValid(r);
    var moved, ok, settled := r.CancelPipe(false, true);
    assert [Kept, Cancelled][0..] == [Kept, Cancelled];
    KeptSurvives();
    KeptBody();
    assert FateOf(r.slots[..], Cancelled, true) && r.slots[..][Wrap(1 + 0, 4)] == r.slots[1];
  }

  lemma KeptSurvives()
    ensures Survivors([Kept, Cancelled]) == [Kept]
  {
    assert [Kept, Cancelled][1..] == [Cancelled] && [Cancelled][1..] == [];
    assert Survivors([Cancelled]) == [];
  }

  lemma KeptBody()
    ensures Bodies([Kept]) == [Work(0, 0)]
  {
    var body, rest := Body(Kept), [Kept][1..];
    assert |body| == 1 && body[0] == Work(0, 0);
    assert rest == [];
    assert Bodies(rest) == [];
    assert Bodies([Kept]) == body + Bodies(rest);
  }

  lemma UnreadIsValid(r: TransferRing)
    requires r.slots.Length == 4 && r.slots[..] == Unread && r.queue == [Kept, Cancelled]
    requires r.enqueue == 2 && r.dequeue == 0 && r.stopped == 1
    ensures r.Valid() && !r.AllPassedHeld() && r.PassedNow() == 1
  {
    var q, line := r.queue, Slice(r.slots[..], 0, 2);
    assert q[1..] == [Cancelled] && [Cancelled][1..] == [];
    assert line[0] == Unread[Wrap(0, 4)] && line[1] == Unread[Wrap(1, 4)];
    assert line[0..1] == Body(Kept) && line[1..2] == Body(Cancelled);
    assert Laid(line, [], 2, 0, 4);
    assert Laid(line, [Cancelled], 1, 0, 4);
    forall n | 0 <= n < PIPE_XFERS ensures OfRecord(q, n) <= 2 {
      assert OfRecord(q, n) == (if n == 0 then 1 else 0) + OfRecord([Cancelled], n);
    }
    assert Passed([Cancelled], 1, 0, 4) == 0;
    assert !q[0].held;
  }
}
