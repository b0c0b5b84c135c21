/**
 The stream resync QEMU's controller needs after a Stop or Reset Endpoint (hcd_cfg.c's
 HcdCfgQemuStreamResync). What the endpoint does between commands and how each command ends are the
 environment's; which streams owe a Set TR Dequeue in each pass is a parameter, since each Stop makes the
 debts anew. The ghost log records, in order, every turn a stream took and every extra Stop.
 */
module StreamResync {

  const RESTOPS: nat := 2                      // HCD_CFG_QEMU_RESTOPS

  datatype EpState = Disabled | Running | Halted | Stopped | InError

  datatype Code = Success | ContextStateError | OtherError | NoCompletion

  /** What a turn did once it had read the state. */
  datatype Act = Nothing | NotOwed | SetDequeue(code: Code)

  /** A turn: the state it read first, what it did, and the state as it last read it. */
  datatype Entry = Turn(id: nat, read: EpState, act: Act, after: EpState) | StopEndpoint(code: Code)

  datatype Result = Clean | Restopped | Failed

  /** What the endpoint and the controller have to say to one entry: the state read first, how a Set TR Dequeue
      ends, the state read again after a refusal, how a Stop ends. */
  datatype Said = Said(first: EpState, answer: Code, second: EpState, stop: Code)

  /** What a turn of stream `id` is, for what was said. */
  function Turned(id: nat, owed: bool, said: Said): Entry {
    if said.first != Stopped then Turn(id, said.first, Nothing, said.first)
    else if !owed then Turn(id, Stopped, NotOwed, Stopped)
    else Turn(id, Stopped, SetDequeue(said.answer), if said.answer == ContextStateError then said.second else Stopped)
  }

  /** Every entry of the log is what was said to it. */
  ghost predicate Heard(log: seq<Entry>, said: nat -> Said) {
    forall k :: 0 <= k < |log| ==>
      if log[k].StopEndpoint? then log[k].code == said(k).stop
      else log[k] == Turned(log[k].id, true, said(k)) || log[k] == Turned(log[k].id, false, said(k))
  }

  /** Nothing restarts the endpoint during the first pass, and no resync of it is refused. */
  ghost predicate Undisturbed(said: nat -> Said, count: nat) {
    forall k :: 0 <= k < count ==> said(k).first == Stopped && said(k).answer == Success
  }

  function Count(log: seq<Entry>, stops: bool): nat {
    if log == [] then 0
    else
      var last := log[|log| - 1];
      Count(log[..|log| - 1], stops) + (if stops then (if last.StopEndpoint? then 1 else 0)
                                        else if last.Turn? && last.act.SetDequeue? then 1 else 0)
  }

  function SetDequeues(log: seq<Entry>): nat {
    Count(log, false)
  }

  function Stops(log: seq<Entry>): nat {
    Count(log, true)
  }

  /** Stream `id` read Stopped, and resynced with success if it owed a resync, untouched if not. */
  predicate Settled(e: Entry, id: nat, owes: bool) {
    e == Turn(id, Stopped, if owes then SetDequeue(Success) else NotOwed, Stopped)
  }

  /** A turn QEMU's own restart of the endpoint kept from settling: read Running, or refused with Context
      State Error and then read Running. Another Stop can mend it. */
  predicate Restarted(e: Entry) {
    && e.Turn? && e.after == Running
    && if e.read == Stopped then e.act == SetDequeue(ContextStateError) else e.read == Running && e.act == Nothing
  }

  /** From `base` on the log is one pass: streams 1 to `upTo` settled in turn, with no Stop among them. */
  predicate Pass(log: seq<Entry>, base: nat, upTo: nat, owes: set<nat>) {
    && |log| == base + upTo
    && forall k :: base <= k < |log| ==> Settled(log[k], k - base + 1, k - base + 1 in owes)
  }

  /** The endpoint is stopped again only when QEMU had restarted it. */
  predicate StopsMend(log: seq<Entry>) {
    forall k :: 0 <= k < |log| && log[k].StopEndpoint? ==> k > 0 && Restarted(log[k - 1])
  }

  /** What a resync gives up on: an extra Stop that failed, or a turn neither settled nor to be mended. */
  predicate GivesUp(log: seq<Entry>, owes: set<nat>) {
    && log != []
    && var last := log[|log| - 1];
       if last.StopEndpoint? then last.code != Success
       else !Settled(last, last.id, last.id in owes) && (!Restarted(last) || Stops(log) == RESTOPS)
  }

  lemma Appended(log: seq<Entry>, e: Entry)
    ensures SetDequeues(log + [e]) == SetDequeues(log) + (if e.Turn? && e.act.SetDequeue? then 1 else 0)
    ensures Stops(log + [e]) == Stops(log) + (if e.StopEndpoint? then 1 else 0)
  {
    assert (log + [e])[..|log|] == log;
  }

  /** One stream's turn: the state read and, Stopped, its Set TR Dequeue if it owes one; a refusal with
      Context State Error reads the state again. */
  method TakeTurn(id: nat, owed: bool, said: Said) returns (settled: bool, state: EpState, code: Code, ghost e: Entry)
    ensures e == Turned(id, owed, said) && state == e.after && (settled <==> Settled(e, id, owed))
    ensures code == if said.first == Stopped && owed then said.answer else Success
  {
    state, code := said.first, Success;
    var act := Nothing;
    settled := false;
    if state == Stopped {
      act := NotOwed;
      if owed {
        code := said.answer;
        act := SetDequeue(code);
      }
      settled := code == Success;
      if code == ContextStateError {
        state := said.second;
      }
    }
    e := Turn(id, said.first, act, state);
  }

  /** A resync under way: `restops` Stops so far, and since the last the streams before `id` settled. */
  predicate Going(log: seq<Entry>, base: nat, restops: nat, id: nat, owes: set<nat>) {
    && id >= 1 && Stops(log) == restops && StopsMend(log) && Pass(log, base, id - 1, owes)
    && if restops == 0 then base == 0 else 0 < base <= |log| && log[base - 1] == StopEndpoint(Success)
  }

  /** How far the thread is, for what was said: nothing said yet, undisturbed, or begun on an endpoint that was
      Stopped or restarted. */
  ghost predicate Course(said: nat -> Said, count: nat, restops: nat, id: nat, at: nat) {
    && (at == 0 ==> restops == 0 && id == 1)
    && (Undisturbed(said, count) ==> restops == 0 && at + 1 == id)
    && (at > 0 ==> said(0).first == Stopped || said(0).first == Running)
  }

  lemma CourseOn(said: nat -> Said, count: nat, restops: nat, id: nat, at: nat, owed: bool, e: Entry)
    requires Course(said, count, restops, id, at) && id <= count && e == Turned(id, owed, said(at))
    ensures Settled(e, id, owed) ==> Course(said, count, restops, id + 1, at + 1)
    ensures !Settled(e, id, owed) ==> !Undisturbed(said, count)
    ensures Restarted(e) ==> Course(said, count, restops + 1, 1, at + 2)
    ensures at == 0 && e.read != Stopped ==> e == Turn(1, said(0).first, Nothing, said(0).first)
  {
  }

  lemma HeardOn(log: seq<Entry>, e: Entry, said: nat -> Said)
    requires Heard(log, said)
    requires if e.StopEndpoint? then e.code == said(|log|).stop
             else e == Turned(e.id, true, said(|log|)) || e == Turned(e.id, false, said(|log|))
    ensures Heard(log + [e], said)
  {
  }

  lemma OneMoreSettled(log: seq<Entry>, base: nat, restops: nat, id: nat, owes: set<nat>, e: Entry)
    requires Going(log, base, restops, id, owes) && Settled(e, id, id in owes)
    ensures Going(log + [e], base, restops, id + 1, owes)
  {
    Appended(log, e);
  }

  lemma TurnLogged(log: seq<Entry>, base: nat, restops: nat, id: nat, owes: set<nat>, e: Entry)
    requires Going(log, base, restops, id, owes) && e.Turn?
    ensures StopsMend(log + [e]) && Stops(log + [e]) == restops
  {
    Appended(log, e);
  }

  lemma StoppedAgain(log: seq<Entry>, e: Entry, stopped: Code)
    requires StopsMend(log + [e]) && Restarted(e)
    ensures StopsMend(log + [e] + [StopEndpoint(stopped)])
    ensures Stops(log + [e] + [StopEndpoint(stopped)]) == Stops(log + [e]) + 1
    ensures SetDequeues(log + [e] + [StopEndpoint(stopped)]) == SetDequeues(log + [e])
  {
    Appended(log + [e], StopEndpoint(stopped));
    var l := log + [e] + [StopEndpoint(stopped)];
    forall k | 0 <= k < |l| && l[k].StopEndpoint? ensures k > 0 && Restarted(l[k - 1]) {
      if k <= |log| { assert (log + [e])[k] == l[k]; }
    }
  }

  /** What a resync ends with. */
  predicate Ends(r: Result, log: seq<Entry>, base: nat, count: nat, owes: seq<set<nat>>)
    requires |owes| == RESTOPS + 1
  {
    && SetDequeues(log) <= 3 * count && Stops(log) <= RESTOPS && StopsMend(log)
    && match r
       case Clean =>
         Stops(log) == 0 && (Pass(log, 0, count, owes[0]) || (log == [Turn(1, Halted, Nothing, Halted)] && count > 0))
       case Restopped =>
         0 < base <= |log| && log[base - 1] == StopEndpoint(Success) && Pass(log, base, count, owes[Stops(log)])
       case Failed => GivesUp(log, owes[Stops(log)]) && log != [Turn(1, Halted, Nothing, Halted)]
  }

  /** The streams of so many whole passes. */
  function Passes(restops: nat, count: nat): nat {
    if restops == 0 then 0 else if restops == 1 then count else 2 * count
  }

  /** A resync on its way: the log so far, and the commands within what `restops` whole passes may take. */
  ghost predicate Way(log: seq<Entry>, base: nat, restops: nat, id: nat, count: nat, owes: seq<set<nat>>,
                      said: nat -> Said)
    requires |owes| == RESTOPS + 1
  {
    && restops <= RESTOPS && 1 <= id <= count + 1
    && SetDequeues(log) <= Passes(restops, count) + (id - 1)
    && Going(log, base, restops, id, owes[restops])
    && Heard(log, said) && Course(said, count, restops, id, |log|)
  }

  /** The result is what was said calls for, where that alone decides it. */
  ghost predicate Told(r: Result, count: nat, said: nat -> Said) {
    && (count == 0 || said(0).first == Halted || Undisturbed(said, count) ==> r == Clean)
    && (count > 0 && (said(0).first == Disabled || said(0).first == InError) ==> r == Failed)
  }

  /** Over, with this result. */
  ghost predicate Ended(r: Result, log: seq<Entry>, base: nat, count: nat, owes: seq<set<nat>>, said: nat -> Said)
    requires |owes| == RESTOPS + 1
  {
    Ends(r, log, base, count, owes) && Heard(log, said) && Told(r, count, said)
  }

  lemma WayBegins(count: nat, owes: seq<set<nat>>, said: nat -> Said)
    requires |owes| == RESTOPS + 1
    ensures Way([], 0, 0, 1, count, owes, said)
  {
  }

  lemma WaySettled(log: seq<Entry>, base: nat, restops: nat, id: nat, count: nat, owes: seq<set<nat>>,
                   said: nat -> Said, e: Entry)
    requires |owes| == RESTOPS + 1 && Way(log, base, restops, id, count, owes, said) && id <= count
    requires e == Turned(id, id in owes[restops], said(|log|)) && Settled(e, id, id in owes[restops])
    ensures Way(log + [e], base, restops, id + 1, count, owes, said)
  {
    Appended(log, e);
    OneMoreSettled(log, base, restops, id, owes[restops], e);
    CourseOn(said, count, restops, id, |log|, id in owes[restops], e);
    HeardOn(log, e, said);
  }

  /** The log with a turn of a restarted endpoint and the Stop after it. */
  lemma StopLogged(log: seq<Entry>, base: nat, restops: nat, id: nat, count: nat, owes: seq<set<nat>>,
                   said: nat -> Said, e: Entry, stop: Entry)
    requires |owes| == RESTOPS + 1 && Way(log, base, restops, id, count, owes, said) && id <= count
    requires restops < RESTOPS && e == Turned(id, id in owes[restops], said(|log|)) && Restarted(e)
    requires stop == StopEndpoint(said(|log| + 1).stop)
    ensures var l := log + [e] + [stop];
            && StopsMend(l) && Heard(l, said) && Stops(l) == restops + 1
            && SetDequeues(l) <= Passes(restops, count) + id
            && Course(said, count, restops + 1, 1, |l|)
            && l[|log|] == e && l[|log| + 1] == stop && !Undisturbed(said, count)
  {
    Appended(log, e);
    TurnLogged(log, base, restops, id, owes[restops], e);
    CourseOn(said, count, restops, id, |log|, id in owes[restops], e);
    HeardOn(log, e, said);
    StoppedAgain(log, e, stop.code);
    HeardOn(log + [e], stop, said);
  }

  lemma WayStopped(log: seq<Entry>, base: nat, restops: nat, id: nat, count: nat, owes: seq<set<nat>>,
                   said: nat -> Said, e: Entry, stop: Entry)
    requires |owes| == RESTOPS + 1 && Way(log, base, restops, id, count, owes, said) && id <= count
    requires restops < RESTOPS && e == Turned(id, id in owes[restops], said(|log|)) && Restarted(e)
    requires stop == StopEndpoint(said(|log| + 1).stop) && stop.code == Success
    ensures Way(log + [e] + [stop], |log| + 2, restops + 1, 1, count, owes, said)
  {
    StopLogged(log, base, restops, id, count, owes, said, e, stop);
  }

  lemma WayStopFailed(log: seq<Entry>, base: nat, restops: nat, id: nat, count: nat, owes: seq<set<nat>>,
                      said: nat -> Said, e: Entry, stop: Entry)
    requires |owes| == RESTOPS + 1 && Way(log, base, restops, id, count, owes, said) && id <= count
    requires restops < RESTOPS && e == Turned(id, id in owes[restops], said(|log|)) && Restarted(e)
    requires stop == StopEndpoint(said(|log| + 1).stop) && stop.code != Success
    ensures Ended(Failed, log + [e] + [stop], base, count, owes, said)
  {
    StopLogged(log, base, restops, id, count, owes, said, e, stop);
  }

  lemma WayEnded(log: seq<Entry>, base: nat, restops: nat, id: nat, count: nat, owes: seq<set<nat>>,
                 said: nat -> Said, e: Entry, r: Result)
    requires |owes| == RESTOPS + 1 && Way(log, base, restops, id, count, owes, said) && id <= count
    requires e == Turned(id, id in owes[restops], said(|log|)) && !Settled(e, id, id in owes[restops])
    requires if r == Clean then e == Turn(1, Halted, Nothing, Halted) && id == 1 && restops == 0
             else r == Failed && (!Restarted(e) || restops == RESTOPS)
                  && !(e == Turn(id, Halted, Nothing, Halted) && id == 1 && restops == 0)
    ensures Ended(r, log + [e], base, count, owes, said)
  {
    Appended(log, e);
    TurnLogged(log, base, restops, id, owes[restops], e);
    CourseOn(said, count, restops, id, |log|, id in owes[restops], e);
    HeardOn(log, e, said);
  }

  lemma WayDone(log: seq<Entry>, base: nat, restops: nat, count: nat, owes: seq<set<nat>>, said: nat -> Said)
    requires |owes| == RESTOPS + 1 && Way(log, base, restops, count + 1, count, owes, said)
    ensures var r := if restops == 0 then Clean else Restopped;
            Ended(r, log, base, count, owes, said)
  {
  }

  /** Where a resync is: under way with stream `id` next, or over. */
  datatype Next = On(restops: nat, id: nat, at: nat) | Over(r: Result)

  /** One round of the loop: a stream's turn, and a Stop if the endpoint was restarted under it. */
  method OneRound(restops: nat, id: nat, at: nat, count: nat, owes: seq<set<nat>>, said: nat -> Said,
                  ghost log: seq<Entry>, ghost base: nat)
    returns (next: Next, ghost log': seq<Entry>, ghost base': nat)
    requires |owes| == RESTOPS + 1 && Way(log, base, restops, id, count, owes, said) && id <= count && at == |log|
    ensures next.On? ==>
              && Way(log', base', next.restops, next.id, count, owes, said) && next.at == |log'|
              && (next.restops > restops || (next.restops == restops && next.id > id))
    ensures next.Over? ==> Ended(next.r, log', base', count, owes, said)
  {
    var settled, state, code, e := TakeTurn(id, id in owes[restops], said(at));
    if settled {
      WaySettled(log, base, restops, id, count, owes, said, e);
      return On(restops, id + 1, at + 1), log + [e], base;
    }
    next, log', base' := Unsettled(restops, id, at, count, owes, said, state, code, e, log, base);
  }

  /** What the state last read and the command's code say of a turn that settled nothing. */
  lemma TurnRead(id: nat, owed: bool, said: Said, e: Entry, code: Code)
    requires e == Turned(id, owed, said) && !Settled(e, id, owed)
    requires code == if said.first == Stopped && owed then said.answer else Success
    ensures e.after == Halted && code == Success <==> e == Turn(id, Halted, Nothing, Halted)
    ensures Restarted(e) <==> e.after == Running && (code == Success || code == ContextStateError)
  {
  }

  /** The rest of a round whose stream was not settled. */
  method Unsettled(restops: nat, id: nat, at: nat, count: nat, owes: seq<set<nat>>, said: nat -> Said,
                   state: EpState, code: Code, ghost e: Entry, ghost log: seq<Entry>, ghost base: nat)
    returns (next: Next, ghost log': seq<Entry>, ghost base': nat)
    requires |owes| == RESTOPS + 1 && Way(log, base, restops, id, count, owes, said) && id <= count && at == |log|
    requires e == Turned(id, id in owes[restops], said(at)) && !Settled(e, id, id in owes[restops]) && state == e.after
    requires code == if said(at).first == Stopped && id in owes[restops] then said(at).answer else Success
    ensures next.On? ==>
              && Way(log', base', next.restops, next.id, count, owes, said) && next.at == |log'|
              && next.restops == restops + 1
    ensures next.Over? ==> Ended(next.r, log', base', count, owes, said)
  {
    TurnRead(id, id in owes[restops], said(at), e, code);
    if state != Running || restops >= RESTOPS || (code != Success && code != ContextStateError) {
      var left := state == Halted && code == Success && id == 1 && restops == 0;
      WayEnded(log, base, restops, id, count, owes, said, e, if left then Clean else Failed);
      return Over(if left then Clean else Failed), log + [e], base;
    }
    next, log', base' := StopAgain(restops, id, at, count, owes, said, e, log, base);
  }

  /** Another Stop, for an endpoint that was restarted. */
  method StopAgain(restops: nat, id: nat, at: nat, count: nat, owes: seq<set<nat>>, said: nat -> Said,
                   ghost e: Entry, ghost log: seq<Entry>, ghost base: nat)
    returns (next: Next, ghost log': seq<Entry>, ghost base': nat)
    requires |owes| == RESTOPS + 1 && Way(log, base, restops, id, count, owes, said) && id <= count && at == |log|
    requires e == Turned(id, id in owes[restops], said(at)) && Restarted(e) && restops < RESTOPS
    ensures next.On? ==>
              && Way(log', base', next.restops, next.id, count, owes, said) && next.at == |log'|
              && next.restops == restops + 1
    ensures next.Over? ==> Ended(next.r, log', base', count, owes, said)
  {
    var stop := StopEndpoint(said(at + 1).stop);
    log' := log + [e] + [stop];
    if stop.code != Success {
      WayStopFailed(log, base, restops, id, count, owes, said, e, stop);
      return Over(Failed), log', base;
    }
    WayStopped(log, base, restops, id, count, owes, said, e, stop);
    return On(restops + 1, 1, at + 2), log', |log'|;
  }

  /** Ends for any behaviour of the endpoint, within the bounds; a pass that is finished settled every
      stream since the last Stop, with Stopped read before each, those that owed a resync by one that
      succeeded. A first reading of Halted leaves the endpoint alone; everything else that is not a finished
      pass is a failure. `owes[n]` are the streams that owe a resync after `n` Stops, `said(k)` what the
      endpoint and the controller say to entry `k`. Undisturbed, it is clean. */
  method Resync(count: nat, owes: seq<set<nat>>, said: nat -> Said)
    returns (r: Result, ghost log: seq<Entry>, ghost base: nat)
    requires |owes| == RESTOPS + 1
    ensures Ends(r, log, base, count, owes) && Heard(log, said)
    ensures count == 0 || said(0).first == Halted || Undisturbed(said, count) ==> r == Clean
    ensures count > 0 && (said(0).first == Disabled || said(0).first == InError) ==> r == Failed
  {
    log, base := [], 0;
    var at: nat, restops: nat, id: nat := 0, 0, 1;   // at: the entries so far
    WayBegins(count, owes, said);
    while id <= count
      invariant at == |log| && restops <= RESTOPS && Way(log, base, restops, id, count, owes, said)
      decreases RESTOPS - restops, count - id
    {
      var next;
      next, log, base := OneRound(restops, id, at, count, owes, said, log, base);
      if next.Over? {
        return next.r, log, base;
      }
      restops, id, at := next.restops, next.id, next.at;
    }
    WayDone(log, base, restops, count, owes, said);
    r := if restops == 0 then Clean else Restopped;
  }
}
