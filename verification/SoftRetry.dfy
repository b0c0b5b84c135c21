/**
 The soft retry's generation protocol (hcd_cfg.c's HcdCfgRetryService and hcdCfgRetryOne against the
 event half of hcd_dev.c and xhci_xfer.c). The event DPC diverts a transaction error and asks for a
 retry; the thread, pass by pass, visits every queue, decides under the lock at the generation it
 reads there, and after its Reset Endpoint clears the request only if the generation is still that one.

 Every hold of the controller lock is one step. A queue is named by its place in the pass: slot, then
 endpoint, then stream.
 */
module SoftRetry {

  type Place = nat
  type EndpointId = nat

  /** RetryGen is a 32-bit count. */
  const GENERATIONS: nat := 0x1_0000_0000

  /** A transfer queue's retry record. RetryGen is diverts % GENERATIONS. */
  datatype Queue = Queue(wanted: bool, diverts: nat)

  /** Where the thread is: between passes, or at a place of the pass - before its first look, after it
      found a request, or with its Reset Endpoint out, decided at the generation of `decided` diverts and
      carried out by the controller or not yet. */
  datatype Pc =
    | Idle
    | Looking(at: Place)
    | Found(at: Place)
    | Resetting(at: Place, decided: nat, carriedOut: bool)

  /** `endpoints[q]` is the endpoint of the queue at place `q`, one for all the streams of an endpoint. */
  datatype State = State(
    queues: map<Place, Queue>,
    halted: set<EndpointId>,        // as the controller has them
    retryWork: bool,
    failed: bool,
    pc: Pc,
    endpoints: seq<EndpointId>)

  function Places(s: State): nat {
    |s.endpoints|
  }

  datatype Action =
    | Divert(q: Place)              // a Transaction Error halts the endpoint, and the event DPC diverts it
    | CarryOut                      // the controller carries out the thread's Reset Endpoint
    | Restart(e: EndpointId)        // another recovery of the thread's: not while its command is out
    | Open(q: Place)                // a pipe or stream made, its queue fresh
    | Close(q: Place)               // gone, with its queue
    | Fail                          // the controller failed
    | Settle(q: Place)              // hcdCfgRetrySettle, between passes
    | TakeWork                      // the pass begins, if there is work
    | Look
    | Join                          // the device's cycle taken instead
    | Decide(replay: bool)
    | AfterReset(faults: bool)      // faults: the command failed and the controller with it

  // ----- the sections under the lock ---------------------------------------------------------------

  predicate Pending(s: State, q: Place) {
    q in s.queues && s.queues[q].wanted
  }

  /** XhciXferRetryClear: only at the generation given. */
  function Cleared(s: State, q: Place, diverts: nat): State {
    if Pending(s, q) && s.queues[q].diverts % GENERATIONS == diverts % GENERATIONS
    then s.(queues := s.queues[q := s.queues[q].(wanted := false)])
    else s
  }

  /** On to the next place, or the pass's end. */
  function Onward(s: State, at: Place): State {
    s.(pc := if at + 1 < Places(s) then Looking(at + 1) else Idle)
  }

  predicate Enabled(s: State, a: Action) {
    match a
    case Divert(q) => q in s.queues && q < Places(s) && s.endpoints[q] !in s.halted
    case CarryOut => s.pc.Resetting? && !s.pc.carriedOut && s.pc.at < Places(s)
    case Restart(_) => !s.pc.Resetting?
    case Open(q) => q !in s.queues && q < Places(s) && (s.pc.Resetting? ==> s.pc.at != q)
    case Close(q) => q in s.queues
    case Fail => true
    case Settle(q) => s.pc.Idle? && q in s.queues
    case TakeWork => s.pc.Idle? && !s.failed
    case Look => s.pc.Looking?
    case Join => s.pc.Found?
    case Decide(_) => s.pc.Found?
    case AfterReset(_) => s.pc.Resetting?
  }

  function DivertStep(s: State, q: Place): State
    requires q in s.queues && q < Places(s)
  {
    s.(queues := s.queues[q := Queue(true, s.queues[q].diverts + 1)],
       halted := s.halted + {s.endpoints[q]}, retryWork := true)
  }

  function TakeStep(s: State): State {
    if s.retryWork && Places(s) > 0 then s.(retryWork := false, pc := Looking(0)) else s.(retryWork := false)
  }

  /** A failed controller ends the pass; a place with nothing pending is passed. */
  function LookStep(s: State): State
    requires s.pc.Looking?
  {
    if s.failed then s.(pc := Idle)
    else if Pending(s, s.pc.at) then s.(pc := Found(s.pc.at))
    else Onward(s, s.pc.at)
  }

  function DecideStep(s: State, replay: bool): State
    requires s.pc.Found?
  {
    var at := s.pc.at;
    if !Pending(s, at) then Onward(s, at)
    else if replay then Onward(Cleared(s, at, s.queues[at].diverts), at)
    else s.(pc := Resetting(at, s.queues[at].diverts, false))
  }

  /** XhciTolRetryAfterReset: rung and cleared at the generation decided at; left past it; a failed
      command clears it too and goes to the fault, which fails the controller or cycles the device. */
  function AfterStep(s: State, faults: bool): State
    requires s.pc.Resetting?
  {
    Onward(Cleared(s, s.pc.at, s.pc.decided), s.pc.at).(failed := s.failed || faults)
  }

  function Step(s: State, a: Action): State
    requires Enabled(s, a)
  {
    match a
    case Divert(q) => DivertStep(s, q)
    case CarryOut => s.(halted := s.halted - {s.endpoints[s.pc.at]}, pc := s.pc.(carriedOut := true))
    case Restart(e) => s.(halted := s.halted - {e})
    case Open(q) => s.(queues := s.queues[q := Queue(false, 0)])
    case Close(q) => s.(queues := s.queues - {q})
    case Fail => s.(failed := true)
    case Settle(q) => Cleared(s, q, s.queues[q].diverts)
    case TakeWork => TakeStep(s)
    case Look => LookStep(s)
    case Join => Onward(s.(retryWork := true), s.pc.at)
    case Decide(replay) => DecideStep(s, replay)
    case AfterReset(faults) => AfterStep(s, faults)
  }

  // ----- the invariant ------------------------------------------------------------------------------

  /** The pass has this place, or one before it, still in hand. */
  predicate ToVisit(s: State, q: Place) {
    !s.pc.Idle? && s.pc.at <= q
  }

  /** A request is on record for the next pass, or this pass has yet to finish with its queue. */
  predicate Remembered(s: State, q: Place) {
    Pending(s, q) && !s.failed ==> s.retryWork || ToVisit(s, q)
  }

  ghost predicate Inv(s: State) {
    && (forall q :: q in s.queues ==> q < Places(s) && Remembered(s, q))
    && (!s.pc.Idle? ==> s.pc.at < Places(s))
    && (s.pc.Resetting? && s.pc.at in s.queues ==> FewDiverts(s, s.queues[s.pc.at].diverts - s.pc.decided))
  }

  /** The diverts of the queue since the thread decided: each halts its endpoint, and only the one Reset
      Endpoint that is out can start it again meanwhile. */
  predicate FewDiverts(s: State, newer: int)
    requires s.pc.Resetting? && s.pc.at < Places(s)
  {
    var most := if s.pc.carriedOut then 2 else 1;
    && 0 <= newer <= most
    && (newer == most ==> s.endpoints[s.pc.at] in s.halted)
    && (newer > 0 ==> s.retryWork)
  }

  lemma StepKeepsInv(s: State, a: Action)
    requires Inv(s) && Enabled(s, a)
    ensures Inv(Step(s, a))
  {
    var s' := Step(s, a);
    forall q | q in s'.queues ensures q < Places(s') && Remembered(s', q) {
      StaysRemembered(s, a, q);
    }
    StaysFew(s, a);
  }

  lemma StaysRemembered(s: State, a: Action, q: Place)
    requires Inv(s) && Enabled(s, a) && q in Step(s, a).queues
    ensures q < Places(Step(s, a)) && Remembered(Step(s, a), q)
  {
    if q in s.queues {
      assert Remembered(s, q);
    }
  }

  lemma StaysFew(s: State, a: Action)
    requires Inv(s) && Enabled(s, a)
    ensures var s' := Step(s, a);
            && (!s'.pc.Idle? ==> s'.pc.at < Places(s'))
            && (s'.pc.Resetting? && s'.pc.at in s'.queues ==>
                  FewDiverts(s', s'.queues[s'.pc.at].diverts - s'.pc.decided))
  {
  }

  predicate Schedule(s: State, run: seq<Action>)
    decreases |run|
  {
    run == [] || (Enabled(s, run[0]) && Schedule(Step(s, run[0]), run[1..]))
  }

  function After(s: State, run: seq<Action>): State
    requires Schedule(s, run)
    decreases |run|
  {
    if run == [] then s else After(Step(s, run[0]), run[1..])
  }

  function Init(endpoints: seq<EndpointId>): State {
    State(map[], {}, false, false, Idle, endpoints)
  }

  lemma {:induction false} RunKeepsInv(s: State, run: seq<Action>)
    requires Inv(s) && Schedule(s, run)
    ensures Inv(After(s, run))
    decreases |run|
  {
    if run != [] {
      StepKeepsInv(s, run[0]);
      RunKeepsInv(Step(s, run[0]), run[1..]);
    }
  }

  ghost predicate Reachable(s: State) {
    exists endpoints, run :: Schedule(Init(endpoints), run) && After(Init(endpoints), run) == s
  }

  lemma ReachableHasInv(s: State)
    requires Reachable(s)
    ensures Inv(s)
  {
    var endpoints, run :| Schedule(Init(endpoints), run) && After(Init(endpoints), run) == s;
    RunKeepsInv(Init(endpoints), run);
  }

  /** A request is never lost: while the controller has not failed, a queue that is there and has one
      pending has RetryWork set or is still to be visited in this pass. */
  lemma RequestNeverLost(s: State, q: Place)
    requires Reachable(s) && Pending(s, q) && !s.failed
    ensures s.retryWork || ToVisit(s, q)
  {
    ReachableHasInv(s);
    assert Remembered(s, q);
  }

  /** A decision never clears a newer divert's request: after its Reset Endpoint, carried out or not, it
      clears the request exactly when nothing was diverted since; otherwise the request stays pending and
      the next pass is on record. The 32-bit generation cannot come round meanwhile. */
  lemma ClearedExactlyWhen(s: State, faults: bool)
    requires Reachable(s) && s.pc.Resetting? && Pending(s, s.pc.at)
    ensures var newer := s.queues[s.pc.at].diverts - s.pc.decided;
            var s' := Step(s, AfterReset(faults));
            && 0 <= newer <= 2
            && (newer == 0 <==> !Pending(s', s.pc.at))
            && (newer > 0 ==> s'.queues[s.pc.at] == s.queues[s.pc.at] && s'.retryWork)
            && s'.failed == (s.failed || faults) && s'.queues - {s.pc.at} == s.queues - {s.pc.at}
  {
    ReachableHasInv(s);
    var now, decided := s.queues[s.pc.at].diverts, s.pc.decided;
    assert now % 0x1_0000_0000 == decided % 0x1_0000_0000 <==> (now - decided) % 0x1_0000_0000 == 0;
  }

  /** A divert makes its own queue pending, with a pass on record, and its endpoint halted; no other queue is
      touched. */
  lemma DivertAsks(s: State, q: Place)
    requires Enabled(s, Divert(q))
    ensures var r := Step(s, Divert(q));
            && Pending(r, q) && r.retryWork && s.endpoints[q] in r.halted
            && r.queues[q].diverts == s.queues[q].diverts + 1 && r.queues - {q} == s.queues - {q}
            && r.pc == s.pc && r.failed == s.failed
  {
  }

  /** The steps that answer for a pending request: its queue gone, settled by another recovery, replayed, or
      its retry done with nothing diverted since it was decided. */
  predicate Answers(s: State, a: Action, q: Place) {
    match a
    case Close(x) => x == q
    case Settle(x) => x == q
    case Decide(replay) => replay && s.pc.Found? && s.pc.at == q
    case AfterReset(_) => s.pc.Resetting? && s.pc.at == q && q in s.queues && s.pc.decided == s.queues[q].diverts
    case _ => false
  }

  /** Some step of the run answers for it. */
  predicate AnsweredIn(s: State, run: seq<Action>, q: Place)
    requires Schedule(s, run)
    decreases |run|
  {
    run != [] && (Answers(s, run[0], q) || AnsweredIn(Step(s, run[0]), run[1..], q))
  }

  lemma PendingUntilAnswered(s: State, a: Action, q: Place)
    requires Inv(s) && Enabled(s, a) && Pending(s, q) && !Pending(Step(s, a), q)
    ensures Answers(s, a, q)
  {
    if a.AfterReset? && s.pc.at == q {
      var now, decided := s.queues[q].diverts, s.pc.decided;
      assert now % 0x1_0000_0000 == decided % 0x1_0000_0000 <==> (now - decided) % 0x1_0000_0000 == 0;
    }
  }

  /** What was diverted is retried or answered for: in every run a request that is no longer pending was
      answered by one of those steps. */
  lemma {:induction false} DivertIsAnswered(s: State, run: seq<Action>, q: Place)
    requires Reachable(s) && Schedule(s, run) && Pending(s, q) && !Pending(After(s, run), q)
    ensures AnsweredIn(s, run, q)
  {
    ReachableHasInv(s);
    AnsweredByRun(s, run, q);
  }

  lemma {:induction false} AnsweredByRun(s: State, run: seq<Action>, q: Place)
    requires Inv(s) && Schedule(s, run) && Pending(s, q) && !Pending(After(s, run), q)
    ensures AnsweredIn(s, run, q)
    decreases |run|
  {
    if Pending(Step(s, run[0]), q) {
      StepKeepsInv(s, run[0]);
      AnsweredByRun(Step(s, run[0]), run[1..], q);
    } else {
      PendingUntilAnswered(s, run[0], q);
    }
  }
}
