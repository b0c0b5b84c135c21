/**
 The toggle and pause protocol of one bulk or interrupt endpoint (hcd_cfg.c): RESET_PIPE,
 SYNC_RESET_PIPE, SYNC_CLEAR_STALL, ABORT_PIPE, a cancel, and the opening and closing of streams.

 The host's and the device's sequence (data toggle or sequence number) are positions counted from
 the last restart, 0. A fresh context and a Reset Endpoint without Transfer State Preserve restart
 the host's; CLEAR_FEATURE(ENDPOINT_HALT), carried out, restarts the device's; traffic moves both. Every
 command may fail, and then may or may not have been carried out. What becomes of a clear is a
 parameter, so that a run can be given with the device's part in it.
 */
module PipeReset {

  datatype EpState = Running | Stopped | Halted | InError

  /** HCD_CTL_*: taken; STALLed, so not taken; ended with another error, or after a timeout (`stuck`), so
      taken or not; or never sent. */
  datatype Outcome = Done | Stalled | Failed | NotSent(stuck: bool)

  datatype Answer = Success | Refused | Busy | Fault

  /** What a reset answers after a clear that was not done: busy if it never went out, and a fault if it timed
      out. */
  function ClearVerdict(o: Outcome): Answer {
    if o.NotSent? then (if o.stuck then Fault else Busy) else Refused
  }

  /** What an answer says of the commands that failed, `was` before and `now` after, and of the clear: none
      failed if it is a success, some did if it is a fault, and anything else has a failed command or a clear
      that was not done behind it. */
  predicate Explained(a: Answer, o: Outcome, was: nat, now: nat) {
    match a
    case Success => now == was
    case Fault => now > was
    case _ => now > was || (now == was && !o.Done?)
  }

  /** Whether the device carried a clear out: `taken` decides where the outcome does not say. */
  predicate Carried(o: Outcome, taken: bool) {
    o.Done? || ((o.Failed? || (o.NotSent? && o.stuck)) && taken)
  }

  /** What bears on the two ends' agreement. `Split`: a clear carried out that the host's half will not follow,
      the host's sequence past its restart. `Restart`: both ends at their restart. */
  datatype Mark = Split | Restart

  /** Some Split came after the last Restart. */
  predicate Apart(log: seq<Mark>) {
    log != [] && log[|log| - 1] == Split
  }

  function MarkIf(split: bool, restart: bool): seq<Mark> {
    if split then [Split] else if restart then [Restart] else []
  }

  /** One step of a run, with what the device does about the clear it may send. `rings`: a doorbell may be rung
      for what a cancel leaves, the device being there, its link active and no truncation pending. */
  datatype Step =
    | Submit
    | Move(packets: nat, left: nat, halts: bool, errs: bool)
    | AbortPipe
    | CancelSome(cancels: nat, rings: bool)
    | SyncResetPipe(held: bool)
    | ResetPipe(held: bool, o: Outcome, taken: bool)
    | SyncClearStall(o: Outcome, taken: bool)
    | OpenStreams(o: Outcome, taken: bool)
    | CloseStreams(o: Outcome, taken: bool)

  /** What becomes of the clear a step may send; a SYNC_RESET_PIPE sends none and may only be refused as busy. */
  function ClearOf(step: Step): Outcome {
    match step
    case SyncResetPipe(_) => Stalled
    case ResetPipe(_, o, _) => o
    case SyncClearStall(o, _) => o
    case OpenStreams(o, _) => o
    case CloseStreams(o, _) => o
    case _ => Done
  }

  /** A step as it went: its answer, whether the sequence was used before and after it, where the host's
      sequence stands, whether the pipe is free to run, whether the ends agree, the marks up to then, what
      is on the ring and where the endpoint stands. */
  datatype Moment =
    Moment(step: Step, answer: Answer, wasUsed: bool, used: bool, host: nat, free: bool, agree: bool, log: seq<Mark>,
           queue: nat, ep: EpState)

  /** A cancel that succeeds and may ring leaves no survivor waiting. */
  predicate Restarts(m: Moment) {
    m.step.CancelSome? && m.step.rings && m.answer == Success && m.queue > 0 ==> m.ep == Running
  }

  /** Some cancel that succeeded could not ring for what it left. */
  predicate CouldNotRing(run: seq<Moment>) {
    exists k :: 0 <= k < |run| && LeftUnrung(run[k])
  }

  predicate LeftUnrung(m: Moment) {
    m.step.CancelSome? && !m.step.rings && m.answer == Success
  }

  /** What a step did to the agreement, by its outcome alone. A RESET_PIPE, or a streams open or close, splits
      the ends exactly when the device carried out the clear it answered with an error and the host's
      sequence is past its restart; SYNC_CLEAR_STALL when its clear was carried out there. One that succeeds
      restarts both, and so does a refused streams open that had cleared the device. */
  function MarksOf(m: Moment): seq<Mark> {
    match m.step
    case ResetPipe(_, o, taken) =>
      MarkIf(m.answer == Refused && o.Failed? && taken && m.host != 0, m.answer == Success)
    case SyncClearStall(o, taken) =>
      MarkIf(Carried(o, taken) && m.host != 0, m.answer == Success)
    case OpenStreams(o, taken) => StreamsMarks(m, o, taken)
    case CloseStreams(o, taken) => StreamsMarks(m, o, taken)
    case _ => []
  }

  function StreamsMarks(m: Moment, o: Outcome, taken: bool): seq<Mark> {
    MarkIf(m.answer == Refused && m.used && o.Failed? && taken && m.host != 0,
           m.answer == Success || (m.answer == Refused && m.wasUsed && !m.used))
  }

  /** The marks up to the end of a run that began with `base`. */
  function LogAfter(base: seq<Mark>, run: seq<Moment>): seq<Mark> {
    if run == [] then base else run[|run| - 1].log
  }

  /** Every step leaves exactly the marks its outcome says; at every step after which the pipe can run, the
      ends agree exactly when no Split came after the last Restart; and a cancel restarts its survivors. */
  ghost predicate Told(base: seq<Mark>, run: seq<Moment>) {
    forall k :: 0 <= k < |run| ==> ToldAt(base, run, k)
  }

  ghost predicate ToldAt(base: seq<Mark>, run: seq<Moment>, k: nat)
    requires k < |run|
  {
    && run[k].log == LogAfter(base, run[..k]) + MarksOf(run[k])
    && (run[k].free ==> (run[k].agree <==> !Apart(run[k].log)))
    && Restarts(run[k])
  }

  lemma ToldNext(base: seq<Mark>, run: seq<Moment>, m: Moment)
    requires Told(base, run) && m.log == LogAfter(base, run) + MarksOf(m)
    requires (m.free ==> (m.agree <==> !Apart(m.log))) && Restarts(m)
    ensures Told(base, run + [m]) && LogAfter(base, run + [m]) == m.log
  {
    var run' := run + [m];
    forall k | 0 <= k < |run'| ensures ToldAt(base, run', k) {
      if k < |run| {
        assert ToldAt(base, run, k) && run'[..k] == run[..k];
      } else {
        assert run'[..k] == run;
      }
    }
  }

  class Endpoint {
    var paused: nat
    var clearOwed: bool
    var seqUsed: bool
    var ep: EpState
    var queue: nat                // TDs on the ring
    ghost var host: nat
    ghost var device: nat
    ghost var leaked: nat         // pauses an operation that faulted left behind
    ghost var log: seq<Mark>
    ghost var failures: nat       // commands that failed, a clear that timed out among them
    ghost var unrung: bool        // what a cancel left waits for a doorbell that could not be rung

    /** The two ends agree, and a sequence not used since the last restart is fresh at both. */
    ghost predicate Agree()
      reads this
    {
      host == device && (!seqUsed ==> host == device == 0)
    }

    /** They do whenever nothing holds the endpoint back. */
    ghost predicate Aligned()
      reads this
    {
      paused == 0 ==> Agree()
    }

    ghost predicate Valid()
      reads this
    {
      && paused == (if clearOwed then 1 else 0) + leaked
      && (clearOwed ==> host == 0 && queue == 0 && (leaked == 0 ==> ep == Stopped))
      && (!Apart(log) && host != device ==> queue == 0 && paused > 0)
      && (Apart(log) && paused == 0 ==> host > device)
      && (queue > 0 ==> seqUsed)
      && (!seqUsed ==> device == 0)
      && (paused == 0 && queue > 0 && ep == Stopped ==> unrung)
    }

    /** The same while one operation holds its own pause, but for where the endpoint stands, which a
        failed command leaves unknown. */
    ghost predicate InsideFault()
      reads this
    {
      && paused == 1 + (if clearOwed then 1 else 0) + leaked
      && (clearOwed ==> host == 0 && queue == 0)
      && (!Apart(log) && host != device ==> queue == 0)
      && (queue > 0 ==> seqUsed)
      && (!seqUsed ==> device == 0)
    }

    ghost predicate Inside()
      reads this
    {
      InsideFault() && (clearOwed && leaked == 0 ==> ep == Stopped)
    }

    /** The ends stand as the log says, unless an earlier operation's owed half or fault accounts for it. */
    ghost predicate Matched()
      reads this
    {
      clearOwed || leaked > 0 || if Apart(log) then host > device else host == device
    }

    /** A pipe that can run has its ends in agreement exactly when no Split came after the last Restart. */
    lemma AgreeExactlyWhen()
      requires Valid() && paused == 0
      ensures Agree() <==> !Apart(log)
    {
    }

    constructor ()
      ensures Valid() && paused == 0 && !clearOwed && leaked == 0 && host == device == 0
      ensures !seqUsed && ep == Running && queue == 0 && log == []
    {
      paused, clearOwed, seqUsed, ep, queue := 0, false, false, Running, 0;
      host, device, leaked, log, failures, unrung := 0, 0, 0, [], 0, false;
    }

    // ----- what happens on its own -------------------------------------------------------------

    /** HcdIoMapped: a request reaches the ring only while nothing pauses the pipe. */
    method Publish()
      requires Valid()
      modifies this
      ensures Valid() && unchanged(`paused, `clearOwed, `leaked, `host, `device, `log, `failures)
      ensures queue == old(queue) + (if paused == 0 then 1 else 0) && (paused == 0 ==> seqUsed)
      ensures ep == (if paused == 0 && old(ep) == Stopped then Running else old(ep))
      ensures unrung == (old(unrung) && paused > 0)
    {
      if paused == 0 {
        queue, seqUsed, unrung := queue + 1, true, false;
        if ep == Stopped { ep := Running; }
      }
    }

    /** `packets` move both ends, and all but `left` of the TDs complete; one may halt the endpoint or leave it
        in Error. */
    method Traffic(ghost packets: nat, left: nat, halts: bool, errs: bool)
      requires Valid()
      modifies this`ep, this`queue, this`host, this`device
      ensures Valid()
      ensures if old(ep) == Running && left < old(queue)
              then queue == left && host == old(host) + packets && device == old(device) + packets
                   && ep == if halts then Halted else if errs then InError else Running
              else unchanged(this)
    {
      if ep == Running && left < queue {
        host, device, queue := host + packets, device + packets, left;
        ep := if halts then Halted else if errs then InError else Running;
      }
    }

    // ----- the pause and the owed half -----------------------------------------------------------

    method Pause()
      requires Valid()
      modifies this`paused
      ensures Inside() && paused == old(paused) + 1 && Matched()
    {
      paused := paused + 1;
    }

    /** Only with both ends in agreement and nothing left waiting for a doorbell, or something else still
        holding the pipe. */
    method Resume()
      requires Inside() && Matched() && (paused == 1 && queue > 0 && ep == Stopped ==> unrung)
      modifies this`paused
      ensures Valid() && paused == old(paused) - 1
    {
      if paused != 0 { paused := paused - 1; }
    }

    /** hcdCfgOwedEnd, inside the caller's pause. */
    method OwedEnd()
      requires InsideFault()
      modifies this`paused, this`clearOwed
      ensures Inside() && !clearOwed && leaked == old(leaked)
    {
      if clearOwed {
        clearOwed := false;
        if paused != 0 { paused := paused - 1; }
      }
    }

    /** A command failed: the operation's own pause stays for the reset it asked for. */
    method Faulted()
      requires InsideFault()
      modifies this`leaked
      ensures Valid() && leaked == old(leaked) + 1
    {
      leaked := leaked + 1;
    }

    // ----- commands ------------------------------------------------------------------------------

    /** hcdCfgQuiesce: brought to Stopped with the host's sequence kept (TSP 1, no clear to the
        device), or left anyhow by a command that failed. */
    method Quiesce() returns (ok: bool)
      requires Inside()
      modifies this`ep, this`queue, this`host, this`device, this`failures
      ensures failures == old(failures) + (if ok then 0 else 1)
      ensures ok ==> Inside() && ep == Stopped && (old(Matched()) ==> Matched())
      ensures !ok ==> paused == old(paused) && InsideFault()
      ensures queue <= old(queue) && (old(queue) == 0 ==> host == old(host) && device == old(device))
    {
      if ep == Running && queue > 0 {
        ghost var packets: nat :| true;
        var left: nat :| left <= queue;
        host, device, queue := host + packets, device + packets, left;
      }
      ok := *;
      if !ok { failures := failures + 1; }
      if ok { ep := Stopped; } else if ep != Stopped { ep := *; }
    }

    /** hcdCfgResetEndpoint, on a Halted endpoint; without Transfer State Preserve the host's sequence
        restarts. */
    method ResetEndpoint(preserve: bool) returns (ok: bool)
      requires Inside() && ep == Halted && (preserve || queue == 0)
      modifies this`ep, this`host, this`failures
      ensures failures == old(failures) + (if ok then 0 else 1)
      ensures ok ==> Inside() && ep == Stopped && host == (if preserve then old(host) else 0)
      ensures !ok ==> InsideFault() && (preserve ==> host == old(host))
    {
      ok := *;
      ghost var done: bool := *;
      if (ok || done) && !preserve { host := 0; }
      ep := Stopped;
      if !ok { ep, failures := *, failures + 1; }
    }

    /** hcdCfgSetDequeue. */
    method SetDequeue() returns (ok: bool)
      requires Inside()
      modifies this`ep, this`failures
      ensures failures == old(failures) + (if ok then 0 else 1)
      ensures ok ==> Inside() && ep == (if old(ep) == InError then Stopped else old(ep))
      ensures !ok ==> InsideFault()
    {
      ok := *;
      if !ok { ep, failures := *, failures + 1; } else if ep == InError { ep := Stopped; }
    }

    /** hcdCfgRecycleCode on an emptied ring: a fresh context restarts the host's sequence and ends what
        an earlier RESET_PIPE owed; a refusal leaves the old context as it was. */
    method Recycle() returns (a: Answer)
      requires Inside() && queue == 0
      modifies this`ep, this`host, this`paused, this`clearOwed, this`failures
      ensures failures == old(failures) + (if a == Success then 0 else 1)
      ensures a == Success || a == Refused || a == Fault
      ensures a == Success ==> Inside() && host == 0 && !clearOwed
      ensures a == Refused ==> Inside() && unchanged(`ep, `host, `paused, `clearOwed)
      ensures a == Fault ==> InsideFault()
    {
      var outcome: int := *;
      if outcome == 0 {
        host := 0;
        OwedEnd();
        ep := Running;
        return Success;
      }
      failures := failures + 1;
      if outcome == 1 {
        return Refused;
      }
      ghost var done: bool := *;
      if done { host := 0; }
      ep := *;
      return Fault;
    }

    /** hcdCfgDeviceClearHalt. */
    method DeviceClear(o: Outcome, ghost taken: bool)
      requires Inside() && queue == 0
      modifies this`device, this`failures
      ensures failures == old(failures) + (if o.NotSent? && o.stuck then 1 else 0)
      ensures Inside() && device == if Carried(o, taken) then 0 else old(device)
    {
      if Carried(o, taken) { device := 0; }
      if o.NotSent? && o.stuck { failures := failures + 1; }
    }

    /** A clear answered with an error, which the code reads as not taken and resumes after: carried out, it
        splits the ends if the host's sequence is past its restart. */
    ghost method Unanswered(carried: bool)
      requires Inside() && (carried ==> device == 0)
      requires Matched() || (carried && (Apart(log) ==> host != 0))
      modifies this`log
      ensures Inside() && Matched() && log == old(log) + MarkIf(carried && host != 0, false)
    {
      if carried && host != 0 { log := log + [Split]; }
    }

    ghost method Restarted()
      requires Inside() && host == device == 0
      modifies this`log
      ensures Inside() && Matched() && log == old(log) + [Restart]
    {
      log := log + [Restart];
    }

    // ----- the operations --------------------------------------------------------------------------

    /** hcdCfgAbortPaused: the ring emptied, the endpoint Stopped. */
    method AbortPaused() returns (ok: bool)
      requires Inside()
      modifies this`ep, this`queue, this`host, this`device, this`failures
      ensures failures == old(failures) + (if ok then 0 else 1)
      ensures ok ==> Inside() && ep == Stopped && queue == 0 && (old(Matched()) ==> Matched())
      ensures !ok ==> InsideFault()
      ensures old(queue) == 0 ==> host == old(host) && device == old(device)
    {
      ok := Quiesce();
      if ok {
        queue := 0;
        ok := SetDequeue();
      }
    }

    /** ABORT_PIPE (hcdCfgAbort). */
    method Abort() returns (a: Answer)
      requires Valid()
      modifies this
      ensures Explained(a, Done, old(failures), failures)
      ensures unrung == old(unrung)
      ensures Valid() && clearOwed == old(clearOwed) && leaked == old(leaked) + (if a == Fault then 1 else 0)
      ensures log == old(log)
      ensures a == Success ==> queue == 0 && ep == Stopped
    {
      Pause();
      var ok := AbortPaused();
      if !ok {
        Faulted();
        return Fault;
      }
      Resume();
      return Success;
    }

    /** hcdCfgCancelPipe, seen from the sequence: of the TDs left when the endpoint `stopped`, the cancelled
        leave, and a doorbell restarts the survivors if there are any and it may be rung. */
    method Cancel(cancels: nat, rings: bool) returns (a: Answer, ghost stopped: nat)
      requires Valid()
      modifies this
      ensures Explained(a, Done, old(failures), failures)
      ensures Valid() && clearOwed == old(clearOwed) && leaked == old(leaked) + (if a == Fault then 1 else 0)
      ensures log == old(log) && stopped <= old(queue) && (a == Success || a == Fault)
      ensures a == Success ==> queue == if cancels <= stopped then stopped - cancels else 0
      ensures a == Success ==> ep == if queue > 0 && rings then Running else Stopped
      ensures a != Success ==> unrung == old(unrung)
      ensures a == Success ==> unrung == (queue > 0 && !rings) && seqUsed == (old(seqUsed) || (queue > 0 && rings))
    {
      Pause();
      var ok;
      ok, stopped := TakeCancelled(cancels);
      if !ok {
        Faulted();
        return Fault, stopped;
      }
      if queue != 0 && rings {
        seqUsed := true;
        ep := Running;
      }
      unrung := queue > 0 && !rings;
      Resume();
      return Success, stopped;
    }

    /** The endpoint Stopped, the cancelled taken off its ring, and the dequeue moved where it must. */
    method TakeCancelled(cancels: nat) returns (ok: bool, ghost stopped: nat)
      requires Inside()
      modifies this`ep, this`queue, this`host, this`device, this`failures
      ensures failures == old(failures) + (if ok then 0 else 1) && stopped <= old(queue)
      ensures ok ==> Inside() && ep == Stopped && queue == (if cancels <= stopped then stopped - cancels else 0)
      ensures ok && old(Matched()) ==> Matched()
      ensures !ok ==> InsideFault()
    {
      ok := Quiesce();
      stopped := queue;
      if ok {
        queue := if cancels <= queue then queue - cancels else 0;
        var move: bool := *;
        if move {
          ok := SetDequeue();
        }
      }
    }

    /** SYNC_RESET_PIPE (hcdCfgResetHost): the halt cleared, the host's sequence kept. */
    method ResetHost(held: bool) returns (a: Answer)
      requires Valid()
      modifies this
      ensures Explained(a, Stalled, old(failures), failures) && (a == Busy <==> old(queue) > 0 || held)
      ensures unrung == old(unrung)
      ensures Valid() && leaked == old(leaked) + (if a == Fault then 1 else 0) && log == old(log)
      ensures old(leaked) == 0 ==> clearOwed == old(clearOwed)
      ensures host == old(host) && device == old(device)
      ensures a == Success ==> queue == 0 && (ep == Running || ep == Stopped)
      ensures a == Busy ==> unchanged(this)
    {
      Pause();
      if queue > 0 || held {
        Resume();
        return Busy;
      }
      if clearOwed {
        if ep == Stopped {
          Resume();
          return Success;
        }
        OwedEnd();
      }
      var ok := HaltCleared();
      if !ok {
        Faulted();
        return Fault;
      }
      Resume();
      return Success;
    }

    /** Halted, Reset Endpoint with the sequence kept and Set TR Dequeue; in Error, Set TR Dequeue alone. */
    method HaltCleared() returns (ok: bool)
      requires Inside()
      modifies this`ep, this`host, this`failures
      ensures failures == old(failures) + (if ok then 0 else 1)
      ensures host == old(host) && if ok then Inside() && (ep == Running || ep == Stopped) else InsideFault()
    {
      var state := ep;
      ok := true;
      if state == Halted {
        ok := ResetEndpoint(true);
      }
      if ok && (state == Halted || state == InError) {
        ok := SetDequeue();
      }
    }

    /** hcdCfgResetClear: a clear not taken before the host's half began resumes the pipe as it was; one
        not taken after it leaves the pipe paused with the device's half owed; a timeout leaves it
        paused for the recovery. */
    method ResetClear(first: bool, o: Outcome, ghost taken: bool) returns (goOn: bool, a: Answer)
      requires Inside() && queue == 0 && (first ==> Matched() && !clearOwed) && (!first ==> host == 0 && ep == Stopped)
      modifies this
      ensures if goOn then failures == old(failures) else Explained(a, o, old(failures), failures)
      ensures unrung == old(unrung)
      ensures goOn == o.Done?
      ensures goOn ==> Inside() && device == 0 && unchanged(`paused, `host, `ep, `seqUsed, `clearOwed, `leaked, `log)
      ensures queue == 0 && host == old(host)
      ensures !goOn ==> a != Success && Valid() && leaked == old(leaked) + (if a == Fault then 1 else 0)
      ensures !goOn ==> log == old(log) + MarkIf(ErrorSplits(a, o, taken), false)
      ensures !goOn && a != Fault ==> clearOwed == !first
      ensures first && o.Failed? ==>
                a == Refused && paused == old(paused) - 1 && device == if taken then 0 else old(device)
      ensures !goOn ==> a == ClearVerdict(o)
    {
      DeviceClear(o, taken);
      if o.Done? {
        return true, Success;
      }
      goOn := false;
      if o.NotSent? && o.stuck {
        Faulted();
        return false, Fault;
      }
      a := if o.NotSent? then Busy else Refused;
      if first {
        Unanswered(Carried(o, taken));
        Resume();
      } else if clearOwed {
        if paused != 0 { paused := paused - 1; }
      } else {
        clearOwed := true;
      }
    }

    /** The request failed with the clear answered by an error but carried out, the host past its restart. */
    ghost predicate ErrorSplits(a: Answer, o: Outcome, taken: bool)
      reads this`host
    {
      a == Refused && o.Failed? && taken && host != 0
    }

    /** SYNC_CLEAR_STALL with nothing owed (hcdCfgClearStall): the device's half alone. Carried out on a pipe
        free to run, it leaves the ends in agreement exactly when the host's sequence is at its restart. */
    method ClearStall(o: Outcome, ghost taken: bool) returns (a: Answer)
      requires Valid() && !clearOwed
      modifies this`device, this`log
      ensures Explained(a, o, old(failures), failures)
      ensures Valid() && a == if o.Done? then Success else Refused
      ensures device == if Carried(o, taken) then 0 else old(device)
      ensures log == old(log) + MarkIf(Carried(o, taken) && host != 0, a == Success)
      ensures Carried(o, taken) && paused == 0 ==> (Agree() <==> host == 0)
    {
      if Carried(o, taken) {
        device := 0;
        if host != 0 { log := log + [Split]; }
      }
      if o.Done? {
        if host == 0 { log := log + [Restart]; }
        return Success;
      }
      return Refused;
    }

    /** The steps of XhciPipeResetSteps, on a paused endpoint with an empty ring: Halted, Reset Endpoint
        and then the device's clear; owed, the device's clear alone; otherwise the device's clear first
        and a fresh context. */
    method RestartBoth(o: Outcome, ghost taken: bool) returns (a: Answer)
      requires Inside() && queue == 0 && Matched() && (clearOwed ==> ep == Stopped)
      modifies this
      ensures Explained(a, o, old(failures), failures)
      ensures unrung == old(unrung)
      ensures a == Success ==> Inside() && host == device == 0 && queue == 0 && unchanged(`leaked, `log)
      ensures a != Success ==> Valid() && leaked == old(leaked) + (if a == Fault then 1 else 0)
      ensures a != Success ==> log == old(log) + MarkIf(ErrorSplits(a, o, taken), false)
      ensures old(clearOwed) ==> host == old(host)
      ensures !old(clearOwed) && old(ep) != Halted && o.Failed? ==>
                && a == Refused && paused == old(paused) - 1
                && host == old(host) && device == if taken then 0 else old(device)
      ensures a == Busy || a == Refused ==> a == ClearVerdict(o)
    {
      if clearOwed || ep == Halted {
        a := HostThenDevice(o, taken);
      } else {
        a := DeviceThenHost(o, taken);
      }
    }

    method HostThenDevice(o: Outcome, ghost taken: bool) returns (a: Answer)
      requires Inside() && queue == 0 && (if clearOwed then ep == Stopped else ep == Halted)
      modifies this
      ensures Explained(a, o, old(failures), failures)
      ensures unrung == old(unrung)
      ensures a == Success ==> Inside() && host == device == 0 && queue == 0 && unchanged(`leaked, `log)
      ensures a != Success ==> Valid() && leaked == old(leaked) + (if a == Fault then 1 else 0)
      ensures a != Success ==> log == old(log) + MarkIf(ErrorSplits(a, o, taken), false)
      ensures old(clearOwed) ==> host == old(host)
      ensures a == Busy || a == Refused ==> a == ClearVerdict(o)
    {
      var ok := true;
      if !clearOwed {
        ok := ResetEndpoint(false);
      }
      if ok {
        var goOn;
        goOn, a := ResetClear(false, o, taken);
        if !goOn {
          return;
        }
        ok := SetDequeue();
      }
      if !ok {
        Faulted();
        return Fault;
      }
      return Success;
    }

    method DeviceThenHost(o: Outcome, ghost taken: bool) returns (a: Answer)
      requires Inside() && queue == 0 && Matched() && !clearOwed
      modifies this
      ensures Explained(a, o, old(failures), failures)
      ensures unrung == old(unrung)
      ensures a == Success ==> Inside() && host == device == 0 && queue == 0 && unchanged(`leaked, `log)
      ensures a != Success ==> Valid() && leaked == old(leaked) + (if a == Fault then 1 else 0)
      ensures a != Success ==> log == old(log) + MarkIf(ErrorSplits(a, o, taken), false)
      ensures o.Failed? ==>
                && a == Refused && paused == old(paused) - 1
                && host == old(host) && device == if taken then 0 else old(device)
      ensures a == Busy || a == Refused ==> a == ClearVerdict(o)
    {
      var goOn;
      goOn, a := ResetClear(true, o, taken);
      if !goOn {
        return;
      }
      var ok := Quiesce();
      if ok {
        a := Recycle();
        ok := a == Success;
      }
      if !ok {
        Faulted();
        return Fault;
      }
      return Success;
    }

    /** RESET_PIPE, and SYNC_CLEAR_STALL of an endpoint that owes its device's half (hcdCfgReset). An
        operation that does not fault leaves the pause count as the owed half alone; one that succeeds
        leaves both ends restarted; one answered with an error by a device that carried its clear out splits
        them if the host's sequence is past its restart. `hostToo` is RESET_PIPE; `held`, a request on the
        pipe but not on its ring. */
    method Reset(hostToo: bool, held: bool, o: Outcome, ghost taken: bool) returns (a: Answer)
      requires Valid() && (hostToo || clearOwed)
      modifies this
      ensures Explained(a, o, old(failures), failures)
      ensures unrung == old(unrung)
      ensures Valid() && leaked == old(leaked) + (if a == Fault then 1 else 0)
      ensures log == old(log) + MarkIf(ErrorSplits(a, o, taken), a == Success)
      ensures a == Success ==> host == device == 0 && !clearOwed && queue == 0
      ensures a == Success && (hostToo || old(leaked) == 0) ==> !seqUsed
      ensures !hostToo ==> host == 0
      ensures old(queue) == 0 && !held && !old(clearOwed) && old(ep) != Halted && o.Failed? ==>
                && a == Refused && paused == old(paused)
                && host == old(host) && device == if taken then 0 else old(device)
      ensures hostToo && (a == Busy || a == Refused) ==> a == ClearVerdict(o)
    {
      Pause();
      if hostToo && (queue > 0 || held) {
        var ok := AbortPaused();
        if !ok {
          Faulted();
          return Fault;
        }
      }
      a := ResetEmptied(hostToo, o, taken);
    }

    /** The rest of it, the ring empty: an owed record on an endpoint that is not Stopped is moot and ended. */
    method ResetEmptied(hostToo: bool, o: Outcome, ghost taken: bool) returns (a: Answer)
      requires Inside() && queue == 0 && Matched() && (hostToo || clearOwed)
      modifies this
      ensures Explained(a, o, old(failures), failures)
      ensures unrung == old(unrung)
      ensures Valid() && leaked == old(leaked) + (if a == Fault then 1 else 0)
      ensures log == old(log) + MarkIf(ErrorSplits(a, o, taken), a == Success)
      ensures a == Success ==> host == device == 0 && !clearOwed && queue == 0
      ensures a == Success && (hostToo || old(leaked) == 0) ==> !seqUsed
      ensures !hostToo ==> host == 0
      ensures !old(clearOwed) && old(ep) != Halted && o.Failed? ==>
                && a == Refused && paused == old(paused) - 1
                && host == old(host) && device == if taken then 0 else old(device)
      ensures hostToo && (a == Busy || a == Refused) ==> a == ClearVerdict(o)
    {
      if clearOwed && ep != Stopped {
        OwedEnd();
        if !hostToo {
          Resume();
          a := ClearStall(o, taken);
          return;
        }
      }
      a := RestartBoth(o, taken);
      if a == Success {
        seqUsed := false;
        OwedEnd();
        Restarted();
        Resume();
      }
    }

    // ----- streams ----------------------------------------------------------------------------------

    /** The device's half a streams open or close owes (hcdCfgStreamsSequence), sent only if the sequence
        was used; not taken, the request fails with the endpoint resumed as it was. */
    method StreamsSequence(o: Outcome, ghost taken: bool) returns (goOn: bool, a: Answer)
      requires Inside() && queue == 0 && Matched()
      modifies this
      ensures if goOn then failures == old(failures) else Explained(a, o, old(failures), failures)
      ensures unrung == old(unrung)
      ensures goOn ==> Inside() && queue == 0 && device == 0 && !seqUsed && unchanged(`host, `leaked, `log)
      ensures goOn && !old(seqUsed) ==> Matched()
      ensures !goOn ==> a != Success && seqUsed && Valid() && leaked == old(leaked) + (if a == Fault then 1 else 0)
      ensures !goOn ==> log == old(log) + MarkIf(ErrorSplits(a, o, taken), false)
    {
      if !seqUsed {
        return true, Success;
      }
      DeviceClear(o, taken);
      if o.Done? {
        seqUsed := false;
        return true, Success;
      }
      if o.NotSent? && o.stuck {
        Faulted();
        return false, Fault;
      }
      Unanswered(Carried(o, taken));
      Resume();
      return false, Refused;
    }

    /** hcdCfgStreamsOpen: refused by the controller after the device's sequence was restarted, the host's
        is restarted by a second fresh context before anything resumes. */
    method StreamsOpen(o: Outcome, ghost taken: bool) returns (a: Answer)
      requires Valid()
      modifies this
      ensures Explained(a, o, old(failures), failures)
      ensures unrung == old(unrung)
      ensures Valid() && leaked == old(leaked) + (if a == Fault then 1 else 0)
      ensures log == old(log) + MarkIf(seqUsed && ErrorSplits(a, o, taken),
                                       a == Success || (a == Refused && old(seqUsed) && !seqUsed))
      ensures a == Success ==> host == device == 0 && !seqUsed
    {
      Pause();
      var ok := AbortPaused();
      if !ok {
        Faulted();
        return Fault;
      }
      var cleared := seqUsed;
      ok, a := StreamsSequence(o, taken);
      if ok {
        a := FreshContext(cleared);
      }
    }

    method FreshContext(cleared: bool) returns (a: Answer)
      requires Inside() && queue == 0 && device == 0 && !seqUsed && (!cleared ==> Matched())
      modifies this
      ensures Explained(a, Done, old(failures), failures)
      ensures unrung == old(unrung)
      ensures Valid() && leaked == old(leaked) + (if a == Fault then 1 else 0) && !seqUsed
      ensures log == old(log) + MarkIf(false, a == Success || (a == Refused && cleared))
      ensures a == Success ==> host == device == 0
    {
      a := Recycle();
      var failed: bool := *;
      if a == Refused && !failed {
        if cleared {
          var again := Recycle();
          if again != Success {
            Faulted();
            return Fault;
          }
          Restarted();
        }
        Resume();
      } else if a == Success {
        Restarted();
        Resume();
      } else {
        Faulted();
        return Fault;
      }
    }

    /** hcdCfgStreamsClose: any failure of the Configure Endpoint leaves the endpoint paused. */
    method StreamsClose(o: Outcome, ghost taken: bool) returns (a: Answer)
      requires Valid()
      modifies this
      ensures Explained(a, o, old(failures), failures)
      ensures unrung == old(unrung)
      ensures Valid() && leaked == old(leaked) + (if a == Fault then 1 else 0)
      ensures log == old(log) + MarkIf(ErrorSplits(a, o, taken), a == Success)
      ensures a == Success ==> host == device == 0 && !seqUsed
      ensures a == Refused ==> seqUsed
    {
      Pause();
      var ok := AbortPaused();
      if !ok {
        Faulted();
        return Fault;
      }
      ok, a := StreamsSequence(o, taken);
      if ok {
        a := Recycle();
        if a != Success {
          Faulted();
          return Fault;
        }
        Restarted();
        Resume();
      }
    }

    // ----- every run ---------------------------------------------------------------------------------

    /** Any interleaving of requests, publications and traffic, each with any outcome. At every step after
        which the pipe can run the two ends agree if and only if no step since both were last restarted
        split them: no error-answered clear that was carried out, and no SYNC_CLEAR_STALL, with the host's
        sequence past its restart. The pause count is the owed half's plus one for each operation that
        faulted, and each of those had a command that failed. What is on the ring of a pipe that can run waits
        on a Stopped endpoint only if a cancel could not ring for it. */
    method Run(steps: seq<Step>) returns (faults: nat, ghost run: seq<Moment>)
      requires Valid()
      modifies this
      ensures Valid() && leaked == old(leaked) + faults && log == LogAfter(old(log), run)
      ensures |run| == |steps| && forall k :: 0 <= k < |steps| ==> run[k].step == steps[k]
      ensures Told(old(log), run)
      ensures run != [] ==> run[|run| - 1].free == (paused == 0) && run[|run| - 1].agree == Agree()
      ensures old(leaked) + faults == 0 ==> paused == if clearOwed then 1 else 0
      ensures old(failures) + faults <= failures
      ensures !old(unrung) && paused == 0 && queue > 0 && ep == Stopped ==> CouldNotRing(run)
    {
      faults, run := 0, [];
      for n := 0 to |steps|
        invariant Valid() && leaked == old(leaked) + faults && log == LogAfter(old(log), run)
        invariant |run| == n && forall k :: 0 <= k < n ==> run[k].step == steps[k]
        invariant Told(old(log), run) && old(failures) + faults <= failures
        invariant unrung ==> old(unrung) || CouldNotRing(run)
        invariant run != [] ==> run[n - 1].free == (paused == 0) && run[n - 1].agree == Agree()
      {
        var a;
        ghost var m;
        a, m := ToldStep(steps[n], old(log), run);
        if a == Fault { faults := faults + 1; }
        assert LeftUnrung(m) ==> LeftUnrung((run + [m])[n]);
        assert forall k :: 0 <= k < n ==> (run + [m])[k] == run[k];
        run := run + [m];
      }
    }

    /** One step more of a run. */
    method ToldStep(step: Step, ghost base: seq<Mark>, ghost run: seq<Moment>) returns (a: Answer, ghost m: Moment)
      requires Valid() && log == LogAfter(base, run) && Told(base, run)
      modifies this
      ensures Valid() && leaked == old(leaked) + (if a == Fault then 1 else 0)
      ensures m == Moment(step, a, old(seqUsed), seqUsed, host, paused == 0, Agree(), log, queue, ep)
      ensures Told(base, run + [m])
      ensures unrung ==> old(unrung) || LeftUnrung(m)
      ensures Explained(a, ClearOf(step), old(failures), failures)
    {
      a, m := OneStep(step);
      if paused == 0 { AgreeExactlyWhen(); }
      ToldNext(base, run, m);
    }

    method OneStep(step: Step) returns (a: Answer, ghost m: Moment)
      requires Valid()
      modifies this
      ensures Valid() && leaked == old(leaked) + (if a == Fault then 1 else 0)
      ensures m == Moment(step, a, old(seqUsed), seqUsed, host, paused == 0, Agree(), log, queue, ep)
      ensures log == old(log) + MarksOf(m) && Restarts(m)
      ensures unrung ==> old(unrung) || LeftUnrung(m)
      ensures Explained(a, ClearOf(step), old(failures), failures)
    {
      match step {
        case Submit => Publish(); a := Success;
        case Move(packets, left, halts, errs) => Traffic(packets, left, halts, errs); a := Success;
        case AbortPipe => a := StopStep(step);
        case CancelSome(_, _) => a := StopStep(step);
        case SyncResetPipe(_) => a := StopStep(step);
        case _ => a := SequenceStep(step);
      }
      m := Moment(step, a, old(seqUsed), seqUsed, host, paused == 0, Agree(), log, queue, ep);
    }

    /** The requests that leave both sequences alone. */
    method StopStep(step: Step) returns (a: Answer)
      requires Valid() && (step.AbortPipe? || step.CancelSome? || step.SyncResetPipe?)
      modifies this
      ensures Valid() && leaked == old(leaked) + (if a == Fault then 1 else 0) && log == old(log)
      ensures step.CancelSome? && step.rings && a == Success && queue > 0 ==> ep == Running
      ensures unrung ==> old(unrung) || (step.CancelSome? && !step.rings && a == Success)
      ensures Explained(a, ClearOf(step), old(failures), failures)
    {
      match step {
        case AbortPipe => a := Abort();
        case CancelSome(cancels, rings) => ghost var stopped; a, stopped := Cancel(cancels, rings);
        case SyncResetPipe(held) => a := ResetHost(held);
      }
    }

    /** The requests that bear on the sequences: RESET_PIPE, SYNC_CLEAR_STALL, which finishes an owed reset if
        there is one, and the opening and closing of streams. */
    method SequenceStep(step: Step) returns (a: Answer)
      requires Valid()
      requires step.ResetPipe? || step.SyncClearStall? || step.OpenStreams? || step.CloseStreams?
      modifies this
      ensures unrung == old(unrung)
      ensures Valid() && leaked == old(leaked) + (if a == Fault then 1 else 0)
      ensures log == old(log)
                     + MarksOf(Moment(step, a, old(seqUsed), seqUsed, host, paused == 0, Agree(), log, queue, ep))
      ensures Explained(a, ClearOf(step), old(failures), failures)
    {
      match step {
        case ResetPipe(held, o, taken) => a := Reset(true, held, o, taken);
        case SyncClearStall(o, taken) =>
          if clearOwed { a := Reset(false, false, o, taken); } else { a := ClearStall(o, taken); }
        case OpenStreams(o, taken) => a := StreamsOpen(o, taken);
        case CloseStreams(o, taken) => a := StreamsClose(o, taken);
      }
    }
  }

  /** One request published, moved by one packet and completed; its pipe free and idle. */
  method OnePacket() returns (p: Endpoint)
    ensures fresh(p) && p.Valid() && p.paused == 0 && !p.clearOwed && p.leaked == 0 && p.log == []
    ensures p.queue == 0 && p.ep == Running && p.host == p.device == 1
  {
    p := new Endpoint();
    p.Publish();
    p.Traffic(1, 0, false, false);
  }

  /** The exception is real: after one packet, SYNC_CLEAR_STALL on a pipe that owes nothing leaves the
      ends apart with the pipe free to run. */
  method ClearStallSplitsTheEnds() returns (p: Endpoint, a: Answer)
    ensures a == Success && p.paused == 0 && !p.Aligned()
  {
    p := OnePacket();
    a := p.ClearStall(Done, true);
  }

  /** So is the other: a RESET_PIPE whose clear the device carried out and answered with an error. */
  method ErrorAnswerSplitsTheEnds() returns (p: Endpoint, a: Answer)
    ensures a == Refused && p.paused == 0 && !p.Aligned()
  {
    p := OnePacket();
    a := p.Reset(true, false, Failed, true);
  }
}
