/**
 The guard on a saved controller image (hcd_dev.c's XhciSlotSaveBusy, XhciSlotSaveCommit and
 XhciSlotSaveSpoiled, with the publications of hcd_io.c and the suspend and resume of xhci_init.c).

 The check walks every pipe under the controller lock; a publication, the commit, the resume's test and
 the setting of INITIALIZED each take that lock too, so each is one step of a run.
 */
module SaveGuard {
  import opened Common

  datatype Pipe = Pipe(
    queued: nat,              // TDs on its queue
    waiting: nat,             // IRPs waiting for a record
    held: nat,                // records held mapped
    xfers: seq<bool>,         // each record: in use
    streams: seq<Option<Pipe>>)

  datatype Device = Device(ep0: Pipe, pipes: map<nat, Pipe>)

  // ----- the check -----------------------------------------------------------------------------------

  /** A pipe with work anywhere between submission and completion, streams apart. */
  predicate PipeBusy(p: Pipe) {
    p.queued != 0 || p.waiting != 0 || p.held != 0 || exists i :: 0 <= i < |p.xfers| && p.xfers[i]
  }

  predicate EndpointBusy(p: Pipe) {
    PipeBusy(p) || exists i :: 0 <= i < |p.streams| && p.streams[i].Some? && PipeBusy(p.streams[i].value)
  }

  predicate DeviceBusy(d: Device) {
    EndpointBusy(d.ep0) || exists dci :: 2 <= dci < 32 && dci in d.pipes && EndpointBusy(d.pipes[dci])
  }

  /** Every pipe of every slot - EP0, each endpoint, each open stream - is idle. */
  predicate AllIdle(slots: seq<Option<Device>>) {
    forall s :: 0 <= s < |slots| && slots[s].Some? ==> !DeviceBusy(slots[s].value)
  }

  method PipeSaveBusy(p: Pipe) returns (busy: bool)
    ensures busy == PipeBusy(p)
  {
    if p.queued != 0 || p.waiting != 0 || p.held != 0 {
      return true;
    }
    for i := 0 to |p.xfers|
      invariant forall j :: 0 <= j < i ==> !p.xfers[j]
    {
      if p.xfers[i] {
        return true;
      }
    }
    return false;
  }

  method EndpointSaveBusy(p: Pipe) returns (busy: bool)
    ensures busy == EndpointBusy(p)
  {
    busy := PipeSaveBusy(p);
    var sid := 0;
    while sid < |p.streams| && !busy
      invariant sid <= |p.streams|
      invariant busy <==> PipeBusy(p) || exists j :: 0 <= j < sid && p.streams[j].Some? && PipeBusy(p.streams[j].value)
    {
      if p.streams[sid].Some? {
        busy := PipeSaveBusy(p.streams[sid].value);
      }
      sid := sid + 1;
    }
  }

  method DeviceSaveBusy(d: Device) returns (busy: bool)
    ensures busy == DeviceBusy(d)
  {
    busy := EndpointSaveBusy(d.ep0);
    var dci := 2;
    while dci < 32 && !busy
      invariant 2 <= dci <= 32
      invariant busy <==> EndpointBusy(d.ep0) || exists j :: 2 <= j < dci && j in d.pipes && EndpointBusy(d.pipes[j])
    {
      if dci in d.pipes {
        busy := EndpointSaveBusy(d.pipes[dci]);
      }
      dci := dci + 1;
    }
  }

  /** The whole walk: busy exactly when some pipe is. */
  method AnySaveBusy(slots: seq<Option<Device>>) returns (busy: bool)
    ensures busy == !AllIdle(slots)
  {
    busy := false;
    var s := 0;
    while s < |slots| && !busy
      invariant s <= |slots|
      invariant busy <==> exists j :: 0 <= j < s && slots[j].Some? && DeviceBusy(slots[j].value)
    {
      if slots[s].Some? {
        busy := DeviceSaveBusy(slots[s].value);
      }
      s := s + 1;
    }
  }

  // ----- the guard --------------------------------------------------------------------------------------

  /** Where the power path is. `Armed`: the check found everything idle, the image not yet committed.
      `Tested`: the resume has found nothing published, and has yet to set INITIALIZED. `Lost`: there is
      no image, or none that may be kept, and the resume reinitializes. */
  datatype Phase = Up | Quiesced | Halted | Armed | Saved | Restored | Running | Tested | Lost

  /** One step of a run: what devices and submissions do, a TD published, or the power path's next step
      and whether the controller did what that step asks of it. */
  datatype Step =
    | Environment(now: seq<Option<Device>>)
    | Published(now: seq<Option<Device>>)
    | Power(done: bool)

  /** How far into a suspend and resume a phase is. */
  function Ahead(phase: Phase): nat {
    match phase
    case Up => 0
    case Quiesced => 1
    case Halted => 2
    case Armed => 3
    case Saved => 4
    case Restored => 5
    case Running => 6
    case Tested => 7
    case Lost => 8
  }

  function Powers(steps: seq<Step>): nat {
    if steps == [] then 0 else Powers(steps[..|steps| - 1]) + One(steps[|steps| - 1].Power?)
  }

  /** Nothing published, what the power path asks done, and no device left with work. */
  predicate QuietStep(step: Step) {
    !step.Published? && (step.Power? ==> step.done) && (step.Environment? ==> AllIdle(step.now))
  }

  predicate Quiet(steps: seq<Step>) {
    forall n :: 0 <= n < |steps| ==> QuietStep(steps[n])
  }

  /** The devices the last step that changed them left. */
  function SlotsAfter(slots: seq<Option<Device>>, steps: seq<Step>): seq<Option<Device>> {
    if steps == [] then slots else
    var last := steps[|steps| - 1];
    if last.Power? then SlotsAfter(slots, steps[..|steps| - 1]) else last.now
  }

  lemma OneStepMore(slots: seq<Option<Device>>, steps: seq<Step>, n: nat)
    requires n < |steps|
    ensures Powers(steps[..n + 1]) == Powers(steps[..n]) + One(steps[n].Power?)
    ensures SlotsAfter(slots, steps[..n + 1]) == if steps[n].Power? then SlotsAfter(slots, steps[..n]) else steps[n].now
  {
    assert steps[..n + 1][..n] == steps[..n];
  }

  /** The controller's fields, and - for the statements only - what the check saw, how many transfers were
      published since it, and how many doorbells were dropped by a controller that was not running. */
  class Controller {
    var slots: seq<Option<Device>>
    var initialized: bool
    var savePublished: bool
    var savedStateValid: bool
    var running: bool
    var phase: Phase
    ghost var idleAtCheck: bool
    ghost var publishedSince: nat
    ghost var dropped: nat

    /** A valid image was taken with every pipe idle at the check and nothing published since; whatever was
        published since the check is on record for the commit and the resume; and a controller that is up
        has no transfer on a ring whose doorbell it dropped. */
    ghost predicate Valid()
      reads this
    {
      && (initialized <==> phase == Up)
      && (phase == Up || phase == Tested ==> running && dropped == 0)
      && (phase == Running ==> running)
      && (phase == Halted || phase == Armed || phase == Saved || phase == Restored ==> !running)
      && (Guarded() ==>
            idleAtCheck && dropped <= publishedSince && (publishedSince > 0 <==> savePublished))
      && (savedStateValid <==> phase == Saved && publishedSince == 0)
    }

    /** From the check to the resume's test. */
    ghost predicate Guarded()
      reads this
    {
      phase == Armed || phase == Saved || phase == Restored || phase == Running
    }

    constructor ()
      ensures Valid() && !savedStateValid && phase == Up
    {
      slots, initialized, savePublished, savedStateValid, running, phase := [], true, false, false, true, Up;
      idleAtCheck, publishedSince, dropped := false, 0, 0;
    }

    /** Devices, submissions and completions come and go as they like; only a publication is guarded. */
    method Change(now: seq<Option<Device>>)
      requires Valid()
      modifies this`slots
      ensures Valid() && slots == now
    {
      slots := now;
    }

    /** HcdIoMapped: a TD put on a ring and its doorbell rung, which a halted controller drops. */
    method Publish(now: seq<Option<Device>>)
      requires Valid()
      modifies this`slots, this`savePublished, this`savedStateValid, this`publishedSince, this`dropped
      ensures Valid() && slots == now && publishedSince == old(publishedSince) + 1
      ensures dropped == old(dropped) + One(!running)
      ensures !initialized ==> savePublished && !savedStateValid
      ensures initialized ==> savePublished == old(savePublished)
    {
      slots := now;
      publishedSince, dropped := publishedSince + 1, dropped + One(!running);
      if !initialized {
        savePublished, savedStateValid := true, false;
      }
    }

    /** A suspend's quiesce, up to the halt. */
    method Quiesce()
      requires Valid() && phase == Up
      modifies this`initialized, this`phase
      ensures Valid() && phase == Quiesced && !savedStateValid
    {
      initialized, phase := false, Quiesced;
    }

    /** The halt; nothing is saved on a controller that does not halt. */
    method Halt(done: bool)
      requires Valid() && phase == Quiesced
      modifies this`running, this`phase
      ensures Valid() && phase == if done then Halted else Lost
    {
      if done {
        running, phase := false, Halted;
      } else {
        phase := Lost;
      }
    }

    /** XhciSlotSaveBusy: idle, the guard is armed in the same hold of the lock. Every queue is then empty,
        so no TD whose doorbell was dropped earlier is left on a ring. */
    method SaveBusy() returns (busy: bool)
      requires Valid() && phase == Halted
      modifies this`savePublished, this`phase, this`idleAtCheck, this`publishedSince, this`dropped
      ensures Valid() && busy == !AllIdle(slots)
      ensures phase == if busy then Lost else Armed
      ensures !busy ==> !savePublished && publishedSince == 0
    {
      busy := AnySaveBusy(slots);
      if busy {
        phase := Lost;
      } else {
        savePublished, phase := false, Armed;
        idleAtCheck, publishedSince, dropped := AllIdle(slots), 0, 0;
      }
    }

    /** XhciSlotSaveCommit: the image is valid exactly when nothing was published since the check. */
    method SaveCommit() returns (ok: bool)
      requires Valid() && phase == Armed
      modifies this`savedStateValid, this`phase
      ensures Valid() && ok == savedStateValid && phase == if ok then Saved else Lost
      ensures ok <==> publishedSince == 0
    {
      ok := !savePublished;
      savedStateValid, phase := ok, if ok then Saved else Lost;
    }

    /** Save State itself, and the commit where it completed. */
    method Save(done: bool) returns (ok: bool)
      requires Valid() && phase == Armed
      modifies this`savedStateValid, this`phase
      ensures Valid() && ok == savedStateValid && phase == if ok then Saved else Lost
      ensures ok <==> done && publishedSince == 0
    {
      ok := false;
      if done {
        ok := SaveCommit();
      } else {
        phase := Lost;
      }
    }

    /** xhciRestoreState consumes the image; one spoiled while the machine slept is not restored. */
    method Restore(done: bool) returns (restored: bool)
      requires Valid() && phase == Saved
      modifies this`savedStateValid, this`phase
      ensures Valid() && !savedStateValid && phase == if restored then Restored else Lost
      ensures restored <==> done && old(savedStateValid)
      ensures restored ==> idleAtCheck && publishedSince == 0
    {
      restored := savedStateValid && done;
      savedStateValid, phase := false, if restored then Restored else Lost;
    }

    /** xhciRunController: doorbells count again from here. */
    method RunAgain(done: bool)
      requires Valid() && phase == Restored
      modifies this`running, this`phase
      ensures Valid() && phase == if done then Running else Lost
    {
      if done {
        running, phase := true, Running;
      } else {
        phase := Lost;
      }
    }

    /** XhciSlotSaveSpoiled, the controller running: the restore is kept exactly when nothing was published
        between the check and now; one published from now on finds a running controller. */
    method SaveSpoiled() returns (spoiled: bool)
      requires Valid() && phase == Running
      modifies this`phase
      ensures Valid() && phase == if spoiled then Lost else Tested
      ensures spoiled <==> publishedSince > 0
      ensures !spoiled ==> dropped == 0
    {
      spoiled := savePublished;
      phase := if spoiled then Lost else Tested;
    }

    /** INITIALIZED set, however much was published since the test, and the root hub rebuilt - or the restore
        given up after all. */
    method BringUp(done: bool)
      requires Valid() && phase == Tested
      modifies this`initialized, this`phase
      ensures Valid() && phase == if done then Up else Lost
    {
      initialized := true;
      if done {
        phase := Up;
      } else {
        initialized, phase := false, Lost;
      }
    }

    /** The reinitialization: every device dropped, its transfers completed, the controller started anew. */
    method Reinitialize()
      requires Valid() && phase == Lost
      modifies this`slots, this`initialized, this`running, this`phase, this`dropped
      ensures Valid() && phase == Up && |slots| == old(|slots|)
      ensures forall s :: 0 <= s < |slots| ==> slots[s].None?
    {
      slots := seq(|slots|, _ => None);
      initialized, running, phase, dropped := true, true, Up, 0;
    }

    /** One step of the power path: a fault, a busy pipe or a publication since the check, and it is lost;
        otherwise it is one further. Only a reinitialization touches the devices. */
    method PowerStep(done: bool)
      requires Valid()
      modifies this
      ensures Valid() && (old(phase) != Lost ==> slots == old(slots))
      ensures phase == Lost <==>
              match old(phase)
                case Up => false
                case Halted => !AllIdle(slots)
                case Armed => !done || old(publishedSince) > 0
                case Saved => !done || old(publishedSince) > 0
                case Running => old(publishedSince) > 0
                case Lost => false
                case _ => !done
      ensures phase != Lost && old(phase) != Lost ==> Ahead(phase) == (Ahead(old(phase)) + 1) % 8
      ensures old(phase) == Lost ==> phase == Up
      ensures !Guarded() || publishedSince == if old(phase) == Halted then 0 else old(publishedSince)
    {
      match phase {
        case Up => Quiesce();
        case Quiesced => Halt(done);
        case Halted => var _ := SaveBusy();
        case Armed => var _ := Save(done);
        case Saved => var _ := Restore(done);
        case Restored => RunAgain(done);
        case Running => var _ := SaveSpoiled();
        case Tested => BringUp(done);
        case Lost => Reinitialize();
      }
    }

    /** On its way with nothing published since the check and no device with work. */
    ghost predicate Undisturbed()
      reads this
    {
      phase != Lost && AllIdle(slots) && (Guarded() ==> publishedSince == 0)
    }

    /** A step of a run; a quiet one of the power path takes an undisturbed controller one further. */
    method Take(step: Step)
      requires Valid()
      modifies this
      ensures Valid()
      ensures old(Undisturbed()) && QuietStep(step) ==>
                && Undisturbed() && Ahead(phase) == (Ahead(old(phase)) + One(step.Power?)) % 8
                && slots == if step.Power? then old(slots) else step.now
    {
      match step {
        case Environment(now) => Change(now);
        case Published(now) => Publish(now);
        case Power(done) => PowerStep(done);
      }
    }

    /** Any interleaving of suspends, publications and resumes: an image valid at any moment was committed over
        pipes all idle at its check, with nothing published from that instant on; and whenever the controller
        is up no transfer is on a ring whose doorbell was dropped. */
    method Run(steps: seq<Step>)
      requires Valid()
      modifies this
      ensures Valid() && (savedStateValid ==> idleAtCheck && publishedSince == 0)
      ensures initialized ==> running && dropped == 0
      ensures old(phase) == Up && AllIdle(old(slots)) && Quiet(steps) ==>
                Ahead(phase) == Powers(steps) % 8 && slots == SlotsAfter(old(slots), steps)
    {
      assert steps[..|steps|] == steps;
      ghost var was := if phase == Up && AllIdle(slots) && Quiet(steps) then Some(slots) else None;
      for n := 0 to |steps|
        invariant Valid() && OnCourse(was, steps[..n])
      {
        TakeNext(was, steps, n);
      }
    }

    /** What a quiet run that began Up with these devices has come to. */
    ghost predicate OnCourse(was: Option<seq<Option<Device>>>, done: seq<Step>)
      reads this
    {
      was.Some? ==> Undisturbed() && Ahead(phase) == Powers(done) % 8 && slots == SlotsAfter(was.value, done)
    }

    method TakeNext(ghost was: Option<seq<Option<Device>>>, steps: seq<Step>, n: nat)
      requires Valid() && n < |steps| && OnCourse(was, steps[..n]) && (was.Some? ==> QuietStep(steps[n]))
      modifies this
      ensures Valid() && OnCourse(was, steps[..n + 1])
    {
      if was.Some? {
        OneStepMore(was.value, steps, n);
      }
      Take(steps[n]);
    }
  }
}
