/**
 The decision table of xhci_own.c: what a select, or a command that only drops, does with the old
 and the new endpoints at each step. What each decision means for the rings is RingOwner's.
 */
module OwnTable {

  /** What happened at a step (XHCI_OWN_EV_*). `Slip` is any value no phase waits for. */
  datatype Event =
    | NotIssued | Success | Refused | Unknown
    | SetifDone | SetifStalled | SetifFailed
    | ClearsDone | ClearsFailed
    | Slip

  datatype Phase = End | Configuring | Setif | Clears | Rollback | Reclears

  datatype Answer = Pending | Succeeded | CommandFailed | Stalled | NotEstablished

  /** A select's place. `single`: the interface has one alternate setting; `streams`: an old pipe
      had streams open; `mayRollback`: a SELECT_INTERFACE, not a function's select. */
  datatype Select = Select(phase: Phase, mayRollback: bool, single: bool, streams: bool)

  /** What becomes of the pipes a switch detached, or of those it built, at a step; a detached pipe is
      published by putting it back. */
  datatype Fate = Leave | Free | Retain | Pin | Publish

  datatype Issue = Nothing | SendSetInterface | ClearNew | SendRollback | ClearOld

  /** The action bits of a step: at most one fate a side, whether the stale marks and the old
      stream blocks go, and what is issued next. */
  datatype Actions = Actions(detached: Fate, built: Fate, staleCleared: bool, freeOldStreams: bool, issue: Issue)

  datatype Decision = Decision(next: Select, actions: Actions, answer: Answer)

  function Ended(s: Select, answer: Answer, detached: Fate, built: Fate): Decision {
    Decision(s.(phase := End), Actions(detached, built, false, false, Nothing), answer)
  }

  function Going(s: Select, phase: Phase, built: Fate, issue: Issue): Decision {
    Decision(s.(phase := phase), Actions(Leave, built, false, false, issue), Pending)
  }

  /** A STALL that is not carried out by clears: rolled back if it may be. */
  function StalledStep(s: Select): Decision {
    if s.mayRollback && !s.streams then Going(s, Rollback, Leave, SendRollback)
    else Ended(s, Stalled, Free, Retain)
  }

  /** An unknown outcome, or an event the phase did not wait for: everything pinned. */
  function Conservative(s: Select): Decision {
    Ended(s, if s.phase == Configuring || s.phase == End then CommandFailed else Stalled, Pin, Pin)
  }

  function SelectStep(s: Select, e: Event): Decision {
    match (s.phase, e)
    case (Configuring, NotIssued) => Ended(s, CommandFailed, Publish, Free)
    case (Configuring, Refused) => Ended(s, CommandFailed, Publish, Free)
    case (Configuring, Success) =>
      Decision(s.(phase := Setif), Actions(Leave, Leave, true, true, SendSetInterface), Pending)
    case (Setif, SetifDone) => Ended(s, Succeeded, Free, Publish)
    case (Setif, SetifStalled) =>
      if s.mayRollback && s.single then Going(s, Clears, Leave, ClearNew) else StalledStep(s)
    case (Setif, SetifFailed) => Ended(s, NotEstablished, Free, Retain)
    case (Clears, ClearsDone) => Ended(s, Succeeded, Free, Publish)
    case (Clears, ClearsFailed) => StalledStep(s)
    case (Rollback, NotIssued) => Ended(s, Stalled, Free, Retain)
    case (Rollback, Refused) => Ended(s, Stalled, Free, Retain)
    case (Rollback, Success) => Going(s, Reclears, Free, ClearOld)
    case (Reclears, ClearsDone) => Ended(s, Stalled, Publish, Leave)
    case (Reclears, ClearsFailed) => Ended(s, Stalled, Retain, Leave)
    case _ => Conservative(s)
  }

  function DropStep(e: Event): Actions {
    match e
    case Success => Actions(Free, Leave, true, true, Nothing)
    case NotIssued => Actions(Retain, Leave, false, false, Nothing)
    case Refused => Actions(Retain, Leave, false, false, Nothing)
    case _ => Actions(Pin, Leave, false, false, Nothing)
  }

  /** How many more steps a select can take at most. */
  function Rank(p: Phase): nat {
    match p
    case Configuring => 5
    case Setif => 4
    case Clears => 3
    case Rollback => 2
    case Reclears => 1
    case End => 0
  }

  /** A select always ends: every step, whatever happened, comes nearer to the end, and an answer is
      given exactly there. */
  lemma SelectEnds(s: Select, e: Event)
    requires s.phase != End
    ensures Rank(SelectStep(s, e).next.phase) < Rank(s.phase)
    ensures SelectStep(s, e).answer != Pending <==> SelectStep(s, e).next.phase == End
    ensures SelectStep(s, e).actions.issue == Nothing <==> SelectStep(s, e).next.phase == End
  {
    match s.phase {
      case Configuring =>
      case Setif =>
      case Clears =>
      case Rollback =>
      case Reclears =>
    }
  }

  /** The outcomes a phase waits for and can know: all but an unknown one. */
  predicate Known(p: Phase, e: Event) {
    match p
    case Configuring => e.NotIssued? || e.Success? || e.Refused?
    case Rollback => e.NotIssued? || e.Success? || e.Refused?
    case Setif => e.SetifDone? || e.SetifStalled? || e.SetifFailed?
    case Clears => e.ClearsDone? || e.ClearsFailed?
    case Reclears => e.ClearsDone? || e.ClearsFailed?
    case End => false
  }

  /** A select pins exactly when it cannot know what happened, and then pins both sides; it succeeds
      exactly when it publishes the new side; it never publishes both. A STALL is carried out by clears
      exactly when the interface has one setting and the select may roll back, and one that is not, or
      whose clears failed, is rolled back exactly when the select may and no old pipe had streams. */
  lemma SelectFates(s: Select, e: Event)
    requires s.phase != End
    ensures var d := SelectStep(s, e);
            && (!Known(s.phase, e) <==> d.actions.built.Pin?) && (d.actions.built.Pin? <==> d.actions.detached.Pin?)
            && (d.answer.Succeeded? <==> d.actions.built.Publish?)
            && (d.actions.detached.Publish? ==>
                  !d.actions.built.Publish? && (s.phase == Configuring || s.phase == Reclears))
            && (d.actions.issue.ClearNew? <==> s.phase == Setif && e.SetifStalled? && s.mayRollback && s.single)
            && (d.actions.issue.SendRollback? <==>
                  && s.mayRollback && !s.streams
                  && ((s.phase == Setif && e.SetifStalled? && !s.single) || (s.phase == Clears && e.ClearsFailed?)))
  {
  }

  // ----- a whole select, by what it was told ------------------------------------------------

  /** The outcomes there can be of what a phase has sent. A function's SET_INTERFACEs are one event, a
      STALL among them a failure as any other. */
  predicate Heard(s: Select, e: Event) {
    match s.phase
    case Configuring => e.NotIssued? || e.Success? || e.Refused? || e.Unknown?
    case Rollback => e.NotIssued? || e.Success? || e.Refused? || e.Unknown?
    case Setif => e.SetifDone? || e.SetifFailed? || (s.mayRollback && e.SetifStalled?)
    case Clears => e.ClearsDone? || e.ClearsFailed?
    case Reclears => e.ClearsDone? || e.ClearsFailed?
    case End => false
  }

  /** A STALL the select could not carry out: an interface with one setting has its clears tried first. */
  function StallStood(single: bool): seq<Event> {
    if single then [Success, SetifStalled, ClearsFailed] else [Success, SetifStalled]
  }

  /** The device took the new setting: it said so, or an interface with one setting refused the request
      and took the clears that stand for it. */
  predicate Worked(single: bool, told: seq<Event>) {
    told == [Success, SetifDone] || (single && told == [Success, SetifStalled, ClearsDone])
  }

  /** Controller and device are both at the old setting: nothing was installed, or it was rolled back
      and the device's toggles restarted. */
  predicate Restored(single: bool, told: seq<Event>) {
    told == [NotIssued] || told == [Refused] || told == StallStood(single) + [Success, ClearsDone]
  }

  /** Everything a select can have been told by its end. A STALL that stood is followed by a rollback
      unless an old pipe had streams. */
  predicate WholeStory(mayRollback: bool, single: bool, streams: bool, told: seq<Event>) {
    || Worked(mayRollback && single, told)
    || told == [NotIssued] || told == [Refused] || told == [Unknown] || told == [Success, SetifFailed]
    || (mayRollback && (if streams then told == StallStood(single) else RolledBack(single, told)))
  }

  predicate RolledBack(single: bool, told: seq<Event>) {
    var stall := StallStood(single);
    || told == stall + [NotIssued] || told == stall + [Refused] || told == stall + [Unknown]
    || told == stall + [Success, ClearsDone] || told == stall + [Success, ClearsFailed]
  }

  /** Which status a request that was told this is answered with. */
  function Answered(told: seq<Event>): Answer
    requires |told| > 0
  {
    var last := told[|told| - 1];
    if !told[0].Success? then CommandFailed
    else if last.SetifDone? || (last.ClearsDone? && Successes(told) == 1) then Succeeded
    else if SetifStalled in told then Stalled
    else NotEstablished
  }

  function Successes(told: seq<Event>): nat {
    if told == [] then 0 else (if told[0].Success? then 1 else 0) + Successes(told[1..])
  }

  /** What becomes of one side's pipes by what the select was told. A command that was not answered may
      have installed either, so both are pinned. Otherwise the contexts name the new side after one command
      that succeeded and the old after none or two: the other side goes back; the side named is published
      if the device is known to be on it, its toggles restarted, and held if not. */
  function FateOf(newSide: bool, told: seq<Event>): Fate {
    if Unknown in told then Pin
    else if newSide != (Successes(told) == 1) then Free
    else if Successes(told) == 0 || (told != [] && (told[|told| - 1].SetifDone? || told[|told| - 1].ClearsDone?))
    then Publish
    else Retain
  }

  /** What a select waiting in a phase has been told. */
  predicate SoFar(s: Select, told: seq<Event>) {
    match s.phase
    case Configuring => told == []
    case Setif => told == [Success]
    case Clears => s.mayRollback && s.single && told == [Success, SetifStalled]
    case Rollback => s.mayRollback && !s.streams && told == StallStood(s.single)
    case Reclears => s.mayRollback && !s.streams && told == StallStood(s.single) + [Success]
    case End => false
  }

  /** What the actions of a select's last step make of each side; a rollback that succeeded has given the
      new side back before. */
  predicate LastFates(actions: Actions, told: seq<Event>) {
    && actions.detached == FateOf(false, told)
    && (if actions.built.Leave? then Free else actions.built) == FateOf(true, told)
  }

  /** The table against the stories: whatever the controller and the device answer, a select goes on or ends
      as its story does, and its answer and the fate of both sides are the story's. */
  lemma SelectTells(s: Select, e: Event, told: seq<Event>)
    requires SoFar(s, told) && Heard(s, e)
    ensures var d, heard := SelectStep(s, e), told + [e];
            && d.next == s.(phase := d.next.phase)
            && if d.next.phase != End then SoFar(d.next, heard)
               else && WholeStory(s.mayRollback, s.single, s.streams, heard)
                    && d.answer == Answered(heard) && LastFates(d.actions, heard)
                    && (d.actions.built.Leave? <==> s.phase == Reclears)
  {
    StoryFates(told + [e]);
  }

  /** The successes in a story of at most five events, counted. */
  lemma StoryFates(told: seq<Event>)
    requires |told| <= 5
    ensures Successes(told) == (if |told| > 0 && told[0].Success? then 1 else 0)
                             + (if |told| > 1 && told[1].Success? then 1 else 0)
                             + (if |told| > 2 && told[2].Success? then 1 else 0)
                             + (if |told| > 3 && told[3].Success? then 1 else 0)
                             + (if |told| > 4 && told[4].Success? then 1 else 0)
  {
    if |told| > 0 { StoryFates(told[1..]); }
  }

  /** A story is a success exactly when the new side is published, and puts the old side back exactly when
      that is published. */
  lemma {:induction false} StoryEnds(mayRollback: bool, single: bool, streams: bool, told: seq<Event>)
    requires WholeStory(mayRollback, single, streams, told)
    ensures Answered(told).Succeeded? <==> Worked(mayRollback && single, told)
    ensures FateOf(true, told).Publish? <==> Worked(mayRollback && single, told)
    ensures FateOf(false, told).Publish? <==> Restored(single, told)
    ensures Worked(mayRollback && single, told) ==> told[0].Success?
  {
    StoryFates(told);
  }
}
