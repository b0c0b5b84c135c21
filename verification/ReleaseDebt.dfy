/**
 The release a removed function's interfaces are owed (hcd_cfg.c): recorded, claimed by the thread with
 the next request of the device or the next pass, tried, recorded again, taken over by a select, given
 up, or dropped. Masks of interfaces are sets; which command or control transfer fails is the
 environment's choice. The ghost log is the history of every attempt's outcome.
 */
module ReleaseDebt {

  const INTERFACES: nat := 32
  const TRIES: nat := 3                        // HCD_CFG_RELEASE_TRIES

  /** A pass that failed interface `n`; its tries starting afresh; its debt given up; its endpoints dropped
      and the device at its alternate 0; its debt taken over by a select that succeeded; its debt dropped with
      the device or the controller. */
  datatype Entry =
    | FailedPass(n: nat) | Over(n: nat) | GivenUp(n: nat) | Released(n: nat) | TakenOver(n: nat) | Dropped(n: nat)

  /** The passes in a row that failed interface `n` since its debt was last settled or given up. */
  function Row(log: seq<Entry>, n: nat): nat {
    if log == [] then 0
    else
      var last := log[|log| - 1];
      if last == FailedPass(n) then Row(log[..|log| - 1], n) + 1
      else if last == Over(n) || last == GivenUp(n) then 0
      else Row(log[..|log| - 1], n)
  }

  function RowWith(row: nat, e: Entry, n: nat): nat {
    if e == FailedPass(n) then row + 1 else if e == Over(n) || e == GivenUp(n) then 0 else row
  }

  lemma RowAfter(log: seq<Entry>, e: Entry, n: nat)
    ensures Row(log + [e], n) == RowWith(Row(log, n), e, n)
  {
    assert (log + [e])[..|log|] == log;
  }

  /** Whatever was given up had just failed its third pass in a row. */
  ghost predicate Earned(log: seq<Entry>) {
    forall i :: 0 <= i < |log| && log[i].GivenUp? ==> Row(log[..i], log[i].n) == TRIES
  }

  lemma EarnedAfter(log: seq<Entry>, e: Entry)
    requires Earned(log) && (e.GivenUp? ==> Row(log, e.n) == TRIES)
    ensures Earned(log + [e])
  {
    var log' := log + [e];
    forall i | 0 <= i < |log'| && log'[i].GivenUp? ensures Row(log'[..i], log'[i].n) == TRIES {
      assert log'[..i] == log[..i];
      assert i == |log| ==> log[..i] == log;
    }
  }

  /** `e` happened at or after `from`. */
  ghost predicate Since(log: seq<Entry>, from: nat, e: Entry) {
    exists i :: from <= i < |log| && log[i] == e
  }

  /** Interface `n` left the record for a reason, at or after `from`: released, taken over, given up or dropped. */
  ghost predicate LeftSince(log: seq<Entry>, from: nat, n: nat) {
    Since(log, from, Released(n)) || Since(log, from, TakenOver(n)) || Since(log, from, GivenUp(n))
    || Since(log, from, Dropped(n))
  }

  lemma LeftGrows(log: seq<Entry>, log': seq<Entry>, from: nat, n: nat)
    requires LeftSince(log, from, n) && log <= log'
    ensures LeftSince(log', from, n)
  {
    var e := if Since(log, from, Released(n)) then Released(n) else if Since(log, from, TakenOver(n)) then TakenOver(n)
             else if Since(log, from, GivenUp(n)) then GivenUp(n) else Dropped(n);
    SinceGrows(log, log', from, from, e);
  }

  lemma GoneIsLeft(log: seq<Entry>, from: nat, from': nat, f: Fate, n: nat)
    requires Traced(log, from, f) && n in Gone(f) && from' <= from
    ensures LeftSince(log, from', n)
  {
    var e := if n in f.released then Released(n) else if n in f.takenOver then TakenOver(n)
             else if n in f.givenUp then GivenUp(n) else Dropped(n);
    SinceGrows(log, log, from, from', e);
  }

  /** Each of `debts` is on record, or has left it for a reason at or after `from`. */
  ghost predicate Followed(record: set<nat>, log: seq<Entry>, debts: set<nat>, from: nat) {
    forall n :: n in debts ==> n in record || LeftSince(log, from, n)
  }

  /** Each of `debts` has left the record for a reason at or after `from`, or is on it with at least this many
      failed passes behind it in a row. */
  ghost predicate TriedAt(record: set<nat>, log: seq<Entry>, debts: set<nat>, from: nat, tried: nat) {
    forall n :: n in debts ==> (n in record && Row(log, n) >= tried) || LeftSince(log, from, n)
  }

  lemma TriedOn(was: set<nat>, log: seq<Entry>, now: set<nat>, log': seq<Entry>, f: Fate, debts: set<nat>, from: nat,
                tried: nat, more: nat)
    requires TriedAt(was, log, debts, from, tried) && from <= |log| && log <= log'
    requires was <= now + Gone(f) && Traced(log', |log|, f)
    requires forall n :: n in was - Gone(f) ==> Row(log', n) >= Row(log, n) + more
    ensures TriedAt(now, log', debts, from, tried + more)
  {
    forall n | n in debts ensures (n in now && Row(log', n) >= tried + more) || LeftSince(log', from, n) {
      if LeftSince(log, from, n) {
        LeftGrows(log, log', from, n);
      } else if n in Gone(f) {
        GoneIsLeft(log', |log|, from, f, n);
      }
    }
  }

  /** Every turn's record followed from that turn's end. */
  ghost predicate AllFollowed(record: set<nat>, log: seq<Entry>, records: seq<set<nat>>, ends: seq<nat>)
    requires |records| == |ends|
  {
    forall k :: 0 <= k < |records| ==> Followed(record, log, records[k], ends[k])
  }

  lemma AllFollowedOn(was: set<nat>, log: seq<Entry>, now: set<nat>, log': seq<Entry>, f: Fate,
                      records: seq<set<nat>>, ends: seq<nat>)
    requires |records| == |ends| && forall k :: 0 <= k < |ends| ==> ends[k] <= |log|
    requires AllFollowed(was, log, records, ends) && log <= log'
    requires was <= now + Gone(f) && Traced(log', |log|, f)
    ensures AllFollowed(now, log', records + [now], ends + [|log'|])
  {
    forall k | 0 <= k < |records| ensures Followed(now, log', records[k], ends[k]) {
      FollowedOn(was, log, now, log', f, records[k], ends[k]);
    }
  }

  /** Every turn's record tried in each turn after it that could. */
  ghost predicate AllTried(record: set<nat>, log: seq<Entry>, records: seq<set<nat>>, ends: seq<nat>, steps: seq<Turn>)
    requires |records| == |ends| == |steps|
  {
    forall k :: 0 <= k < |records| ==> TriedAt(record, log, records[k], ends[k], ActiveTurns(steps[k + 1..]))
  }

  lemma AllTriedOn(was: set<nat>, log: seq<Entry>, now: set<nat>, log': seq<Entry>, f: Fate,
                   records: seq<set<nat>>, ends: seq<nat>, steps: seq<Turn>, t: Turn)
    requires |records| == |ends| == |steps| && forall k :: 0 <= k < |ends| ==> ends[k] <= |log|
    requires AllTried(was, log, records, ends, steps) && log <= log'
    requires was <= now + Gone(f) && Traced(log', |log|, f)
    requires forall n :: n in was - Gone(f) ==> Row(log', n) >= Row(log, n) + if t.linkActive then 1 else 0
    ensures AllTried(now, log', records + [now], ends + [|log'|], steps + [t])
  {
    forall k | 0 <= k < |records|
      ensures TriedAt(now, log', records[k], ends[k], ActiveTurns((steps + [t])[k + 1..]))
    {
      OneMoreTurn(steps, t, k);
      TriedOn(was, log, now, log', f, records[k], ends[k], ActiveTurns(steps[k + 1..]), if t.linkActive then 1 else 0);
    }
    JustRecorded(now, log', |log'|, steps + [t]);
  }

  lemma OneMoreTurn(steps: seq<Turn>, t: Turn, k: nat)
    requires k < |steps|
    ensures ActiveTurns((steps + [t])[k + 1..]) == ActiveTurns(steps[k + 1..]) + if t.linkActive then 1 else 0
  {
    var later := (steps + [t])[k + 1..];
    assert later[..|later| - 1] == steps[k + 1..];
  }

  lemma JustRecorded(record: set<nat>, log: seq<Entry>, end: nat, steps: seq<Turn>)
    ensures TriedAt(record, log, record, end, ActiveTurns(steps[|steps|..]))
  {
  }

  /** A run so far: what was recorded before it and in each of its turns, and, while nothing has failed, how
      often each was tried. */
  ghost predicate Story(record: set<nat>, log: seq<Entry>, records: seq<set<nat>>, ends: seq<nat>, steps: seq<Turn>,
                        before: set<nat>, from: nat, sound: bool)
    requires |records| == |ends| == |steps|
  {
    && (forall k :: 0 <= k < |ends| ==> from <= ends[k] <= |log|)
    && (forall k :: 0 <= k < |steps| ==> steps[k].arrives <= records[k])
    && Followed(record, log, before, from) && AllFollowed(record, log, records, ends)
    && (sound ==> AllTried(record, log, records, ends, steps))
  }

  lemma StoryOn(was: set<nat>, log: seq<Entry>, now: set<nat>, log': seq<Entry>, f: Fate, records: seq<set<nat>>,
                ends: seq<nat>, steps: seq<Turn>, t: Turn, before: set<nat>, from: nat, sound: bool, sound': bool)
    requires |records| == |ends| == |steps| && from <= |log| && log <= log' && t.arrives <= now
    requires Story(was, log, records, ends, steps, before, from, sound) && (sound' ==> sound)
    requires was <= now + Gone(f) && Traced(log', |log|, f)
    requires sound' ==> forall n :: n in was - Gone(f) ==> Row(log', n) >= Row(log, n) + if t.linkActive then 1 else 0
    ensures Story(now, log', records + [now], ends + [|log'|], steps + [t], before, from, sound')
  {
    FollowedOn(was, log, now, log', f, before, from);
    AllFollowedOn(was, log, now, log', f, records, ends);
    if sound' {
      AllTriedOn(was, log, now, log', f, records, ends, steps, t);
    }
  }

  lemma TriedFewTimes(record: set<nat>, log: seq<Entry>, records: seq<set<nat>>, ends: seq<nat>, steps: seq<Turn>)
    requires |records| == |ends| == |steps| && AllTried(record, log, records, ends, steps)
    requires forall n :: n in record ==> Row(log, n) < TRIES
    ensures forall k, n :: 0 <= k < |steps| && n in records[k] ==>
              LeftSince(log, ends[k], n) || ActiveTurns(steps[k + 1..]) < TRIES
  {
    forall k, n | 0 <= k < |steps| && n in records[k]
      ensures LeftSince(log, ends[k], n) || ActiveTurns(steps[k + 1..]) < TRIES
    {
      assert TriedAt(record, log, records[k], ends[k], ActiveTurns(steps[k + 1..]));
    }
  }

  lemma FollowedOn(was: set<nat>, log: seq<Entry>, now: set<nat>, log': seq<Entry>, f: Fate, debts: set<nat>, from: nat)
    requires Followed(was, log, debts, from) && from <= |log| && log <= log'
    requires was <= now + Gone(f) && Traced(log', |log|, f)
    ensures Followed(now, log', debts, from)
  {
    forall n | n in debts ensures n in now || LeftSince(log', from, n) {
      if n !in was {
        LeftGrows(log, log', from, n);
      } else if n !in now {
        GoneIsLeft(log', |log|, from, f, n);
      }
    }
  }

  /** Each fate has its trace in the log, at or after `from`. */
  ghost predicate Traced(log: seq<Entry>, from: nat, f: Fate) {
    && (forall n :: n in f.released ==> Since(log, from, Released(n)))
    && (forall n :: n in f.takenOver ==> Since(log, from, TakenOver(n)))
    && (forall n :: n in f.givenUp ==> Since(log, from, GivenUp(n)))
    && (forall n :: n in f.dropped ==> Since(log, from, Dropped(n)))
  }

  lemma SinceGrows(log: seq<Entry>, log': seq<Entry>, from: nat, from': nat, e: Entry)
    requires Since(log, from, e) && log <= log' && from' <= from
    ensures Since(log', from', e)
  {
    var i :| from <= i < |log| && log[i] == e;
    assert log'[i] == e;
  }

  lemma TracedGrows(log: seq<Entry>, log': seq<Entry>, from: nat, from': nat, f: Fate)
    requires Traced(log, from, f) && log <= log' && from' <= from
    ensures Traced(log', from', f)
  {
    forall n | n in f.released ensures Since(log', from', Released(n)) {
      SinceGrows(log, log', from, from', Released(n));
    }
    forall n | n in f.takenOver ensures Since(log', from', TakenOver(n)) {
      SinceGrows(log, log', from, from', TakenOver(n));
    }
    forall n | n in f.givenUp ensures Since(log', from', GivenUp(n)) {
      SinceGrows(log, log', from, from', GivenUp(n));
    }
    forall n | n in f.dropped ensures Since(log', from', Dropped(n)) {
      SinceGrows(log, log', from, from', Dropped(n));
    }
  }

  predicate Mask(m: set<nat>) {
    forall n :: n in m ==> n < INTERFACES
  }

  /** What became of the interfaces that left a mask. */
  datatype Fate = Fate(released: set<nat>, takenOver: set<nat>, givenUp: set<nat>, dropped: set<nat>)

  ghost function Upto(mask: set<nat>, n: nat): set<nat> {
    set i | i in mask && i < n
  }

  lemma UptoNext(mask: set<nat>, n: nat)
    ensures Upto(mask, n + 1) == if n in mask then Upto(mask, n) + {n} else Upto(mask, n)
  {
  }

  const NoFate := Fate({}, {}, {}, {})

  ghost function Gone(f: Fate): set<nat> {
    f.released + f.takenOver + f.givenUp + f.dropped
  }

  /** One fate each. */
  ghost predicate Apart(f: Fate) {
    && f.released !! f.takenOver && f.released !! f.givenUp && f.released !! f.dropped
    && f.takenOver !! f.givenUp && f.takenOver !! f.dropped && f.givenUp !! f.dropped
  }

  ghost function Both(f: Fate, g: Fate): Fate {
    Fate(f.released + g.released, f.takenOver + g.takenOver, f.givenUp + g.givenUp, f.dropped + g.dropped)
  }

  /** The fates of two rounds, the second of what the first left owed. */
  lemma FatesJoin(release: set<nat>, owed: set<nat>, f: Fate, g: Fate)
    requires release == owed + Gone(f) && owed !! Gone(f) && Apart(f) && Apart(g) && Gone(g) <= owed
    ensures owed - Gone(g) == release - Gone(Both(f, g))
    ensures Gone(Both(f, g)) == Gone(f) + Gone(g) <= release && Apart(Both(f, g))
  {
  }

  /** The requests that touch the debt: a select of the interfaces in `mask` at the alternates `alt`, a
      function's unconfigure, and every other. */
  datatype Request = Select(mask: set<nat>, alt: seq<nat>) | Unconfigure(mask: set<nat>) | Other(mask: set<nat>)

  predicate WellFormed(r: Request) {
    Mask(r.mask) && (r.Select? ==> |r.alt| == INTERFACES)
  }

  class Device {
    var funcRelease: set<nat>
    var tries: array<nat>
    var alternate: array<nat>                  // the alternate each interface is at
    var installed: set<nat>                    // the interfaces with endpoints enabled
    var abandoned: nat                         // FuncReleasesAbandoned
    var gone: bool
    var configured: bool                       // split, selected and configured
    var failed: bool                           // the controller's recovery, or the device's cycle, is asked for
    ghost var log: seq<Entry>

    ghost predicate Valid()
      reads this, tries
    {
      && tries.Length == INTERFACES && alternate.Length == INTERFACES && tries != alternate
      && Mask(funcRelease)
      && (forall n :: 0 <= n < INTERFACES ==> tries[n] == Row(log, n) < TRIES)
      && Earned(log) && DropsAccounted()
    }

    /** Nothing was dropped but with a device gone or not configured, or with a recovery. */
    ghost predicate DropsAccounted()
      reads this
    {
      forall i :: 0 <= i < |log| && log[i].Dropped? ==> gone || !configured || failed
    }

    constructor ()
      ensures Valid() && funcRelease == {} && fresh(tries) && fresh(alternate)
    {
      funcRelease, abandoned, gone, configured, failed, log, installed := {}, 0, false, true, false, [], {};
      tries := new nat[INTERFACES](_ => 0);
      alternate := new nat[INTERFACES](_ => 0);
    }

    /** HcdCfgReleaseFunction, and hcdCfgReleaseAgain. */
    method Record(mask: set<nat>)
      requires Valid() && Mask(mask)
      modifies this`funcRelease
      ensures Valid() && funcRelease == old(funcRelease) + mask
    {
      funcRelease := funcRelease + mask;
    }

    /** One entry more in the history: a release only of an interface with no endpoints at its alternate 0, a
        debt taken over only with its endpoints there, dropped only with the device or the controller. */
    ghost method Note(e: Entry)
      requires Earned(log) && (e.GivenUp? ==> Row(log, e.n) == TRIES)
      requires DropsAccounted() && (e.Dropped? ==> gone || !configured || failed)
      requires e.Released? ==> e.n < alternate.Length && alternate[e.n] == 0 && e.n !in installed
      requires e.TakenOver? ==> e.n in installed
      modifies this`log
      ensures Earned(log) && DropsAccounted() && log == old(log) + [e]
      ensures forall i :: 0 <= i < INTERFACES ==> Row(log, i) == RowWith(Row(old(log), i), e, i)
    {
      EarnedAfter(log, e);
      forall i | 0 <= i < INTERFACES ensures Row(log + [e], i) == RowWith(Row(log, i), e, i) {
        RowAfter(log, e, i);
      }
      log := log + [e];
    }

    ghost method NoteDropped(mask: set<nat>)
      requires Valid() && Mask(mask) && (gone || !configured || failed)
      modifies this`log
      ensures Valid() && old(log) <= log && Traced(log, |old(log)|, NoFate.(dropped := mask))
      ensures forall n :: 0 <= n < INTERFACES ==> Row(log, n) == Row(old(log), n)
    {
      for n := 0 to INTERFACES
        invariant Valid() && old(log) <= log && Traced(log, |old(log)|, NoFate.(dropped := Upto(mask, n)))
        invariant forall i :: 0 <= i < INTERFACES ==> Row(log, i) == Row(old(log), i)
      {
        ghost var was := log;
        if n in mask {
          Note(Dropped(n));
          assert log[|was|] == Dropped(n);
        }
        TracedGrows(was, log, |old(log)|, |old(log)|, NoFate.(dropped := Upto(mask, n)));
        UptoNext(mask, n);
      }
      assert Upto(mask, INTERFACES) == mask;
    }

    /** A debt dropped: its tries over, and gone from the record. */
    method Drop(mask: set<nat>)
      requires Valid() && Mask(mask) && (gone || !configured || failed)
      modifies this`log, tries
      ensures Valid() && old(log) <= log && Traced(log, |old(log)|, NoFate.(dropped := mask))
      ensures forall n :: n in mask ==> Row(log, n) == 0
    {
      Settled(mask);
      ghost var mid := log;
      NoteDropped(mask);
      TracedGrows(log, log, |mid|, |old(log)|, NoFate.(dropped := mask));
    }

    /** hcdCfgReleaseSettled. */
    method Settled(mask: set<nat>)
      requires Valid() && Mask(mask)
      modifies this`log, tries
      ensures Valid() && old(log) <= log
      ensures forall n :: 0 <= n < INTERFACES ==> tries[n] == if n in mask then 0 else old(tries[n])
      ensures forall n :: n in mask ==> Row(log, n) == 0
    {
      for n := 0 to INTERFACES
        invariant Valid() && old(log) <= log
        invariant forall i :: 0 <= i < INTERFACES ==> tries[i] == if i in mask && i < n then 0 else old(tries[i])
      {
        if n in mask {
          tries[n] := 0;
          Note(Over(n));
        }
      }
    }

    /** One more failed pass of interface `n`: given up at the third in a row. */
    method CountOne(n: nat) returns (last: bool)
      requires Valid() && n < INTERFACES
      modifies this`log, tries
      ensures Valid() && old(log) <= log && last == (Row(old(log), n) + 1 == TRIES)
      ensures last ==> Since(log, |old(log)|, GivenUp(n))
      ensures tries[n] == if last then 0 else old(tries[n]) + 1
      ensures forall i :: 0 <= i < INTERFACES && i != n ==> tries[i] == old(tries[i])
    {
      tries[n] := tries[n] + 1;
      last := tries[n] >= TRIES;
      if last {
        tries[n] := 0;
        NoteLast(n);
      } else {
        Note(FailedPass(n));
      }
    }

    /** The third failed pass in a row, and the debt given up on it. */
    ghost method NoteLast(n: nat)
      requires Earned(log) && DropsAccounted() && n < INTERFACES && Row(log, n) + 1 == TRIES
      modifies this`log
      ensures Earned(log) && DropsAccounted() && old(log) <= log && Since(log, |old(log)|, GivenUp(n))
      ensures forall i :: 0 <= i < INTERFACES ==> Row(log, i) == if i == n then 0 else Row(old(log), i)
    {
      Note(FailedPass(n));
      ghost var k := |log|;
      Note(GivenUp(n));
      assert log[k] == GivenUp(n);
    }

    /** The failed interfaces of one pass counted: those whose third failure in a row this is are spent. */
    method CountFailures(owed: set<nat>) returns (spent: set<nat>)
      requires Valid() && Mask(owed)
      modifies this`log, this`abandoned, tries
      ensures Valid() && old(log) <= log && spent <= owed
      ensures forall n :: n in owed ==> (n in spent <==> Row(old(log), n) + 1 == TRIES)
      ensures forall n :: n in spent ==> Since(log, |old(log)|, GivenUp(n))
      ensures forall n :: n in owed ==> tries[n] == if n in spent then 0 else old(tries[n]) + 1
      ensures forall n :: 0 <= n < INTERFACES && n !in owed ==> tries[n] == old(tries[n])
      ensures abandoned == old(abandoned) + (if spent == {} then 0 else 1)
    {
      spent := {};
      for n := 0 to INTERFACES
        invariant Valid() && old(log) <= log && abandoned == old(abandoned)
        invariant forall i :: n <= i < INTERFACES ==> Row(log, i) == Row(old(log), i)
        invariant forall i :: 0 <= i < INTERFACES && i !in Upto(owed, n) ==> tries[i] == old(tries[i])
        invariant forall i :: i in Upto(owed, n) ==> tries[i] == if i in spent then 0 else old(tries[i]) + 1
        invariant forall i :: i in spent <==> i in owed && i < n && Row(old(log), i) + 1 == TRIES
        invariant Traced(log, |old(log)|, NoFate.(givenUp := spent))
      {
        if n in owed {
          ghost var was := log;
          var last := CountOne(n);
          TracedGrows(was, log, |old(log)|, |old(log)|, NoFate.(givenUp := spent));
          if last {
            SinceGrows(log, log, |was|, |old(log)|, GivenUp(n));
            spent := spent + {n};
          }
        }
      }
      if spent != {} {
        abandoned := abandoned + 1;
      }
    }

    /** hcdCfgUnconfigureFunction: one Configure Endpoint drops the interfaces' endpoints; if it succeeded,
        each interface left at a nonzero alternate is sent back to 0, and is still owed if that fails. */
    method Unconfigure(mask: set<nat>) returns (done: bool, owed: set<nat>)
      requires Valid() && Mask(mask)
      modifies this`failed, this`installed, this`log, alternate
      ensures Valid() && old(log) <= log && (old(failed) ==> failed)
      ensures owed <= mask && (!done ==> owed == mask)
      ensures done ==> installed == old(installed) - mask
      ensures done ==> forall n :: n in mask ==> (n in owed <==> alternate[n] != 0)
      ensures Traced(log, |old(log)|, NoFate.(released := mask - owed))
      ensures forall n :: 0 <= n < INTERFACES ==> Row(log, n) == Row(old(log), n)
    {
      var fails: bool := *;
      done := *;
      failed := failed || fails;
      owed := mask;
      if !done {
        return;
      }
      installed := installed - mask;
      owed := SendAllBack(mask);
    }

    method SendAllBack(mask: set<nat>) returns (owed: set<nat>)
      requires Valid() && Mask(mask) && mask !! installed
      modifies this`log, alternate
      ensures Valid() && old(log) <= log && owed <= mask
      ensures forall n :: n in mask ==> (n in owed <==> alternate[n] != 0)
      ensures Traced(log, |old(log)|, NoFate.(released := mask - owed))
      ensures forall n :: 0 <= n < INTERFACES ==> Row(log, n) == Row(old(log), n)
    {
      owed := {};
      for n := 0 to INTERFACES
        invariant Valid() && old(log) <= log && owed <= Upto(mask, n)
        invariant forall i :: i in Upto(mask, n) ==> (i in owed <==> alternate[i] != 0)
        invariant Traced(log, |old(log)|, NoFate.(released := Upto(mask, n) - owed))
        invariant forall i :: 0 <= i < INTERFACES ==> Row(log, i) == Row(old(log), i)
      {
        UptoNext(mask, n);
        if n in mask {
          ghost var was, before := log, Upto(mask, n) - owed;
          var back := SendBack(n);
          TracedGrows(was, log, |old(log)|, |old(log)|, NoFate.(released := before));
          if back {
            SinceGrows(log, log, |was|, |old(log)|, Released(n));
          } else {
            owed := owed + {n};
          }
          assert Upto(mask, n + 1) - owed == if back then before + {n} else before;
        }
      }
      assert Upto(mask, INTERFACES) == mask;
    }

    /** Interface `n` back at its alternate 0: it is there, or its SET_INTERFACE is taken. */
    method SendBack(n: nat) returns (back: bool)
      requires Valid() && n < INTERFACES && n !in installed
      modifies this`log, alternate
      ensures Valid() && old(log) <= log && back == (alternate[n] == 0)
      ensures back ==> Since(log, |old(log)|, Released(n))
      ensures forall i :: 0 <= i < INTERFACES && i != n ==> alternate[i] == old(alternate[i])
      ensures forall i :: 0 <= i < INTERFACES ==> Row(log, i) == Row(old(log), i)
    {
      var taken: bool := *;
      back := alternate[n] == 0 || taken;
      if back {
        alternate[n] := 0;
        Note(Released(n));
        assert log[|log| - 1] == Released(n);
      }
    }

    /** hcdCfgReleaseOne: every interface of the mask has one fate or is still owed. It is released only if
        the command that drops its endpoints succeeded and the device is at its alternate 0; still owed or
        given up only if not, given up exactly at its third failed pass in a row; and dropped only with a
        device gone or not configured, or with the recovery a failure brought on. The tries of whatever
        leaves start afresh. */
    method ReleaseOne(mask: set<nat>) returns (still: set<nat>, ghost fate: Fate, ghost done: bool)
      requires Valid() && Mask(mask)
      modifies this`log, this`abandoned, this`failed, this`installed, tries, alternate
      ensures Valid() && old(log) <= log && (old(failed) ==> failed)
      ensures mask == still + Gone(fate) && still !! Gone(fate) && Apart(fate) && fate.takenOver == {}
      ensures forall n :: n in fate.released ==> done && n !in installed && alternate[n] == 0
      ensures Traced(log, |old(log)|, fate)
      ensures forall n :: n in still + fate.givenUp ==> !done || alternate[n] != 0
      ensures forall n :: n in still + fate.givenUp ==> (n in fate.givenUp <==> Row(old(log), n) + 1 == TRIES)
      ensures fate.dropped != {} ==> gone || !configured || failed
      ensures forall n :: n in still ==> Row(log, n) == Row(old(log), n) + 1
      ensures abandoned == old(abandoned) + (if fate.givenUp == {} then 0 else 1)
      ensures forall n :: n in Gone(fate) ==> Row(log, n) == 0
    {
      fate, done, still := NoFate, false, {};
      if mask == {} {
        return;
      }
      if gone || !configured {
        Drop(mask);
        fate := fate.(dropped := mask);
        return;
      }
      still, fate, done := ReleaseNow(mask);
    }

    /** The same of a device that is there and configured. */
    method ReleaseNow(mask: set<nat>) returns (still: set<nat>, ghost fate: Fate, ghost done: bool)
      requires Valid() && Mask(mask)
      modifies this`log, this`abandoned, this`failed, this`installed, tries, alternate
      ensures Valid() && old(log) <= log && (old(failed) ==> failed)
      ensures mask == still + Gone(fate) && still !! Gone(fate) && Apart(fate) && fate.takenOver == {}
      ensures forall n :: n in fate.released ==> done && n !in installed && alternate[n] == 0
      ensures Traced(log, |old(log)|, fate)
      ensures forall n :: n in still + fate.givenUp ==> !done || alternate[n] != 0
      ensures forall n :: n in still + fate.givenUp ==> (n in fate.givenUp <==> Row(old(log), n) + 1 == TRIES)
      ensures fate.dropped != {} ==> failed
      ensures forall n :: n in still ==> Row(log, n) == Row(old(log), n) + 1
      ensures abandoned == old(abandoned) + (if fate.givenUp == {} then 0 else 1)
      ensures forall n :: n in Gone(fate) ==> Row(log, n) == 0
    {
      fate, done, still := NoFate, false, {};
      var closes: bool := *;
      if !closes {
        failed := true;                          // the abort's fault asked for the recovery
        Drop(mask);
        fate := fate.(dropped := mask);
        return;
      }
      var owed;
      done, owed := Unconfigure(mask);
      ghost var before, released, ended := log, NoFate.(released := mask - owed), NoFate;
      still, ended := Account(mask, owed);
      TracedGrows(before, log, |old(log)|, |old(log)|, released);
      TracedGrows(log, log, |before|, |old(log)|, ended);
      fate := Both(released, ended);
    }

    /** What a pass leaves: with the recovery asked for its debt is dropped; otherwise what it did not settle
        is still owed, or given up. */
    method Account(mask: set<nat>, owed: set<nat>) returns (still: set<nat>, ghost fate: Fate)
      requires Valid() && Mask(mask) && owed <= mask
      modifies this`log, this`abandoned, tries
      ensures Valid() && old(log) <= log && Traced(log, |old(log)|, fate)
      ensures still + Gone(fate) == owed && still !! Gone(fate)
      ensures fate.released == fate.takenOver == {} && fate.givenUp !! fate.dropped
      ensures fate.dropped == if failed then owed else {}
      ensures forall n :: n in still + fate.givenUp ==> (n in fate.givenUp <==> Row(old(log), n) + 1 == TRIES)
      ensures forall n :: n in still ==> Row(log, n) == Row(old(log), n) + 1
      ensures abandoned == old(abandoned) + (if fate.givenUp == {} then 0 else 1)
      ensures forall n :: n in mask - still ==> Row(log, n) == 0
    {
      ghost var dropped := NoFate;
      still := owed;
      if failed {
        NoteDropped(owed);
        dropped, still := dropped.(dropped := owed), {};
      }
      ghost var mid := log;
      var spent := Tally(mask, still);
      TracedGrows(mid, log, |old(log)|, |old(log)|, dropped);
      TracedGrows(log, log, |mid|, |old(log)|, NoFate.(givenUp := spent));
      still := still - spent;
      fate := dropped.(givenUp := spent);
    }

    /** The end of a pass: what it settled starts afresh, what it did not is one failure nearer its end. */
    method Tally(mask: set<nat>, owed: set<nat>) returns (spent: set<nat>)
      requires Valid() && Mask(mask) && owed <= mask
      modifies this`log, this`abandoned, tries
      ensures Valid() && old(log) <= log && spent <= owed
      ensures forall n :: n in owed ==> (n in spent <==> Row(old(log), n) + 1 == TRIES)
      ensures forall n :: n in owed - spent ==> Row(log, n) == Row(old(log), n) + 1
      ensures Traced(log, |old(log)|, NoFate.(givenUp := spent))
      ensures abandoned == old(abandoned) + (if spent == {} then 0 else 1)
      ensures forall n :: n in mask - owed + spent ==> Row(log, n) == 0
    {
      Settled(mask - owed);
      assert forall n :: n in owed ==> Row(log, n) == tries[n] == Row(old(log), n);
      ghost var mid := log;
      spent := CountFailures(owed);
      TracedGrows(log, log, |mid|, |old(log)|, NoFate.(givenUp := spent));
    }

    /** hcdCfgReleases for this device: claimed, tried, and what is still owed recorded again; `arrives`
        are the releases recorded meanwhile. */
    method Pass(linkActive: bool, arrives: set<nat>) returns (ghost fate: Fate, ghost done: bool)
      requires Valid() && Mask(arrives)
      modifies this`funcRelease, this`log, this`abandoned, this`failed, this`installed, tries, alternate
      ensures Valid() && old(log) <= log && (old(failed) ==> failed)
      ensures funcRelease == arrives + (old(funcRelease) - Gone(fate))
      ensures Gone(fate) <= old(funcRelease) && Apart(fate) && fate.takenOver == {}
      ensures forall n :: n in fate.released ==> done && n !in installed && alternate[n] == 0
      ensures forall n :: n in fate.givenUp ==> Row(old(log), n) + 1 == TRIES && (!done || alternate[n] != 0)
      ensures Traced(log, |old(log)|, fate)
      ensures fate.dropped != {} ==> gone || !configured || failed
      ensures if linkActive && !old(failed)
              then forall n :: n in old(funcRelease) - Gone(fate) ==> Row(log, n) == Row(old(log), n) + 1
              else fate == NoFate && log == old(log)
      ensures abandoned == old(abandoned) + (if fate.givenUp == {} then 0 else 1)
      ensures forall n :: n in Gone(fate) ==> Row(log, n) == 0
    {
      fate, done := NoFate, false;
      if failed || !linkActive {
        Record(arrives);
        return;
      }
      var mask := funcRelease;
      funcRelease := {};
      Record(arrives);
      var still;
      still, fate, done := ReleaseOne(mask);
      Record(still);
    }

    /** A select's effect on the device: every interface it names at its new alternate if it succeeded, and
        each of them anywhere it may have been moved to if not. */
    method Reconfigure(mask: set<nat>, alt: seq<nat>) returns (succeeds: bool)
      requires Valid() && Mask(mask) && |alt| == INTERFACES
      modifies this`failed, this`installed, alternate
      ensures Valid() && (old(failed) ==> failed)
      ensures succeeds ==> mask <= installed && forall n :: n in mask ==> alternate[n] == alt[n]
    {
      var fails: bool := *;
      succeeds := *;
      failed := failed || fails;
      installed := *;
      if succeeds {
        installed := installed + mask;
      }
      for n := 0 to INTERFACES
        invariant Valid() && (old(failed) ==> failed) && (succeeds ==> mask <= installed)
        invariant succeeds ==> forall i :: i in mask && i < n ==> alternate[i] == alt[i]
      {
        var moved: bool := *;
        if n in mask && (succeeds || moved) {
          alternate[n] := alt[n];
        }
      }
    }

    ghost method NoteTaken(taken: set<nat>)
      requires Valid() && Mask(taken) && taken <= installed
      modifies this`log
      ensures Valid() && old(log) <= log && Traced(log, |old(log)|, NoFate.(takenOver := taken))
    {
      for n := 0 to INTERFACES
        invariant Valid() && old(log) <= log && Traced(log, |old(log)|, NoFate.(takenOver := Upto(taken, n)))
      {
        ghost var was := log;
        if n in taken {
          Note(TakenOver(n));
          assert log[|was|] == TakenOver(n);
        }
        TracedGrows(was, log, |old(log)|, |old(log)|, NoFate.(takenOver := Upto(taken, n)));
        assert Upto(taken, n + 1) == Upto(taken, n) + (if n in taken then {n} else {});
      }
      assert Upto(taken, INTERFACES) == taken;
    }

    /** A request that reaches hcdCfgSelectFunction or hcdCfgSelectInterface with `held` interfaces of its
        own function still owed. A select takes over what it names exactly if it succeeded; an unconfigure
        whose pipes closed replaces `held` by what it could not release; anything else leaves them. */
    method SelectWith(held: set<nat>, request: Request) returns (left: set<nat>, succeeds: bool, ghost fate: Fate)
      requires Valid() && Mask(held) && WellFormed(request) && (request.Unconfigure? ==> held <= request.mask)
      modifies this`log, this`failed, this`installed, tries, alternate
      ensures Valid() && Mask(left) && old(log) <= log && (old(failed) ==> failed)
      ensures held - left == Gone(fate) && fate.givenUp == {} && fate.dropped == {} && Apart(fate)
      ensures fate.takenOver == if request.Select? && succeeds then held * request.mask else {}
      ensures request.Select? && succeeds ==>
                request.mask <= installed && forall n :: n in request.mask ==> alternate[n] == request.alt[n]
      ensures forall n :: n in fate.released ==>
                request.Unconfigure? && n !in installed && alternate[n] == 0
      ensures Traced(log, |old(log)|, fate)
      ensures request.Unconfigure? && succeeds ==> left == (set n | n in request.mask && alternate[n] != 0)
      ensures left <= if request.Unconfigure? then request.mask else held
      ensures forall n :: 0 <= n < INTERFACES && (n in left * held || n !in request.mask) ==>
                Row(log, n) == Row(old(log), n)
      ensures request.Other? || (request.Select? && !succeeds) ==> left == held
      ensures forall n :: n in Gone(fate) ==> Row(log, n) == 0
      ensures forall n :: 0 <= n < INTERFACES && Row(log, n) != 0 ==> Row(log, n) == Row(old(log), n)
    {
      left, fate, succeeds := held, NoFate, false;
      if request.Select? {
        succeeds := Reconfigure(request.mask, request.alt);
        if succeeds {
          Settled(request.mask);
          ghost var mid := log;
          left, fate := held - request.mask, fate.(takenOver := held * request.mask);
          NoteTaken(held * request.mask);
          TracedGrows(log, log, |mid|, |old(log)|, fate);
        }
      } else if request.Unconfigure? {
        var closes: bool := *;
        if closes {
          succeeds, left := Unconfigure(request.mask);
          ghost var mid := log;
          Settled(request.mask - left);
          fate := fate.(released := held - left);
          TracedGrows(mid, log, |old(log)|, |old(log)|, NoFate.(released := request.mask - left));
        }
      }
    }

    /** One turn of HcdCfgService for this device: its release claimed with the request and tried first,
        the function's own interfaces kept from the record until the request has run. Afterwards the record
        is what arrived, what was owed and has no fate, and what an unconfigure of the function's own
        interfaces could not release. */
    method Serve(linkActive: bool, own: set<nat>, request: Request, arrives: set<nat>)
      returns (ghost fate: Fate, ghost leftovers: set<nat>, succeeds: bool)
      requires Valid() && Mask(own) && Mask(arrives) && WellFormed(request) && request.mask <= own
      requires request.Unconfigure? ==> request.mask == own
      modifies this`funcRelease, this`log, this`abandoned, this`failed, this`installed, tries, alternate
      ensures Valid() && old(log) <= log && (old(failed) ==> failed)
      ensures funcRelease == arrives + (old(funcRelease) - Gone(fate)) + leftovers
      ensures Gone(fate) <= old(funcRelease) && Apart(fate)
      ensures leftovers <= request.mask && (leftovers != {} ==> request.Unconfigure?)
      ensures Traced(log, |old(log)|, fate)
      ensures fate.takenOver <= request.mask && (fate.takenOver != {} ==> request.Select? && succeeds)
      ensures request.Select? && succeeds ==>
                request.mask <= installed && forall n :: n in request.mask ==> alternate[n] == request.alt[n]
      ensures forall n :: n in fate.givenUp ==> Row(old(log), n) + 1 == TRIES
      ensures fate.dropped != {} ==> gone || !configured || failed
      ensures forall n :: n in old(funcRelease) - Gone(fate) ==>
                Row(log, n) == Row(old(log), n) + if linkActive && !gone then 1 else 0
      ensures abandoned == old(abandoned) + (if fate.givenUp == {} then 0 else 1)
      ensures !gone ==> forall n :: n in Gone(fate) ==> Row(log, n) == 0
    {
      var release := funcRelease;
      funcRelease := {};
      fate, leftovers, succeeds := NoFate, {}, false;
      Record(arrives);
      if gone {
        NoteDropped(release);
        fate := fate.(dropped := release);
        return;
      }
      var again := release;
      if linkActive {
        again, fate, leftovers, succeeds := ReleaseThenServe(release, own, request);
      }
      Record(again);
    }

    /** The claimed release tried, then the request run with the function's own interfaces held back. */
    method ReleaseThenServe(release: set<nat>, own: set<nat>, request: Request)
      returns (again: set<nat>, ghost fate: Fate, ghost leftovers: set<nat>, succeeds: bool)
      requires Valid() && Mask(release) && Mask(own) && WellFormed(request) && request.mask <= own
      requires request.Unconfigure? ==> request.mask == own
      modifies this`log, this`abandoned, this`failed, this`installed, tries, alternate
      ensures Valid() && Mask(again) && old(log) <= log && (old(failed) ==> failed)
      ensures again == (release - Gone(fate)) + leftovers && Gone(fate) <= release && Apart(fate)
      ensures leftovers <= request.mask && (leftovers != {} ==> request.Unconfigure?)
      ensures Traced(log, |old(log)|, fate)
      ensures fate.takenOver <= request.mask && (fate.takenOver != {} ==> request.Select? && succeeds)
      ensures request.Select? && succeeds ==>
                request.mask <= installed && forall n :: n in request.mask ==> alternate[n] == request.alt[n]
      ensures forall n :: n in fate.givenUp ==> Row(old(log), n) + 1 == TRIES
      ensures fate.dropped != {} ==> gone || !configured || failed
      ensures forall n :: n in release - Gone(fate) ==> Row(log, n) == Row(old(log), n) + 1
      ensures abandoned == old(abandoned) + (if fate.givenUp == {} then 0 else 1)
      ensures forall n :: n in Gone(fate) ==> Row(log, n) == 0
    {
      ghost var done;
      var owed;
      owed, fate, done := ReleaseOne(release);
      again, leftovers, succeeds := owed, {}, false;
      if !failed {
        ghost var more, mid, was := NoFate, log, fate;
        again, leftovers, succeeds, more := ServeHeld(owed, own, request);
        TracedGrows(mid, log, |old(log)|, |old(log)|, was);
        TracedGrows(log, log, |mid|, |old(log)|, more);
        fate := Both(was, more);
        FatesJoin(release, owed, was, more);
      }
    }

    /** The request run, of what is still owed the function's own interfaces held back. */
    method ServeHeld(owed: set<nat>, own: set<nat>, request: Request)
      returns (again: set<nat>, ghost leftovers: set<nat>, succeeds: bool, ghost fate: Fate)
      requires Valid() && Mask(owed) && Mask(own) && WellFormed(request) && request.mask <= own
      requires request.Unconfigure? ==> request.mask == own
      modifies this`log, this`failed, this`installed, tries, alternate
      ensures Valid() && Mask(again) && old(log) <= log && (old(failed) ==> failed)
      ensures again == (owed - Gone(fate)) + leftovers && Gone(fate) <= owed && Apart(fate)
      ensures leftovers <= request.mask && (leftovers != {} ==> request.Unconfigure?)
      ensures Traced(log, |old(log)|, fate) && fate.givenUp == {} && fate.dropped == {}
      ensures fate.takenOver <= request.mask && (fate.takenOver != {} ==> request.Select? && succeeds)
      ensures request.Select? && succeeds ==>
                request.mask <= installed && forall n :: n in request.mask ==> alternate[n] == request.alt[n]
      ensures forall n :: n in owed - Gone(fate) ==> Row(log, n) == Row(old(log), n)
      ensures forall n :: n in Gone(fate) ==> Row(log, n) == 0
      ensures forall n :: 0 <= n < INTERFACES && Row(log, n) != 0 ==> Row(log, n) == Row(old(log), n)
    {
      var held, left := owed * own, {};
      left, succeeds, fate := SelectWith(held, request);
      again, leftovers := (owed - held) + left, left - held;
    }

    // ----- every run ---------------------------------------------------------------------------------

    /** Any number of releases, passes and requests. What arrives in a turn is on record at its end, and whatever
        is on record at the end of any turn stays on record, unless it leaves for a reason after that turn:
        carried out, taken over by a select that succeeded, given up at a third failed pass in a row (Earned),
        or dropped with a device or controller gone. It leaves within three turns over an active link, a device
        that stays and no recovery, since every such turn tries it. `records` and `ends` are the record and the
        log's length at the turns' ends. */
    method Run(steps: seq<Turn>)
      returns (ghost records: seq<set<nat>>, ghost ends: seq<nat>)
      requires Valid() && forall t :: t in steps ==> Mask(t.arrives) && Mask(t.own) && Fits(t)
      modifies this, tries, alternate
      ensures Valid() && old(log) <= log && |ends| == |records| == |steps| && Earned(log)
      ensures forall k :: 0 <= k < |ends| ==> |old(log)| <= ends[k] <= |log|
      ensures Followed(funcRelease, log, old(funcRelease), |old(log)|)
      ensures forall k :: 0 <= k < |steps| ==> steps[k].arrives <= records[k]
      ensures AllFollowed(funcRelease, log, records, ends)
      ensures !failed && !gone ==> forall k, n :: 0 <= k < |steps| && n in records[k] ==>
                LeftSince(log, ends[k], n) || ActiveTurns(steps[k + 1..]) < TRIES
      ensures DropsAccounted()
    {
      ends, records := [], [];
      for k := 0 to |steps|
        invariant Valid() && old(log) <= log && tries == old(tries) && alternate == old(alternate)
        invariant |ends| == |records| == k
        invariant Story(funcRelease, log, records, ends, steps[..k], old(funcRelease), |old(log)|, !failed && !gone)
      {
        ghost var was, record, sound := log, funcRelease, !failed && !gone;
        ghost var fate := OneTurn(steps[k]);
        StoryOn(record, was, funcRelease, log, fate, records, ends, steps[..k], steps[k],
                old(funcRelease), |old(log)|, sound, !failed && !gone);
        assert steps[..k + 1] == steps[..k] + [steps[k]];
        ends, records := ends + [|log|], records + [funcRelease];
      }
      assert steps[..|steps|] == steps;
      if !failed && !gone {
        TriedFewTimes(funcRelease, log, records, ends, steps);
      }
    }

    method OneTurn(t: Turn) returns (ghost fate: Fate)
      requires Valid() && Mask(t.arrives) && Mask(t.own) && Fits(t)
      modifies this, tries, alternate
      ensures Valid() && old(log) <= log && tries == old(tries) && alternate == old(alternate)
      ensures t.arrives <= funcRelease && old(funcRelease) <= funcRelease + Gone(fate)
      ensures forall n :: n in old(funcRelease) - Gone(fate) ==>
                Row(log, n) >= Row(old(log), n) + if t.linkActive && !gone && !failed then 1 else 0
      ensures Traced(log, |old(log)|, fate)
      ensures (old(gone) ==> gone) && (old(failed) ==> failed) && (!old(configured) ==> !configured)
    {
      var leaves, unconfigured: bool := *, *;
      gone, configured := gone || leaves, configured && !unconfigured;
      if t.Request? {
        ghost var leftovers;
        var succeeds;
        fate, leftovers, succeeds := Serve(t.linkActive, t.own, t.request, t.arrives);
      } else {
        ghost var done;
        fate, done := Pass(t.linkActive, t.arrives);
      }
    }
  }

  /** How many of the turns found the device's link active, so that its releases were tried. */
  function ActiveTurns(steps: seq<Turn>): nat {
    if steps == [] then 0 else ActiveTurns(steps[..|steps| - 1]) + (if steps[|steps| - 1].linkActive then 1 else 0)
  }

  /** One step of a run: a pass, or a request of the function whose interfaces are `own`. */
  datatype Turn =
    | Pass(linkActive: bool, own: set<nat>, arrives: set<nat>)
    | Request(linkActive: bool, own: set<nat>, arrives: set<nat>, request: Request)

  predicate Fits(t: Turn) {
    t.Request? ==>
      WellFormed(t.request) && t.request.mask <= t.own && (t.request.Unconfigure? ==> t.request.mask == t.own)
  }
}
