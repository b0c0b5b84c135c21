/** What several of the models share: an optional value, and counting the threads that play a part. */
module Common {

  datatype Option<+T> = None | Some(value: T)

  function One(b: bool): nat {
    if b then 1 else 0
  }

  /** The threads whose place `pcs[t]` plays `role`. */
  function Players<T, R>(pcs: map<nat, T>, plays: (T, R) -> bool, role: R): set<nat> {
    set t | t in pcs && plays(pcs[t], role)
  }

  /** Two sets that differ at most in `t`. */
  lemma OneMoved(p: set<nat>, p': set<nat>, t: nat)
    requires forall u :: u != t ==> (u in p <==> u in p')
    ensures |p'| == |p| + One(t in p') - One(t in p)
  {
    if t in p' {
      assert p' == p + {t};
    } else {
      assert p' == p - {t};
    }
  }

  /** One thread moved: how a role's count changes. */
  lemma Moved<T, R>(pcs: map<nat, T>, plays: (T, R) -> bool, t: nat, pc: T, role: R)
    ensures |Players(pcs[t := pc], plays, role)| ==
            |Players(pcs, plays, role)| + One(plays(pc, role)) - One(t in pcs && plays(pcs[t], role))
  {
    OneMoved(Players(pcs, plays, role), Players(pcs[t := pc], plays, role), t);
  }

  lemma Playing<T, R>(pcs: map<nat, T>, plays: (T, R) -> bool, t: nat, role: R)
    requires t in pcs && plays(pcs[t], role)
    ensures |Players(pcs, plays, role)| > 0
  {
    assert t in Players(pcs, plays, role);
  }

  lemma Somebody<T, R>(pcs: map<nat, T>, plays: (T, R) -> bool, role: R) returns (t: nat)
    requires |Players(pcs, plays, role)| > 0
    ensures t in pcs && plays(pcs[t], role)
  {
    t :| t in Players(pcs, plays, role);
  }

  lemma Nobody<T, R>(pcs: map<nat, T>, plays: (T, R) -> bool, role: R)
    ensures |Players(pcs, plays, role)| == 0 <==> forall t :: t in pcs ==> !plays(pcs[t], role)
  {
    if t :| t in pcs && plays(pcs[t], role) {
      Playing(pcs, plays, t, role);
    } else {
      assert Players(pcs, plays, role) == {};
    }
  }

  lemma OnlyOne<T, R>(pcs: map<nat, T>, plays: (T, R) -> bool, t: nat, u: nat, role: R)
    requires |Players(pcs, plays, role)| <= 1
    requires t in pcs && plays(pcs[t], role) && u in pcs && plays(pcs[u], role)
    ensures t == u
  {
    var rest := Players(pcs, plays, role) - {t};
    assert |rest| == 0;
    assert u !in rest;
  }
}
