/**
  Where descriptors are while some entries may go: every number that was open at the start, but for
  the numbers of the entries that are gone, names what it named, and what has appeared is the
  library's.
*/
module Places {
  import opened DescriptorView
  import opened KernelState
  import opened SynthState
  import opened SynthLemmas
  import opened SynthEffects
  import opened Parkings

  /** The number n belonged to no entry that is gone. */
  ghost predicate Unlost(s0: State, s: State, n: int) {
    forall r :: Number(s0, r) == n ==> IsRef(s, r)
  }

  ghost predicate NamesStay(s0: State, s: State, but: set<int>) {
    forall n :: n in s0.k.fds && n !in but && Unlost(s0, s, n) ==> n in s.k.fds && s.k.fds[n] == s0.k.fds[n]
  }

  /** No view has come to a number that was open and has not been lost. */
  ghost predicate InternalFrom(s0: State, s: State) {
    forall r :: Number(s, r) in s0.k.fds && Unlost(s0, s, Number(s, r)) ==> Number(s0, r) == Number(s, r)
  }

  /** `users` may name something else, and `saveds` have come in addition. */
  ghost predicate InPlace(s0: State, s: State, users: set<int>, saveds: set<int>) {
    && NamesStay(s0, s, users) && InternalFrom(s0, s) && OnlyInternalNew(s0, s, saveds)
    && (forall n :: n in saveds && n in s0.k.fds ==> !Unlost(s0, s, n))
  }

  /** What is lost stays lost. */
  lemma UnlostBefore(s0: State, s: State, s': State, n: int)
    requires NoNewEntries(s, s') && |s'.ttys| == |s.ttys| && |s0.registry| <= |s.registry| && n >= 0
    requires Unlost(s0, s', n)
    ensures Unlost(s0, s, n)
  {
    forall r | Number(s0, r) == n
      ensures IsRef(s, r)
    {
      assert IsRef(s', r) && (r.Registered? || Kept(s, s', r.i));
    }
  }

  /** A view that is there before and after is on the same description. */
  lemma SameOriginal(s: State, s': State, r: Ref)
    requires NoNewEntries(s, s') && Lineage(s, s') && IsRef(s, r) && IsRef(s', r)
    ensures Original(s', r) == Original(s, r)
  {
    assert r.Registered? || Kept(s, s', r.i);
  }

  // ---------------------------------------------------------------- one candidate

  ghost predicate BothStand(s0: State, s: State, s': State) {
    && Inv(s0) && Inv(s) && Inv(s') && Lineage(s0, s) && Carried(s, s')
  }

  lemma NameStays(s0: State, s: State, s': State, u: int, p: Outcome, n: int)
    requires BothStand(s0, s, s') && InternalFrom(s0, s) && TriedOne(s, s', u, p)
    requires n in s0.k.fds && n in s.k.fds && Unlost(s0, s, n) && Unlost(s0, s', n) && (n == u ==> p.NotParked?)
    ensures n in s'.k.fds && s'.k.fds[n] == s.k.fds[n]
  {
    if Internal(s, n) && n != u {
      var r :| Number(s, r) == n;
      assert Number(s0, r) == n && IsRef(s', r) && Number(s', r) == n;
      SameOriginal(s, s', r);
    }
  }

  lemma NamesStep(s0: State, s: State, s': State, users: set<int>, u: int, p: Outcome)
    requires BothStand(s0, s, s') && InternalFrom(s0, s) && NamesStay(s0, s, users) && TriedOne(s, s', u, p)
    ensures NamesStay(s0, s', users + if p.Parked? then {u} else {})
  {
    forall n | n in s0.k.fds && n !in users && (p.Parked? ==> n != u) && Unlost(s0, s', n)
      ensures n in s'.k.fds && s'.k.fds[n] == s0.k.fds[n]
    {
      UnlostBefore(s0, s, s', n);
      NameStays(s0, s, s', u, p, n);
    }
  }

  lemma InternalStep(s0: State, s: State, s': State, users: set<int>, u: int, p: Outcome)
    requires BothStand(s0, s, s') && InternalFrom(s0, s) && NamesStay(s0, s, users) && TriedOne(s, s', u, p)
    requires users <= s.k.fds.Keys
    ensures InternalFrom(s0, s')
  {
    forall r | Number(s', r) in s0.k.fds && Unlost(s0, s', Number(s', r))
      ensures Number(s0, r) == Number(s', r)
    {
      UnlostBefore(s0, s, s', Number(s', r));
      InternalOne(s0, s, s', u, p, r);
    }
  }

  lemma InternalOne(s0: State, s: State, s': State, u: int, p: Outcome, r: Ref)
    requires Distinct(s') && InternalFrom(s0, s) && TriedOne(s, s', u, p) && Number(s', r) >= 0
    requires var n := Number(s', r); n in s0.k.fds && n in s.k.fds && Unlost(s0, s, n) && Unlost(s0, s', n)
    ensures Number(s0, r) == Number(s', r)
  {
    assert IsRef(s', r) && Internal(s', Number(s', r));
  }

  lemma NewStep(s0: State, s: State, s': State, saveds: set<int>, u: int, p: Outcome)
    requires OnlyInternalNew(s0, s, saveds) && TriedOne(s, s', u, p) && u in s0.k.fds
    ensures OnlyInternalNew(s0, s', saveds + if p.Parked? then {p.at.saved} else {})
  {
    forall n | n in s'.k.fds && n !in s0.k.fds && n !in saveds && (p.Parked? ==> n != p.at.saved)
      ensures Internal(s', n)
    {
      assert n in s.k.fds ==> Internal(s, n);
    }
  }

  /** Parking one candidate leaves everything in place but what it records. */
  lemma InPlaceStep(s0: State, s: State, s': State, users: set<int>, saveds: set<int>, u: int, p: Outcome)
    requires BothStand(s0, s, s') && InPlace(s0, s, users, saveds) && TriedOne(s, s', u, p)
    requires users <= s.k.fds.Keys && u in s0.k.fds
    ensures InPlace(s0, s', users + (if p.Parked? then {u} else {}), saveds + if p.Parked? then {p.at.saved} else {})
  {
    NamesStep(s0, s, s', users, u, p);
    InternalStep(s0, s, s', users, u, p);
    NewStep(s0, s, s', saveds, u, p);
    forall n | n in saveds + (if p.Parked? then {p.at.saved} else {}) && n in s0.k.fds
      ensures !Unlost(s0, s', n)
    {
      if Unlost(s0, s', n) {
        UnlostBefore(s0, s, s', n);
      }
    }
  }
}
