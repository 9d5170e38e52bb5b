/**
  Views that cannot move. When the application takes a number at which a view of this process is
  stuck, the view goes on naming that number. Until the number names the view's description again,
  the view is lent: it counts as dead, and the invariant is about all others.
*/
module Lending {
  import opened DescriptorView
  import opened KernelState
  import opened SynthState
  import opened SynthLemmas
  import opened SynthEffects

  /** The views that are stuck at u. */
  function StuckAt(s: State, u: int): set<Ref> {
    if u < 0 then {}
    else
    (set i | 0 <= i < |s.table| && Number(s, Probe(i)) == u && !RefRoom(s, Probe(i)) :: Probe(i))
    + (set i | 0 <= i < |s.table| && Number(s, Backing(i)) == u && !RefRoom(s, Backing(i)) :: Backing(i))
  }

  function Lend(s: State, u: int): State {
    s.(lent := s.lent + StuckAt(s, u))
  }

  /** u names the description of the view r, as an internal number would. */
  predicate NamesAgain(s: State, u: int, r: Ref) {
    u in s.k.fds && IsRef(s, r) && s.k.fds[u] == Desc(Original(s, r), true)
  }

  /** Some view or registered descriptor is at u. */
  predicate InUse(s: State, u: int) {
    || (exists i :: 0 <= i < |s.table| && (Number(s, Probe(i)) == u || Number(s, Backing(i)) == u))
    || (exists j :: 0 <= j < |s.registry| && Number(s, Registered(j)) == u)
  }

  /** A view that was lent at u is the library's again if u names its description again. */
  function TakeBack(s: State, u: int): State {
    if u < 0 || InUse(s, u) then s
    else s.(lent := set r | r in s.lent && !(Raw(s, r) == u && NamesAgain(s, u, r)))
  }

  /** s with nothing lent: what its invariant says is said of every view. */
  function Bare(s: State): State { s.(lent := {}) }

  /** Only what is lent differs, and only at u. */
  ghost predicate Relabelled(s: State, s': State, u: int) {
    && s' == s.(lent := s'.lent)
    && (forall r :: IsRef(s', r) == IsRef(s, r) && Original(s', r) == Original(s, r) && RefRoom(s', r) == RefRoom(s, r))
    && (forall r :: Raw(s', r) == Raw(s, r))
    && (forall r :: Number(s', r) == Number(s, r) || Raw(s, r) == u)
    && (forall n :: n != u && n >= 0 ==> Internal(s', n) == Internal(s, n))
  }

  lemma RelabelledInternal(s: State, s': State, u: int)
    requires forall r :: Number(s', r) == Number(s, r) || (Number(s, r) in {-1, u} && Number(s', r) in {-1, u})
    ensures forall n :: n != u && n >= 0 ==> Internal(s', n) == Internal(s, n)
  {
    forall n | n != u && n >= 0
      ensures Internal(s', n) == Internal(s, n)
    {
      assert forall r :: Number(s, r) == n <==> Number(s', r) == n;
    }
  }

  lemma StuckAtIs(s: State, u: int, r: Ref)
    ensures r in StuckAt(s, u) <==> u >= 0 && Number(s, r) == u && !RefRoom(s, r)
  {
    assert r.Registered? ==> RefRoom(s, r);
  }

  lemma LendNumbers(s: State, u: int)
    ensures Relabelled(s, Lend(s, u), u)
    ensures forall r ::
              Number(Lend(s, u), r) == if u >= 0 && Number(s, r) == u && !RefRoom(s, r) then -1 else Number(s, r)
  {
    forall r
      ensures r in StuckAt(s, u) <==> u >= 0 && Number(s, r) == u && !RefRoom(s, r)
    {
      StuckAtIs(s, u, r);
    }
    RelabelledInternal(s, Lend(s, u), u);
  }

  lemma LendLendings(s: State, u: int)
    requires Inv(s)
    ensures Lendings(Lend(s, u))
  {
    var s' := Lend(s, u);
    LendNumbers(s, u);
    forall r | r in s'.lent
      ensures IsRef(s', r) && !RefRoom(s', r) && Raw(s', r) >= 0 && Original(s', r) in s'.k.inode
      ensures r.Probe? ==> s'.table[r.i].wrap in s'.k.locks
      ensures r !in s.lent ==> Number(s, r) == u == Raw(s, r)
    {
      StuckAtIs(s, u, r);
      if r !in s.lent && r.Probe? {
        assert EntryOk(s, r.i);
      }
    }
  }

  lemma LendKeeps(s: State, u: int)
    requires Valid(s)
    ensures Valid(Lend(s, u))
  {
    var s' := Lend(s, u);
    LendNumbers(s, u);
    LendLendings(s, u);
    forall i | 0 <= i < |s'.table|
      ensures EntryOk(s', i)
    {
      assert EntryOk(s, i);
    }
  }

  lemma LendUnsticks(s: State, u: int)
    ensures !Stuck(Lend(s, u), u) && (forall n :: Stuck(Lend(s, u), n) ==> Stuck(s, n))
    ensures !Stuck(s, u) ==> Lend(s, u) == s
  {
    LendNumbers(s, u);
    forall r
      ensures r in StuckAt(s, u) ==> Stuck(s, u)
    {
      StuckAtIs(s, u, r);
    }
    assert !Stuck(s, u) ==> Lend(s, u).lent == s.lent;
  }

  /** What is lent does not depend on the descriptor table. */
  lemma LendAlike(s: State, s1: State, u: int)
    requires s1 == s.(k := s1.k)
    ensures Lend(s1, u).lent == Lend(s, u).lent
  {
    SameButKernel(s, s1);
    forall r
      ensures r in StuckAt(s, u) <==> r in StuckAt(s1, u)
    {
      StuckAtIs(s, u, r);
      StuckAtIs(s1, u, r);
    }
  }

  // ---------------------------------------------------------------- giving back

  /** s' has given back some of what s had lent at u, where u names their descriptions. */
  ghost predicate Reclaims(s: State, s': State, u: int) {
    && s' == s.(lent := s'.lent) && s'.lent <= s.lent && u >= 0
    && (forall r :: r in s.lent && r !in s'.lent ==> Raw(s, r) == u && NamesAgain(s, u, r))
  }

  lemma ReclaimNumbers(s: State, s': State, u: int)
    requires Lendings(s) && Reclaims(s, s', u)
    ensures Relabelled(s, s', u)
    ensures forall r :: Number(s', r) == if r in s.lent && r !in s'.lent then u else Number(s, r)
  {
    RelabelledInternal(s, s', u);
  }

  /** A view that was lent at u is the library's again if u names its description again. */
  lemma Reclaim(s: State, s': State, u: int)
    requires Valid(s) && !Internal(s, u) && Reclaims(s, s', u)
    ensures Valid(s') && Relabelled(s, s', u)
  {
    ReclaimNumbers(s, s', u);
    ReclaimDistinct(s, s', u);
    forall i | 0 <= i < |s'.table|
      ensures EntryOk(s', i)
    {
      assert EntryOk(s, i);
    }
  }

  lemma ReclaimDistinct(s: State, s': State, u: int)
    requires Distinct(s) && Lendings(s) && !Internal(s, u) && Reclaims(s, s', u)
    requires forall r :: Number(s', r) == if r in s.lent && r !in s'.lent then u else Number(s, r)
    ensures Distinct(s')
  {
    forall r, r' | Number(s', r) >= 0 && Number(s', r) == Number(s', r')
      ensures r == r'
    {
      assert Number(s, r) != u && Number(s, r') != u;
    }
  }

  lemma InUseIs(s: State, u: int)
    requires u >= 0
    ensures InUse(s, u) <==> Internal(s, u)
  {
    if Internal(s, u) {
      var r :| Number(s, r) == u;
      match r
      case Probe(i) => assert 0 <= i < |s.table|;
      case Backing(i) => assert 0 <= i < |s.table|;
      case Registered(j) => assert 0 <= j < |s.registry|;
    }
  }

  lemma TakeBackKeeps(s: State, u: int)
    requires Valid(s)
    ensures Valid(TakeBack(s, u)) && Relabelled(s, TakeBack(s, u), u) && TakeBack(s, u).lent <= s.lent
    ensures forall n :: n >= 0 && Internal(s, n) ==> Internal(TakeBack(s, u), n)
  {
    if u >= 0 {
      InUseIs(s, u);
      if !Internal(s, u) {
        Reclaim(s, TakeBack(s, u), u);
        ReclaimNumbers(s, TakeBack(s, u), u);
      }
    }
  }

  /** At a number that is not in use, what comes back is what the number names. */
  lemma TakeBackIs(s: State, u: int)
    requires u >= 0 && !Internal(s, u)
    ensures TakeBack(s, u) == s.(lent := set r | r in s.lent && !(Raw(s, r) == u && NamesAgain(s, u, r)))
    ensures Reclaims(s, TakeBack(s, u), u)
  {
    InUseIs(s, u);
  }
}
