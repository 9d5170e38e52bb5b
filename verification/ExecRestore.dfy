/** The restore after an exec that failed, and the failed exec as a whole. */
module ExecRestore {
  import opened DescriptorView
  import opened KernelState
  import opened SynthState
  import opened SynthLemmas
  import opened SynthEffects
  import opened SynthTable
  import opened Lending
  import opened Parkings
  import opened Places
  import opened Preexec

  // ---------------------------------------------------------------- restoring

  /** No entry is new, no view has moved, and nothing more is lent. */
  ghost predicate Unmoved(s: State, s': State) {
    && NoNewEntries(s, s') && s'.lent <= s.lent && (forall r :: IsRef(s', r) ==> IsRef(s, r))
    && (forall i :: Live(s', i) ==> Raw(s', Probe(i)) == Raw(s, Probe(i)))
    && (forall r: Ref :: IsRef(s', r) && !r.Probe? ==> Number(s', r) == Number(s, r))
  }

  /** A call on a number that is not internal moves nothing. */
  lemma ExternalUnmoved(s: State, s': State, t: int)
    requires NoNewEntries(s, s') && Steady(s, s', {t}) && LentStay(s, s') && !Internal(s, t)
    ensures Unmoved(s, s')
    ensures forall n :: n >= 0 && Internal(s', n) ==> Internal(s, n)
  {
    forall r: Ref | IsRef(s', r)
      ensures IsRef(s, r) && Number(s', r) == Number(s, r)
    {
      assert !r.Registered? ==> Kept(s, s', r.i);
    }
    forall i | Live(s', i)
      ensures Raw(s', Probe(i)) == Raw(s, Probe(i))
    {
      assert IsRef(s', Probe(i)) && Number(s', Probe(i)) == Number(s, Probe(i));
    }
    forall n | n >= 0 && Internal(s', n)
      ensures Internal(s, n)
    {
      var r :| Number(s', r) == n;
      assert Number(s, r) == n;
    }
  }

  lemma ExternalCall(s: State, s': State, t: int)
    requires Valid(s) && Valid(s') && CallEffect(s, s', t) && t >= 0 && !Internal(s, t)
    ensures Unmoved(s, s') && Carried(s, s')
    ensures forall n :: n >= 0 && Internal(s', n) ==> Internal(s, n)
  {
    ExternalUnmoved(s, s', t);
    CallCarries(s, s', t);
  }

  /** Neither number of any record from j on is internal, or will be when an earlier record is restored. */
  ghost predicate StillOut(s: State, ps: seq<Parking>, j: nat) {
    && DistinctUsers(ps) && LentRecorded(s, ps)
    && (forall l :: 0 <= l < |ps| ==> 0 <= ps[l].user < s.k.limit && ps[l].saved >= 0)
    && (forall l :: j <= l < |ps| ==> !Internal(s, ps[l].user) && !Internal(s, ps[l].saved))
  }

  /** The first record and the others. */
  lemma RestConsists(p: Parking, rest: seq<Parking>)
    requires SavedsApart([p] + rest) && DistinctUsers([p] + rest)
    ensures Users([p] + rest) == Users(rest) + {p.user} && Saveds([p] + rest) == Saveds(rest) + {p.saved}
    ensures SavedsApart(rest) && DistinctUsers(rest) && p.user != p.saved
    ensures p.user !in Users(rest) && p.user !in Saveds(rest) && p.saved !in Users(rest) && p.saved !in Saveds(rest)
    ensures ([p] + rest)[0] == p && forall j :: 0 <= j < |rest| ==> ([p] + rest)[j + 1] == rest[j]
  {
    var ps := [p] + rest;
    assert ps[0] == p && forall j :: 0 <= j < |rest| ==> ps[j + 1] == rest[j];
    assert forall j :: 0 < j < |ps| ==> ps[j] == rest[j - 1];
  }

  /** u was open at the start, and names what it named. */
  ghost predicate AsBefore(s0: State, s: State, u: int) {
    u in s0.k.fds && u in s.k.fds && s.k.fds[u] == s0.k.fds[u]
  }

  /** The two calls of one round of the restore loop, on any record. */
  method SwapBack(lib: Library, p: Parking) returns (r: int, ghost s1: State)
    requires Valid(lib.S()) && p.user >= 0 && p.saved >= 0
    requires !Internal(lib.S(), p.user) && !Internal(lib.S(), p.saved)
    modifies lib
    ensures Valid(s1) && CallEffect(old(lib.S()), s1, p.user) && (p.user in s1.k.fds ==> !Internal(s1, p.user))
    ensures p.saved in old(lib.k).fds ==> DupResult(old(lib.k), s1.k, p.saved, p.user, p.cloexec, r)
    ensures Valid(lib.S()) && CallEffect(s1, lib.S(), p.saved) && p.saved !in lib.k.fds && !Internal(s1, p.saved)
  {
    ghost var s := lib.S();
    r := lib.Dup(p.saved, p.user, p.cloexec, false);
    s1 := lib.S();
    ExternalCall(s, s1, p.user);
    var _ := lib.Close(p.saved);
  }

  lemma HeadAndTail(ps: seq<Parking>, j: nat)
    requires j < |ps|
    ensures ps[j..] == [ps[j]] + ps[j + 1..]
  {
  }

  /** A lent probe is back once its number names what it named at the start. */
  lemma LentComesBack(s0: State, s: State, u: int, i: int)
    requires Valid(s0) && s0.lent == {} && Carried(s0, s) && Probe(i) in s.lent && Raw(s, Probe(i)) == u
    requires AsBefore(s0, s, u)
    ensures NamesAgain(s, u, Probe(i))
  {
    assert Live(s, i) && ProbeStays(s0, s, i) && Kept(s0, s, i);
    assert Number(s0, Probe(i)) == u;
  }

  lemma ReclaimedProbe(s: State, s': State, u: int)
    requires Lendings(s) && BackingsThere(s) && Reclaims(s, s', u)
    ensures ProbeLent(s, s', u)
  {
    ReclaimNumbers(s, s', u);
  }

  lemma LentStaysRecorded(s: State, s': State, ps: seq<Parking>)
    requires LentRecorded(s, ps) && Unmoved(s, s') && Lendings(s')
    ensures LentRecorded(s', ps)
  {
  }

  /** Neither of the two calls moves a view or makes a number internal. */
  lemma SwapBackUnmoved(s: State, s1: State, s2: State, p: Parking)
    requires Valid(s) && Valid(s1) && Valid(s2) && p.user >= 0 && p.saved >= 0
    requires !Internal(s, p.user) && !Internal(s1, p.saved)
    requires CallEffect(s, s1, p.user) && CallEffect(s1, s2, p.saved)
    ensures Unmoved(s, s2) && Carried(s, s2)
    ensures forall n :: n >= 0 && Internal(s2, n) ==> Internal(s, n)
  {
    ExternalCall(s, s1, p.user);
    ExternalCall(s1, s2, p.saved);
    UnmovedTrans(s, s1, s2);
    CarriedTrans(s, s1, s2);
  }

  lemma UnmovedTrans(s0: State, s1: State, s2: State)
    requires Unmoved(s0, s1) && Unmoved(s1, s2)
    ensures Unmoved(s0, s2)
  {
  }

  /** The last part of a round: the probe that was lent, if it is back, is the library's again. */
  lemma TakeBackStep(s: State, s2: State, ps: seq<Parking>, j: nat)
    requires j < |ps| && StillOut(s, ps, j) && Valid(s2) && Unmoved(s, s2) && Carried(s, s2)
    requires forall n :: n >= 0 && Internal(s2, n) ==> Internal(s, n)
    ensures var s3 := TakeBack(s2, ps[j].user);
            Valid(s3) && StillOut(s3, ps, j + 1) && Unmoved(s, s3) && Carried(s, s3)
  {
    var s3 := TakeBack(s2, ps[j].user);
    LentStaysRecorded(s, s2, ps);
    TakeBackIs(s2, ps[j].user);
    Reclaim(s2, s3, ps[j].user);
    ReclaimedProbe(s2, s3, ps[j].user);
    UnlentIsCarried(s, s2, s3, ps[j].user);
    forall l | j + 1 <= l < |ps|
      ensures !Internal(s3, ps[l].user) && !Internal(s3, ps[l].saved)
    {
      OutStaysOut(s2, ps, j, l);
    }
  }

  lemma OutStaysOut(s: State, ps: seq<Parking>, j: nat, l: nat)
    requires Valid(s) && j < l < |ps| && DistinctUsers(ps) && LentRecorded(s, ps)
    requires ps[j].user >= 0 && ps[l].user >= 0 && ps[l].saved >= 0
    requires !Internal(s, ps[j].user) && !Internal(s, ps[l].user) && !Internal(s, ps[l].saved)
    ensures !Internal(TakeBack(s, ps[j].user), ps[l].user) && !Internal(TakeBack(s, ps[j].user), ps[l].saved)
  {
    var s' := TakeBack(s, ps[j].user);
    TakeBackIs(s, ps[j].user);
    ReclaimNumbers(s, s', ps[j].user);
    assert ps[l].saved in Saveds(ps);
  }

  // ---------------------------------------------------------------- one round

  /** What a round does when dup3 does not fail: what was parked is back, and nothing else has changed. */
  ghost predicate Round(s: State, s': State, p: Parking) {
    && p.user in s.k.fds && p.saved in s.k.fds && p.user != p.saved
    && p.user in s'.k.fds && s'.k.fds[p.user] == Desc(s.k.fds[p.saved].ofd, p.cloexec) && p.saved !in s'.k.fds
    && (forall n :: n in s.k.fds && n != p.user && n != p.saved && !Internal(s, n) ==>
          n in s'.k.fds && s'.k.fds[n] == s.k.fds[n] && !Internal(s', n))
    && OnlyInternalNew(s, s', {}) && InternalStay(s, s', p.user) && !Internal(s', p.user)
  }

  lemma SwapBackIsRound(s: State, s1: State, s2: State, p: Parking, r: int)
    requires WfKernel(s.k) && p.user in s.k.fds && p.saved in s.k.fds && p.user != p.saved
    requires !Internal(s, p.saved) && !Internal(s1, p.user) && Effect(s, s1, {p.user}) && Effect(s1, s2, {p.saved})
    requires DupResult(s.k, s1.k, p.saved, p.user, p.cloexec, r) && s1.k.dup3Faults == s.k.dup3Faults
    requires p.saved !in s2.k.fds
    ensures Round(s, s2, p)
    ensures p.user in s1.k.fds && s1.k.fds[p.user] == s2.k.fds[p.user] && p.saved in s1.k.fds
    ensures s1.k.fds[p.saved] == s.k.fds[p.saved]
  {
  }

  /** It loses no entry that was not waiting to be released. */
  lemma RoundHolds(s: State, s1: State, s2: State, p: Parking)
    requires Valid(s) && Valid(s1) && Valid(s2) && PlainFd(s, p.user) && RecordBacked(s, p) && p.user >= 0
    requires CallEffect(s, s1, p.user) && Carried(s, s1) && CallEffect(s1, s2, p.saved) && Carried(s1, s2)
    requires p.saved in s.k.fds && p.saved in s1.k.fds && s1.k.fds[p.saved] == s.k.fds[p.saved]
    requires p.user in s2.k.fds && s2.k.fds[p.user].ofd == s.k.fds[p.saved].ofd
    ensures HeldStay(s, s2)
  {
    assert forall i :: Live(s, i) ==> s.table[i].key != Ino(s.k, p.user);
    HeldStays(s, s1, p.user, p.saved);
    forall i | Live(s1, i) && s1.table[i].key == Ino(s1.k, p.saved)
      ensures Number(s1, Backing(i)) >= 0
    {
      assert Kept(s, s1, i) && Ino(s.k, p.saved) == s.table[i].key;
    }
    HeldStays(s1, s2, p.saved, p.user);
    HeldStayTrans(s, s1, s2);
  }

  lemma RoundNames(s0: State, s: State, s2: State, p: Parking, rest: seq<Parking>)
    requires BothStand(s0, s, s2) && Unmoved(s, s2) && Round(s, s2, p) && TrueRecord(s0, s, p)
    requires InPlace(s0, s, Users(rest) + {p.user}, Saveds(rest) + {p.saved})
    ensures NamesStay(s0, s2, Users(rest))
  {
    forall n | n in s0.k.fds && n !in Users(rest) && Unlost(s0, s2, n)
      ensures n in s2.k.fds && s2.k.fds[n] == s0.k.fds[n]
    {
      UnlostBefore(s0, s, s2, n);
      assert n != p.saved;
      if n != p.user && Internal(s, n) {
        var q :| Number(s, q) == n;
        InternalNameStays(s0, s, s2, n, q);
      }
    }
  }

  lemma InternalNameStays(s0: State, s: State, s2: State, n: int, q: Ref)
    requires BothStand(s0, s, s2) && Unmoved(s, s2) && InternalFrom(s0, s) && n >= 0
    requires Number(s, q) == n && n in s0.k.fds && Unlost(s0, s, n) && Unlost(s0, s2, n)
    ensures n in s2.k.fds && s2.k.fds[n] == s.k.fds[n]
  {
    assert Number(s0, q) == n && IsRef(s2, q);
    assert q !in s.lent && Number(s2, q) == n;
    SameOriginal(s, s2, q);
  }

  lemma RoundInternals(s0: State, s: State, s2: State)
    requires BothStand(s0, s, s2) && Unmoved(s, s2) && InternalFrom(s0, s)
    requires forall n :: n >= 0 && Internal(s2, n) ==> Internal(s, n)
    requires s2.lent == s.lent
    ensures InternalFrom(s0, s2)
  {
    forall r | Number(s2, r) in s0.k.fds && Unlost(s0, s2, Number(s2, r))
      ensures Number(s0, r) == Number(s2, r)
    {
      UnlostBefore(s0, s, s2, Number(s2, r));
      assert IsRef(s2, r) && Number(s, r) == Number(s2, r);
    }
  }

  lemma RoundInPlace(s0: State, s: State, s2: State, p: Parking, rest: seq<Parking>)
    requires BothStand(s0, s, s2) && Unmoved(s, s2) && Round(s, s2, p) && TrueRecord(s0, s, p) && s2.lent == s.lent
    requires InPlace(s0, s, Users(rest) + {p.user}, Saveds(rest) + {p.saved})
    requires forall n :: n >= 0 && Internal(s2, n) ==> Internal(s, n)
    ensures InPlace(s0, s2, Users(rest), Saveds(rest))
  {
    RoundNames(s0, s, s2, p, rest);
    RoundInternals(s0, s, s2);
    forall n | n in Saveds(rest) && n in s0.k.fds
      ensures !Unlost(s0, s2, n)
    {
      if Unlost(s0, s2, n) {
        UnlostBefore(s0, s, s2, n);
      }
    }
  }

  /** What was not recorded is as before; what has been put back is as before too. */
  lemma RoundKeepsApps(s0: State, s: State, s2: State, p: Parking, rest: seq<Parking>)
    requires Inv(s0) && Inv(s2) && AppsKeep(s0, s, Users(rest) + {p.user}) && Round(s, s2, p) && TrueRecord(s0, s, p)
    requires p.saved !in s0.k.fds || Internal(s0, p.saved)
    ensures AppsKeep(s0, s2, Users(rest))
  {
    forall n | n in s2.k.fds && Internal(s2, n)
      ensures s2.k.fds[n].cloexec
    {
      InternalIsCloexec(s2, n);
    }
    if Internal(s0, p.user) {
      InternalIsCloexec(s0, p.user);
    } else {
      assert Unlost(s0, s, p.user);
    }
  }

  lemma RoundKeepsUser(s0: State, s: State, s2: State, p: Parking, q: Parking)
    requires WfKernel(s.k) && UserOk(s0, s, q) && Round(s, s2, p) && Carried(s, s2)
    requires q.user != p.user && q.user != p.saved && q.saved != p.user && q.saved != p.saved
    ensures UserOk(s0, s2, q)
  {
    forall i | 0 <= i < |s2.table| && Live(s2, i)
      ensures s2.table[i].key != Ino(s2.k, q.user)
    {
      assert Kept(s, s2, i) && s2.k.fds[q.user] == s.k.fds[q.user];
    }
  }

  lemma RoundKeepsRecord(s0: State, s: State, s2: State, p: Parking, q: Parking)
    requires WfKernel(s.k) && UserOk(s0, s, q) && TrueRecord(s0, s, q) && Round(s, s2, p) && Carried(s, s2)
    requires q.user != p.user && q.user != p.saved && q.saved != p.user && q.saved != p.saved
    requires |s0.registry| <= |s.registry|
    ensures TrueRecord(s0, s2, q)
  {
    assert s2.k.fds[q.user] == s.k.fds[q.user] && s2.k.fds[q.saved] == s.k.fds[q.saved];
    forall i | Live(s2, i) && s2.table[i].key == Ino(s2.k, q.saved)
      ensures Number(s2, Backing(i)) >= 0
    {
      assert Kept(s, s2, i) && Ino(s.k, q.saved) == s.table[i].key;
    }
    if Unlost(s0, s2, q.user) {
      UnlostBefore(s0, s, s2, q.user);
    }
  }

  lemma RoundKeepsRecords(s0: State, s: State, s2: State, p: Parking, rest: seq<Parking>)
    requires WfKernel(s.k) && Round(s, s2, p) && Carried(s, s2) && |s0.registry| <= |s.registry|
    requires SavedsApart([p] + rest) && DistinctUsers([p] + rest) && RecordsTrue(s0, s, [p] + rest)
    requires forall j :: 0 <= j < |[p] + rest| ==> UserOk(s0, s, ([p] + rest)[j])
    ensures RecordsTrue(s0, s2, rest) && forall j :: 0 <= j < |rest| ==> UserOk(s0, s2, rest[j])
  {
    RestConsists(p, rest);
    forall j | 0 <= j < |rest|
      ensures TrueRecord(s0, s2, rest[j]) && UserOk(s0, s2, rest[j])
    {
      assert ([p] + rest)[j + 1] == rest[j] && rest[j].user in Users(rest) && rest[j].saved in Saveds(rest);
      RoundKeepsUser(s0, s, s2, p, rest[j]);
      RoundKeepsRecord(s0, s, s2, p, rest[j]);
    }
  }

  /** Where the restore stands after a round, but for what is lent. */
  ghost predicate SavedRest(s0: State, s: State, rest: seq<Parking>) {
    && Carried(s0, s) && HeldStay(s0, s) && InPlace(s0, s, Users(rest), Saveds(rest))
    && AppsKeep(s0, s, Users(rest)) && DistinctUsers(rest) && SavedsApart(rest) && RecordsTrue(s0, s, rest)
    && (forall j :: 0 <= j < |rest| ==> UserOk(s0, s, rest[j]))
  }

  lemma SavedRestStep(s0: State, s: State, s2: State, p: Parking, rest: seq<Parking>)
    requires Valid(s0) && SavedFully(s0, s, [p] + rest) && Valid(s) && Valid(s2)
    requires Round(s, s2, p) && Unmoved(s, s2) && Carried(s, s2) && HeldStay(s, s2) && s2.lent == s.lent
    requires forall n :: n >= 0 && Internal(s2, n) ==> Internal(s, n)
    ensures SavedRest(s0, s2, rest)
  {
    RestConsists(p, rest);
    assert TrueRecord(s0, s, ([p] + rest)[0]);
    assert Carried(s0, s2) by { CarriedTrans(s0, s, s2); }
    assert HeldStay(s0, s2) by { HeldStayTrans(s0, s, s2); }
    RoundInPlace(s0, s, s2, p, rest);
    assert p.saved in s0.k.fds ==> Internal(s0, p.saved) by {
      assert p.saved in s0.k.fds ==> !Unlost(s0, s, p.saved);
    }
    RoundKeepsApps(s0, s, s2, p, rest);
    RoundKeepsRecords(s0, s, s2, p, rest);
  }

  /** The number of a lent probe belonged to no entry that is gone, so it is as before. */
  lemma LentIsUnlost(s0: State, s: State, i: int)
    requires Valid(s0) && s0.lent == {} && Carried(s0, s) && Lendings(s) && Probe(i) in s.lent
    ensures Number(s0, Probe(i)) == Raw(s, Probe(i)) >= 0 && Unlost(s0, s, Raw(s, Probe(i)))
  {
    assert Live(s, i) && ProbeStays(s0, s, i) && Kept(s0, s, i);
  }

  /** The probe that was lent at p.user, if one was, is the library's again. */
  lemma ReclaimStep(s0: State, s: State, p: Parking, rest: seq<Parking>)
    requires Valid(s0) && s0.lent == {} && SavedRest(s0, s, rest) && LentRecorded(s, [p] + rest)
    requires SavedsApart([p] + rest) && DistinctUsers([p] + rest) && !Internal(s, p.user) && p.user in s0.k.fds
    ensures SavedFully(s0, TakeBack(s, p.user), rest)
  {
    var s' := TakeBack(s, p.user);
    RestConsists(p, rest);
    assert Valid(s') && ProbeLent(s, s', p.user) && s'.lent <= s.lent by {
      TakeBackIs(s, p.user);
      Reclaim(s, s', p.user);
      ReclaimedProbe(s, s', p.user);
    }
    ReclaimedLent(s0, s, p, rest);
    assert Carried(s0, s') by { UnlentIsCarried(s0, s, s', p.user); }
    assert HeldStay(s0, s') by {
      UnlabelHeld(s, s', p.user);
      HeldStayTrans(s0, s, s');
    }
    ReclaimedInPlace(s0, s, s', p.user, Users(rest), Saveds(rest));
    ReclaimedApps(s0, s, s', p.user, Users(rest));
    ReclaimedRecords(s0, s, s', p.user, rest);
  }

  lemma ReclaimedLent(s0: State, s: State, p: Parking, rest: seq<Parking>)
    requires Valid(s0) && s0.lent == {} && SavedRest(s0, s, rest) && LentRecorded(s, [p] + rest) && !Internal(s, p.user)
    requires Users([p] + rest) == Users(rest) + {p.user} && Saveds([p] + rest) == Saveds(rest) + {p.saved}
    requires p.user in s0.k.fds && p.user !in Users(rest)
    ensures LentRecorded(TakeBack(s, p.user), rest)
  {
    TakeBackIs(s, p.user);
    forall i | Probe(i) in TakeBack(s, p.user).lent
      ensures Raw(s, Probe(i)) in Users(rest) && Raw(s, Probe(i)) !in Saveds(rest)
    {
      LentIsUnlost(s0, s, i);
      if Raw(s, Probe(i)) == p.user {
        LentComesBack(s0, s, p.user, i);
      }
    }
  }

  /** Whatever is internal anew was so at the start. */
  lemma ReclaimedFrom(s0: State, s: State, s': State, u: int)
    requires Valid(s0) && s0.lent == {} && Carried(s0, s) && Lendings(s) && BackingsThere(s) && s'.lent <= s.lent
    requires Relabelled(s, s', u)
    ensures forall r :: Number(s', r) >= 0 ==> Number(s, r) == Number(s', r) || Number(s0, r) == Number(s', r)
  {
    forall r | Number(s', r) >= 0
      ensures Number(s, r) == Number(s', r) || Number(s0, r) == Number(s', r)
    {
      if r in s.lent {
        LentIsUnlost(s0, s, r.i);
      }
    }
  }

  lemma ReclaimedInPlace(s0: State, s: State, s': State, u: int, users: set<int>, saveds: set<int>)
    requires Valid(s0) && s0.lent == {} && Carried(s0, s) && Lendings(s) && BackingsThere(s) && s'.lent <= s.lent
    requires Relabelled(s, s', u) && u in s0.k.fds && WfKernel(s.k) && WfKernel(s0.k) && InPlace(s0, s, users, saveds)
    ensures InPlace(s0, s', users, saveds)
  {
    assert forall n :: Unlost(s0, s', n) == Unlost(s0, s, n);
    ReclaimedFrom(s0, s, s', u);
  }

  lemma ReclaimedApps(s0: State, s: State, s': State, u: int, users: set<int>)
    requires Valid(s0) && s0.lent == {} && Carried(s0, s) && Lendings(s) && BackingsThere(s) && s'.lent <= s.lent
    requires Relabelled(s, s', u) && AppsKeep(s0, s, users)
    ensures AppsKeep(s0, s', users)
  {
    ReclaimedFrom(s0, s, s', u);
    forall n | n in s0.k.fds && n !in users && !Internal(s0, n)
      ensures !Internal(s', n)
    {
      assert forall r :: Number(s', r) == n ==> Number(s, r) == n;
    }
  }

  lemma ReclaimedRecords(s0: State, s: State, s': State, u: int, rest: seq<Parking>)
    requires WfKernel(s.k) && ProbeLent(s, s', u) && RecordsTrue(s0, s, rest) && u >= 0
    requires (forall j :: 0 <= j < |rest| ==> UserOk(s0, s, rest[j])) && u !in Users(rest) && u !in Saveds(rest)
    ensures RecordsTrue(s0, s', rest) && forall j :: 0 <= j < |rest| ==> UserOk(s0, s', rest[j])
  {
    assert forall n :: Unlost(s0, s', n) == Unlost(s0, s, n);
    forall j | 0 <= j < |rest|
      ensures TrueRecord(s0, s', rest[j]) && UserOk(s0, s', rest[j])
    {
      assert UserOk(s0, s, rest[j]) && TrueRecord(s0, s, rest[j]) && rest[j].user in Users(rest);
      assert rest[j].saved in Saveds(rest);
    }
  }

  /** One round of the restore loop: put the wrap back, then drop the parking descriptor. */
  method RestoreOne(lib: Library, ps: seq<Parking>, j: nat, ghost s0: State)
    requires Valid(lib.S()) && j < |ps| && Valid(s0) && s0.lent == {} && StillOut(lib.S(), ps, j)
    modifies lib
    ensures StillOut(lib.S(), ps, j + 1) && Unmoved(old(lib.S()), lib.S()) && Carried(old(lib.S()), lib.S())
    ensures lib.k.dup3Faults == old(lib.k).dup3Faults && SavedFully(s0, old(lib.S()), ps[j..]) ==>
              SavedFully(s0, lib.S(), ps[j + 1..])
  {
    ghost var s := lib.S();
    var r; ghost var s1;
    r, s1 := SwapBack(lib, ps[j]);
    ghost var s2 := lib.S();
    RoundDone(s0, s, s1, s2, ps, j, r);
    lib.lent := TakeBack(lib.S(), ps[j].user).lent;
    assert lib.S() == TakeBack(s2, ps[j].user);
  }

  lemma RoundDone(s0: State, s: State, s1: State, s2: State, ps: seq<Parking>, j: nat, r: int)
    requires Valid(s0) && s0.lent == {} && j < |ps| && StillOut(s, ps, j) && Valid(s) && Valid(s1) && Valid(s2)
    requires CallEffect(s, s1, ps[j].user) && (ps[j].user in s1.k.fds ==> !Internal(s1, ps[j].user))
    requires ps[j].saved in s.k.fds ==> DupResult(s.k, s1.k, ps[j].saved, ps[j].user, ps[j].cloexec, r)
    requires CallEffect(s1, s2, ps[j].saved) && ps[j].saved !in s2.k.fds && !Internal(s1, ps[j].saved)
    ensures var s3 := TakeBack(s2, ps[j].user);
            && Valid(s3) && StillOut(s3, ps, j + 1) && Unmoved(s, s3) && Carried(s, s3)
            && (s2.k.dup3Faults == s.k.dup3Faults && SavedFully(s0, s, ps[j..]) ==> SavedFully(s0, s3, ps[j + 1..]))
  {
    SwapBackUnmoved(s, s1, s2, ps[j]);
    TakeBackStep(s, s2, ps, j);
    if s2.k.dup3Faults == s.k.dup3Faults && SavedFully(s0, s, ps[j..]) {
      RoundFully(s0, s, s1, s2, ps, j, r);
    }
  }

  lemma RoundFully(s0: State, s: State, s1: State, s2: State, ps: seq<Parking>, j: nat, r: int)
    requires Valid(s0) && s0.lent == {} && j < |ps| && SavedFully(s0, s, ps[j..]) && Valid(s) && Valid(s1) && Valid(s2)
    requires CallEffect(s, s1, ps[j].user) && (ps[j].user in s1.k.fds ==> !Internal(s1, ps[j].user))
    requires ps[j].saved in s.k.fds ==> DupResult(s.k, s1.k, ps[j].saved, ps[j].user, ps[j].cloexec, r)
    requires CallEffect(s1, s2, ps[j].saved) && ps[j].saved !in s2.k.fds && s2.k.dup3Faults == s.k.dup3Faults
    requires Unmoved(s, s2) && Carried(s, s2) && !Internal(s1, ps[j].saved)
    requires forall n :: n >= 0 && Internal(s2, n) ==> Internal(s, n)
    ensures SavedFully(s0, TakeBack(s2, ps[j].user), ps[j + 1..])
  {
    HeadAndTail(ps, j);
    assert Round(s, s2, ps[j]) && HeldStay(s, s2) by {
      RoundIsMade(s0, s, s1, s2, ps[j], ps[j + 1..], r);
    }
    assert s2.lent == s.lent;
    RoundEnds(s0, s, s2, ps[j], ps[j + 1..]);
  }

  lemma RoundEnds(s0: State, s: State, s2: State, p: Parking, rest: seq<Parking>)
    requires Valid(s0) && s0.lent == {} && Valid(s) && Valid(s2) && SavedFully(s0, s, [p] + rest)
    requires Round(s, s2, p) && HeldStay(s, s2) && Unmoved(s, s2) && Carried(s, s2) && s2.lent == s.lent
    requires forall n :: n >= 0 && Internal(s2, n) ==> Internal(s, n)
    ensures SavedFully(s0, TakeBack(s2, p.user), rest)
  {
    assert SavedRest(s0, s2, rest) by { SavedRestStep(s0, s, s2, p, rest); }
    LentStaysRecorded(s, s2, [p] + rest);
    HeadIsTrue(s0, s, p, rest);
    ReclaimStep(s0, s2, p, rest);
  }

  lemma RoundIsMade(s0: State, s: State, s1: State, s2: State, p: Parking, rest: seq<Parking>, r: int)
    requires SavedFully(s0, s, [p] + rest) && Valid(s) && Valid(s1) && Valid(s2)
    requires CallEffect(s, s1, p.user) && (p.user in s1.k.fds ==> !Internal(s1, p.user))
    requires p.saved in s.k.fds ==> DupResult(s.k, s1.k, p.saved, p.user, p.cloexec, r)
    requires CallEffect(s1, s2, p.saved) && p.saved !in s2.k.fds && s2.k.dup3Faults == s.k.dup3Faults
    requires !Internal(s1, p.saved)
    ensures Round(s, s2, p) && HeldStay(s, s2)
  {
    RestConsists(p, rest);
    HeadIsTrue(s0, s, p, rest);
    assert s1.k.dup3Faults == s.k.dup3Faults;
    assert p.user in s1.k.fds;
    SwapBackIsRound(s, s1, s2, p, r);
    assert Carried(s, s1) by { ExternalCall(s, s1, p.user); }
    assert Carried(s1, s2) by { ExternalCall(s1, s2, p.saved); }
    RoundHolds(s, s1, s2, p);
  }

  lemma HeadIsTrue(s0: State, s: State, p: Parking, rest: seq<Parking>)
    requires SavedFully(s0, s, [p] + rest)
    ensures UserOk(s0, s, p) && TrueRecord(s0, s, p)
  {
    assert ([p] + rest)[0] == p;
  }

  /** Where the restore of a save that left s stands when the records before j are done. */
  ghost predicate Restoring(s0: State, s: State, s': State, ps: seq<Parking>, j: nat) {
    && j <= |ps| && StillOut(s', ps, j) && Unmoved(s, s') && Carried(s, s')
    && (SavedFully(s0, s, ps) && s'.k.dup3Faults == s.k.dup3Faults ==> SavedFully(s0, s', ps[j..]))
  }

  lemma RestoringBegins(s0: State, s: State, ps: seq<Parking>)
    requires Valid(s) && StillOut(s, ps, 0)
    ensures Restoring(s0, s, s, ps, 0)
  {
    assert ps[0..] == ps;
  }

  lemma RestoringStep(s0: State, s: State, s1: State, s2: State, ps: seq<Parking>, j: nat)
    requires Inv(s) && Restoring(s0, s, s1, ps, j) && j < |ps|
    requires StillOut(s2, ps, j + 1) && Unmoved(s1, s2) && Carried(s1, s2)
    requires s2.k.dup3Faults == s1.k.dup3Faults && SavedFully(s0, s1, ps[j..]) ==> SavedFully(s0, s2, ps[j + 1..])
    ensures Restoring(s0, s, s2, ps, j + 1)
  {
    UnmovedTrans(s, s1, s2);
    CarriedTrans(s, s1, s2);
  }

  /**
    wslcompat_synth_preexec_restore: adds no entry and moves no view, whatever the records; and
    undoes a save whose records tell all, unless dup3 itself fails.
  */
  method Restore(lib: Library, ps: seq<Parking>, ghost s0: State)
    requires Valid(s0) && s0.lent == {} && Valid(lib.S()) && StillOut(lib.S(), ps, 0)
    modifies lib
    ensures Unmoved(old(lib.S()), lib.S()) && Carried(old(lib.S()), lib.S())
    ensures SavedFully(s0, old(lib.S()), ps) && lib.k.dup3Faults == old(lib.k).dup3Faults ==>
              SavedFully(s0, lib.S(), [])
  {
    ghost var s := lib.S();
    RestoringBegins(s0, s, ps);
    var j := 0;
    while j < |ps|
      invariant 0 <= j <= |ps| && Restoring(s0, s, lib.S(), ps, j)
    {
      ghost var s1 := lib.S();
      RestoreOne(lib, ps, j, s0);
      RestoringStep(s0, s, s1, lib.S(), ps, j);
      j := j + 1;
    }
    assert ps[|ps|..] == [];
  }

  // ---------------------------------------------------------------- a failed exec

  /**
    After a failed exec: every entry that was not waiting to be released is still there, every number
    that was open, and not the number of an entry that is gone, names the same description with the
    same flag, no parking descriptor is left, and no number of the application has become the library's.
  */
  ghost predicate Restored(s0: State, s: State) {
    && Valid(s) && s.lent == {} && HeldStay(s0, s) && NoNewEntries(s0, s)
    && NamesStay(s0, s, {}) && OthersStay(s0, s) && OnlyInternalNew(s0, s, {})
  }

  /** The state after a failed exec is the state before, but for probes that moved. */
  ghost predicate RoundTrip(s0: State, s: State) {
    && Valid(s) && s.lent == {} && SameLive(s0, s)
    && NamedAlike(s0, s, {}) && OthersStay(s0, s)
    && OnlyInternalNew(s0, s, {})
  }

  /** The application's numbers have not become the library's. */
  ghost predicate OthersStay(s0: State, s: State) {
    forall n :: n in s0.k.fds && !Internal(s0, n) ==> !Internal(s, n)
  }

  lemma OthersStayOut(s0: State, s1: State, s2: State, ps: seq<Parking>)
    requires Inv(s0) && s0.lent == {} && SavedWeakly(s0, s1, ps) && Unmoved(s1, s2) && Inv(s1) && Inv(s2)
    ensures OthersStay(s0, s2)
  {
    forall n | n in s0.k.fds && Internal(s2, n)
      ensures Internal(s0, n)
    {
      var r :| Number(s2, r) == n;
      assert IsRef(s1, r) && IsRef(s2, r);
      if r in s1.lent {
        assert ProbeStays(s0, s1, r.i) && Number(s0, r) == n;
      } else {
        assert Number(s1, r) == n;
        assert forall j :: 0 <= j < |ps| ==> UserOk(s0, s1, ps[j]);
      }
    }
  }

  /** The probes that moved are those of the entries with a backing, where they have room to. */
  ghost predicate ProbesMoved(s0: State, s: State) {
    forall i :: Live(s, i) ==>
      (Raw(s, Probe(i)) != Raw(s0, Probe(i)) <==>
         Number(s0, Probe(i)) >= 0 && Number(s0, Backing(i)) >= 0 && RefRoom(s0, Probe(i)))
  }

  lemma ExecMovesProbes(s0: State, s1: State, s2: State, ps: seq<Parking>)
    requires Valid(s0) && s0.lent == {} && SavedWeakly(s0, s1, ps) && Complete(s0, s1, ps) && Unmoved(s1, s2)
    ensures ProbesMoved(s0, s2)
  {
    forall i | Live(s2, i)
      ensures Raw(s2, Probe(i)) != Raw(s0, Probe(i)) <==>
                Number(s0, Probe(i)) >= 0 && Number(s0, Backing(i)) >= 0 && RefRoom(s0, Probe(i))
    {
      assert Kept(s1, s2, i) && Kept(s0, s1, i) && ProbeStays(s0, s1, i);
      if Number(s0, Probe(i)) >= 0 && Number(s0, Backing(i)) >= 0 && RefRoom(s0, Probe(i)) {
        ProbeMoves(s0, s1, ps, i);
      }
    }
  }

  lemma ProbeMoves(s0: State, s1: State, ps: seq<Parking>, i: int)
    requires Valid(s0) && s0.lent == {} && SavedWeakly(s0, s1, ps) && Complete(s0, s1, ps) && Live(s1, i)
    requires Number(s0, Probe(i)) >= 0 && Number(s0, Backing(i)) >= 0 && RefRoom(s0, Probe(i))
    ensures Raw(s1, Probe(i)) != Raw(s0, Probe(i))
  {
    var u := Number(s0, Probe(i));
    assert Kept(s0, s1, i) && ProbeStays(s0, s1, i) && EntryOk(s0, i);
    assert s0.k.fds[u].ofd == Original(s0, Probe(i));
    assert BackedBy(s0, u, i);
    assert u in Users(ps) && !Internal(s1, u);
    assert Probe(i) !in s1.lent && Number(s1, Probe(i)) == Raw(s1, Probe(i));
  }

  /** Without failures, and with every candidate saved. */
  lemma ExecEnds(s0: State, s1: State, s2: State, ps: seq<Parking>)
    requires Valid(s0) && s0.lent == {} && SavedWeakly(s0, s1, ps) && Complete(s0, s1, ps) && UnheldLost(s0, s1)
    requires Unmoved(s1, s2)
    ensures ProbesMoved(s0, s2) && UnheldLost(s0, s2)
    ensures RoundTrip(s0, s2) ==> WrapsHeld(s0)
  {
    ExecMovesProbes(s0, s1, s2, ps);
    assert forall i :: Live(s2, i) ==> Live(s1, i);
  }

  lemma SavedIsRestored(s0: State, s: State)
    requires SavedFully(s0, s, []) && OthersStay(s0, s)
    ensures Restored(s0, s)
  {
    assert forall r :: r !in s.lent;
  }

  /** Where nobody was waiting to be released, that is a round trip. */
  lemma RestoredIsRoundTrip(s0: State, s: State)
    requires Valid(s0) && Restored(s0, s) && WrapsHeld(s0) && Carried(s0, s)
    ensures RoundTrip(s0, s)
  {
    forall i | Live(s0, i)
      ensures Kept(s0, s, i) && s.table[i].refcount == s0.table[i].refcount
    {
      assert !Doomed(s0, i) && Live(s, i);
    }
    forall n | n in s0.k.fds
      ensures Unlost(s0, s, n)
    {
      assert forall r: Ref :: IsRef(s0, r) && !r.Registered? ==> Kept(s0, s, r.i);
    }
  }

  /** What is still lent at the end was stuck at the start. */
  lemma OnlyStuckIsLent(s0: State, s: State, i: int)
    requires Valid(s0) && s0.lent == {} && Carried(s0, s) && Probe(i) in s.lent
    ensures Live(s0, i) && !RefRoom(s0, Probe(i)) && Number(s0, Probe(i)) >= 0
  {
    assert Live(s, i) && ProbeStays(s0, s, i);
  }

  /**
    An exec that fails, as the exec shims run it: save, the failing call, restore. If dup3 does not
    fail while restoring, and no entry that waits to be released has its probe among the numbers used for
    parking, then for any mix of wraps, duplicates of wraps, entries without a backing, stuck probes and
    failed parks everything but those entries is restored. If no entry waits, this is a round trip: every
    number open before names the same description with the same close-on-exec flag, every live entry is
    live with the same references, and no parking descriptor remains. Without failures, and with at most
    SYNTH_PREEXEC_MAX matching descriptors, the entries that waited are gone, so that it is a round trip
    exactly when there was none; and the probes that moved are exactly those that had room to, of the
    entries with a backing. A probe that is left on another description was stuck.
  */
  method FailedExec(lib: Library) returns (ghost faults: nat)
    requires Valid(lib.S()) && lib.lent == {}
    modifies lib
    ensures Carried(old(lib.S()), lib.S()) && OthersStay(old(lib.S()), lib.S())
    ensures old(lib.k).dup3Faults <= faults <= lib.k.dup3Faults
    ensures forall r :: r in lib.lent ==> r.Probe? && Stuck(old(lib.S()), Number(old(lib.S()), r))
    ensures DoomedLow(old(lib.S())) && lib.k.dup3Faults == faults ==> Restored(old(lib.S()), lib.S())
    ensures WrapsHeld(old(lib.S())) && lib.k.dup3Faults == faults ==> RoundTrip(old(lib.S()), lib.S())
    ensures |Matching(old(lib.S()))| <= SYNTH_PREEXEC_MAX && NoFaults(old(lib.S()), lib.S()) ==>
              && (RoundTrip(old(lib.S()), lib.S()) <==> WrapsHeld(old(lib.S())))
              && ProbesMoved(old(lib.S()), lib.S()) && UnheldLost(old(lib.S()), lib.S())
  {
    ghost var s0 := lib.S();
    var ps := Save(lib);
    ghost var s1 := lib.S();
    faults := lib.k.dup3Faults;
    SavedAreOut(s0, s1, ps);
    Restore(lib, ps, s0);
    CarriedTrans(s0, s1, lib.S());
    OthersStayOut(s0, s1, lib.S(), ps);
    forall r | r in lib.lent
      ensures r.Probe? && Stuck(s0, Number(s0, r))
    {
      OnlyStuckIsLent(s0, lib.S(), r.i);
    }
    if DoomedLow(s0) && lib.k.dup3Faults == faults {
      SavedIsRestored(s0, lib.S());
    }
    if WrapsHeld(s0) && lib.k.dup3Faults == faults {
      RestoredIsRoundTrip(s0, lib.S());
    }
    if |Matching(s0)| <= SYNTH_PREEXEC_MAX && NoFaults(s0, lib.S()) {
      ExecEnds(s0, s1, lib.S(), ps);
    }
  }

  lemma SavedAreOut(s0: State, s: State, ps: seq<Parking>)
    requires SavedWeakly(s0, s, ps)
    ensures StillOut(s, ps, 0)
  {
    forall j | 0 <= j < |ps|
      ensures ps[j].user >= 0 && ps[j].saved >= 0
    {
      assert UserOk(s0, s, ps[j]);
    }
  }

  /**
    The round trip is not free: the old number of a probe that moved stays open, unrecorded. It is
    on the entry's inode, so from then on closing the wrap no longer releases the entry while a
    fork child holds it.
  */
  lemma MovedProbeStaysOpen(s0: State, s: State, i: int)
    requires Valid(s0) && s0.lent == {} && RoundTrip(s0, s) && ProbesMoved(s0, s) && Live(s0, i)
    requires Number(s0, Probe(i)) >= 0 && Number(s0, Backing(i)) >= 0 && RefRoom(s0, Probe(i))
    ensures Number(s0, Probe(i)) in s.k.fds && s.k.fds[Number(s0, Probe(i))].ofd == s.table[i].probeOfd
    ensures Number(s, Probe(i)) != Number(s0, Probe(i))
    ensures Contested(s.k, s.table[i].probeOfd) ==> !ShouldRelease(s, i)
  {
    assert Kept(s0, s, i) && EntryOk(s, i);
    assert Ino(s.k, Number(s0, Probe(i))) == s.table[i].key;
  }
}
