/**
  Carrying wraps across exec. The library's state cannot follow an exec, so before it every wrap
  is replaced at its number by the backing descriptor and parked at a high close-on-exec number.
  This module is about one such swap, and about what every call on the way keeps.
*/
module Parkings {
  import opened DescriptorView
  import opened KernelState
  import opened SynthState
  import opened SynthLemmas
  import opened SynthEffects
  import opened SynthTable
  import opened Lending

  /** One parked wrap: where the application has it, where it is parked, and its close-on-exec flag. */
  datatype Parking = Parking(user: int, saved: int, cloexec: bool)

  datatype Outcome = NotParked | Parked(at: Parking)

  /** Entry i is this process's, can be probed, and its lock is free: the next close on its inode releases it. */
  ghost predicate Unheld(s: State, i: int) {
    && Live(s, i) && s.table[i].installer == s.self && Number(s, Probe(i)) >= 0
    && !Contested(s.k, s.table[i].probeOfd)
  }

  /** Entry i has a backing and is waiting to be released: a save will be what releases it. */
  ghost predicate Doomed(s: State, i: int) {
    Unheld(s, i) && Number(s, Backing(i)) >= 0
  }

  ghost predicate WrapsHeld(s: State) {
    forall i :: !Doomed(s, i)
  }

  /** No entry is lost but those that were waiting for it, and no other begins to. */
  ghost predicate HeldStay(s: State, s': State) {
    forall i :: Live(s, i) && !Doomed(s, i) ==> Live(s', i) && !Doomed(s', i)
  }

  /** Every live entry is still live, with the same references, and there is no other. */
  ghost predicate SameLive(s: State, s': State) {
    && (forall i :: Live(s, i) ==> Kept(s, s', i) && s'.table[i].refcount == s.table[i].refcount)
    && (forall i :: Live(s', i) ==> Live(s, i))
  }

  // ---------------------------------------------------------------- nothing is lost

  /**
    A call that only takes the number u, whose description stays open at `spare` if it is on the
    entry's inode, does not free the lock of entry i.
  */
  lemma StaysContested(s: State, s': State, i: int, u: int, spare: int)
    requires Inv(s) && Inv(s') && Live(s, i) && Contested(s.k, s.table[i].probeOfd)
    requires Effect(s, s', {u}) && (forall o :: o in s.k.locks ==> o in s'.k.locks)
    requires Ino(s.k, u) == s.table[i].key && u in s.k.fds ==>
               spare in s'.k.fds && s'.k.fds[spare].ofd == s.k.fds[u].ofd
    ensures Contested(s'.k, s.table[i].probeOfd)
  {
    var p := s.table[i].probeOfd;
    assert EntryOk(s, i);
    var o :| o in s.k.locks && o != p && Alive(s.k, o) && InoOf(s.k, o) == InoOf(s.k, p);
    if o !in s.k.foreign {
      var fd :| fd in s.k.fds && s.k.fds[fd].ofd == o;
      if fd != u {
        assert fd != Number(s, Probe(i));
        OnInodeIsExternal(s, i, fd);
      } else {
        assert HeldHere(s'.k, o);
      }
    }
    assert Alive(s'.k, o);
  }

  /** So it does not release the entry, if it is held. */
  lemma HeldSurvives(s: State, s': State, i: int, u: int, spare: int)
    requires Inv(s) && Inv(s') && CallEffect(s, s', u) && Live(s, i)
    requires Ino(s.k, u) == s.table[i].key ==> !Unheld(s, i)
    requires Ino(s.k, u) == s.table[i].key && u in s.k.fds ==>
               spare in s'.k.fds && s'.k.fds[spare].ofd == s.k.fds[u].ofd
    ensures Live(s', i)
  {
    if !Live(s', i) {
      assert Ino(s.k, u) == s.table[i].key && u in s.k.fds;
      assert Ino(s'.k, spare) == s.table[i].key && spare != -1;
      assert OtherOn(s'.k, -1, s.table[i].key);
      StaysContested(s, s', i, u, spare);
    }
  }

  /** Nor does it leave another one waiting; every entry on the inode of u has a backing. */
  lemma HeldStays(s: State, s': State, u: int, spare: int)
    requires Inv(s) && Inv(s') && CallEffect(s, s', u) && Carried(s, s')
    requires forall i :: Live(s, i) && s.table[i].key == Ino(s.k, u) ==> Number(s, Backing(i)) >= 0
    requires (exists i :: Live(s, i) && s.table[i].key == Ino(s.k, u)) && u in s.k.fds ==>
               spare in s'.k.fds && s'.k.fds[spare].ofd == s.k.fds[u].ofd
    ensures HeldStay(s, s')
  {
    forall i | Live(s, i) && !Doomed(s, i)
      ensures Live(s', i) && !Doomed(s', i)
    {
      HeldSurvives(s, s', i, u, spare);
      assert Kept(s, s', i) && ProbeStays(s, s', i);
      if Contested(s.k, s.table[i].probeOfd) {
        StaysContested(s, s', i, u, spare);
      }
    }
  }

  lemma HeldStayTrans(s0: State, s1: State, s2: State)
    requires HeldStay(s0, s1) && HeldStay(s1, s2)
    ensures HeldStay(s0, s2)
  {
  }

  ghost predicate SameWorld(s0: State, s: State) {
    && SameProcess(s0, s) && s.k.limit == s0.k.limit && FaultsGrow(s0.k, s.k)
    && (forall o :: o in s0.k.inode ==> InoOf(s.k, o) == InoOf(s0.k, o))
  }

  ghost predicate NoFaults(s0: State, s: State) {
    s.k.dupFaults == s0.k.dupFaults && s.k.dup3Faults == s0.k.dup3Faults
  }

  /** The inodes of wraps: no lock has come on one but through a probe. */
  ghost predicate NoNewLocks(s: State, s': State) {
    forall i :: Live(s', i) && Contested(s'.k, s'.table[i].probeOfd) ==> Contested(s.k, s'.table[i].probeOfd)
  }

  /** The probe of entry i stays where it is unless it has room to move, and its entry a backing. */
  ghost predicate ProbeStays(s: State, s': State, i: int) {
    && RefRoom(s', Probe(i)) == RefRoom(s, Probe(i))
    && (Raw(s', Probe(i)) != Raw(s, Probe(i)) ==>
          Raw(s, Probe(i)) >= 0 && Number(s, Backing(i)) >= 0 && RefRoom(s, Probe(i)))
  }

  /** No description gets held that was not, and nobody here holds the wrap of an entry that is gone. */
  ghost predicate NothingRevived(s: State, s': State) {
    && (forall o :: o in s.k.inode && HeldHere(s'.k, o) ==> HeldHere(s.k, o))
    && (forall i :: Live(s, i) && !Live(s', i) ==> !HeldHere(s'.k, s.table[i].wrap))
  }

  /**
    What every call of a save or a restore keeps, held or not: no entry is new, backings stay at
    their numbers, only the probe of an entry with a backing moves, and no lock becomes contested.
  */
  ghost predicate Carried(s: State, s': State) {
    && Valid(s') && NoNewEntries(s, s') && SameWorld(s, s') && NoNewLocks(s, s') && NothingRevived(s, s')
    && Lineage(s, s') && (forall r :: IsRef(s', r) ==> RefRoom(s', r) == RefRoom(s, r))
    && (forall i :: Live(s', i) ==> Number(s', Backing(i)) == Number(s, Backing(i)) && ProbeStays(s, s', i))
  }

  lemma CarriedTrans(s0: State, s1: State, s2: State)
    requires Inv(s0) && Carried(s0, s1) && Carried(s1, s2)
    ensures Carried(s0, s2)
  {
    LineageTrans(s0, s1, s2);
    RoomsTrans(s0, s1, s2);
    RevivedTrans(s0, s1, s2);
  }

  lemma RoomsTrans(s0: State, s1: State, s2: State)
    requires NoNewEntries(s1, s2) && |s1.ttys| == |s2.ttys|
    requires forall r :: IsRef(s1, r) ==> RefRoom(s1, r) == RefRoom(s0, r)
    requires forall r :: IsRef(s2, r) ==> RefRoom(s2, r) == RefRoom(s1, r)
    ensures forall r :: IsRef(s2, r) ==> RefRoom(s2, r) == RefRoom(s0, r)
  {
    forall r: Ref | IsRef(s2, r)
      ensures RefRoom(s2, r) == RefRoom(s0, r)
    {
      assert r.Registered? || (Kept(s1, s2, r.i) && IsRef(s1, r));
    }
  }

  lemma RevivedTrans(s0: State, s1: State, s2: State)
    requires Inv(s0) && NothingRevived(s0, s1) && NothingRevived(s1, s2) && NoNewEntries(s0, s1)
    requires forall o :: o in s0.k.inode ==> InoOf(s1.k, o) == InoOf(s0.k, o)
    ensures NothingRevived(s0, s2)
  {
    assert forall o :: o in s0.k.inode ==> o in s1.k.inode;
    forall i | Live(s0, i) && !Live(s2, i)
      ensures !HeldHere(s2.k, s0.table[i].wrap)
    {
      assert EntryOk(s0, i) && s0.table[i].wrap in s1.k.inode;
      assert Live(s1, i) ==> Kept(s0, s1, i);
    }
  }

  /** A lock that is contested after the call was contested before it. */
  lemma CallAddsNoLock(s: State, s': State, t: int, i: int)
    requires Inv(s) && CallEffect(s, s', t) && Live(s', i) && Contested(s'.k, s'.table[i].probeOfd)
    ensures Contested(s.k, s'.table[i].probeOfd)
  {
    var p := s.table[i].probeOfd;
    assert Kept(s, s', i) && EntryOk(s, i);
    var o :| o in s'.k.locks && o != p && Alive(s'.k, o) && InoOf(s'.k, o) == InoOf(s'.k, p);
    forall j | Live(s, j)
      ensures s.table[j].probeOfd != o
    {
      assert EntryOk(s, j);
    }
    assert o in s.k.locks && Alive(s.k, o);
  }

  lemma CallAddsNoLocks(s: State, s': State, t: int)
    requires Inv(s) && CallEffect(s, s', t)
    ensures NoNewLocks(s, s')
  {
    forall i | Live(s', i) && Contested(s'.k, s'.table[i].probeOfd)
      ensures Contested(s.k, s'.table[i].probeOfd)
    {
      CallAddsNoLock(s, s', t, i);
    }
  }

  /** A call on t leaves the backings, if none is there, and moves no probe but that at t. */
  lemma CallMoves(s: State, s': State, t: int, i: int)
    requires NoNewEntries(s, s') && Steady(s, s', {t}) && t >= 0 && Live(s', i)
    requires Number(s, Backing(i)) != t
    requires RoomStays(s, s') && LentStay(s, s')
    ensures Number(s', Backing(i)) == Number(s, Backing(i))
    ensures Raw(s', Probe(i)) != Raw(s, Probe(i)) ==> Number(s, Probe(i)) == t && RefRoom(s, Probe(i))
    ensures RefRoom(s', Probe(i)) == RefRoom(s, Probe(i))
  {
    assert Kept(s, s', i) && IsRef(s', Probe(i));
    assert IsRef(s', Backing(i)) <==> IsRef(s, Backing(i));
  }

  /** A call on t, which is no backing's number, nor the number of a probe without a backing. */
  lemma CallCarries(s: State, s': State, t: int)
    requires Valid(s) && Valid(s') && CallEffect(s, s', t) && t >= 0
    requires forall i :: Live(s, i) && Number(s, Backing(i)) >= 0 ==> Number(s, Backing(i)) != t
    requires forall i :: Live(s, i) && Number(s, Probe(i)) == t ==> Number(s, Backing(i)) >= 0
    ensures Carried(s, s')
  {
    CallAddsNoLocks(s, s', t);
    CallLineage(s, s', t);
    forall i | Live(s', i)
      ensures Number(s', Backing(i)) == Number(s, Backing(i)) && ProbeStays(s, s', i)
    {
      assert Kept(s, s', i);
      CallMoves(s, s', t, i);
    }
  }

  /** A change of the descriptor table alone, in which no description gets held that was not. */
  lemma KernelCarries(s: State, s': State)
    requires Valid(s) && Valid(s') && s' == s.(k := s'.k)
    requires s'.k.inode == s.k.inode && s'.k.locks == s.k.locks && s'.k.foreign == s.k.foreign
    requires s'.k.limit == s.k.limit && s'.k.nextInode == s.k.nextInode
    requires FaultsGrow(s.k, s'.k)
    requires forall o :: HeldHere(s'.k, o) ==> HeldHere(s.k, o)
    ensures Carried(s, s')
  {
    SameButKernel(s, s');
    KernelLineage(s, s'.k);
    forall i | Live(s', i) && Contested(s'.k, s'.table[i].probeOfd)
      ensures Contested(s.k, s'.table[i].probeOfd)
    {
      var p := s.table[i].probeOfd;
      var o :| o in s'.k.locks && o != p && Alive(s'.k, o) && InoOf(s'.k, o) == InoOf(s'.k, p);
      assert Alive(s.k, o);
    }
  }

  // ---------------------------------------------------------------- numbers

  /** Descriptors that appeared are internal, or `but`. */
  ghost predicate OnlyInternalNew(s: State, s': State, but: set<int>) {
    forall n :: n in s'.k.fds && n !in s.k.fds && n !in but ==> Internal(s', n)
  }

  /** Nothing that was open changed, except at the numbers in `but`. */
  ghost predicate NamedAlike(s: State, s': State, but: set<int>) {
    forall n :: n in s.k.fds && n !in but ==> n in s'.k.fds && s'.k.fds[n] == s.k.fds[n]
  }

  /** The application's descriptors are as they were, except at `but`; every other number is close-on-exec. */
  ghost predicate AppsKeep(s: State, s': State, but: set<int>) {
    && (forall n :: n in s.k.fds && n !in but && !Internal(s, n) ==>
          n in s'.k.fds && s'.k.fds[n] == s.k.fds[n] && !Internal(s', n))
    && (forall n :: n in s'.k.fds && n !in but && !(n in s.k.fds && !Internal(s, n)) ==> s'.k.fds[n].cloexec)
  }

  lemma AppsKeepTrans(s0: State, s1: State, s2: State, but: set<int>, more: set<int>)
    requires AppsKeep(s0, s1, but) && AppsKeep(s1, s2, more)
    ensures AppsKeep(s0, s2, but + more)
  {
  }

  lemma InternalIsCloexec(s: State, n: int)
    requires Inv(s) && n in s.k.fds && Internal(s, n)
    ensures s.k.fds[n].cloexec
  {
    var r :| Number(s, r) == n;
    assert Number(s, r) >= 0;
  }

  lemma CallKeepsApps(s: State, s': State, t: int)
    requires Effect(s, s', {t}) && Inv(s')
    ensures AppsKeep(s, s', {t})
  {
    forall n | n in s'.k.fds && Internal(s', n)
      ensures s'.k.fds[n].cloexec
    {
      InternalIsCloexec(s', n);
    }
  }

  // ---------------------------------------------------------------- parking one descriptor

  /** The same descriptions are held, so the same locks are. */
  lemma KernelHolds(s: State, s': State)
    requires s' == s.(k := s'.k)
    requires s'.k.locks == s.k.locks && s'.k.inode == s.k.inode && s'.k.foreign == s.k.foreign
    requires forall o :: HeldHere(s.k, o) ==> HeldHere(s'.k, o)
    ensures HeldStay(s, s')
  {
    SameButKernel(s, s');
    forall i | Live(s, i) && Contested(s.k, s.table[i].probeOfd)
      ensures Contested(s'.k, s.table[i].probeOfd)
    {
      var p := s.table[i].probeOfd;
      var o :| o in s.k.locks && o != p && Alive(s.k, o) && InoOf(s.k, o) == InoOf(s.k, p);
      assert Alive(s'.k, o);
    }
  }

  /** s with one more descriptor n on the description of u. */
  lemma ParkKeeps(s: State, s': State, u: int, n: int)
    requires Valid(s) && u in s.k.fds && 0 <= n < s.k.limit && n !in s.k.fds
    requires s' == s.(k := s.k.(fds := s.k.fds[n := Desc(s.k.fds[u].ofd, true)]))
    ensures Valid(s') && !Internal(s', n) && Carried(s, s') && HeldStay(s, s')
  {
    PutKeeps(s, u, n, true);
    SameButKernel(s, s');
    assert forall r :: Number(s, r) != n;
    ParkHolds(s.k, s'.k, u, n);
    KernelCarries(s, s');
    KernelHolds(s, s');
  }

  lemma ParkHolds(k: Kernel, k': Kernel, u: int, n: int)
    requires u in k.fds && n !in k.fds && k' == k.(fds := k.fds[n := Desc(k.fds[u].ofd, true)])
    ensures forall o :: HeldHere(k', o) <==> HeldHere(k, o)
  {
    forall o
      ensures HeldHere(k', o) <==> HeldHere(k, o)
    {
      if HeldHere(k, o) {
        var fd :| fd in k.fds && k.fds[fd].ofd == o;
        assert k'.fds[fd].ofd == o;
      }
      if HeldHere(k', o) {
        var fd :| fd in k'.fds && k'.fds[fd].ofd == o;
        assert k.fds[if fd == n then u else fd].ofd == o;
      }
    }
  }

  lemma ParkKeepsApps(s: State, s': State, u: int, n: int)
    requires Inv(s) && u in s.k.fds && n !in s.k.fds
    requires s' == s.(k := s.k.(fds := s.k.fds[n := Desc(s.k.fds[u].ofd, true)]))
    ensures AppsKeep(s, s', {})
  {
    SameButKernel(s, s');
    forall m | m in s.k.fds && Internal(s, m)
      ensures s.k.fds[m].cloexec
    {
      InternalIsCloexec(s, m);
    }
  }

  /** The backing of the entry on whose inode u is, if it has one. */
  ghost predicate BackedBy(s: State, u: int, i: int) {
    Live(s, i) && s.table[i].key == Ino(s.k, u) && Number(s, Backing(i)) >= 0
  }

  /** A candidate is no backing's number, and the probe at it, if any, is that of its own entry. */
  lemma CandidateIs(s: State, u: int, i: int)
    requires Inv(s) && BackedBy(s, u, i)
    ensures u >= 0 && u in s.k.fds
    ensures forall j :: Live(s, j) && Number(s, Backing(j)) >= 0 ==> Number(s, Backing(j)) != u
    ensures forall j :: Live(s, j) && Number(s, Probe(j)) == u ==> j == i
  {
    assert EntryOk(s, i);
    forall j | Live(s, j) && Number(s, Backing(j)) >= 0
      ensures Number(s, Backing(j)) != u
    {
      assert s.k.fds[Number(s, Backing(j))].ofd == Original(s, Backing(j));
    }
    forall j | Live(s, j) && Number(s, Probe(j)) == u
      ensures j == i
    {
      InternalOnInode(s, i, Probe(j));
    }
  }

  /**
    What parking one candidate does: u was skipped, or parked as p says. Only entries that were waiting
    to be released are lost, the application's other descriptors stay, and so do all other internal
    numbers; what is new is internal, or the parking descriptor.
  */
  ghost predicate SavedOne(s: State, s': State, u: int, p: Outcome) {
    Carried(s, s') && HeldStay(s, s') && TriedOne(s, s', u, p)
  }

  ghost predicate TriedOne(s: State, s': State, u: int, p: Outcome) {
    && AppsKeep(s, s', if p.Parked? then {u} else {})
    && (forall r :: IsRef(s', r) && Number(s, r) != u ==> Number(s', r) == Number(s, r))
    && OnlyInternalNew(s, s', if p.Parked? then {p.at.saved} else {}) && InternalStay(s, s', u)
    && (p.Parked? ==> SwappedOut(s, s', u, p.at))
    && (p.NotParked? && u in s.k.fds ==> u in s'.k.fds && s'.k.fds[u] == s.k.fds[u])
    && (NoFaults(s, s') ==> Dealt(s, s', u, p))
    && LentMore(s, s', u, p)
  }

  /** An internal number other than u that is still open is still internal. */
  ghost predicate InternalStay(s: State, s': State, u: int) {
    forall n :: n in s.k.fds && n in s'.k.fds && n != u && Internal(s, n) ==> Internal(s', n)
  }

  /** What a park lends is the probe that was stuck at the number. */
  ghost predicate LentMore(s: State, s': State, u: int, p: Outcome) {
    && s.lent <= s'.lent
    && (forall r :: r in s'.lent && r !in s.lent ==> p.Parked? && r.Probe? && Number(s, r) == u && !RefRoom(s, r))
  }

  /** The number u was given to the backing of its entry, and what it named is at p.saved. */
  ghost predicate SwappedOut(s: State, s': State, u: int, p: Parking) {
    && p.user == u && u in s.k.fds && u in s'.k.fds && p.cloexec == s.k.fds[u].cloexec
    && (exists i :: BackedBy(s, u, i) && s'.k.fds[u] == Desc(Original(s, Backing(i)), p.cloexec))
    && !Internal(s', u) && PlainFd(s', u)
    && SLOTS <= p.saved && p.saved !in s.k.fds && (forall m :: SLOTS <= m < p.saved ==> m in s.k.fds)
    && p.saved in s'.k.fds && !Internal(s', p.saved)
    && s'.k.fds[p.saved] == Desc(s.k.fds[u].ofd, true)
  }

  /** Without failures, u was parked if its entry has a backing, and an entry that nobody holds is gone. */
  ghost predicate Dealt(s: State, s': State, u: int, p: Outcome) {
    && (p.Parked? || forall i :: !BackedBy(s, u, i))
    && (forall i :: BackedBy(s, u, i) && Unheld(s, i) ==> !Live(s', i))
  }

  /** No backing is lent. */
  ghost predicate BackingsThere(s: State) {
    forall r :: r in s.lent ==> r.Probe?
  }

  /** Ask the handler of u's entry for the descriptor to leave in its place. */
  method BackingOf(lib: Library, u: int) returns (real_fd: int, ghost i: int)
    requires Valid(lib.S()) && BackingsThere(lib.S())
    modifies lib
    ensures lib.S() == old(lib.S())
    ensures real_fd >= 0 ==> BackedBy(lib.S(), u, i) && real_fd == Number(lib.S(), Backing(i)) && u in lib.k.fds
    ensures real_fd < 0 ==> forall j :: !BackedBy(lib.S(), u, j)
  {
    ghost var s := lib.S();
    var slot := lib.PinFd(u);
    i := slot;
    if slot == -1 {
      return -1, i;
    }
    RecountKeeps(s, slot, 2);
    RecountNumbers(s, slot, 2);
    assert EntryOk(s, slot);
    var t := lib.table[slot].tty;
    real_fd := if t >= 0 then LoadView(lib.ttys[t].backing, lib.table[slot].installer, lib.self) else -1;
    lib.Unpin(slot);
    assert lib.table == s.table;
  }

  lemma BackingIsElsewhere(s: State, u: int, i: int)
    requires Inv(s) && BackedBy(s, u, i)
    ensures Number(s, Backing(i)) in s.k.fds && Number(s, Backing(i)) != u
    ensures s.k.fds[Number(s, Backing(i))].ofd == Original(s, Backing(i))
  {
  }

  /** Nothing to park, or the parking itself failed. */
  lemma NothingIsSaved(s: State, s': State, u: int)
    requires Valid(s) && s' == s.(k := s.k.(dupFaults := s'.k.dupFaults)) && s.k.dupFaults <= s'.k.dupFaults
    requires s'.k.dupFaults == s.k.dupFaults ==> forall i :: !BackedBy(s, u, i)
    ensures SavedOne(s, s', u, NotParked)
  {
    FaultKeeps(s, s');
    SameButKernel(s, s');
    HeldInSub(s.k, s'.k);
    HeldInSub(s'.k, s.k);
    KernelCarries(s, s');
    KernelHolds(s, s');
    CallKeepsApps(s, s', -1);
  }

  /** The states of one attempt: s, then u's description also at n, then the swap at u. */
  ghost predicate Attempt(s: State, s1: State, s2: State, u: int, n: int, i: int) {
    && Valid(s) && BackedBy(s, u, i) && u in s.k.fds && SLOTS <= n < s.k.limit && n !in s.k.fds
    && (forall m :: SLOTS <= m < n ==> m in s.k.fds)
    && s1 == s.(k := s.k.(fds := s.k.fds[n := Desc(s.k.fds[u].ofd, true)]))
    && Valid(s2) && CallEffect(s1, s2, u)
  }

  lemma AttemptCarries(s: State, s1: State, s2: State, u: int, n: int, i: int)
    requires Attempt(s, s1, s2, u, n, i)
    ensures Valid(s1) && Carried(s, s1) && Carried(s1, s2) && Carried(s, s2) && HeldStay(s, s1)
    ensures forall r :: IsRef(s2, r) && Number(s, r) != u ==> Number(s2, r) == Number(s, r)
  {
    ParkKeeps(s, s1, u, n);
    SameButKernel(s, s1);
    assert BackedBy(s1, u, i);
    SwapCarries(s1, s2, u, i);
    CarriedTrans(s, s1, s2);
  }

  lemma SwapCarries(s: State, s': State, u: int, i: int)
    requires Valid(s) && BackedBy(s, u, i) && Valid(s') && CallEffect(s, s', u)
    ensures Carried(s, s')
    ensures forall r :: IsRef(s', r) && Number(s, r) != u ==> Number(s', r) == Number(s, r)
  {
    CandidateIs(s, u, i);
    CallCarries(s, s', u);
  }

  lemma AttemptKeepsApps(s: State, s1: State, s2: State, u: int, n: int, i: int)
    requires Attempt(s, s1, s2, u, n, i)
    ensures AppsKeep(s, s2, {u})
    ensures n in s2.k.fds && s2.k.fds[n] == s1.k.fds[n] && !Internal(s2, n)
  {
    ParkKeeps(s, s1, u, n);
    ParkKeepsApps(s, s1, u, n);
    ParkedKeepsApps(s, s1, s2, u, n);
  }

  lemma ParkedKeepsApps(s: State, s1: State, s2: State, u: int, n: int)
    requires AppsKeep(s, s1, {}) && n != u && n in s1.k.fds && !Internal(s1, n) && Effect(s1, s2, {u}) && Inv(s2)
    ensures AppsKeep(s, s2, {u})
    ensures n in s2.k.fds && s2.k.fds[n] == s1.k.fds[n] && !Internal(s2, n)
  {
    CallKeepsApps(s1, s2, u);
    AppsKeepTrans(s, s1, s2, {}, {u});
    assert {} + {u} == {u};
  }

  /** An entry whose lock is free does not survive the swap, unless a duplication failed. */
  lemma UnheldIsReleased(s: State, s1: State, s2: State, u: int, n: int, i: int)
    requires Attempt(s, s1, s2, u, n, i) && KeptForCause(s2, Ino(s1.k, u))
    requires Unheld(s, i) && s2.k.dupFaults == s1.k.dupFaults
    ensures !Live(s2, i)
  {
    AttemptCarries(s, s1, s2, u, n, i);
    SameButKernel(s, s1);
    assert Live(s2, i) ==> IsRef(s2, Probe(i)) && Number(s2, Probe(i)) >= 0;
    assert Live(s2, i) ==> Kept(s, s2, i);
  }

  /** What is left at u is the backing, which is on no wrap. */
  lemma BackingIsPlain(s: State, s2: State, u: int, i: int)
    requires Inv(s) && BackedBy(s, u, i) && Carried(s, s2)
    requires u in s2.k.fds && s2.k.fds[u].ofd == Original(s, Backing(i))
    ensures PlainFd(s2, u)
  {
    BackingIsElsewhere(s, u, i);
    forall j | 0 <= j < |s2.table| && Live(s2, j)
      ensures s2.table[j].key != Ino(s2.k, u)
    {
      assert Kept(s, s2, j);
      assert IsRef(s, Backing(i)) && InoOf(s.k, Original(s, Backing(i))) != s.table[j].key;
    }
  }

  /** The swap at u succeeded. */
  lemma SwapIsSaved(s: State, s1: State, s2: State, u: int, n: int, i: int)
    requires Attempt(s, s1, s2, u, n, i) && KeptForCause(s2, Ino(s1.k, u))
    requires u in s2.k.fds && s2.k.fds[u] == Desc(Original(s, Backing(i)), s.k.fds[u].cloexec) && !Internal(s2, u)
    ensures SavedOne(s, s2, u, Parked(Parking(u, n, s.k.fds[u].cloexec)))
  {
    var p := Parked(Parking(u, n, s.k.fds[u].cloexec));
    assert Carried(s, s2) && (forall r :: IsRef(s2, r) && Number(s, r) != u ==> Number(s2, r) == Number(s, r)) by {
      AttemptCarries(s, s1, s2, u, n, i);
    }
    assert HeldStay(s, s2) by { AttemptHolds(s, s1, s2, u, n, i); }
    SwapIsTried(s, s1, s2, u, n, i, p);
  }

  lemma SwapIsTried(s: State, s1: State, s2: State, u: int, n: int, i: int, p: Outcome)
    requires Attempt(s, s1, s2, u, n, i) && KeptForCause(s2, Ino(s1.k, u)) && Carried(s, s2)
    requires forall r :: IsRef(s2, r) && Number(s, r) != u ==> Number(s2, r) == Number(s, r)
    requires u in s2.k.fds && s2.k.fds[u] == Desc(Original(s, Backing(i)), s.k.fds[u].cloexec) && !Internal(s2, u)
    requires p == Parked(Parking(u, n, s.k.fds[u].cloexec))
    ensures TriedOne(s, s2, u, p)
  {
    assert OnlyInternalNew(s, s2, {n}) && InternalStay(s, s2, u) by { AttemptNews(s, s1, s2, u, n, i); }
    assert AppsKeep(s, s2, {u}) && SwappedOut(s, s2, u, p.at) by { SwapIsOut(s, s1, s2, u, n, i); }
    assert NoFaults(s, s2) ==> Dealt(s, s2, u, p) by {
      if NoFaults(s, s2) {
        SwapIsDealt(s, s1, s2, u, n, i);
      }
    }
    assert s2.lent == s.lent;
    ParkedIsTried(s, s2, u, p);
  }

  lemma ParkedIsTried(s: State, s': State, u: int, p: Outcome)
    requires p.Parked? && AppsKeep(s, s', {u}) && SwappedOut(s, s', u, p.at) && s'.lent == s.lent
    requires forall r :: IsRef(s', r) && Number(s, r) != u ==> Number(s', r) == Number(s, r)
    requires OnlyInternalNew(s, s', {p.at.saved}) && InternalStay(s, s', u) && (NoFaults(s, s') ==> Dealt(s, s', u, p))
    ensures TriedOne(s, s', u, p)
  {
  }

  lemma SwapIsOut(s: State, s1: State, s2: State, u: int, n: int, i: int)
    requires Attempt(s, s1, s2, u, n, i) && Carried(s, s2)
    requires u in s2.k.fds && s2.k.fds[u] == Desc(Original(s, Backing(i)), s.k.fds[u].cloexec) && !Internal(s2, u)
    ensures AppsKeep(s, s2, {u}) && SwappedOut(s, s2, u, Parking(u, n, s.k.fds[u].cloexec))
    ensures n in s2.k.fds && s2.k.fds[n] == s1.k.fds[n]
  {
    AttemptKeepsApps(s, s1, s2, u, n, i);
    BackingIsPlain(s, s2, u, i);
  }

  lemma SwapIsDealt(s: State, s1: State, s2: State, u: int, n: int, i: int)
    requires Attempt(s, s1, s2, u, n, i) && KeptForCause(s2, Ino(s1.k, u)) && NoFaults(s, s2)
    ensures forall j :: BackedBy(s, u, j) && Unheld(s, j) ==> !Live(s2, j)
  {
    assert forall j :: BackedBy(s, u, j) ==> j == i;
    if Unheld(s, i) {
      UnheldIsReleased(s, s1, s2, u, n, i);
    }
  }

  /** The attempt loses no entry that was not waiting to be released. */
  lemma AttemptHolds(s: State, s1: State, s2: State, u: int, n: int, i: int)
    requires Attempt(s, s1, s2, u, n, i)
    ensures HeldStay(s, s2)
  {
    AttemptCarries(s, s1, s2, u, n, i);
    AttemptKeepsApps(s, s1, s2, u, n, i);
    SameButKernel(s, s1);
    forall j | Live(s1, j) && s1.table[j].key == Ino(s1.k, u)
      ensures j == i && Number(s1, Backing(j)) >= 0
    {
      assert BackedBy(s1, u, i);
    }
    HeldStays(s1, s2, u, n);
    HeldStayTrans(s, s1, s2);
  }

  lemma AttemptNews(s: State, s1: State, s2: State, u: int, n: int, i: int)
    requires Attempt(s, s1, s2, u, n, i)
    ensures OnlyInternalNew(s, s2, {n}) && InternalStay(s, s2, u)
  {
    SameButKernel(s, s1);
  }

  /** The swap failed: the parked duplicate is closed again. */
  lemma UnparkIsSaved(s: State, s1: State, s2: State, s3: State, u: int, n: int, i: int)
    requires Attempt(s, s1, s2, u, n, i) && s2.k.dup3Faults != s.k.dup3Faults
    requires u in s2.k.fds && s2.k.fds[u] == s.k.fds[u] && !Internal(s2, u)
    requires s3 == s2.(k := s2.k.(fds := s2.k.fds - {n}))
    ensures SavedOne(s, s3, u, NotParked)
  {
    AttemptKeepsApps(s, s1, s2, u, n, i);
    assert Carried(s, s2) && (forall r :: IsRef(s2, r) && Number(s, r) != u ==> Number(s2, r) == Number(s, r)) by {
      AttemptCarries(s, s1, s2, u, n, i);
    }
    UnparkCarries(s, s2, s3, n);
    assert HeldStay(s, s3) by {
      AttemptHolds(s, s1, s2, u, n, i);
      UnparkHolds(s, s2, s3, u, n);
    }
    UnparkIsTried(s, s1, s2, s3, u, n, i);
  }

  lemma UnparkIsTried(s: State, s1: State, s2: State, s3: State, u: int, n: int, i: int)
    requires Attempt(s, s1, s2, u, n, i) && s2.k.dup3Faults != s.k.dup3Faults && AppsKeep(s, s2, {u})
    requires u in s2.k.fds && s2.k.fds[u] == s.k.fds[u] && !Internal(s2, u)
    requires s3 == s2.(k := s2.k.(fds := s2.k.fds - {n})) && FaultsGrow(s.k, s2.k)
    requires forall r :: IsRef(s3, r) && Number(s, r) != u ==> Number(s3, r) == Number(s, r)
    ensures TriedOne(s, s3, u, NotParked)
  {
    AttemptNews(s, s1, s2, u, n, i);
    UnparkKeepsApps(s, s2, s3, u, n);
    UnparkNews(s, s2, s3, u, n);
  }

  lemma UnparkCarries(s: State, s2: State, s3: State, n: int)
    requires Inv(s) && Carried(s, s2) && !Internal(s2, n) && s3 == s2.(k := s2.k.(fds := s2.k.fds - {n}))
    ensures Carried(s, s3) && forall r :: IsRef(s3, r) == IsRef(s2, r) && Number(s3, r) == Number(s2, r)
  {
    DropKeeps(s2, n);
    SameButKernel(s2, s3);
    HeldInSub(s2.k, s3.k);
    KernelCarries(s2, s3);
    CarriedTrans(s, s2, s3);
  }

  lemma UnparkNews(s: State, s2: State, s3: State, u: int, n: int)
    requires OnlyInternalNew(s, s2, {n}) && InternalStay(s, s2, u) && s3 == s2.(k := s2.k.(fds := s2.k.fds - {n}))
    ensures OnlyInternalNew(s, s3, {}) && InternalStay(s, s3, u)
  {
    SameButKernel(s2, s3);
  }

  lemma UnparkKeepsApps(s: State, s2: State, s3: State, u: int, n: int)
    requires Inv(s) && AppsKeep(s, s2, {u}) && u in s.k.fds && u in s2.k.fds && s2.k.fds[u] == s.k.fds[u]
    requires !Internal(s2, u)
    requires n !in s.k.fds && n != u && s3 == s2.(k := s2.k.(fds := s2.k.fds - {n}))
    ensures AppsKeep(s, s3, {})
  {
    SameButKernel(s2, s3);
    if Internal(s, u) {
      InternalIsCloexec(s, u);
    }
  }

  lemma UnparkHolds(s: State, s2: State, s3: State, u: int, n: int)
    requires HeldStay(s, s2) && u in s2.k.fds && n in s2.k.fds && n != u && s2.k.fds[n].ofd == s2.k.fds[u].ofd
    requires s3 == s2.(k := s2.k.(fds := s2.k.fds - {n}))
    ensures HeldStay(s, s3)
  {
    forall o | HeldHere(s2.k, o)
      ensures HeldHere(s3.k, o)
    {
      var fd :| fd in s2.k.fds && s2.k.fds[fd].ofd == o;
      assert s3.k.fds[if fd == n then u else fd].ofd == o;
    }
    KernelHolds(s2, s3);
    HeldStayTrans(s, s2, s3);
  }

  // ---------------------------------------------------------------- lending a number

  /** A candidate is not stuck once its probe is lent. */
  lemma LendCandidate(s: State, u: int, i: int)
    requires Inv(s) && BackedBy(s, u, i)
    ensures !Stuck(Lend(s, u), u) && BackedBy(Lend(s, u), u, i)
    ensures Internal(Lend(s, u), u) ==> Lend(s, u) == s
    ensures forall r :: r in Lend(s, u).lent && r !in s.lent ==> r == Probe(i)
  {
    CandidateIs(s, u, i);
    LendUnsticks(s, u);
    LendNumbers(s, u);
    assert forall r :: Number(s, r) == u ==> r == Probe(i) by {
      forall r | Number(s, r) == u
        ensures r == Probe(i)
      {
        InternalOnInode(s, i, r);
      }
    }
    if !RefRoom(s, Probe(i)) {
      assert forall r :: Number(Lend(s, u), r) != u;
    } else {
      assert !Stuck(s, u);
    }
  }

  /** Only whose number u is differs, and no backing is concerned. */
  ghost predicate ProbeLent(s: State, s': State, u: int) {
    Relabelled(s, s', u) && forall j :: Number(s', Backing(j)) == Number(s, Backing(j))
  }

  lemma LendProbe(s: State, u: int, i: int)
    requires Inv(s) && BackedBy(s, u, i)
    ensures ProbeLent(s, Lend(s, u), u)
  {
    CandidateIs(s, u, i);
    LendCandidate(s, u, i);
    LendNumbers(s, u);
  }

  /** What is carried along from the state with u lent is carried along from the state itself. */
  lemma LentIsCarried(s: State, s': State, u: int)
    requires ProbeLent(s, Lend(s, u), u) && Carried(Lend(s, u), s')
    ensures Carried(s, s')
  {
  }

  lemma LentIsHeld(s: State, u: int)
    requires Inv(s) && u >= 0 && ProbeLent(s, Lend(s, u), u)
    ensures forall i :: Unheld(Lend(s, u), i) == Unheld(s, i) && Doomed(Lend(s, u), i) == Doomed(s, i)
    ensures forall i :: BackedBy(Lend(s, u), u, i) == BackedBy(s, u, i)
  {
    LendNumbers(s, u);
  }

  /** The application's descriptors, seen from before u was lent. */
  lemma RelabelApps(s: State, sL: State, s': State, u: int)
    requires WfKernel(s.k) && WfKernel(s'.k) && ProbeLent(s, sL, u) && AppsKeep(sL, s', {u})
    ensures AppsKeep(s, s', {u})
  {
  }

  /** u is the application's while it is lent, and again the library's when it is not. */
  lemma UnlabelApps(s: State, sL: State, s': State, s'': State, u: int)
    requires WfKernel(s.k) && WfKernel(s'.k) && ProbeLent(s, sL, u) && ProbeLent(s', s'', u) && AppsKeep(sL, s', {})
    requires Internal(s, u) && u in s'.k.fds && s'.k.fds[u].cloexec
    ensures AppsKeep(s, s'', {})
  {
  }

  lemma RelabelTried(s: State, s': State, u: int, p: Outcome)
    requires Inv(s) && u >= 0 && WfKernel(s'.k) && ProbeLent(s, Lend(s, u), u)
    requires TriedOne(Lend(s, u), s', u, p) && p.Parked? && s'.lent == Lend(s, u).lent
    requires forall r :: r in s'.lent && r !in s.lent ==> r.Probe?
    ensures TriedOne(s, s', u, p)
  {
    RelabelNumbers(s, s', u, p);
    RelabelApps(s, Lend(s, u), s', u);
    RelabelOut(s, Lend(s, u), s', u, p.at);
    assert NoFaults(s, s') ==> Dealt(s, s', u, p) by { LentIsHeld(s, u); }
  }

  lemma RelabelOut(s: State, sL: State, s': State, u: int, p: Parking)
    requires u >= 0 && ProbeLent(s, sL, u) && SwappedOut(sL, s', u, p)
    ensures SwappedOut(s, s', u, p)
  {
    var i :| BackedBy(sL, u, i) && s'.k.fds[u] == Desc(Original(sL, Backing(i)), p.cloexec);
    assert BackedBy(s, u, i);
  }

  lemma RelabelNumbers(s: State, s': State, u: int, p: Outcome)
    requires u >= 0 && p.Parked? && s'.lent == Lend(s, u).lent
    requires forall r :: r in s'.lent && r !in s.lent ==> r.Probe?
    requires forall r :: IsRef(s', r) && Number(Lend(s, u), r) != u ==> Number(s', r) == Number(Lend(s, u), r)
    ensures forall r :: IsRef(s', r) && Number(s, r) != u ==> Number(s', r) == Number(s, r)
    ensures LentMore(s, s', u, p)
  {
    LendNumbers(s, u);
    forall r | r in StuckAt(s, u)
      ensures Number(s, r) == u && !RefRoom(s, r)
    {
      StuckAtIs(s, u, r);
    }
  }

  lemma LentIsSaved(s: State, s': State, u: int, p: Outcome)
    requires Inv(s) && u in s.k.fds && ProbeLent(s, Lend(s, u), u)
    requires p.Parked? && SavedOne(Lend(s, u), s', u, p) && s'.lent == Lend(s, u).lent
    requires forall r :: r in s'.lent && r !in s.lent ==> r.Probe?
    ensures SavedOne(s, s', u, p)
  {
    LentIsCarried(s, s', u);
    RelabelTried(s, s', u, p);
    LentIsHeld(s, u);
  }

  /** The number was not taken after all, so nothing is lent. */
  lemma UnlentReclaims(s: State, s': State, s'': State, u: int, i: int)
    requires Valid(s) && BackedBy(s, u, i) && SavedOne(Lend(s, u), s', u, NotParked) && s'.lent == Lend(s, u).lent
    requires s'' == s'.(lent := s.lent) && Lend(s, u) != s && u in s.k.fds && !Internal(Lend(s, u), u)
    ensures Valid(s'') && ProbeLent(s', s'', u) && !Internal(s', u)
    ensures Internal(s, u) && u in s'.k.fds && s'.k.fds[u].cloexec
  {
    assert Internal(s, u) && s.k.fds[u].cloexec by { LentIsThere(s, u); }
    UnlentNames(s, s', u, i);
    assert Valid(s'') by { Reclaim(s', s'', u); }
    ReclaimNumbers(s', s'', u);
    LendCandidate(s, u, i);
  }

  lemma LentIsThere(s: State, u: int)
    requires Inv(s) && Lend(s, u) != s && u >= 0
    ensures Internal(s, u) && u in s.k.fds && s.k.fds[u].cloexec
  {
    LendUnsticks(s, u);
    var r :| Number(s, r) == u && !RefRoom(s, r);
  }

  lemma UnlentNames(s: State, s': State, u: int, i: int)
    requires Valid(s) && BackedBy(s, u, i) && SavedOne(Lend(s, u), s', u, NotParked) && s'.lent == Lend(s, u).lent
    requires u in s.k.fds && !Internal(Lend(s, u), u)
    ensures forall r :: r in s'.lent && r !in s.lent ==> Raw(s', r) == u && NamesAgain(s', u, r)
  {
    LendCandidate(s, u, i);
    LendNumbers(s, u);
    if Probe(i) in s'.lent && Probe(i) !in s.lent {
      assert Number(s, Probe(i)) == u && s.k.fds[u] == Desc(Original(s, Probe(i)), true) by {
        StuckAtIs(s, u, Probe(i));
      }
      assert Kept(Lend(s, u), s', i) && ProbeStays(Lend(s, u), s', i);
    }
  }

  lemma UnlentIsCarried(s: State, s': State, s'': State, u: int)
    requires Carried(s, s') && ProbeLent(s', s'', u) && Valid(s'')
    ensures Carried(s, s'')
  {
  }

  lemma UnlabelNumbers(s: State, s': State, s'': State, u: int)
    requires Inv(s) && u >= 0 && ProbeLent(s', s'', u) && s''.lent == s.lent && s'.lent == Lend(s, u).lent
    requires forall r :: IsRef(s', r) && Number(Lend(s, u), r) != u ==> Number(s', r) == Number(Lend(s, u), r)
    ensures forall r :: IsRef(s'', r) && Number(s, r) != u ==> Number(s'', r) == Number(s, r)
  {
    LendNumbers(s, u);
    forall r: Ref | IsRef(s'', r) && Number(s, r) != u
      ensures Number(s'', r) == Number(s, r)
    {
      assert Number(Lend(s, u), r) == Number(s, r);
      assert Number(s', r) == Number(s, r);
    }
  }

  lemma UnlabelTried(s: State, s': State, s'': State, u: int)
    requires Inv(s) && u >= 0 && WfKernel(s'.k) && TriedOne(Lend(s, u), s', u, NotParked)
    requires ProbeLent(s, Lend(s, u), u) && ProbeLent(s', s'', u) && s''.lent == s.lent && s'.lent == Lend(s, u).lent
    requires Internal(s, u) && u in s'.k.fds && s'.k.fds[u].cloexec
    ensures TriedOne(s, s'', u, NotParked)
  {
    UnlabelNumbers(s, s', s'', u);
    UnlabelApps(s, Lend(s, u), s', s'', u);
    assert NoFaults(s, s'') ==> Dealt(s, s'', u, NotParked) by { LentIsHeld(s, u); }
  }

  lemma UnlabelHeld(s': State, s'': State, u: int)
    requires ProbeLent(s', s'', u) && Lendings(s')
    ensures HeldStay(s', s'')
  {
    forall j | Live(s', j) && !Doomed(s', j)
      ensures !Doomed(s'', j)
    {
      assert Doomed(s'', j) ==> RefRoom(s', Probe(j)) && Probe(j) !in s'.lent;
    }
  }

  lemma UnlentIsSaved(s: State, s': State, s'': State, u: int, i: int)
    requires Valid(s) && BackedBy(s, u, i) && SavedOne(Lend(s, u), s', u, NotParked) && s'.lent == Lend(s, u).lent
    requires s'' == s'.(lent := s.lent)
    ensures SavedOne(s, s'', u, NotParked)
  {
    CandidateIs(s, u, i);
    LendCandidate(s, u, i);
    if Lend(s, u) != s {
      LendProbe(s, u, i);
      UnlentReclaims(s, s', s'', u, i);
      UnlabelTried(s, s', s'', u);
      assert Carried(s, s'') by {
        LentIsCarried(s, s', u);
        UnlentIsCarried(s, s', s'', u);
      }
      UnlentHolds(s, s', s'', u);
    }
  }

  lemma UnlentHolds(s: State, s': State, s'': State, u: int)
    requires Inv(s) && u >= 0 && ProbeLent(s, Lend(s, u), u) && ProbeLent(s', s'', u) && Lendings(s')
    requires HeldStay(Lend(s, u), s')
    ensures HeldStay(s, s'')
  {
    UnlabelHeld(s', s'', u);
    LentIsHeld(s, u);
    forall i | Live(s, i) && !Doomed(s, i)
      ensures Live(s'', i) && !Doomed(s'', i)
    {
      assert Live(Lend(s, u), i) && !Doomed(Lend(s, u), i);
    }
  }

  // ---------------------------------------------------------------- saving one

  /** The save would put a backing over the stuck number u. */
  ghost predicate StuckCandidate(s: State, u: int) {
    Stuck(s, u) && exists i :: BackedBy(s, u, i)
  }

  /**
    preexec_save_one: the candidate is parked or left alone, whatever is at its number. If a stuck
    probe is there, its number is lent, and until it is given back the invariant is broken there.
  */
  method SaveOne(lib: Library, u: int) returns (p: Outcome)
    requires Valid(lib.S()) && BackingsThere(lib.S())
    modifies lib
    ensures SavedOne(old(lib.S()), lib.S(), u, p)
    ensures NoFaults(old(lib.S()), lib.S()) && old(lib.lent) == {} ==>
              (Inv(Bare(lib.S())) <==> !StuckCandidate(old(lib.S()), u))
  {
    ghost var s := lib.S();
    p := NotParked;
    var real_fd; ghost var i;
    real_fd, i := BackingOf(lib, u);
    if real_fd < 0 {
      NothingIsSaved(s, s, u);
      return;
    }
    var cloexec := lib.k.fds[u].cloexec;
    var n := lib.SysDupFd(u, SLOTS);
    if n < 0 {
      NothingIsSaved(s, lib.S(), u);
      return;
    }
    p := SwapOrUnlend(lib, u, n, real_fd, cloexec, s, i);
    if NoFaults(s, lib.S()) && s.lent == {} {
      BareWhenSaved(s, lib.S(), u, i, p);
    }
  }

  lemma BareWhenSaved(s: State, s': State, u: int, i: int, p: Outcome)
    requires Valid(s) && s.lent == {} && BackedBy(s, u, i) && SavedOne(s, s', u, p) && NoFaults(s, s')
    requires p.Parked? ==> s'.lent == Lend(s, u).lent && PlainFd(s', u)
    ensures Inv(Bare(s')) <==> !StuckCandidate(s, u)
  {
    if Stuck(s, u) {
      var r :| Number(s, r) == u && !RefRoom(s, r);
      InternalOnInode(s, i, r);
      BareIsBroken(s, s', u, i);
    } else {
      assert Lend(s, u) == s;
      assert Bare(s') == s';
    }
  }

  /** A lent probe does not name its description, which is on another inode than the backing. */
  lemma BareIsBroken(s: State, s': State, u: int, i: int)
    requires Inv(s) && Number(s, Probe(i)) == u >= 0 && !RefRoom(s, Probe(i)) && Probe(i) !in s.lent
    requires Live(s', i) && Kept(s, s', i) && ProbeStays(s, s', i) && Inv(s') && PlainFd(s', u)
    ensures !Inv(Bare(s'))
  {
    assert EntryOk(s', i);
    assert Number(Bare(s'), Probe(i)) == u;
    assert u in s'.k.fds ==> s'.k.fds[u].ofd != s'.table[i].probeOfd;
  }

  /** Once lent, the candidate can be swapped like any other. */
  lemma LendReady(s: State, s1: State, u: int, i: int)
    requires Valid(s) && BackedBy(s, u, i) && s1 == s.(k := s1.k)
    ensures Valid(Lend(s, u)) && BackedBy(Lend(s, u), u, i) && !Stuck(Lend(s, u), u)
    ensures Number(Lend(s, u), Backing(i)) == Number(s, Backing(i))
    ensures Lend(s1, u).lent == Lend(s, u).lent && ProbeLent(s, Lend(s, u), u)
  {
    CandidateIs(s, u, i);
    LendKeeps(s, u);
    LendCandidate(s, u, i);
    LendProbe(s, u, i);
    LentIsHeld(s, u);
    LendAlike(s, s1, u);
  }

  /** The wrap is parked at n: swap, with the probe at u lent if it is stuck there. */
  method SwapOrUnlend(lib: Library, u: int, n: int, real_fd: int, cloexec: bool, ghost s: State, ghost i: int)
    returns (p: Outcome)
    requires Valid(s) && BackedBy(s, u, i) && u in s.k.fds && SLOTS <= n < s.k.limit && n !in s.k.fds
    requires real_fd == Number(s, Backing(i)) && cloexec == s.k.fds[u].cloexec
    requires lib.S() == s.(k := s.k.(fds := s.k.fds[n := Desc(s.k.fds[u].ofd, true)]))
    requires forall m :: SLOTS <= m < n ==> m in s.k.fds
    modifies lib
    ensures SavedOne(s, lib.S(), u, p)
    ensures p.Parked? ==> lib.lent == Lend(s, u).lent
  {
    LendReady(s, lib.S(), u, i);
    var was := lib.lent;
    lib.lent := Lend(lib.S(), u).lent;
    p := SwapAt(lib, u, n, real_fd, cloexec, Lend(s, u), i);
    ghost var s' := lib.S();
    if p.Parked? {
      LentIsSaved(s, s', u, p);
    } else {
      lib.lent := was;
      UnlentIsSaved(s, s', lib.S(), u, i);
    }
  }

  /** u's description is also at n: put the backing at u. */
  method TrySwap(lib: Library, u: int, n: int, real_fd: int, cloexec: bool, ghost s: State, ghost i: int)
    returns (r: int)
    requires Valid(s) && BackedBy(s, u, i) && !Stuck(s, u) && u in s.k.fds && SLOTS <= n < s.k.limit && n !in s.k.fds
    requires real_fd == Number(s, Backing(i))
    requires lib.S() == s.(k := s.k.(fds := s.k.fds[n := Desc(s.k.fds[u].ofd, true)]))
    requires forall m :: SLOTS <= m < n ==> m in s.k.fds
    modifies lib`k, lib`table, lib`ttys, lib`registry
    ensures Attempt(s, old(lib.S()), lib.S(), u, n, i) && KeptForCause(lib.S(), Ino(old(lib.k), u))
    ensures u in lib.k.fds && !Internal(lib.S(), u)
    ensures r < 0 ==> lib.k.dup3Faults != s.k.dup3Faults && lib.k.fds[u] == s.k.fds[u]
    ensures r >= 0 ==> lib.k.fds[u] == Desc(Original(s, Backing(i)), cloexec)
  {
    ghost var s1 := lib.S();
    BackingIsElsewhere(s, u, i);
    ParkKeeps(s, s1, u, n);
    SameButKernel(s, s1);
    r := lib.Dup(real_fd, u, cloexec, false);
  }

  /** The swap of a parked wrap, or its undoing. */
  method SwapAt(lib: Library, u: int, n: int, real_fd: int, cloexec: bool, ghost s: State, ghost i: int)
    returns (p: Outcome)
    requires Valid(s) && BackedBy(s, u, i) && !Stuck(s, u) && u in s.k.fds && SLOTS <= n < s.k.limit && n !in s.k.fds
    requires real_fd == Number(s, Backing(i)) && cloexec == s.k.fds[u].cloexec
    requires lib.S() == s.(k := s.k.(fds := s.k.fds[n := Desc(s.k.fds[u].ofd, true)]))
    requires forall m :: SLOTS <= m < n ==> m in s.k.fds
    modifies lib`k, lib`table, lib`ttys, lib`registry
    ensures SavedOne(s, lib.S(), u, p)
  {
    ghost var s1 := lib.S();
    var r := TrySwap(lib, u, n, real_fd, cloexec, s, i);
    ghost var s2 := lib.S();
    if r < 0 {
      var _ := lib.SysClose(n);
      UnparkIsSaved(s, s1, s2, lib.S(), u, n, i);
      p := NotParked;
    } else {
      p := Parked(Parking(u, n, cloexec));
      SwapIsSaved(s, s1, s2, u, n, i);
    }
  }
}
