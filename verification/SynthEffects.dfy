/** The effect of each primitive change, and how effects add up to that of a whole call. */
module SynthEffects {
  import opened DescriptorView
  import opened KernelState
  import opened SynthState
  import opened SynthLemmas

  lemma EffectRefl(s: State, touched: set<int>)
    ensures Effect(s, s, touched)
  {
  }

  lemma EffectWiden(s: State, s': State, touched: set<int>, more: set<int>)
    requires Effect(s, s', touched) && touched <= more
    ensures Effect(s, s', more)
  {
  }

  lemma EffectTrans(s0: State, s1: State, s2: State, touched: set<int>)
    requires Effect(s0, s1, touched) && Effect(s1, s2, touched) && Inv(s0)
    ensures Effect(s0, s2, touched)
  {
    assert forall o :: o in s0.k.inode ==> o in s1.k.inode;
    forall i | Live(s0, i) && !Kept(s0, s2, i)
      ensures s0.table[i].installer == s0.self && !HeldHere(s2.k, s0.table[i].wrap)
    {
      assert EntryOk(s0, i);
      if Kept(s0, s1, i) {
        assert !Kept(s1, s2, i);
      }
    }
  }

  /** One effect after another. */
  lemma EffectThen(s0: State, s1: State, s2: State, first: set<int>, second: set<int>, all: set<int>)
    requires Effect(s0, s1, first) && Effect(s1, s2, second) && Inv(s0) && first <= all && second <= all
    ensures Effect(s0, s2, all)
  {
    EffectWiden(s0, s1, first, all);
    EffectWiden(s1, s2, second, all);
    EffectTrans(s0, s1, s2, all);
  }

  lemma EffectRecount(s: State, i: int, c: int, touched: set<int>)
    requires Live(s, i) && c > 0
    ensures Effect(s, Recounted(s, i, c), touched)
  {
    RecountNumbers(s, i, c);
  }

  lemma EffectShift(s: State, s': State, target: int)
    requires Inv(s) && Inv(s') && Shifted(s, s', target)
    ensures Effect(s, s', {target})
  {
    SameShapeSame(s, s');
    forall o | o in s.k.inode && HeldHere(s'.k, o)
      ensures HeldHere(s.k, o)
    {
      var fd :| fd in s'.k.fds && s'.k.fds[fd].ofd == o;
      if fd !in s.k.fds {
        var r :| Number(s', r) == fd;
        assert Number(s, r) == target && target in s.k.fds && s.k.fds[target].ofd == o;
      }
    }
    forall n | n in s.k.fds && n !in {target} && !Internal(s, n)
      ensures !Internal(s', n)
    {
      assert forall r :: Number(s', r) == n ==> Number(s, r) == n;
    }
    forall n | n in s.k.fds && n !in {target} && Internal(s, n)
      ensures Internal(s', n)
    {
      var r :| Number(s, r) == n;
      assert Number(s', r) == n;
    }
  }

  lemma LineageRefl(s: State)
    ensures Lineage(s, s)
  {
  }

  lemma LineageTrans(s0: State, s1: State, s2: State)
    requires Inv(s0) && Lineage(s0, s1) && Lineage(s1, s2) && SameProcess(s0, s1)
    ensures Lineage(s0, s2)
  {
    forall i | Kept(s0, s2, i)
      ensures EntryIsolated(s0, s2, i)
    {
      assert EntryOk(s0, i);
      assert Kept(s1, s2, i) && Kept(s0, s1, i);
      EntryIsolatedTrans(s0, s1, s2, i);
    }
  }

  /** Close-like calls add no entry and touch no original. */
  lemma CallLineage(s: State, s': State, target: int)
    requires CallEffect(s, s', target)
    ensures Lineage(s, s')
  {
    forall j | 0 <= j < |s.registry|
      ensures s'.registry[j].ofd == s.registry[j].ofd
    {
      assert IsRef(s', Registered(j)) && Original(s', Registered(j)) == Original(s, Registered(j));
    }
  }

  /** A change of the kernel alone, inodes being only added. */
  lemma KernelLineage(s: State, k: Kernel)
    requires k.nextInode >= s.k.nextInode
    ensures Lineage(s, s.(k := k))
  {
  }

  /** A number that was the application's is registered as the library's. */
  lemma RegisterEffect(s: State, s': State, fd: int, o: nat)
    requires WfKernel(s.k) && Lendings(s) && s' == s.(registry := s.registry + [Registry(fd, o)]) && fd >= 0
    ensures Effect(s, s', {fd}) && Lineage(s, s')
  {
    RegisterNumbers(s, s', fd, o);
    forall n | n != fd && n >= 0
      ensures Internal(s', n) == Internal(s, n)
    {
      assert forall r :: Number(s', r) == n <==> Number(s, r) == n;
    }
  }

  // ---------------------------------------------------------------- changes of the kernel alone

  /** A kernel that leaves internal numbers, inodes and the locks of wraps alone. */
  lemma KernelKeeps(s: State, k: Kernel)
    requires Inv(s) && WfKernel(k)
    requires forall r :: Number(s, r) >= 0 ==> Number(s, r) in k.fds && k.fds[Number(s, r)] == s.k.fds[Number(s, r)]
    requires forall o :: o in s.k.inode ==> InoOf(k, o) == InoOf(s.k, o)
    requires forall i :: Live(s, i) && s.table[i].wrap in s.k.locks ==> s.table[i].wrap in k.locks
    ensures Inv(s.(k := k))
    ensures forall n :: Internal(s.(k := k), n) == Internal(s, n)
  {
    var s' := s.(k := k);
    SameButKernel(s, s');
    assert forall r :: Number(s, r) >= 0 ==> Original(s, r) in s.k.inode;
    forall i | 0 <= i < |s'.table|
      ensures EntryOk(s', i)
    {
      assert EntryOk(s, i);
    }
  }

  lemma KernelEffect(s: State, k: Kernel, touched: set<int>)
    requires k.foreign == s.k.foreign && k.limit == s.k.limit && FaultsGrow(s.k, k)
    requires forall n :: n in s.k.fds && n !in touched ==> n in k.fds && k.fds[n] == s.k.fds[n]
    requires forall n :: n in k.fds && n !in touched ==> n in s.k.fds
    requires forall o :: o in s.k.inode && HeldHere(k, o) ==> HeldHere(s.k, o)
    requires forall o :: o in s.k.inode ==> InoOf(k, o) == InoOf(s.k, o)
    ensures Effect(s, s.(k := k), touched)
  {
    SameButKernel(s, s.(k := k));
  }

  lemma HeldInSub(k: Kernel, k': Kernel)
    requires forall fd :: fd in k'.fds ==> fd in k.fds && k'.fds[fd].ofd == k.fds[fd].ofd
    ensures forall o :: HeldHere(k', o) ==> HeldHere(k, o)
  {
  }

  /** The only internal descriptor on an entry's inode is its probe. */
  lemma InternalOnInode(s: State, i: int, r: Ref)
    requires Inv(s) && Live(s, i) && Number(s, r) >= 0 && Ino(s.k, Number(s, r)) == s.table[i].key
    ensures r == Probe(i)
  {
    assert s.k.fds[Number(s, r)].ofd == Original(s, r);
    if r.Probe? {
      assert EntryOk(s, r.i);
    }
  }

  lemma OnInodeIsExternal(s: State, i: int, fd: int)
    requires Inv(s) && Live(s, i) && fd in s.k.fds && Ino(s.k, fd) == s.table[i].key && fd != Number(s, Probe(i))
    ensures !Internal(s, fd)
  {
    forall r | Number(s, r) >= 0 && Ino(s.k, Number(s, r)) == s.table[i].key
      ensures r == Probe(i)
    {
      InternalOnInode(s, i, r);
    }
  }

  /** Internal numbers are not the given one. */
  lemma NotInternal(s: State, n: int)
    requires !(n in s.k.fds && Internal(s, n)) && Named(s)
    ensures forall r :: Number(s, r) >= 0 ==> Number(s, r) != n
  {
  }

  /** The kernel closes a number that is not internal. */
  lemma DropKeeps(s: State, fd: int)
    requires Inv(s) && !(fd in s.k.fds && Internal(s, fd))
    ensures var s' := s.(k := s.k.(fds := s.k.fds - {fd}));
            Inv(s') && Effect(s, s', {fd})
  {
    var k := s.k.(fds := s.k.fds - {fd});
    NotInternal(s, fd);
    HeldInSub(s.k, k);
    KernelKeeps(s, k);
    KernelEffect(s, k, {fd});
  }

  /** The kernel duplicates an open description over a number that is not internal. */
  lemma PutKeeps(s: State, oldfd: int, newfd: int, cloexec: bool)
    requires Inv(s) && oldfd in s.k.fds && 0 <= newfd < s.k.limit && !(newfd in s.k.fds && Internal(s, newfd))
    ensures var s' := s.(k := s.k.(fds := s.k.fds[newfd := Desc(s.k.fds[oldfd].ofd, cloexec)]));
            Inv(s') && Effect(s, s', {newfd})
  {
    var k := s.k.(fds := s.k.fds[newfd := Desc(s.k.fds[oldfd].ofd, cloexec)]);
    NotInternal(s, newfd);
    forall o | HeldHere(k, o)
      ensures HeldHere(s.k, o)
    {
      var fd :| fd in k.fds && k.fds[fd].ofd == o;
      assert fd == newfd ==> s.k.fds[oldfd].ofd == o;
    }
    KernelKeeps(s, k);
    KernelEffect(s, k, {newfd});
  }

  lemma ReleaseInternal(s: State, i: int)
    requires Inv(s) && Live(s, i)
    ensures var s' := Released(s, i);
            && (forall n :: n in s.k.fds && !Internal(s, n) ==> n in s'.k.fds && !Internal(s', n))
            && (forall n :: n in s'.k.fds && Internal(s, n) ==> Internal(s', n))
  {
    var s' := Released(s, i);
    ReleaseNumbers(s, i);
    forall n | n in s.k.fds && !Internal(s, n)
      ensures n in s'.k.fds && !Internal(s', n)
    {
      assert n != Number(s, Probe(i)) && n != Number(s, Backing(i));
      assert forall r :: Number(s', r) >= 0 ==> Number(s', r) == Number(s, r);
    }
    forall n | n in s'.k.fds && Internal(s, n)
      ensures Internal(s', n)
    {
      var r :| Number(s, r) == n;
      assert Number(s', r) == n;
    }
  }

  lemma EffectRelease(s: State, i: int, touched: set<int>)
    requires Inv(s) && Live(s, i) && s.table[i].installer == s.self && !HeldHere(s.k, s.table[i].wrap)
    ensures Effect(s, Released(s, i), touched)
  {
    ReleaseNumbers(s, i);
    ReleaseInternal(s, i);
    HeldInSub(s.k, Released(s, i).k);
  }

  // ---------------------------------------------------------------- post_close

  /** Only the flock table differs. */
  ghost predicate OnlyLocks(s: State, s': State) {
    s' == s.(k := s.k.(locks := s'.k.locks))
  }

  /** Entries may have gone, and nothing has come. */
  ghost predicate Shrinks(s: State, s': State) {
    && s'.registry == s.registry && s'.k.inode == s.k.inode && s'.k.foreign == s.k.foreign
    && s'.k.nextInode == s.k.nextInode && s'.k.openFaults == s.k.openFaults && s'.k.lockFaults == s.k.lockFaults
    && (forall fd :: fd in s'.k.fds ==> fd in s.k.fds && s'.k.fds[fd] == s.k.fds[fd])
    && |s'.ttys| == |s.ttys|
    && (forall t :: 0 <= t < |s.ttys| ==> s'.ttys[t].backingOfd == s.ttys[t].backingOfd)
    && (forall t :: 0 <= t < |s.ttys| && s'.ttys[t].claimed ==> s.ttys[t].claimed)
    && (forall t :: 0 <= t < |s.ttys| && (forall i :: Live(s, i) ==> s.table[i].tty != t) ==> s'.ttys[t] == s.ttys[t])
    && (forall o :: o in s.k.locks ==> o in s'.k.locks)
    && (forall r :: IsRef(s', r) ==>
          Number(s', r) == Number(s, r) && Original(s', r) == Original(s, r) && RefRoom(s', r) == RefRoom(s, r))
    && Undisturbed(s, s')
  }

  /** How post_close leaves the tables when it is given entry i with a pin. */
  ghost predicate PostClosed(s: State, s': State, i: int) {
    && Live(s, i)
    && Inv(s')
    && |s'.table| == |s.table|
    && (Live(s', i) <==> !(s.table[i].installer == s.self && ShouldRelease(s, i)))
    && (Live(s', i) ==> s' == Recounted(s, i, 1))
    && (!Live(s', i) ==> s'.table[i].refcount == 0 && Number(s, Probe(i)) !in s'.k.fds)
    && (forall o :: o in s'.k.locks ==> o in s.k.locks || o == s.table[i].probeOfd)
    && (forall j :: j != i && 0 <= j < |s.table| ==> s'.table[j] == s.table[j])
    && Shrinks(s, s') && ClaimsFollow(s, s')
    && s'.k.dup3Faults == s.k.dup3Faults && s'.k.dupFaults == s.k.dupFaults
  }

  lemma PostCloseKeeps(s: State, i: int)
    requires Inv(s) && Live(s, i) && !(s.table[i].installer == s.self && ShouldRelease(s, i))
    ensures PostClosed(s, Recounted(s, i, 1), i)
  {
    RecountNumbers(s, i, 1);
    RecountKeeps(s, i, 1);
  }

  lemma PostCloseReleases(s: State, s1: State, i: int)
    requires Inv(s) && Inv(s1) && OnlyLocks(s, s1) && Live(s, i)
    requires s.table[i].installer == s.self && ShouldRelease(s, i)
    requires forall o :: o in s.k.locks ==> o in s1.k.locks
    requires forall o :: o in s1.k.locks ==> o in s.k.locks || o == s.table[i].probeOfd
    ensures PostClosed(s, Released(s1, i), i)
  {
    SameButKernel(s, s1);
    ReleaseKeeps(s1, i);
    ReleaseShrinks(s1, i);
    assert Undisturbed(s, Released(s1, i)) by {
      ReleaseIsolates(s1, i);
    }
  }

  lemma ReleaseIsolates(s: State, i: int)
    requires Inv(s) && Live(s, i)
    ensures forall s0: State :: s0 == s.(k := s0.k) ==> Undisturbed(s0, Released(s, i))
  {
  }

  lemma ReleaseShrinks(s: State, i: int)
    requires Inv(s) && Live(s, i)
    ensures var s' := Released(s, i);
            && Shrinks(s, s') && ClaimsFollow(s, s') && !Live(s', i) && s'.table[i].refcount == 0
            && Number(s, Probe(i)) !in s'.k.fds
  {
    ReleaseNumbers(s, i);
  }

  lemma PostCloseReleaseEffect(s: State, s1: State, i: int, touched: set<int>)
    requires Inv(s) && Inv(s1) && OnlyLocks(s, s1) && Live(s, i)
    requires s.table[i].installer == s.self && ShouldRelease(s, i)
    ensures Effect(s, Released(s1, i), touched)
  {
    ReleaseIsSafe(s, i);
    HeldInSub(s.k, s1.k);
    KernelEffect(s, s1.k, touched);
    HeldInSub(s1.k, s.k);
    EffectRelease(s1, i, touched);
    EffectTrans(s, s1, Released(s1, i), touched);
  }

  /** The same when somebody else has a pin: a decision to release takes a reference, and the entry stays for now. */
  ghost predicate StillPinned(s: State, s': State, i: int)
    requires Live(s, i) && s.table[i].refcount > 2
  {
    var c := s.table[i].refcount;
    && Inv(s') && (ShouldRelease(s, i) ==> OnlyLocks(Recounted(s, i, c - 2), s') && ShouldRelease(s', i))
    && (!ShouldRelease(s, i) ==> s' == Recounted(s, i, c - 1))
  }

  lemma PinnedIsLive(s: State, s1: State, i: int)
    requires Inv(s1) && OnlyLocks(s, s1) && Live(s, i) && s.table[i].refcount >= 2
    ensures var c := s.table[i].refcount; Inv(Recounted(s1, i, c - 1)) && Live(Recounted(s1, i, c - 1), i)
  {
    RecountKeeps(s1, i, s.table[i].refcount - 1);
  }

  /** The unpins of an installer's post_close, after the decision. */
  lemma PostCloseEnds(s: State, s1: State, s': State, i: int, release: bool, touched: set<int>)
    requires Inv(s) && Inv(s1) && OnlyLocks(s, s1) && Live(s, i) && s.table[i].refcount >= 2
    requires s.table[i].installer == s.self && release == ShouldRelease(s, i) && (!release ==> s1 == s)
    requires forall o :: o in s.k.locks ==> o in s1.k.locks
    requires forall o :: o in s1.k.locks ==> o in s.k.locks || o == s.table[i].probeOfd
    requires !release ==> s' == Recounted(s, i, s.table[i].refcount - 1)
    requires release && s.table[i].refcount == 2 ==> s' == Released(Recounted(s1, i, 1), i)
    requires release && s.table[i].refcount > 2 ==> s' == Recounted(s1, i, s.table[i].refcount - 2)
    ensures s.table[i].refcount == 2 ==> PostClosed(s, s', i) && Effect(s, s', touched)
    ensures s.table[i].refcount > 2 ==> StillPinned(s, s', i)
  {
    if s.table[i].refcount > 2 {
      PostClosePinned(s, s1, s', i, release);
    } else if release {
      assert Released(Recounted(s1, i, 1), i) == Released(s1, i);
      PostCloseReleases(s, s1, i);
      PostCloseReleaseEffect(s, s1, i, touched);
    } else {
      PostCloseKeeps(s, i);
      EffectRecount(s, i, 1, touched);
    }
  }

  lemma PostClosePinned(s: State, s1: State, s': State, i: int, release: bool)
    requires Inv(s1) && OnlyLocks(s, s1) && Live(s, i) && s.table[i].refcount > 2
    requires release == ShouldRelease(s, i) && (!release ==> s1 == s)
    requires forall o :: o in s1.k.locks ==> o in s.k.locks || o == s.table[i].probeOfd
    requires s' == Recounted(s1, i, s.table[i].refcount - if release then 2 else 1)
    ensures StillPinned(s, s', i)
  {
    var c := s.table[i].refcount - if release then 2 else 1;
    RecountKeeps(s1, i, c);
    RecountNumbers(s1, i, c);
    SameButKernel(s, s1);
  }

  // ---------------------------------------------------------------- a close-like call

  /** State s with the entry of the descriptor's inode pinned, as pin_fd leaves it. */
  ghost predicate Pinned(s: State, s': State, fd: int, i: int) {
    && (i == -1 || (Live(s, i) && s.table[i].key == Ino(s.k, fd) && s' == Recounted(s, i, s.table[i].refcount + 1)))
    && (i == -1 ==> s' == s && forall j :: Live(s, j) ==> s.table[j].key != Ino(s.k, fd))
  }

  lemma PinKeeps(s: State, s': State, fd: int, i: int, touched: set<int>)
    requires Inv(s) && Pinned(s, s', fd, i)
    ensures Inv(s') && Effect(s, s', touched)
  {
    if i >= 0 {
      RecountKeeps(s, i, s.table[i].refcount + 1);
      EffectRecount(s, i, s.table[i].refcount + 1, touched);
    } else {
      EffectRefl(s, touched);
    }
  }

  /** Nothing about the entries but their views changed. */
  ghost predicate SameEntries(s: State, s': State) {
    && |s'.table| == |s.table|
    && (forall i :: 0 <= i < |s.table| ==>
          SameEntry(s.table[i], s'.table[i]) && s'.table[i].refcount == s.table[i].refcount)
    && |s'.ttys| == |s.ttys| && (forall t :: 0 <= t < |s.ttys| ==> s'.ttys[t].backingOfd == s.ttys[t].backingOfd)
  }

  /** After the final post_close every entry has its single reference again, and no entry is new. */
  lemma UnpinnedIsQuiet(s0: State, s1: State, s2: State, s3: State, fd: int, i: int)
    requires Quiet(s0) && Pinned(s0, s1, fd, i) && SameEntries(s1, s2)
    requires if i == -1 then s3 == s2 else PostClosed(s2, s3, i)
    ensures Quiet(s3) && NoNewEntries(s0, s3)
  {
  }

  lemma PostClosedCause(s: State, s': State, i: int)
    requires Inv(s) && PostClosed(s, s', i) && !Live(s', i)
    ensures (Number(s, Probe(i)) >= 0 && !Contested(s'.k, s.table[i].probeOfd)) || !OtherOn(s'.k, -1, s.table[i].key)
  {
    var p := Number(s, Probe(i));
    assert EntryOk(s, i);
    HeldInSub(s.k, s'.k);
    if p != -1 && !Contested(s.k, s.table[i].probeOfd) {
      assert !Contested(s'.k, s.table[i].probeOfd);
    } else {
      assert !OtherOn(s.k, p, s.table[i].key);
      assert forall fd :: fd in s'.k.fds ==> Ino(s'.k, fd) == Ino(s.k, fd);
    }
  }

  /** A close-like call releases only for cause. */
  lemma CloseForCause(s0: State, s1: State, s2: State, s3: State, s4: State, target: int, i: int)
    requires Inv(s0) && Pinned(s0, s1, target, i) && i >= -1 && Shifted(s1, s2, target) && s3 == s2.(k := s3.k)
    requires Inv(s3)
    requires if i == -1 then s4 == s3 else PostClosed(s3, s4, i)
    ensures ReleasedForCause(s0, s4, target)
  {
    SameButKernel(s2, s3);
    SameShapeSame(s1, s2);
    if i >= 0 {
      RecountNumbers(s0, i, s0.table[i].refcount + 1);
      if !Live(s4, i) {
        PostClosedCause(s3, s4, i);
        assert EntryOk(s0, i);
      }
    }
  }

  lemma PinnedIsSteady(s0: State, s1: State, s2: State, s3: State, s4: State, target: int, i: int)
    requires Pinned(s0, s1, target, i) && i >= -1 && Shifted(s1, s2, target)
    requires s3 == s2.(k := s3.k) && s3.k.locks == s2.k.locks && s3.k.inode == s2.k.inode
    requires s3.k.nextInode == s2.k.nextInode
    requires FaultsGrow(s2.k, s3.k)
    requires if i == -1 then s4 == s3 else PostClosed(s3, s4, i)
    ensures Steady(s0, s4, {target})
  {
    if i >= 0 {
      RecountNumbers(s0, i, s0.table[i].refcount + 1);
    }
    SameButKernel(s2, s3);
    SameShapeSame(s1, s2);
  }

  /** The first half of a close: pin, evacuate the number, let the kernel close it. */
  lemma CloseHalfway(s0: State, s1: State, s2: State, fd: int, i: int)
    requires Inv(s0) && Pinned(s0, s1, fd, i)
    requires Inv(s2) && Shifted(s1, s2, fd) && (fd >= 0 ==> !Internal(s2, fd))
    ensures var s3 := s2.(k := s2.k.(fds := s2.k.fds - {fd}));
            Inv(s3) && Effect(s0, s3, {fd}) && SameEntries(s1, s3)
  {
    PinKeeps(s0, s1, fd, i, {fd});
    EffectShift(s1, s2, fd);
    EffectTrans(s0, s1, s2, {fd});
    DropKeeps(s2, fd);
    EffectTrans(s0, s2, s2.(k := s2.k.(fds := s2.k.fds - {fd})), {fd});
  }

  /**
    The entry on the inode, if its installer keeps it, has another local descriptor there, and
    its lock, if it can be probed, is taken.
  */
  ghost predicate KeptForCause(s: State, key: int) {
    forall i :: Live(s, i) && s.table[i].installer == s.self && s.table[i].key == key ==>
      && OtherOn(s.k, Number(s, Probe(i)), key)
      && (Number(s, Probe(i)) == -1 || Contested(s.k, s.table[i].probeOfd))
  }

  lemma CloseIsComplete(s0: State, s1: State, s2: State, s3: State, fd: int, i: int)
    requires Inv(s0) && Pinned(s0, s1, fd, i) && SameEntries(s1, s2) && i >= -1
    requires if i == -1 then s3 == s2 else PostClosed(s2, s3, i)
    requires s2.self == s0.self && s3.self == s0.self
    ensures KeptForCause(s3, Ino(s0.k, fd))
  {
  }

  lemma CallIsolates(s0: State, s1: State, s2: State, s3: State, s4: State, target: int, i: int)
    requires Pinned(s0, s1, target, i) && i >= -1 && Shifted(s1, s2, target) && s3 == s2.(k := s3.k)
    requires if i == -1 then s4 == s3 else PostClosed(s3, s4, i)
    ensures Undisturbed(s0, s4)
  {
    forall j | Kept(s0, s4, j)
      ensures EntryIsolated(s0, s4, j)
    {
      assert Live(s1, j) && EntryIsolated(s1, s2, j);
      assert Kept(s3, s4, j);
      EntryIsolatedTrans(s0, s3, s4, j);
    }
  }

  /**
    The end of a close-like call: pinned at s1, evacuated at s2, done by the kernel at s3,
    post_closed at s4.
  */
  lemma CallEnds(s0: State, s1: State, s2: State, s3: State, s4: State, target: int, i: int)
    requires Valid(s0) && Pinned(s0, s1, target, i) && i >= -1 && Shifted(s1, s2, target)
    requires s3 == s2.(k := s3.k) && s3.k.locks == s2.k.locks && s3.k.inode == s2.k.inode && Inv(s3)
    requires s3.k.nextInode == s2.k.nextInode
    requires FaultsGrow(s2.k, s3.k)
    requires if i == -1 then s4 == s3 else PostClosed(s3, s4, i)
    requires Effect(s0, s3, {target}) && Effect(s3, s4, {target})
    ensures Quiet(s4) && CallEffect(s0, s4, target) && KeptForCause(s4, Ino(s0.k, target))
  {
    EffectTrans(s0, s3, s4, {target});
    CallIsolates(s0, s1, s2, s3, s4, target, i);
    assert SameEntries(s1, s3);
    UnpinnedIsQuiet(s0, s1, s3, s4, target, i);
    CloseIsComplete(s0, s1, s3, s4, target, i);
    PinnedIsSteady(s0, s1, s2, s3, s4, target, i);
    CloseForCause(s0, s1, s2, s3, s4, target, i);
  }

  // ---------------------------------------------------------------- a stuck number

  /** A view of this process still names n, which is closed. */
  ghost predicate Dangles(s: State, n: int) {
    exists r :: Number(s, r) == n && n !in s.k.fds
  }

  lemma StuckShrinks(s: State, s': State, n: int)
    requires RoomStays(s, s') && Stuck(s', n)
    ensures Stuck(s, n)
  {
  }

  lemma StuckUnderPin(s: State, s': State, n: int, fd: int, i: int)
    requires Pinned(s, s', fd, i) && i >= -1
    ensures Stuck(s', n) == Stuck(s, n)
  {
    if i >= 0 {
      RecountNumbers(s, i, s.table[i].refcount + 1);
    }
  }

  /** The view that is stuck on an entry's inode is the entry's probe, and another process installed the entry. */
  lemma StuckIsForeign(s: State, n: int, i: int)
    requires Inv(s) && Stuck(s, n) && Live(s, i) && s.table[i].key == Ino(s.k, n)
    ensures s.table[i].installer != s.self
  {
    var r :| Number(s, r) == n && !RefRoom(s, r);
    InternalOnInode(s, i, r);
  }

  /** Closing a stuck number leaves the view there. */
  lemma StuckDangles(s0: State, s1: State, s2: State, s3: State, fd: int, i: int)
    requires Inv(s0) && Stuck(s0, fd) && Pinned(s0, s1, fd, i) && i >= -1 && Shifted(s1, s2, fd)
    requires s3 == s2.(k := s2.k.(fds := s2.k.fds - {fd}))
    ensures Dangles(s3, fd)
    ensures i >= 0 ==> s3.table[i].installer != s3.self
  {
    if i >= 0 {
      RecountNumbers(s0, i, s0.table[i].refcount + 1);
      StuckIsForeign(s0, fd, i);
    }
    var r :| Number(s0, r) == fd && !RefRoom(s0, r);
    SameButKernel(s2, s3);
    assert Number(s3, r) == fd;
  }

  /** Where a close stands once the kernel has closed the number. */
  lemma CloseMiddle(s0: State, s1: State, s2: State, fd: int, i: int)
    requires Inv(s0) && Pinned(s0, s1, fd, i) && i >= -1 && Inv(s2) && Shifted(s1, s2, fd)
    requires fd >= 0 ==> (Internal(s2, fd) <==> Stuck(s1, fd))
    ensures var s3 := s2.(k := s2.k.(fds := s2.k.fds - {fd}));
            && (!Stuck(s0, fd) ==> Inv(s3) && Effect(s0, s3, {fd}))
            && (Stuck(s0, fd) ==>
                  Dangles(s3, fd) && OnlyAt(s1, s2, fd) && (i >= 0 ==> s3.table[i].installer != s3.self))
  {
    StuckUnderPin(s0, s1, fd, fd, i);
    if Stuck(s0, fd) {
      PinKeeps(s0, s1, fd, i, {});
      StuckStays(s1, s2, fd);
      StuckDangles(s0, s1, s2, s2.(k := s2.k.(fds := s2.k.fds - {fd})), fd, i);
    } else {
      CloseHalfway(s0, s1, s2, fd, i);
    }
  }

  lemma CloseEnds(s0: State, s1: State, s2: State, s3: State, s4: State, fd: int, i: int)
    requires Valid(s0) && Pinned(s0, s1, fd, i) && i >= -1 && Shifted(s1, s2, fd)
    requires s3 == s2.(k := s2.k.(fds := s2.k.fds - {fd}))
    requires !Stuck(s0, fd) ==> Inv(s3) && Effect(s0, s3, {fd})
    requires Stuck(s0, fd) ==> Dangles(s3, fd) && OnlyAt(s1, s2, fd)
    requires i == -1 ==> s4 == s3
    requires i >= 0 && Inv(s3) ==> PostClosed(s3, s4, i) && Effect(s3, s4, {fd})
    requires i >= 0 && Stuck(s0, fd) ==> s4 == Recounted(s3, i, 1)
    ensures !Stuck(s0, fd) ==> Valid(s4) && CallEffect(s0, s4, fd) && KeptForCause(s4, Ino(s0.k, fd))
    ensures Stuck(s0, fd) ==> Dangles(s4, fd) && OnlyAt(s0, s4, fd)
  {
    if !Stuck(s0, fd) {
      if i == -1 {
        EffectRefl(s3, {fd});
      }
      CallEnds(s0, s1, s2, s3, s4, fd, i);
    } else {
      StuckCloseEnds(s0, s1, s2, s3, s4, fd, i);
      if i >= 0 {
        RecountNumbers(s3, i, 1);
      }
    }
  }

  /** The end of a close of a stuck number: the pin goes again, and nothing but the number is gone. */
  lemma StuckCloseEnds(s0: State, s1: State, s2: State, s3: State, s4: State, fd: int, i: int)
    requires Quiet(s0) && UniqueViews(s0) && Pinned(s0, s1, fd, i) && i >= -1 && OnlyAt(s1, s2, fd)
    requires s3 == s2.(k := s2.k.(fds := s2.k.fds - {fd}))
    requires s4 == if i >= 0 then Recounted(s3, i, 1) else s3
    ensures OnlyAt(s0, s4, fd)
  {
    SameButKernel(s2, s3);
    if i >= 0 {
      RecountNumbers(s0, i, s0.table[i].refcount + 1);
      RecountNumbers(s3, i, 1);
    }
    forall j | Live(s0, j)
      ensures EntryIsolated(s0, s4, j)
    {
      assert Live(s1, j) && EntryIsolated(s1, s2, j);
    }
  }

  /** Nothing changed but what number n names, and the count of failures. */
  ghost predicate OnlyAt(s: State, s': State, n: int) {
    && SameShape(s, s') && LentStay(s, s') && UniqueViews(s') && (forall i :: Live(s, i) ==> EntryIsolated(s, s', i))
    && (forall r :: Number(s', r) == Number(s, r)) && (forall r :: RefRoom(s', r) == RefRoom(s, r))
    && s'.k == s.k.(fds := s'.k.fds, dupFaults := s'.k.dupFaults, dup3Faults := s'.k.dup3Faults)
    && s.k.dupFaults <= s'.k.dupFaults && s.k.dup3Faults <= s'.k.dup3Faults
    && (forall m :: m != n ==> (m in s'.k.fds <==> m in s.k.fds) && (m in s.k.fds ==> s'.k.fds[m] == s.k.fds[m]))
  }

  lemma OnlyAtTrans(s0: State, s1: State, s2: State, n: int)
    requires OnlyAt(s0, s1, n) && OnlyAt(s1, s2, n)
    ensures OnlyAt(s0, s2, n)
  {
    AllIsolatedTrans(s0, s1, s2);
  }

  /** A change of the descriptor table at n alone. */
  lemma KernelOnlyAt(s: State, s': State, n: int)
    requires UniqueViews(s) && s' == s.(k := s'.k)
    requires s'.k == s.k.(fds := s'.k.fds, dup3Faults := s'.k.dup3Faults) && s.k.dup3Faults <= s'.k.dup3Faults
    requires forall m :: m != n ==> (m in s'.k.fds <==> m in s.k.fds) && (m in s.k.fds ==> s'.k.fds[m] == s.k.fds[m])
    ensures OnlyAt(s, s', n)
  {
    SameButKernel(s, s');
  }

  /** Relocation leaves a stuck number as it is, and the descriptor table too. */
  lemma StuckStays(s: State, s': State, n: int)
    requires Inv(s) && Inv(s') && Stuck(s, n) && Shifted(s, s', n)
    ensures Stuck(s', n) && s'.k.fds == s.k.fds && OnlyAt(s, s', n)
  {
    var r :| Number(s, r) == n && !RefRoom(s, r);
    assert Number(s', r) == n;
    NotYetMoved(s, s', r, n);
  }

  // ---------------------------------------------------------------- dup

  /** Duplicating oldfd over newfd would change nothing about an internal descriptor there. */
  predicate Renames(k: Kernel, oldfd: int, newfd: int, cloexec: bool) {
    oldfd in k.fds && newfd in k.fds && k.fds[oldfd].ofd == k.fds[newfd].ofd && cloexec
  }

  /** Putting a description at a stuck number keeps the invariant only if it changes nothing there. */
  lemma StuckPut(s: State, oldfd: int, newfd: int, cloexec: bool)
    requires Inv(s) && Stuck(s, newfd) && oldfd in s.k.fds
    ensures var s' := s.(k := s.k.(fds := s.k.fds[newfd := Desc(s.k.fds[oldfd].ofd, cloexec)]));
            Inv(s') <==> Renames(s.k, oldfd, newfd, cloexec)
  {
    var s' := s.(k := s.k.(fds := s.k.fds[newfd := Desc(s.k.fds[oldfd].ofd, cloexec)]));
    var q :| Number(s, q) == newfd && !RefRoom(s, q);
    assert newfd in s.k.fds && s.k.fds[newfd] == Desc(Original(s, q), true);
    if Renames(s.k, oldfd, newfd, cloexec) {
      assert s'.k.fds == s.k.fds;
      assert s' == s;
    } else {
      SameButKernel(s, s');
      assert Number(s', q) == newfd && s'.k.fds[newfd] != Desc(Original(s', q), true);
    }
  }

  /** The kernel's part of a duplication over a stuck number. */
  lemma StuckDup(s1: State, s2: State, s3: State, oldfd: int, newfd: int, cloexec: bool, r: int, i: int)
    requires Inv(s1) && Stuck(s1, newfd) && Pinned(s1, s2, newfd, i) && i >= -1
    requires r >= 0 ==>
               oldfd in s2.k.fds && s3 == s2.(k := s2.k.(fds := s2.k.fds[newfd := Desc(s2.k.fds[oldfd].ofd, cloexec)]))
    requires r < 0 ==> FaultsOnly(s2, s3)
    ensures i >= 0 ==> Live(s3, i) && s3.table[i].installer != s3.self
    ensures Inv(s3) <==> r < 0 || Renames(s1.k, oldfd, newfd, cloexec)
  {
    PinKeeps(s1, s2, newfd, i, {});
    StuckUnderPin(s1, s2, newfd, newfd, i);
    if i >= 0 {
      StuckIsForeign(s1, newfd, i);
    }
    if r < 0 {
      FaultKeeps(s2, s3);
    } else {
      StuckPut(s2, oldfd, newfd, cloexec);
    }
  }

  lemma RecountKeepsInv(s: State, i: int, c: int)
    requires Live(s, i) && c > 0
    ensures Inv(Recounted(s, i, c)) <==> Inv(s)
  {
    var s' := Recounted(s, i, c);
    RecountNumbers(s, i, c);
    if Inv(s) {
      RecountKeeps(s, i, c);
    }
    if Inv(s') {
      RecountKeeps(s', i, s.table[i].refcount);
      assert Recounted(s', i, s.table[i].refcount) == s;
    }
  }

  /** The end of a duplication over a stuck number: the pin goes again, and no entry does. */
  lemma StuckDupEnds(s1: State, s2: State, s3: State, s4: State, newfd: int, i: int)
    requires UniqueViews(s1) && Pinned(s1, s2, newfd, i) && i >= -1 && s3 == s2.(k := s3.k)
    requires s3.k == s2.k.(fds := s3.k.fds, dup3Faults := s3.k.dup3Faults) && s2.k.dup3Faults <= s3.k.dup3Faults
    requires forall m :: m != newfd ==>
               (m in s3.k.fds <==> m in s2.k.fds) && (m in s2.k.fds ==> s3.k.fds[m] == s2.k.fds[m])
    requires s4 == if i >= 0 then Recounted(s3, i, s1.table[i].refcount) else s3
    ensures OnlyAt(s1, s4, newfd) && (Inv(s4) <==> Inv(s3))
  {
    if i >= 0 {
      RecountKeepsInv(s3, i, s1.table[i].refcount);
      assert s4.table == s1.table;
    }
    KernelOnlyAt(s1, s4, newfd);
  }

  /** The end of a duplication over a number that is not stuck. */
  lemma DupEnds(s1: State, s2: State, s3: State, s4: State, newfd: int, i: int)
    requires Valid(s1) && Pinned(s1, s2, newfd, i) && i >= -1
    requires s3 == s2.(k := s3.k) && s3.k.locks == s2.k.locks && s3.k.inode == s2.k.inode && Inv(s3)
    requires s3.k.nextInode == s2.k.nextInode && s3.k.dupFaults == s2.k.dupFaults && FaultsGrow(s2.k, s3.k)
    requires Effect(s1, s3, {newfd})
    requires if i == -1 then s4 == s3 else PostClosed(s3, s4, i) && Effect(s3, s4, {})
    ensures Valid(s4) && CallEffect(s1, s4, newfd) && Steady(s1, s4, {}) && KeptForCause(s4, Ino(s1.k, newfd))
  {
    if i >= 0 {
      EffectWiden(s3, s4, {}, {newfd});
      RecountNumbers(s1, i, s1.table[i].refcount + 1);
    } else {
      EffectRefl(s3, {newfd});
    }
    ShiftedRefl(s2, newfd);
    CallEnds(s1, s2, s2, s3, s4, newfd, i);
    SameButKernel(s2, s3);
  }

  /** What the caller of dup2 or dup3 sees at newfd; the kernel fails on its own only when it counts a fault. */
  ghost predicate DupResult(k: Kernel, k': Kernel, oldfd: int, newfd: int, cloexec: bool, r: int) {
    && (r == -1 || r == newfd)
    && (r >= 0 ==>
          oldfd in k.fds && oldfd != newfd && newfd in k'.fds && k'.fds[newfd] == Desc(k.fds[oldfd].ofd, cloexec))
    && (r < 0 && newfd in k.fds ==> newfd in k'.fds && k'.fds[newfd] == k.fds[newfd])
    && (r < 0 && newfd !in k.fds ==> newfd !in k'.fds)
    && (r < 0 && k'.dup3Faults == k.dup3Faults ==> !(oldfd in k.fds && oldfd != newfd && 0 <= newfd < k.limit))
    && k.dup3Faults <= k'.dup3Faults
  }

  /** dup3 failed, or had nothing to do. */
  ghost predicate FaultsOnly(s: State, s': State) {
    s' == s.(k := s.k.(dup3Faults := s'.k.dup3Faults)) && s.k.dup3Faults <= s'.k.dup3Faults
  }

  lemma FaultKeeps(s: State, s': State)
    requires Inv(s) && FaultsGrow(s.k, s'.k)
    requires s' == s.(k := s.k.(dup3Faults := s'.k.dup3Faults, dupFaults := s'.k.dupFaults,
                                openFaults := s'.k.openFaults, lockFaults := s'.k.lockFaults))
    ensures Inv(s')
    ensures forall touched :: Effect(s, s', touched)
  {
    HeldInSub(s.k, s'.k);
    KernelKeeps(s, s'.k);
    forall touched
      ensures Effect(s, s', touched)
    {
      KernelEffect(s, s'.k, touched);
    }
  }

  lemma ShiftedIno(s: State, s': State, target: int)
    requires Inv(s) && Inv(s') && Shifted(s, s', target)
    requires target in s'.k.fds ==> target in s.k.fds || !Internal(s', target)
    ensures Ino(s'.k, target) == Ino(s.k, target)
    ensures Extends(s.k, s'.k)
  {
  }

  /** newfd now names a description that the library itself had open at newfd before. */
  ghost predicate NamesInternal(s: State, k': Kernel, newfd: int) {
    exists r :: Number(s, r) == newfd && newfd in k'.fds && k'.fds[newfd].ofd == Original(s, r)
  }

  /** A closed oldfd is open again after the relocation exactly when the relocated descriptor landed there. */
  lemma LandsOnClosed(s: State, s': State, oldfd: int, newfd: int)
    requires Inv(s) && Inv(s') && Shifted(s, s', newfd) && newfd >= 0 && !Internal(s', newfd) && oldfd !in s.k.fds
    ensures oldfd in s'.k.fds ==>
              && Internal(s, newfd) && LeastFree(s.k, oldfd)
              && exists r :: Number(s, r) == newfd && s'.k.fds[oldfd].ofd == Original(s, r)
    ensures s'.k.dupFaults == s.k.dupFaults && Internal(s, newfd) && LeastFree(s.k, oldfd) ==> oldfd in s'.k.fds
  {
  }

  // ---------------------------------------------------------------- new descriptions

  /** The kernel after an open that returned n: a new description on inode ino. */
  function Opened(k: Kernel, n: int, cloexec: bool, ino: nat): Kernel {
    k.(fds := k.fds[n := Desc(k.nextOfd, cloexec)],
       inode := k.inode[k.nextOfd := ino],
       nextOfd := k.nextOfd + 1,
       nextInode := if ino < k.nextInode then k.nextInode else ino + 1)
  }

  lemma OpenKeeps(s: State, n: int, cloexec: bool, ino: nat)
    requires Valid(s) && 0 <= n < s.k.limit && n !in s.k.fds
    ensures var s' := s.(k := Opened(s.k, n, cloexec, ino));
            Valid(s') && Effect(s, s', {n}) && !Internal(s', n)
  {
    var k := Opened(s.k, n, cloexec, ino);
    NotInternal(s, n);
    assert forall fd :: fd in s.k.fds ==> k.fds[fd] == s.k.fds[fd];
    forall o | o in s.k.inode && HeldHere(k, o)
      ensures HeldHere(s.k, o)
    {
      var fd :| fd in k.fds && k.fds[fd].ofd == o;
      assert fd in s.k.fds;
    }
    KernelKeeps(s, k);
    KernelEffect(s, k, {n});
    assert n !in s.k.fds && forall r :: Number(s, r) != n;
  }

  /** Numbers that were closed before, and are closed or internal afterwards, need not be named. */
  lemma EffectNarrow(s: State, s': State, touched: set<int>, fewer: set<int>)
    requires Effect(s, s', touched) && fewer <= touched
    requires forall n :: n in touched && n !in fewer ==> n !in s.k.fds && (n !in s'.k.fds || Internal(s', n))
    ensures Effect(s, s', fewer)
  {
  }

  /** A lock taken or dropped on a description that belongs to no entry. */
  lemma RelockKeeps(s: State, locks: map<nat, Lock>)
    requires Valid(s) && forall i :: Live(s, i) && s.table[i].wrap in s.k.locks ==> s.table[i].wrap in locks
    ensures var s' := s.(k := s.k.(locks := locks));
            Valid(s') && Effect(s, s', {}) && forall n :: Internal(s', n) == Internal(s, n)
  {
    var k := s.k.(locks := locks);
    HeldInSub(s.k, k);
    KernelKeeps(s, k);
    KernelEffect(s, k, {});
  }

  lemma ShiftThenCall(s0: State, s1: State, s2: State, target: int)
    requires Inv(s0) && Inv(s1) && Shifted(s0, s1, target)
    requires CallEffect(s1, s2, target) && Steady(s1, s2, {}) && Ino(s1.k, target) == Ino(s0.k, target)
    ensures CallEffect(s0, s2, target)
  {
    EffectShift(s0, s1, target);
    EffectTrans(s0, s1, s2, {target});
    SameShapeSame(s0, s1);
    ShiftThenSteady(s0, s1, s2, target);
    ShiftThenCause(s0, s1, s2, target);
    ShiftThenUndisturbed(s0, s1, s2, target);
  }

  lemma ShiftThenUndisturbed(s0: State, s1: State, s2: State, target: int)
    requires Shifted(s0, s1, target) && NoNewEntries(s1, s2) && Undisturbed(s1, s2)
    ensures Undisturbed(s0, s2) && NoNewEntries(s0, s2)
  {
    SameShapeSame(s0, s1);
    forall i | Live(s2, i)
      ensures Kept(s0, s2, i) && EntryIsolated(s0, s2, i)
    {
      assert Kept(s1, s2, i) && Live(s0, i);
      EntryIsolatedTrans(s0, s1, s2, i);
    }
  }

  lemma ShiftThenSteady(s0: State, s1: State, s2: State, target: int)
    requires Shifted(s0, s1, target) && Steady(s1, s2, {}) && NoNewEntries(s1, s2)
    requires forall i :: Live(s1, i) == Live(s0, i)
    requires forall r :: IsRef(s1, r) == IsRef(s0, r)
    requires forall r :: Original(s1, r) == Original(s0, r)
    ensures Steady(s0, s2, {target})
  {
  }

  lemma ShiftThenCause(s0: State, s1: State, s2: State, target: int)
    requires Shifted(s0, s1, target) && ReleasedForCause(s1, s2, target) && Ino(s1.k, target) == Ino(s0.k, target)
    requires forall i :: Live(s1, i) == Live(s0, i)
    ensures ReleasedForCause(s0, s2, target)
  {
    forall i | Live(s0, i) && !Live(s2, i)
      ensures Number(s1, Probe(i)) >= 0 ==> Number(s0, Probe(i)) >= 0
    {
    }
  }

  /** The first half of a duplication over a number that is not internal. */
  lemma DupHalfway(s1: State, s2: State, s3: State, oldfd: int, newfd: int, cloexec: bool, i: int)
    requires Inv(s1) && Pinned(s1, s2, newfd, i) && i >= -1 && (newfd >= 0 ==> !Internal(s1, newfd))
    requires || (oldfd in s2.k.fds && 0 <= newfd < s2.k.limit
                 && s3 == s2.(k := s2.k.(fds := s2.k.fds[newfd := Desc(s2.k.fds[oldfd].ofd, cloexec)])))
             || FaultsOnly(s2, s3)
    ensures Inv(s3) && Effect(s1, s3, {newfd}) && (newfd >= 0 ==> !Internal(s3, newfd))
  {
    PinKeeps(s1, s2, newfd, i, {newfd});
    InternalUnderPin(s1, s2, newfd, i);
    PutOrFault(s2, s3, oldfd, newfd, cloexec);
    EffectTrans(s1, s2, s3, {newfd});
  }

  /** Where a duplication stands once the kernel has made it, or failed. */
  lemma DupMiddle(s1: State, s2: State, s3: State, oldfd: int, newfd: int, cloexec: bool, r: int, i: int)
    requires Inv(s1) && Pinned(s1, s2, newfd, i) && i >= -1
    requires newfd >= 0 && Internal(s1, newfd) ==> Stuck(s1, newfd)
    requires r >= 0 ==>
               && oldfd in s2.k.fds && 0 <= newfd < s2.k.limit
               && s3 == s2.(k := s2.k.(fds := s2.k.fds[newfd := Desc(s2.k.fds[oldfd].ofd, cloexec)]))
    requires r < 0 ==> FaultsOnly(s2, s3)
    ensures !Stuck(s1, newfd) ==> Inv(s3) && Effect(s1, s3, {newfd}) && (newfd >= 0 ==> !Internal(s3, newfd))
    ensures Stuck(s1, newfd) ==>
              && (i >= 0 ==> Live(s3, i) && s3.table[i].installer != s3.self)
              && (Inv(s3) <==> r < 0 || Renames(s1.k, oldfd, newfd, cloexec))
  {
    if Stuck(s1, newfd) {
      StuckDup(s1, s2, s3, oldfd, newfd, cloexec, r, i);
    } else {
      DupHalfway(s1, s2, s3, oldfd, newfd, cloexec, i);
    }
  }

  lemma InternalUnderPin(s: State, s': State, fd: int, i: int)
    requires Pinned(s, s', fd, i) && i >= -1
    ensures forall n :: Internal(s', n) == Internal(s, n)
  {
    if i >= 0 {
      RecountNumbers(s, i, s.table[i].refcount + 1);
    }
  }

  lemma PutOrFault(s: State, s': State, oldfd: int, newfd: int, cloexec: bool)
    requires Inv(s) && (newfd >= 0 ==> !Internal(s, newfd))
    requires || (oldfd in s.k.fds && 0 <= newfd < s.k.limit
                 && s' == s.(k := s.k.(fds := s.k.fds[newfd := Desc(s.k.fds[oldfd].ofd, cloexec)])))
             || FaultsOnly(s, s')
    ensures Inv(s') && Effect(s, s', {newfd}) && (newfd >= 0 ==> !Internal(s', newfd))
  {
    SameButKernel(s, s');
    if FaultsOnly(s, s') {
      FaultKeeps(s, s');
    } else {
      PutKeeps(s, oldfd, newfd, cloexec);
    }
  }
}
