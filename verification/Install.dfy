/** Making a wrap: a synthetic descriptor on a fresh inode, and the tty handler that puts one over a terminal. */
module Install {
  import opened DescriptorView
  import opened KernelState
  import opened SynthState
  import opened SynthLemmas
  import opened SynthEffects
  import opened SynthTable
  import opened Registration
  import opened Lending

  /** open(2) of a file on inode ino: the lowest unused number, or a failure. */
  method SysOpen(lib: Library, cloexec: bool, ino: nat) returns (n: int)
    modifies lib`k
    ensures n == -1 ==> lib.k == old(lib.k).(openFaults := old(lib.k).openFaults + 1)
    ensures n != -1 ==> 0 <= n < lib.k.limit && n !in old(lib.k).fds && lib.k == Opened(old(lib.k), n, cloexec, ino)
    ensures forall m :: 0 <= m < n ==> m in old(lib.k).fds
  {
    n := 0;
    while n < lib.k.limit && n in lib.k.fds
      invariant n >= 0 && forall m :: 0 <= m < n ==> m in lib.k.fds
    {
      n := n + 1;
    }
    if n >= lib.k.limit {
      lib.k := lib.k.(openFaults := lib.k.openFaults + 1);
      return -1;
    }
    lib.k := Opened(lib.k, n, cloexec, ino);
  }

  /** flock(fd, LOCK_SH | LOCK_NB); some kernels refuse it on an O_PATH descriptor. */
  method SysFlockSh(lib: Library, fd: int) returns (ok: bool)
    requires fd in lib.k.fds
    modifies lib`k
    ensures lib.k == if ok then old(lib.k).(locks := old(lib.k).locks[old(lib.k).fds[fd].ofd := Shared])
                     else old(lib.k).(lockFaults := old(lib.k).lockFaults + 1)
  {
    ok := true;
    lib.k := lib.k.(locks := lib.k.locks[lib.k.fds[fd].ofd := Shared]);
  }

  method SysFlockUn(lib: Library, fd: int)
    requires fd in lib.k.fds
    modifies lib`k
    ensures lib.k == old(lib.k).(locks := old(lib.k).locks - {old(lib.k).fds[fd].ofd})
  {
    lib.k := lib.k.(locks := lib.k.locks - {lib.k.fds[fd].ofd});
  }

  /** s' differs from s by new descriptions on the new inode key, at numbers that were closed. */
  ghost predicate Grown(s: State, s': State, key: nat) {
    && s' == s.(k := s'.k) && Valid(s')
    && key == s.k.nextInode <= s'.k.nextInode && s'.k.nextOfd >= s.k.nextOfd
    && Extends(s.k, s'.k)
    && (forall o :: o in s.k.inode ==> InoOf(s'.k, o) == InoOf(s.k, o))
    && (forall o :: o in s'.k.inode && o !in s.k.inode ==> s'.k.inode[o] == key && o >= s.k.nextOfd)
    && (forall o :: o in s.k.inode ==> (o in s'.k.locks <==> o in s.k.locks))
    && (forall n :: n in s'.k.fds && n !in s.k.fds ==> s'.k.fds[n].ofd !in s.k.inode)
  }

  lemma ReadyWhenGrown(s: State, s': State, w: Wrap)
    requires Valid(s) && Grown(s, s', w.key)
    requires InoOf(s'.k, w.ofd) == w.key && InoOf(s'.k, w.probeOfd) == w.key && w.ofd != w.probeOfd
    requires w.probe == -1
             || (w.probe >= 0 && w.probe !in s.k.fds && Loose(s', w.probe, w.probeOfd) && w.ofd in s'.k.locks)
    requires w.tty == -1 || SpareTty(s, w.tty)
    ensures Ready(s', w)
  {
    SameButKernel(s, s');
    forall i | Live(s, i)
      ensures s.table[i].key < w.key
    {
      assert EntryOk(s, i) && s.k.inode[s.table[i].wrap] == s.table[i].key;
    }
    forall r | Raw(s, r) >= 0
      ensures InoOf(s'.k, Original(s, r)) == InoOf(s.k, Original(s, r)) < w.key
    {
      assert r !in s.lent ==> s.k.fds[Number(s, r)].ofd == Original(s, r);
    }
  }

  lemma GrownOpen(s0: State, s: State, n: int, cloexec: bool, key: nat)
    requires Valid(s0) && Grown(s0, s, key) && 0 <= n < s.k.limit && n !in s.k.fds
    ensures var s' := s.(k := Opened(s.k, n, cloexec, key));
            && Grown(s0, s', key) && Effect(s, s', {n}) && !Internal(s', n)
            && InoOf(s'.k, s.k.nextOfd) == key && s.k.nextOfd !in s.k.inode
            && Extends(s.k, s'.k) && (forall o :: o in s.k.inode ==> InoOf(s'.k, o) == InoOf(s.k, o))
  {
    OpenKeeps(s, n, cloexec, key);
  }

  /** A lock on a description of the new inode concerns no entry. */
  lemma GrownRelock(s0: State, s: State, o: nat, locks: map<nat, Lock>, key: nat)
    requires Valid(s0) && Grown(s0, s, key) && o !in s0.k.inode
    requires forall o' :: o' != o ==> (o' in locks <==> o' in s.k.locks)
    ensures var s' := s.(k := s.k.(locks := locks));
            Grown(s0, s', key) && Effect(s, s', {}) && forall n :: Internal(s', n) == Internal(s, n)
  {
    forall i | Live(s, i)
      ensures s.table[i].wrap != o
    {
      assert EntryOk(s0, i);
    }
    RelockKeeps(s, locks);
  }

  /** The wrap got a probe, a new close-on-exec descriptor on its inode, or none; nothing else changed. */
  ghost predicate ProbeOpened(s: State, s': State, w0: Wrap, w: Wrap) {
    && Effect(s, s', {w.probe}) && Extends(s.k, s'.k)
    && (forall o :: o in s.k.inode ==> InoOf(s'.k, o) == InoOf(s.k, o))
    && (w.probe == -1 ==> w == w0 && (s.k.openFaults < s'.k.openFaults || s.k.lockFaults < s'.k.lockFaults))
    && (w.probe != -1 ==>
          && w == w0.(probe := w.probe, probeOfd := w.probeOfd)
          && w.probe >= 0 && w.probe !in s.k.fds && Loose(s', w.probe, w.probeOfd)
          && w.ofd in s'.k.locks && InoOf(s'.k, w.probeOfd) == w.key && w.probeOfd !in s.k.inode)
  }

  lemma ProbeIsOpened(s0: State, s: State, s': State, n: int, w0: Wrap)
    requires Valid(s0) && Grown(s0, s, w0.key) && 0 <= n < s.k.limit && n !in s.k.fds && w0.ofd in s.k.locks
    requires s' == s.(k := Opened(s.k, n, true, w0.key))
    ensures Grown(s0, s', w0.key) && ProbeOpened(s, s', w0, w0.(probe := n, probeOfd := s.k.nextOfd))
  {
    GrownOpen(s0, s, n, true, w0.key);
  }

  /** No second description: the lock is dropped, and the wrap has no probe. */
  lemma ProbeIsAbsent(s0: State, s: State, s': State, w0: Wrap)
    requires Valid(s0) && Grown(s0, s, w0.key) && w0.ofd !in s0.k.inode && w0.probe == -1
    requires s' == s.(k := s.k.(locks := s.k.locks - {w0.ofd}, openFaults := s.k.openFaults + 1))
    ensures Grown(s0, s', w0.key) && ProbeOpened(s, s', w0, w0)
  {
    var s1 := s.(k := s.k.(locks := s.k.locks - {w0.ofd}));
    GrownRelock(s0, s, w0.ofd, s1.k.locks, w0.key);
    GrownFault(s0, s1, s', w0.key);
    EffectThen(s, s1, s', {}, {}, {w0.probe});
  }

  lemma GrownFault(s0: State, s: State, s': State, key: nat)
    requires Valid(s0) && Grown(s0, s, key) && FaultsGrow(s.k, s'.k)
    requires s' == s.(k := s.k.(openFaults := s'.k.openFaults, lockFaults := s'.k.lockFaults))
    ensures Grown(s0, s', key) && Effect(s, s', {})
  {
    FaultKeeps(s, s');
  }

  /** synth_install_probe: mark the wrap's description with a shared lock, then open a second description. */
  method InstallProbe(lib: Library, path: int, w0: Wrap, ghost s0: State) returns (w: Wrap)
    requires Valid(s0) && Grown(s0, lib.S(), w0.key)
    requires path in lib.k.fds && lib.k.fds[path].ofd == w0.ofd && w0.ofd !in s0.k.inode && w0.probe == -1
    requires InoOf(lib.k, w0.ofd) == w0.key
    modifies lib`k
    ensures Grown(s0, lib.S(), w0.key) && ProbeOpened(old(lib.S()), lib.S(), w0, w)
  {
    ghost var s := lib.S();
    w := w0;
    var locked := SysFlockSh(lib, path);
    if !locked {
      GrownFault(s0, s, lib.S(), w0.key);
      EffectWiden(s, lib.S(), {}, {w.probe});
      return;
    }
    GrownRelock(s0, s, w0.ofd, lib.k.locks, w0.key);
    ghost var s1 := lib.S();
    w := OpenProbe(lib, path, w0, s0);
    ProbeAfterLock(s, s1, lib.S(), w0, w);
  }

  lemma ProbeAfterLock(s: State, s1: State, s2: State, w0: Wrap, w: Wrap)
    requires Inv(s) && Effect(s, s1, {}) && s1.k.fds == s.k.fds && s1.k.inode == s.k.inode && ProbeOpened(s1, s2, w0, w)
    ensures ProbeOpened(s, s2, w0, w)
  {
    EffectThen(s, s1, s2, {}, {w.probe}, {w.probe});
  }

  /** The second half of synth_install_probe: a second description on the inode, or the lock is dropped again. */
  method OpenProbe(lib: Library, path: int, w0: Wrap, ghost s0: State) returns (w: Wrap)
    requires Valid(s0) && Grown(s0, lib.S(), w0.key)
    requires path in lib.k.fds && lib.k.fds[path].ofd == w0.ofd && w0.ofd !in s0.k.inode && w0.probe == -1
    requires w0.ofd in lib.k.locks
    modifies lib`k
    ensures Grown(s0, lib.S(), w0.key) && ProbeOpened(old(lib.S()), lib.S(), w0, w)
  {
    ghost var s1 := lib.S();
    w := w0;
    var probe := SysOpen(lib, true, w0.key);
    if probe == -1 {
      SysFlockUn(lib, path);
      ProbeIsAbsent(s0, s1, lib.S(), w0);
      return;
    }
    ProbeIsOpened(s0, s1, lib.S(), probe, w0);
    w := w0.(probe := probe, probeOfd := lib.k.fds[probe].ofd);
  }

  lemma FirstUndone(s0: State, s1: State, s2: State, s3: State, back: int)
    requires Valid(s0) && 0 <= back < s0.k.limit && back !in s0.k.fds
    requires s1 == s0.(k := Opened(s0.k, back, true, s0.k.nextInode))
    requires s2 == s1.(k := s1.k.(openFaults := s1.k.openFaults + 1))
    requires s3 == s2.(k := s2.k.(fds := s2.k.fds - {back}))
    ensures Valid(s3) && Effect(s0, s3, {}) && Lineage(s0, s3)
  {
    GrownOpen(s0, s0, back, true, s0.k.nextInode);
    OpenUndone(s0, s1, s2, s3, back);
  }

  lemma BothOpened(s0: State, s1: State, s2: State, back: int, path: int, cloexec: bool)
    requires Valid(s0) && 0 <= back < s0.k.limit && back !in s0.k.fds
    requires s1 == s0.(k := Opened(s0.k, back, true, s0.k.nextInode))
    requires 0 <= path < s1.k.limit && path !in s1.k.fds
    requires s2 == s1.(k := Opened(s1.k, path, cloexec, s0.k.nextInode))
    ensures Grown(s0, s2, s0.k.nextInode) && Effect(s0, s2, {back, path})
    ensures !Internal(s2, back) && !Internal(s2, path)
    ensures InoOf(s2.k, s0.k.nextOfd) == InoOf(s2.k, s0.k.nextOfd + 1) == s0.k.nextInode
  {
    GrownOpen(s0, s0, back, true, s0.k.nextInode);
    GrownOpen(s0, s1, path, cloexec, s0.k.nextInode);
    EffectThen(s0, s1, s2, {back}, {path}, {back, path});
  }

  /** Steps 1 and 2 of wslcompat_synth_open: a backing file, and the O_PATH descriptor on the same inode. */
  method OpenBoth(lib: Library, cloexec: bool) returns (ok: bool, back: int, path: int)
    requires Valid(lib.S())
    modifies lib`k
    ensures !ok ==>
              && Valid(lib.S()) && lib.S() == old(lib.S()).(k := lib.k) && old(lib.k).openFaults < lib.k.openFaults
              && Effect(old(lib.S()), lib.S(), {}) && Lineage(old(lib.S()), lib.S())
    ensures ok ==>
              && Grown(old(lib.S()), lib.S(), old(lib.k).nextInode)
              && Effect(old(lib.S()), lib.S(), {back, path})
              && back != path && back !in old(lib.k).fds && path !in old(lib.k).fds
              && back in lib.k.fds && path in lib.k.fds && !Internal(lib.S(), back) && !Internal(lib.S(), path)
              && lib.k.fds[path] == Desc(old(lib.k).nextOfd + 1, cloexec)
              && lib.k.fds[back] == Desc(old(lib.k).nextOfd, true)
              && InoOf(lib.k, old(lib.k).nextOfd) == InoOf(lib.k, old(lib.k).nextOfd + 1) == old(lib.k).nextInode
  {
    ghost var s0 := lib.S();
    var key := lib.k.nextInode;
    path := -1;
    back := SysOpen(lib, true, key);
    if back == -1 {
      assert Valid(lib.S()) && Effect(s0, lib.S(), {}) by { FaultKeeps(s0, lib.S()); }
      KernelLineage(s0, lib.k);
      return false, back, path;
    }
    ghost var s1 := lib.S();
    path := SysOpen(lib, cloexec, key);
    if path == -1 {
      ghost var s2 := lib.S();
      var _ := lib.SysClose(back);
      FirstUndone(s0, s1, s2, lib.S(), back);
      return false, back, path;
    }
    BothOpened(s0, s1, lib.S(), back, path, cloexec);
    ok := true;
  }

  /** The second open failed, and the first descriptor is closed again. */
  lemma OpenUndone(s0: State, s1: State, s2: State, s3: State, back: int)
    requires Valid(s0) && Valid(s1) && s1 == s0.(k := s1.k) && Effect(s0, s1, {back}) && !Internal(s1, back)
    requires s2 == s1.(k := s1.k.(openFaults := s2.k.openFaults)) && s1.k.openFaults <= s2.k.openFaults
    requires s3 == s2.(k := s2.k.(fds := s2.k.fds - {back})) && back !in s0.k.fds && s0.k.nextInode <= s1.k.nextInode
    ensures Valid(s3) && Effect(s0, s3, {}) && Lineage(s0, s3)
  {
    FaultKeeps(s1, s2);
    SameButKernel(s1, s2);
    DropKeeps(s2, back);
    EffectThen(s0, s1, s2, {back}, {}, {back});
    EffectTrans(s0, s2, s3, {back});
    EffectNarrow(s0, s3, {back}, {});
    KernelLineage(s0, s3.k);
  }

  /** The outcome of steps 1 to 4: descriptors at numbers that were closed, ready to be registered. */
  ghost predicate WrapOpened(s: State, s': State, back: int, path: int, w: Wrap, cloexec: bool) {
    && Grown(s, s', w.key) && Ready(s', w)
    && Effect(s, s', {back, path, w.probe})
    && (w.probe == -1 ==> s.k.openFaults < s'.k.openFaults || s.k.lockFaults < s'.k.lockFaults)
    && NewPlaces(s, s', back, path, w.probe) && s'.k.fds[path] == Desc(w.ofd, cloexec)
    && (forall n :: n in s'.k.fds && Ino(s'.k, n) == w.key ==> n in {back, path, w.probe})
  }

  /** Three different numbers that were closed; the first two are open now and recorded nowhere. */
  ghost predicate NewPlaces(s: State, s': State, back: int, path: int, probe: int) {
    && back != path && back != probe && path != probe
    && (forall n :: n in {back, path, probe} ==> n !in s.k.fds)
    && back in s'.k.fds && !Internal(s', back) && path in s'.k.fds && !Internal(s', path)
  }

  /** Only the new descriptors are on the new inode. */
  lemma NewInodeIsOurs(s: State, s': State, key: nat, touched: set<int>)
    requires Valid(s) && Grown(s, s', key) && Effect(s, s', touched)
    ensures forall n :: n in s'.k.fds && Ino(s'.k, n) == key ==> n in touched
  {
    SameButKernel(s, s');
    forall n | n in s'.k.fds && n !in touched
      ensures Ino(s'.k, n) != key
    {
      assert n in s.k.fds;
    }
  }

  /**
    Steps 1 to 4 of wslcompat_synth_open: the backing file, the O_PATH descriptor, and the
    liveness probe, which is best effort.
  */
  method OpenWrap(lib: Library, cloexec: bool, t: int) returns (ok: bool, back: int, path: int, w: Wrap)
    requires Valid(lib.S()) && (t == -1 || SpareTty(lib.S(), t))
    modifies lib`k
    ensures !ok ==>
              && Valid(lib.S()) && lib.S() == old(lib.S()).(k := lib.k) && old(lib.k).openFaults < lib.k.openFaults
              && Effect(old(lib.S()), lib.S(), {}) && Lineage(old(lib.S()), lib.S())
    ensures ok ==> WrapOpened(old(lib.S()), lib.S(), back, path, w, cloexec) && w.tty == t
  {
    ghost var s0 := lib.S();
    var key := lib.k.nextInode;
    w := Wrap(0, 0, -1, 0, t);
    ok, back, path := OpenBoth(lib, cloexec);
    if !ok {
      return;
    }
    ghost var s2 := lib.S();
    w := InstallProbe(lib, path, Wrap(key, lib.k.fds[path].ofd, -1, lib.k.fds[back].ofd, t), s0);
    WrapIsOpened(s0, s2, lib.S(), back, path, w, cloexec);
  }

  lemma WrapIsOpened(s0: State, s2: State, s3: State, back: int, path: int, w: Wrap, cloexec: bool)
    requires Valid(s0) && WfKernel(s2.k) && Extends(s0.k, s2.k) && Grown(s0, s3, w.key)
    requires Effect(s0, s2, {back, path}) && Effect(s2, s3, {w.probe})
    requires back != path && back !in s0.k.fds && path !in s0.k.fds && back in s2.k.fds && path in s2.k.fds
    requires !Internal(s2, back) && !Internal(s2, path) && s2.k.fds[path] == Desc(w.ofd, cloexec)
    requires InoOf(s3.k, w.ofd) == w.key && InoOf(s3.k, w.probeOfd) == w.key && w.ofd != w.probeOfd
    requires w.probe == -1
             || (w.probe >= 0 && w.probe !in s2.k.fds && Loose(s3, w.probe, w.probeOfd) && w.ofd in s3.k.locks)
    requires w.probe == -1 ==> s2.k.openFaults < s3.k.openFaults || s2.k.lockFaults < s3.k.lockFaults
    requires w.tty == -1 || SpareTty(s0, w.tty)
    ensures WrapOpened(s0, s3, back, path, w, cloexec)
  {
    EffectThen(s0, s2, s3, {back, path}, {w.probe}, {back, path, w.probe});
    ReadyWhenGrown(s0, s3, w);
    NewInodeIsOurs(s0, s3, w.key, {back, path, w.probe});
    PlacesAreNew(s0, s2, s3, back, path, w.probe);
  }

  lemma PlacesAreNew(s0: State, s2: State, s3: State, back: int, path: int, probe: int)
    requires WfKernel(s0.k) && WfKernel(s2.k) && Effect(s2, s3, {probe}) && Extends(s0.k, s2.k)
    requires back != path && back !in s0.k.fds && path !in s0.k.fds && back in s2.k.fds && path in s2.k.fds
    requires !Internal(s2, back) && !Internal(s2, path) && (probe == -1 || probe !in s2.k.fds)
    ensures NewPlaces(s0, s3, back, path, probe) && s3.k.fds[path] == s2.k.fds[path]
  {
    assert -1 !in s0.k.fds && -1 !in s2.k.fds;
  }

  /** The library closes a descriptor of its own that is recorded nowhere. */
  method CloseLoose(lib: Library, n: int, ghost s0: State, ghost touched: set<int>)
    requires Valid(lib.S()) && Inv(s0) && Effect(s0, lib.S(), touched) && n in touched
    requires n in lib.k.fds ==> !Internal(lib.S(), n)
    modifies lib`k
    ensures Valid(lib.S()) && Effect(s0, lib.S(), touched)
    ensures lib.k == old(lib.k).(fds := old(lib.k).fds - {n})
    ensures forall m :: Internal(lib.S(), m) == Internal(old(lib.S()), m)
  {
    ghost var s := lib.S();
    var _ := lib.SysClose(n);
    DropKeeps(s, n);
    SameButKernel(s, lib.S());
    EffectThen(s0, s, lib.S(), touched, {n}, touched);
  }

  /** fd is a descriptor of the application on the wrap of entry i. */
  ghost predicate IsWrap(s: State, fd: int, i: int, cloexec: bool, t: int) {
    && Live(s, i) && s.table[i].installer == s.self && s.table[i].tty == t
    && fd in s.k.fds && s.k.fds[fd] == Desc(s.table[i].wrap, cloexec) && !Internal(s, fd)
    && (t >= 0 ==> Number(s, Backing(i)) >= 0)
  }

  ghost function BackingNumber(s: State, t: int): set<int> {
    if 0 <= t < |s.ttys| then {s.ttys[t].backing.base} else {}
  }

  /** The cleanup path of wslcompat_synth_open: the descriptor table is as it was. */
  method AbandonWrap(lib: Library, back: int, path: int, w: Wrap, ghost s0: State)
    requires Valid(s0) && Valid(lib.S()) && lib.S() == s0.(k := lib.k) && s0.k.nextInode <= lib.k.nextInode
    requires Effect(s0, lib.S(), {back, path, w.probe}) && NewPlaces(s0, lib.S(), back, path, w.probe)
    requires w.probe == -1 || !Internal(lib.S(), w.probe)
    modifies lib`k
    ensures Valid(lib.S()) && lib.S() == s0.(k := lib.k) && Effect(s0, lib.S(), {}) && Lineage(s0, lib.S())
  {
    ghost var touched := {back, path, w.probe};
    if w.probe != -1 {
      CloseLoose(lib, w.probe, s0, touched);
    }
    CloseLoose(lib, path, s0, touched);
    CloseLoose(lib, back, s0, touched);
    assert -1 !in lib.k.fds;
    EffectNarrow(s0, lib.S(), touched, {});
    KernelLineage(s0, lib.k);
  }

  /** No descriptor of the application but fd is on the inode of entry i. */
  ghost predicate AloneOn(s: State, i: int, fd: int) {
    Live(s, i) && forall n :: n in s.k.fds && !Internal(s, n) && Ino(s.k, n) == s.table[i].key ==> n == fd
  }

  /** Handler states that are claimed were claimed before. */
  ghost predicate NoNewClaims(s: State, s': State) {
    |s'.ttys| == |s.ttys| && forall t :: 0 <= t < |s.ttys| && s'.ttys[t].claimed ==> s.ttys[t].claimed
  }

  /** A new wrap at synth: its descriptor is alone on its inode, and only its entry is new. */
  ghost predicate SynthMade(s: State, s': State, synth: int, cloexec: bool, t: int, i: int) {
    && synth !in s.k.fds && IsWrap(s', synth, i, cloexec, t)
    && AloneOn(s', i, synth) && Number(s', Probe(i)) !in s.k.fds
    && (forall j :: Live(s', j) && j != i ==> Kept(s, s', j))
    && Effect(s, s', {synth} + BackingNumber(s, t)) && Lineage(s, s') && NoNewClaims(s, s')
    && (0 <= t < |s.ttys| ==> s'.ttys[t] == s.ttys[t])
    && (s'.k.openFaults == s.k.openFaults && s'.k.lockFaults == s.k.lockFaults ==> Number(s', Probe(i)) >= 0)
  }

  /** New descriptors on a new inode do not change what the sweep can free. */
  lemma GrownIsAsFull(s: State, s': State, key: nat, touched: set<int>)
    requires Valid(s) && Grown(s, s', key) && Effect(s, s', touched)
    ensures Full(s') == Full(s)
  {
    SameButKernel(s, s');
    forall i | Live(s, i)
      ensures Sweepable(s', i) == Sweepable(s, i)
    {
      assert EntryOk(s, i);
      SameDecision(s, s', key, touched, i);
    }
  }

  lemma SameDecision(s: State, s': State, key: nat, touched: set<int>, i: int)
    requires Valid(s) && Grown(s, s', key) && Effect(s, s', touched) && Live(s, i) && EntryOk(s, i)
    ensures ShouldRelease(s', i) == ShouldRelease(s, i)
  {
    var (p, e) := (s.table[i].probeOfd, s.table[i]);
    assert e.key < key;
    assert forall o :: InoOf(s'.k, o) == e.key <==> InoOf(s.k, o) == e.key;
    assert forall o :: o in s.k.inode ==> (HeldHere(s'.k, o) <==> HeldHere(s.k, o)) by {
      forall o | o in s.k.inode && HeldHere(s.k, o)
        ensures HeldHere(s'.k, o)
      {
        var fd :| fd in s.k.fds && s.k.fds[fd].ofd == o;
        assert fd in s'.k.fds && s'.k.fds[fd].ofd == o;
      }
    }
    assert Contested(s'.k, p) == Contested(s.k, p);
    SameOthersOn(s, s', Number(s, Probe(i)), e.key);
  }

  lemma SameOthersOn(s: State, s': State, probe: int, key: int)
    requires WfKernel(s'.k) && Extends(s.k, s'.k) && key >= 0
    requires forall o :: InoOf(s'.k, o) == key <==> InoOf(s.k, o) == key
    requires forall n :: n in s'.k.fds && n !in s.k.fds ==> Ino(s'.k, n) != key
    ensures OtherOn(s'.k, probe, key) == OtherOn(s.k, probe, key)
  {
  }

  /**
    wslcompat_synth_open. On success the returned descriptor is on a fresh wrap with a live
    entry, which has a probe unless a system call failed. It fails only when an open fails or the
    table is full, and then every descriptor and every entry is as before.
  */
  method SynthOpen(lib: Library, cloexec: bool, t: int) returns (fd: int, ghost i: int)
    requires Valid(lib.S()) && (t == -1 || SpareTty(lib.S(), t))
    modifies lib
    ensures Valid(lib.S())
    ensures fd == -1 ==>
              && lib.S() == old(lib.S()).(k := lib.k)
              && Effect(old(lib.S()), lib.S(), {}) && Lineage(old(lib.S()), lib.S())
    ensures fd == -1 ==> old(lib.k).openFaults < lib.k.openFaults || Full(old(lib.S()))
    ensures Full(old(lib.S())) ==> fd == -1
    ensures fd != -1 ==> SynthMade(old(lib.S()), lib.S(), fd, cloexec, t, i)
  {
    ghost var s0 := lib.S();
    var ok, back, path, w := OpenWrap(lib, cloexec, t);
    i := -1;
    if !ok {
      return -1, i;
    }
    ghost var s1 := lib.S();
    GrownIsAsFull(s0, s1, w.key, {back, path, w.probe});
    var slot := Register(lib, w);
    if slot == -1 {
      AbandonWrap(lib, back, path, w, s0);
      return -1, i;
    }
    fd, i := path, slot;
    CloseBack(lib, back, path, w, cloexec, slot, s0, s1);
  }

  lemma RegisteredMade(s0: State, s1: State, s2: State, s3: State, back: int, path: int, w: Wrap, cloexec: bool,
                       slot: int)
    requires Valid(s0) && WrapOpened(s0, s1, back, path, w, cloexec) && (w.tty == -1 || SpareTty(s0, w.tty))
    requires Valid(s2) && OnlyNew(s1, s2, slot) && Valid(s3)
    requires 0 <= slot < |s2.table| && s2.table[slot] == NewEntry(w, s2.self)
    requires w.tty >= 0 ==> w.tty < |s2.ttys| == |s1.ttys| && s2.ttys[w.tty] == s1.ttys[w.tty]
    requires s3 == s2.(k := s2.k.(fds := s2.k.fds - {back}))
    requires Effect(s0, s3, {back, path, w.probe} + BackingNumber(s0, w.tty))
    requires path in s2.k.fds && !Internal(s2, path) && s2.k.fds[path] == Desc(w.ofd, cloexec)
    ensures SynthMade(s0, s3, path, cloexec, w.tty, slot)
  {
    assert Effect(s0, s3, {path} + BackingNumber(s0, w.tty)) && IsWrap(s3, path, slot, cloexec, w.tty) by {
      RegisteredNarrow(s0, s2, s3, back, path, w, cloexec, slot);
    }
    RegisteredLineage(s0, s1, s2, s3, back, path, w, cloexec, slot);
  }

  /** The wrap is registered; its backing file is not needed any more. */
  method CloseBack(lib: Library, back: int, path: int, w: Wrap, cloexec: bool, slot: int,
                   ghost s0: State, ghost s1: State)
    requires Valid(s0) && WrapOpened(s0, s1, back, path, w, cloexec) && (w.tty == -1 || SpareTty(s0, w.tty))
    requires Valid(lib.S()) && OnlyNew(s1, lib.S(), slot) && Effect(s1, lib.S(), Adopted(s1, w))
    requires 0 <= slot < |lib.table| && lib.table[slot] == NewEntry(w, lib.self)
    requires w.tty >= 0 ==> w.tty < |lib.ttys| == |s1.ttys| && lib.ttys[w.tty] == s1.ttys[w.tty]
    modifies lib`k
    ensures Valid(lib.S()) && SynthMade(s0, lib.S(), path, cloexec, w.tty, slot)
  {
    ghost var s2 := lib.S();
    ghost var all := {back, path, w.probe} + BackingNumber(s0, w.tty);
    RegisteredEffect(s0, s1, s2, back, path, w, cloexec);
    CloseLoose(lib, back, s0, all);
    RegisteredMade(s0, s1, s2, lib.S(), back, path, w, cloexec, slot);
  }

  lemma RegisteredLineage(s0: State, s1: State, s2: State, s3: State, back: int, path: int, w: Wrap, cloexec: bool,
                          slot: int)
    requires Valid(s0) && WrapOpened(s0, s1, back, path, w, cloexec) && OnlyNew(s1, s2, slot)
    requires s2.k.openFaults == s1.k.openFaults && s2.k.lockFaults == s1.k.lockFaults
    requires 0 <= slot < |s2.table| && s2.table[slot] == NewEntry(w, s2.self) && Probe(slot) !in s2.lent
    requires s3 == s2.(k := s2.k.(fds := s2.k.fds - {back}))
    ensures Lineage(s0, s3) && AloneOn(s3, slot, path) && Number(s3, Probe(slot)) !in s0.k.fds
    ensures forall j :: Live(s3, j) && j != slot ==> Kept(s0, s3, j)
    ensures s3.k.openFaults == s0.k.openFaults && s3.k.lockFaults == s0.k.lockFaults ==> Number(s3, Probe(slot)) >= 0
  {
    assert Number(s3, Probe(slot)) == w.probe;
    RegisteredAlone(s1, s2, s3, back, path, w, slot);
    forall j | Live(s3, j) && j != slot
      ensures Kept(s0, s3, j) && EntryIsolated(s0, s3, j)
    {
      assert Kept(s1, s2, j) && EntryIsolated(s1, s2, j);
    }
    assert !Kept(s0, s3, slot) by {
      assert Live(s0, slot) ==> EntryOk(s0, slot);
    }
  }

  lemma RegisteredAlone(s1: State, s2: State, s3: State, back: int, path: int, w: Wrap, slot: int)
    requires forall n :: n in s1.k.fds && Ino(s1.k, n) == w.key ==> n in {back, path, w.probe}
    requires OnlyNew(s1, s2, slot) && 0 <= slot < |s2.table| && s2.table[slot] == NewEntry(w, s2.self)
    requires Probe(slot) !in s2.lent
    requires s3 == s2.(k := s2.k.(fds := s2.k.fds - {back}))
    ensures AloneOn(s3, slot, path)
  {
    assert Number(s3, Probe(slot)) == w.probe;
    forall n | n in s3.k.fds && !Internal(s3, n) && Ino(s3.k, n) == w.key
      ensures n == path
    {
      assert n in s1.k.fds && Ino(s1.k, n) == w.key;
    }
  }

  lemma RegisteredEffect(s0: State, s1: State, s2: State, back: int, path: int, w: Wrap, cloexec: bool)
    requires Valid(s0) && WrapOpened(s0, s1, back, path, w, cloexec) && (w.tty == -1 || SpareTty(s0, w.tty))
    requires Effect(s1, s2, Adopted(s1, w)) && Valid(s2)
    ensures Effect(s0, s2, {back, path, w.probe} + BackingNumber(s0, w.tty))
    ensures back in s2.k.fds && !Internal(s2, back)
    ensures path in s2.k.fds && !Internal(s2, path) && s2.k.fds[path] == Desc(w.ofd, cloexec)
  {
    var all := {back, path, w.probe} + BackingNumber(s0, w.tty);
    assert -1 !in s0.k.fds && -1 !in s1.k.fds;
    EffectWithoutDead(s1, s2, Adopted(s1, w));
    EffectThen(s0, s1, s2, {back, path, w.probe}, Adopted(s1, w) - {-1}, all);
  }

  lemma EffectWithoutDead(s: State, s': State, touched: set<int>)
    requires Effect(s, s', touched) && -1 !in s.k.fds && -1 !in s'.k.fds
    ensures Effect(s, s', touched - {-1})
  {
  }

  lemma RegisteredNarrow(s0: State, s2: State, s3: State, back: int, path: int, w: Wrap, cloexec: bool, slot: int)
    requires Valid(s0) && Valid(s2) && Valid(s3) && s3 == s2.(k := s2.k.(fds := s2.k.fds - {back}))
    requires Effect(s0, s3, {back, path, w.probe} + BackingNumber(s0, w.tty))
    requires back !in s0.k.fds && w.probe !in s0.k.fds && back != path && w.tty >= -1
    requires path in s2.k.fds && !Internal(s2, path) && s2.k.fds[path] == Desc(w.ofd, cloexec)
    requires 0 <= slot < |s2.table| && s2.table[slot] == NewEntry(w, s2.self)
    requires w.tty >= 0 ==>
               0 <= w.tty < |s0.ttys| && s2.ttys[w.tty] == s0.ttys[w.tty] && s0.ttys[w.tty].backing.base >= 0
    ensures Effect(s0, s3, {path} + BackingNumber(s0, w.tty))
    ensures IsWrap(s3, path, slot, cloexec, w.tty)
  {
    SameButKernel(s2, s3);
    assert Number(s3, Probe(slot)) == w.probe;
    assert Internal(s3, w.probe);
    EffectNarrow(s0, s3, {back, path, w.probe} + BackingNumber(s0, w.tty), {path} + BackingNumber(s0, w.tty));
  }

  // ---------------------------------------------------------------- the tty handler

  lemma SpareChangeNumbers(s: State, t: int, tty: Tty)
    requires Inv(s) && 0 <= t < |s.ttys| && forall i :: Live(s, i) ==> s.table[i].tty != t
    ensures var s' := s.(ttys := s.ttys[t := tty]);
            && (forall r :: IsRef(s', r) == IsRef(s, r))
            && (forall r :: Number(s', r) == Number(s, r))
            && (forall r :: Original(s', r) == Original(s, r))
            && (forall r :: RefRoom(s', r) == RefRoom(s, r))
            && (forall n :: Internal(s', n) == Internal(s, n))
  {
  }

  lemma SpareChangeEffect(s: State, t: int, tty: Tty)
    requires Inv(s) && 0 <= t < |s.ttys| && forall i :: Live(s, i) ==> s.table[i].tty != t
    ensures Effect(s, s.(ttys := s.ttys[t := tty]), {})
  {
    SpareChangeNumbers(s, t, tty);
  }

  lemma SpareChangeKeeps(s: State, t: int, tty: Tty)
    requires Valid(s) && 0 <= t < |s.ttys| && Unique(tty.backing.slots)
    requires forall i :: Live(s, i) ==> s.table[i].tty != t
    ensures var s' := s.(ttys := s.ttys[t := tty]);
            Valid(s') && Effect(s, s', {}) && forall n :: Internal(s', n) == Internal(s, n)
  {
    var s' := s.(ttys := s.ttys[t := tty]);
    SpareChangeNumbers(s, t, tty);
    SpareChangeEffect(s, t, tty);
    forall i | 0 <= i < |s'.table|
      ensures EntryOk(s', i)
    {
      assert EntryOk(s, i);
    }
  }

  /** tty_alloc: claim the first free handler state. */
  method TtyAlloc(lib: Library) returns (t: int)
    requires Valid(lib.S())
    modifies lib`ttys
    ensures t == -1 <==> forall u :: 0 <= u < SLOTS ==> old(lib.ttys)[u].claimed
    ensures t == -1 ==> lib.ttys == old(lib.ttys)
    ensures t != -1 ==>
              && 0 <= t < SLOTS && !old(lib.ttys)[t].claimed
              && lib.ttys == old(lib.ttys)[t := old(lib.ttys)[t].(claimed := true)]
              && Valid(lib.S()) && Effect(old(lib.S()), lib.S(), {})
              && forall n :: Internal(lib.S(), n) == Internal(old(lib.S()), n)
    ensures t != -1 ==> forall i :: Live(lib.S(), i) ==> lib.table[i].tty != t
  {
    ghost var s := lib.S();
    t := 0;
    while t < SLOTS
      invariant 0 <= t <= SLOTS && lib.S() == s
      invariant forall u :: 0 <= u < t ==> lib.ttys[u].claimed
    {
      if !lib.ttys[t].claimed {
        forall i | Live(s, i)
          ensures s.table[i].tty != t
        {
          assert EntryOk(s, i);
        }
        SpareChangeKeeps(s, t, lib.ttys[t].(claimed := true));
        lib.ttys := lib.ttys[t := lib.ttys[t].(claimed := true)];
        return;
      }
      t := t + 1;
    }
    t := -1;
  }

  /** Handler state t is claimed and no live entry uses it. */
  ghost predicate ClaimedTty(s: State, t: int) {
    0 <= t < |s.ttys| && s.ttys[t].claimed && forall i :: Live(s, i) ==> s.table[i].tty != t
  }

  /** Give up a claimed handler state. */
  method TtyUnclaim(lib: Library, t: int)
    requires Valid(lib.S()) && ClaimedTty(lib.S(), t)
    modifies lib`ttys
    ensures Valid(lib.S()) && Effect(old(lib.S()), lib.S(), {})
    ensures lib.ttys == old(lib.ttys)[t := old(lib.ttys)[t].(claimed := false)]
  {
    SpareChangeKeeps(lib.S(), t, lib.ttys[t].(claimed := false));
    lib.ttys := lib.ttys[t := lib.ttys[t].(claimed := false)];
  }

  /** The private duplicate of fd that a claimed handler state keeps. */
  method TtyDup(lib: Library, fd: int, t: int) returns (n: int)
    requires Valid(lib.S()) && PlainFd(lib.S(), fd) && ClaimedTty(lib.S(), t)
    modifies lib`k, lib`ttys
    ensures Valid(lib.S()) && lib.S() == old(lib.S()).(k := lib.k, ttys := lib.ttys)
    ensures lib.k.nextInode == old(lib.k).nextInode && lib.k.inode == old(lib.k).inode
    ensures |lib.ttys| == |old(lib.ttys)| && lib.ttys == old(lib.ttys)[t := lib.ttys[t]]
    ensures n == -1 ==> Effect(old(lib.S()), lib.S(), {}) && lib.k.fds == old(lib.k).fds && lib.ttys == old(lib.ttys)
    ensures n == -1 ==> old(lib.k).dupFaults < lib.k.dupFaults
    ensures n != -1 ==>
              && fd in old(lib.k).fds && n !in old(lib.k).fds
              && lib.k == old(lib.k).(fds := old(lib.k).fds[n := Desc(old(lib.k).fds[fd].ofd, true)])
              && SpareTty(lib.S(), t) && lib.ttys[t].backing.base == n
              && lib.ttys[t].backingOfd == old(lib.k).fds[fd].ofd
              && Effect(old(lib.S()), lib.S(), {n}) && Extends(old(lib.k), lib.k)
  {
    ghost var s := lib.S();
    n := lib.SysDupFd(fd, 3);
    ghost var s1 := lib.S();
    if n == -1 {
      FaultKeeps(s, s1);
      return;
    }
    DupIsLoose(s, s1, fd, n);
    var tty := Tty(true, View(n, NoOverrides()), lib.k.fds[n].ofd);
    SpareChangeKeeps(s1, t, tty);
    lib.ttys := lib.ttys[t := tty];
    EffectThen(s, s1, lib.S(), {n}, {}, {n});
  }

  lemma DupIsLoose(s: State, s': State, fd: int, n: int)
    requires Valid(s) && fd in s.k.fds && 0 <= n < s.k.limit && n !in s.k.fds
    requires s' == s.(k := s.k.(fds := s.k.fds[n := Desc(s.k.fds[fd].ofd, true)]))
    ensures Valid(s') && Effect(s, s', {n}) && Loose(s', n, s.k.fds[fd].ofd)
  {
    PutKeeps(s, fd, n, true);
    SameButKernel(s, s');
    assert forall r :: Number(s, r) != n;
  }

  /** The outcome of the first half of wslcompat_tty_install. */
  ghost predicate Prepared(s: State, s': State, fd: int, t: int) {
    && s' == s.(k := s'.k, ttys := s'.ttys)
    && fd in s.k.fds && SpareTty(s', t)
    && s'.k == s.k.(fds := s.k.fds[s'.ttys[t].backing.base := Desc(s.k.fds[fd].ofd, true)])
    && s'.ttys[t].backing.base !in s.k.fds
    && s'.ttys[t].backingOfd == s.k.fds[fd].ofd
    && Effect(s, s', {s'.ttys[t].backing.base})
    && Extends(s.k, s'.k)
    && |s.ttys| == |s'.ttys| && !s.ttys[t].claimed && s'.ttys == s.ttys[t := s'.ttys[t]]
  }

  lemma PreparedLineage(s: State, s': State, fd: int, t: int)
    requires Valid(s) && Prepared(s, s', fd, t)
    ensures Lineage(s, s') && forall i :: Live(s', i) ==> Kept(s, s', i)
  {
    forall i | Live(s, i)
      ensures Kept(s, s', i) && EntryIsolated(s, s', i)
    {
      assert EntryOk(s, i);
    }
  }

  /** Every handler state is claimed. */
  ghost predicate AllClaimed(s: State) {
    forall t :: 0 <= t < |s.ttys| ==> s.ttys[t].claimed
  }

  /** The private duplicate of a descriptor that is on no wrap does not change what the sweep can free. */
  lemma PreparedSweepsAlike(s: State, s': State, fd: int, t: int, i: int)
    requires Valid(s) && Valid(s') && Prepared(s, s', fd, t) && PlainFd(s, fd) && Live(s, i)
    ensures Sweepable(s', i) == Sweepable(s, i)
  {
    assert EntryOk(s, i);
    assert forall o :: HeldHere(s'.k, o) == HeldHere(s.k, o) by {
      DupHoldsSame(s.k, s'.k, fd, s'.ttys[t].backing.base);
    }
    SameOthersOn(s, s', Number(s, Probe(i)), s.table[i].key);
  }

  lemma PreparedIsAsFull(s: State, s': State, fd: int, t: int)
    requires Valid(s) && Valid(s') && Prepared(s, s', fd, t) && PlainFd(s, fd)
    ensures Full(s') == Full(s)
  {
    forall i | Live(s, i)
      ensures Sweepable(s', i) == Sweepable(s, i)
    {
      PreparedSweepsAlike(s, s', fd, t, i);
    }
  }

  lemma DupHoldsSame(k: Kernel, k': Kernel, fd: int, n: int)
    requires fd in k.fds && n !in k.fds && k' == k.(fds := k.fds[n := Desc(k.fds[fd].ofd, true)])
    ensures forall o :: HeldHere(k', o) == HeldHere(k, o)
  {
    forall o
      ensures HeldHere(k', o) == HeldHere(k, o)
    {
      if HeldHere(k', o) {
        var m :| m in k'.fds && k'.fds[m].ofd == o;
        assert m == n ==> k.fds[fd].ofd == o;
      }
      if HeldHere(k, o) {
        var m :| m in k.fds && k.fds[m].ofd == o;
        assert k'.fds[m].ofd == o;
      }
    }
  }

  /** The first half of wslcompat_tty_install: claim a handler state and give it a private duplicate of fd. */
  method TtyPrepare(lib: Library, fd: int) returns (t: int)
    requires Valid(lib.S()) && PlainFd(lib.S(), fd)
    modifies lib`k, lib`ttys
    ensures Valid(lib.S())
    ensures t == -1 ==>
              && Effect(old(lib.S()), lib.S(), {}) && lib.k.fds == old(lib.k).fds
              && lib.S() == old(lib.S()).(k := lib.k) && lib.k.nextInode == old(lib.k).nextInode
              && (AllClaimed(old(lib.S())) || old(lib.k).dupFaults < lib.k.dupFaults)
    ensures AllClaimed(old(lib.S())) ==> t == -1
    ensures t != -1 ==> Prepared(old(lib.S()), lib.S(), fd, t) && PlainFd(lib.S(), fd)
  {
    ghost var s0 := lib.S();
    t := TtyAlloc(lib);
    if t == -1 {
      EffectRefl(s0, {});
      return;
    }
    ghost var s1 := lib.S();
    var n := TtyDup(lib, fd, t);
    ghost var s2 := lib.S();
    if n == -1 {
      TtyUnclaim(lib, t);
      assert Effect(s0, lib.S(), {}) by {
        EffectThen(s0, s1, s2, {}, {}, {});
        EffectThen(s0, s2, lib.S(), {}, {}, {});
      }
      assert lib.ttys == s0.ttys;
      t := -1;
    } else {
      assert Prepared(s0, s2, fd, t) by { PreparedBy(s0, s1, s2, fd, t, n); }
      StaysPlain(s0, s2, fd);
    }
  }

  lemma PreparedBy(s0: State, s1: State, s2: State, fd: int, t: int, n: int)
    requires Valid(s0) && s1 == s0.(ttys := s1.ttys) && s2 == s1.(k := s2.k, ttys := s2.ttys)
    requires 0 <= t < |s0.ttys| && s1.ttys == s0.ttys[t := s0.ttys[t].(claimed := true)] && !s0.ttys[t].claimed
    requires |s2.ttys| == |s1.ttys| && s2.ttys == s1.ttys[t := s2.ttys[t]]
    requires Effect(s0, s1, {}) && Effect(s1, s2, {n}) && Extends(s0.k, s2.k)
    requires fd in s0.k.fds && s2.k == s0.k.(fds := s0.k.fds[n := Desc(s0.k.fds[fd].ofd, true)])
    requires n !in s0.k.fds && SpareTty(s2, t)
    requires s2.ttys[t].backing.base == n && s2.ttys[t].backingOfd == s0.k.fds[fd].ofd
    ensures Prepared(s0, s2, fd, t)
  {
    EffectThen(s0, s1, s2, {}, {n}, {n});
  }

  lemma StaysPlain(s: State, s': State, fd: int)
    requires PlainFd(s, fd) && fd in s.k.fds && s'.table == s.table && s'.k.inode == s.k.inode && Extends(s.k, s'.k)
    ensures PlainFd(s', fd)
  {
    assert Ino(s'.k, fd) == Ino(s.k, fd);
    assert forall i :: Live(s', i) == Live(s, i);
  }

  /** fd became a wrap whose backing is the description that fd named before. */
  ghost predicate Wrapped(s: State, s': State, fd: int, i: int) {
    && fd in s.k.fds && Live(s', i)
    && IsWrap(s', fd, i, s.k.fds[fd].cloexec, s'.table[i].tty)
    && s'.table[i].tty >= 0
    && Original(s', Backing(i)) == s.k.fds[fd].ofd
  }

  /** Nothing of a failed install is left: no new entry, no newly claimed handler state. */
  ghost predicate Undone(s: State, s': State) {
    NoNewClaims(s, s') && forall i :: Live(s', i) ==> Kept(s, s', i)
  }

  /** The last step of a successful install: drop the temporary descriptor; fd still holds the wrap. */
  method DropTemporary(lib: Library, synth: int, fd: int, ghost i: int)
    requires Valid(lib.S()) && synth != fd && Live(lib.S(), i) && fd in lib.k.fds && !Internal(lib.S(), synth)
    requires IsWrap(lib.S(), fd, i, lib.k.fds[fd].cloexec, lib.table[i].tty)
    requires Number(lib.S(), Backing(i)) != synth
    modifies lib
    ensures Valid(lib.S()) && CallEffect(old(lib.S()), lib.S(), synth) && synth !in lib.k.fds
    ensures Kept(old(lib.S()), lib.S(), i) && fd in lib.k.fds && lib.k.fds[fd] == old(lib.k).fds[fd]
    ensures IsWrap(lib.S(), fd, i, lib.k.fds[fd].cloexec, lib.table[i].tty)
  {
    ghost var s := lib.S();
    var _ := lib.Close(synth);
    assert HeldHere(lib.k, s.table[i].wrap);
  }

  /** After a call on fd that left it alone, the temporary descriptor is still alone on its inode. */
  lemma StaysAlone(s: State, s': State, i: int, fd: int, synth: int)
    requires Inv(s) && Inv(s') && AloneOn(s, i, synth) && Kept(s, s', i) && Effect(s, s', {fd})
    requires Ino(s'.k, fd) != s.table[i].key
    ensures AloneOn(s', i, synth)
  {
    forall n | n in s'.k.fds && !Internal(s', n) && Ino(s'.k, n) == s'.table[i].key
      ensures n == synth
    {
      assert n in s.k.fds && !Internal(s, n);
      assert s'.k.fds[n] == s.k.fds[n] && s.k.fds[n].ofd in s.k.inode;
    }
  }

  /** Once the only descriptor of the application on the inode is closed, the probe is alone there. */
  lemma ProbeIsAlone(s: State, s': State, i: int, synth: int)
    requires Inv(s) && Inv(s') && AloneOn(s, i, synth) && Kept(s, s', i) && Effect(s, s', {synth}) && synth !in s'.k.fds
    ensures !OtherOn(s'.k, Number(s', Probe(i)), s'.table[i].key)
  {
    forall n | n in s'.k.fds && !Internal(s', n)
      ensures Ino(s'.k, n) != s'.table[i].key
    {
      assert n in s.k.fds && !Internal(s, n) && s'.k.fds[n] == s.k.fds[n];
    }
    forall n | n in s'.k.fds && Ino(s'.k, n) == s'.table[i].key
      ensures n == Number(s', Probe(i))
    {
      var r :| Number(s', r) == n;
      InternalOnInode(s', i, r);
    }
  }

  /** Closing the only descriptor of the application on the inode releases the entry. */
  lemma AloneIsReleased(s: State, s': State, i: int, synth: int)
    requires Valid(s) && Valid(s') && AloneOn(s, i, synth) && Ino(s.k, synth) == s.table[i].key
    requires s.table[i].installer == s.self && CallEffect(s, s', synth) && synth !in s'.k.fds
    requires KeptForCause(s', Ino(s.k, synth))
    ensures !Live(s', i)
  {
    if Kept(s, s', i) {
      ProbeIsAlone(s, s', i, synth);
    }
  }

  /** Duplicating the temporary descriptor over fd keeps the entry, whose wrap the temporary still holds. */
  method CoverWithWrap(lib: Library, synth: int, fd: int, cloexec: bool, ghost i: int) returns (r: int)
    requires Valid(lib.S()) && synth != fd && Live(lib.S(), i) && synth in lib.k.fds && !Stuck(lib.S(), fd)
    requires IsWrap(lib.S(), synth, i, true, lib.table[i].tty)
    requires Number(lib.S(), Backing(i)) != fd && 0 <= fd < lib.k.limit
    modifies lib
    ensures Valid(lib.S()) && CallEffect(old(lib.S()), lib.S(), fd)
    ensures r < 0 ==> old(lib.k).dup3Faults < lib.k.dup3Faults
    ensures Kept(old(lib.S()), lib.S(), i) && synth in lib.k.fds && !Internal(lib.S(), synth)
    ensures lib.k.fds[synth] == old(lib.k).fds[synth]
    ensures Number(lib.S(), Backing(i)) == Number(old(lib.S()), Backing(i))
    ensures r >= 0 ==> fd in lib.k.fds && IsWrap(lib.S(), fd, i, cloexec, lib.table[i].tty)
    ensures r < 0 && fd in old(lib.k).fds ==>
              fd in lib.k.fds && lib.k.fds[fd] == old(lib.k).fds[fd] && !Internal(lib.S(), fd)
    ensures r < 0 && fd !in old(lib.k).fds ==> fd !in lib.k.fds
  {
    ghost var s := lib.S();
    r := lib.Dup(synth, fd, cloexec, false);
    assert HeldHere(lib.k, s.table[i].wrap);
  }

  /** The failure path once a wrap was made: closing it releases the entry and unclaims the handler state. */
  method DropWrap(lib: Library, synth: int, ghost i: int)
    requires Valid(lib.S()) && AloneOn(lib.S(), i, synth) && IsWrap(lib.S(), synth, i, true, lib.table[i].tty)
    modifies lib
    ensures Valid(lib.S()) && CallEffect(old(lib.S()), lib.S(), synth) && synth !in lib.k.fds
    ensures !Live(lib.S(), i)
  {
    ghost var s := lib.S();
    assert EntryOk(s, i);
    var _ := lib.Close(synth);
    AloneIsReleased(s, lib.S(), i, synth);
  }

  /** The second half of wslcompat_tty_install: put the wrap over fd and drop the temporary descriptor. */
  method TtyCover(lib: Library, synth: int, fd: int, cloexec: bool, ghost i: int) returns (r: int)
    requires Valid(lib.S()) && synth != fd && AloneOn(lib.S(), i, synth) && !Stuck(lib.S(), fd)
    requires Ino(lib.k, fd) != lib.table[i].key
    requires IsWrap(lib.S(), synth, i, true, lib.table[i].tty)
    requires Number(lib.S(), Backing(i)) != fd && Number(lib.S(), Backing(i)) != synth && 0 <= fd < lib.k.limit
    modifies lib
    ensures Valid(lib.S()) && Effect(old(lib.S()), lib.S(), {fd, synth}) && Lineage(old(lib.S()), lib.S())
    ensures NoNewEntries(old(lib.S()), lib.S()) && NoNewClaims(old(lib.S()), lib.S())
    ensures r == 0 || r == -1
    ensures r == 0 ==> Kept(old(lib.S()), lib.S(), i) && IsWrap(lib.S(), fd, i, cloexec, lib.table[i].tty)
    ensures r == -1 ==> !Live(lib.S(), i) && old(lib.k).dup3Faults < lib.k.dup3Faults
    ensures synth !in lib.k.fds
    ensures r == 0 && lib.k.dupFaults == old(lib.k).dupFaults && Number(old(lib.S()), Probe(i)) >= 0 ==>
              Number(lib.S(), Probe(i)) >= 0
    ensures r == -1 && fd in old(lib.k).fds ==>
              fd in lib.k.fds && lib.k.fds[fd] == old(lib.k).fds[fd] && !Internal(lib.S(), fd)
    ensures r == -1 && 0 <= old(lib.table)[i].tty < SLOTS ==> !lib.ttys[old(lib.table)[i].tty].claimed
  {
    ghost var s := lib.S();
    r := CoverWithWrap(lib, synth, fd, cloexec, i);
    ghost var s1 := lib.S();
    if r < 0 {
      StaysAlone(s, s1, i, fd, synth);
      DropWrap(lib, synth, i);
      FailedCover(s, s1, lib.S(), fd, synth, i);
      r := -1;
    } else {
      DropTemporary(lib, synth, fd, i);
      r := 0;
    }
    TwoCalls(s, s1, lib.S(), fd, synth);
  }

  /** After the failure path fd is as it was, and the handler state is unclaimed. */
  lemma FailedCover(s: State, s1: State, s2: State, fd: int, synth: int, i: int)
    requires synth != fd && Kept(s, s1, i) && CallEffect(s1, s2, synth) && !Live(s2, i) && |s1.ttys| == |s.ttys|
    requires fd in s.k.fds ==> fd in s1.k.fds && s1.k.fds[fd] == s.k.fds[fd] && !Internal(s1, fd)
    ensures fd in s.k.fds ==> fd in s2.k.fds && s2.k.fds[fd] == s.k.fds[fd] && !Internal(s2, fd)
    ensures |s2.ttys| == |s.ttys| && (0 <= s.table[i].tty < |s.ttys| ==> !s2.ttys[s.table[i].tty].claimed)
  {
  }

  lemma TwoCalls(s: State, s1: State, s2: State, fd: int, synth: int)
    requires Inv(s) && CallEffect(s, s1, fd) && CallEffect(s1, s2, synth)
    ensures Effect(s, s2, {fd, synth}) && Lineage(s, s2) && NoNewEntries(s, s2) && NoNewClaims(s, s2)
  {
    EffectThen(s, s1, s2, {fd}, {synth}, {fd, synth});
    CallLineage(s, s1, fd);
    CallLineage(s1, s2, synth);
    LineageTrans(s, s1, s2);
  }

  /** The cleanup path of wslcompat_tty_install when no wrap could be made. */
  method TtyAbandon(lib: Library, n: int, t: int, ghost s0: State, ghost s1: State)
    requires Valid(s0) && Effect(s0, s1, {n}) && SpareTty(s1, t) && n == s1.ttys[t].backing.base && n !in s0.k.fds
    requires Valid(lib.S()) && lib.S() == s1.(k := lib.k) && Effect(s1, lib.S(), {})
    modifies lib`k, lib`ttys
    ensures Valid(lib.S()) && Effect(s0, lib.S(), {})
    ensures lib.ttys == s1.ttys[t := s1.ttys[t].(claimed := false)] && lib.k.nextInode == old(lib.k).nextInode
    ensures lib.k.openFaults == old(lib.k).openFaults
  {
    EffectThen(s0, s1, lib.S(), {n}, {}, {n});
    CloseLoose(lib, n, s0, {n});
    ghost var s := lib.S();
    TtyUnclaim(lib, t);
    EffectThen(s0, s, lib.S(), {n}, {}, {n});
    EffectNarrow(s0, lib.S(), {n}, {});
  }

  /** No duplication, open or shared lock has failed. */
  predicate SameFaults(k: Kernel, k': Kernel) {
    && k'.dupFaults == k.dupFaults && k'.dup3Faults == k.dup3Faults
    && k'.openFaults == k.openFaults && k'.lockFaults == k.lockFaults
  }

  /**
    A call that makes a wrap fails if the table is full or all handler states are claimed, and otherwise
    only if a system call fails; without such failures the new entry has a probe.
  */
  ghost predicate DoneForCause(s: State, s': State, r: int, i: int) {
    && (Full(s) || AllClaimed(s) ==> r == -1)
    && (r == -1 && SameFaults(s.k, s'.k) ==> Full(s) || AllClaimed(s))
    && (r == 0 && SameFaults(s.k, s'.k) ==> Number(s', Probe(i)) >= 0)
  }

  /** Every descriptor that has appeared is the library's. */
  ghost predicate NewAreInternal(s: State, s': State) {
    forall n :: n in s'.k.fds && n !in s.k.fds ==> Internal(s', n)
  }

  /** What a terminal install amounts to, made being the numbers it used on the way. */
  ghost predicate Installed(s: State, s': State, fd: int, r: int, i: int, made: set<int>) {
    && Effect(s, s', {fd} + made) && made !! s.k.fds.Keys && Lineage(s, s')
    && (r == 0 || r == -1) && DoneForCause(s, s', r, i) && NewAreInternal(s, s')
    && (r == 0 ==> Wrapped(s, s', fd, i))
    && (r == -1 ==>
          && Undone(s, s')
          && (fd in s.k.fds && !Internal(s, fd) ==>
                fd in s'.k.fds && s'.k.fds[fd] == s.k.fds[fd] && !Internal(s', fd)))
  }

  /** wslcompat_tty_install when no wrap can be made. */
  lemma InstallAbandoned(s0: State, s1: State, s3: State, fd: int, t: int, i: int)
    requires Valid(s0) && Prepared(s0, s1, fd, t) && Effect(s0, s3, {})
    requires s3 == s1.(k := s3.k, ttys := s1.ttys[t := s1.ttys[t].(claimed := false)])
    requires s3.k.nextInode >= s1.k.nextInode && (Full(s0) || s0.k.openFaults < s3.k.openFaults)
    ensures Installed(s0, s3, fd, -1, i, {})
  {
    EffectWiden(s0, s3, {}, {fd});
    assert {fd} + {} == {fd};
    AbandonedIsUndone(s0, s3, t);
  }

  /** Only a handler state that no entry uses is different. */
  lemma AbandonedIsUndone(s0: State, s3: State, t: int)
    requires Valid(s0) && 0 <= t < |s0.ttys| && !s0.ttys[t].claimed
    requires s3 == s0.(k := s3.k, ttys := s3.ttys) && s3.k.nextInode >= s0.k.nextInode
    requires |s3.ttys| == |s0.ttys| && s3.ttys == s0.ttys[t := s3.ttys[t]] && !s3.ttys[t].claimed
    ensures Undone(s0, s3) && Lineage(s0, s3)
  {
    forall i | Live(s0, i)
      ensures Kept(s0, s3, i) && EntryIsolated(s0, s3, i)
    {
      assert EntryOk(s0, i);
    }
  }

  /** wslcompat_tty_install once the wrap is made and the covering has succeeded or been undone. */
  lemma InstallCovered(s0: State, s1: State, s2: State, s3: State, fd: int, t: int, synth: int, r: int, i: int)
    requires Valid(s0) && Inv(s1) && Prepared(s0, s1, fd, t) && SynthMade(s1, s2, synth, true, t, i)
    requires Effect(s2, s3, {fd, synth}) && Lineage(s2, s3) && NoNewEntries(s2, s3) && NoNewClaims(s2, s3)
    requires r == 0 || r == -1
    requires r == 0 ==> Kept(s2, s3, i) && IsWrap(s3, fd, i, s1.k.fds[fd].cloexec, s3.table[i].tty)
    requires r == -1 ==> !Live(s3, i) && !s3.ttys[t].claimed
    requires r == -1 && fd in s2.k.fds ==> fd in s3.k.fds && s3.k.fds[fd] == s2.k.fds[fd] && !Internal(s3, fd)
    requires DoneForCause(s0, s3, r, i) && NewAreInternal(s0, s3)
    ensures Installed(s0, s3, fd, r, i, {s1.ttys[t].backing.base, synth})
  {
    InstallChain(s0, s1, s2, s3, fd, t, synth, i);
    if r == 0 {
      InstallWraps(s0, s1, s2, s3, fd, t, i);
    } else {
      InstallFails(s0, s1, s2, s3, fd, t, synth, i);
    }
  }

  lemma InstallChain(s0: State, s1: State, s2: State, s3: State, fd: int, t: int, synth: int, i: int)
    requires Valid(s0) && Prepared(s0, s1, fd, t) && SynthMade(s1, s2, synth, true, t, i)
    requires Effect(s2, s3, {fd, synth}) && Lineage(s2, s3)
    ensures var made := {s1.ttys[t].backing.base, synth};
            Effect(s0, s3, {fd} + made) && Lineage(s0, s3) && made !! s0.k.fds.Keys
  {
    PreparedLineage(s0, s1, fd, t);
    InstallLineage(s0, s1, s2, s3);
    InstallEffect(s0, s1, s2, s3, fd, s1.ttys[t].backing.base, synth);
  }

  lemma InstallFails(s0: State, s1: State, s2: State, s3: State, fd: int, t: int, synth: int, i: int)
    requires Prepared(s0, s1, fd, t) && SynthMade(s1, s2, synth, true, t, i)
    requires NoNewEntries(s2, s3) && NoNewClaims(s2, s3) && !Live(s3, i) && !s3.ttys[t].claimed
    requires fd in s2.k.fds ==> fd in s3.k.fds && s3.k.fds[fd] == s2.k.fds[fd] && !Internal(s3, fd)
    ensures Undone(s0, s3)
    ensures fd in s0.k.fds && !Internal(s0, fd) ==>
              fd in s3.k.fds && s3.k.fds[fd] == s0.k.fds[fd] && !Internal(s3, fd)
  {
    InstallUndone(s0, s1, s2, s3, fd, t, i);
    if fd in s0.k.fds && !Internal(s0, fd) {
      FdIsIntact(s0, s1, s2, fd, s1.ttys[t].backing.base, synth);
    }
  }

  lemma InstallLineage(s0: State, s1: State, s2: State, s3: State)
    requires Inv(s0) && Lineage(s0, s1) && Lineage(s1, s2) && Lineage(s2, s3)
    requires SameProcess(s0, s1) && SameProcess(s1, s2)
    ensures Lineage(s0, s3)
  {
    LineageTrans(s0, s1, s2);
    LineageTrans(s0, s2, s3);
  }

  lemma InstallUndone(s0: State, s1: State, s2: State, s3: State, fd: int, t: int, i: int)
    requires (forall j :: Live(s1, j) ==> Kept(s0, s1, j))
    requires 0 <= t < |s0.ttys| == |s1.ttys| && s1.ttys == s0.ttys[t := s1.ttys[t]]
    requires NoNewClaims(s1, s2) && NoNewClaims(s2, s3) && !s3.ttys[t].claimed
    requires (forall j :: Live(s2, j) && j != i ==> Kept(s1, s2, j)) && NoNewEntries(s2, s3) && !Live(s3, i)
    ensures Undone(s0, s3)
  {
  }

  /** wslcompat_tty_install after its preparation: make the wrap and cover fd, or clean up. */
  method TtyFinish(lib: Library, fd: int, t: int, ghost s0: State) returns (r: int, ghost i: int, ghost made: set<int>)
    requires Valid(s0) && Valid(lib.S()) && Prepared(s0, lib.S(), fd, t) && PlainFd(lib.S(), fd) && !Stuck(s0, fd)
    requires PlainFd(s0, fd)
    modifies lib
    ensures Valid(lib.S()) && Installed(s0, lib.S(), fd, r, i, made)
  {
    ghost var s1 := lib.S();
    var cloexec := lib.k.fds[fd].cloexec;
    var synth;
    PreparedIsAsFull(s0, s1, fd, t);
    synth, i := SynthOpen(lib, true, t);
    if synth == -1 {
      TtyGiveUp(lib, fd, t, i, s0, s1);
      return -1, i, {};
    }
    made := {s1.ttys[t].backing.base, synth};
    r := TtyFinishCover(lib, fd, t, synth, cloexec, i, s0, s1);
  }

  /** No wrap could be made. */
  method TtyGiveUp(lib: Library, fd: int, t: int, ghost i: int, ghost s0: State, ghost s1: State)
    requires Valid(s0) && Valid(s1) && Prepared(s0, s1, fd, t)
    requires Valid(lib.S()) && lib.S() == s1.(k := lib.k) && Effect(s1, lib.S(), {}) && Lineage(s1, lib.S())
    requires Full(s0) || s1.k.openFaults < lib.k.openFaults
    modifies lib
    ensures Valid(lib.S()) && Installed(s0, lib.S(), fd, -1, i, {})
  {
    TtyAbandon(lib, lib.ttys[t].backing.base, t, s0, s1);
    InstallAbandoned(s0, s1, lib.S(), fd, t, i);
  }

  /** The wrap is made; it remains to cover fd with it. */
  method TtyFinishCover(lib: Library, fd: int, t: int, synth: int, cloexec: bool, ghost i: int,
                        ghost s0: State, ghost s1: State) returns (r: int)
    requires Valid(s0) && Valid(s1) && Prepared(s0, s1, fd, t) && PlainFd(s1, fd) && !Stuck(s0, fd)
    requires Valid(lib.S()) && SynthMade(s1, lib.S(), synth, true, t, i) && cloexec == s1.k.fds[fd].cloexec
    requires !Full(s0)
    modifies lib
    ensures Valid(lib.S()) && Installed(s0, lib.S(), fd, r, i, {s1.ttys[t].backing.base, synth})
  {
    ghost var s2 := lib.S();
    MadeAside(s0, s1, s2, fd, t, synth, i);
    r := TtyCover(lib, synth, fd, cloexec, i);
    CoveredForCause(s0, s1, s2, lib.S(), fd, t, synth, r, i);
    CoveredNews(s0, s1, s2, lib.S(), fd, t, synth, i);
    InstallCovered(s0, s1, s2, lib.S(), fd, t, synth, r, i);
  }

  /** The temporary descriptor is closed, and the private duplicate is the library's, or closed too. */
  lemma CoveredNews(s0: State, s1: State, s2: State, s3: State, fd: int, t: int, synth: int, i: int)
    requires Prepared(s0, s1, fd, t) && SynthMade(s1, s2, synth, true, t, i) && Effect(s2, s3, {fd, synth})
    requires Number(s2, Backing(i)) == s1.ttys[t].backing.base != fd && Number(s2, Backing(i)) != synth
    requires synth !in s3.k.fds
    ensures NewAreInternal(s0, s3)
  {
    var base := s1.ttys[t].backing.base;
    forall n | n in s3.k.fds && n !in s0.k.fds
      ensures Internal(s3, n)
    {
      assert n != fd && n != synth;
      assert Internal(s2, base);
      assert n in s2.k.fds ==> Internal(s2, n);
    }
  }

  lemma CoveredForCause(s0: State, s1: State, s2: State, s3: State, fd: int, t: int, synth: int, r: int, i: int)
    requires Prepared(s0, s1, fd, t) && SynthMade(s1, s2, synth, true, t, i) && FaultsGrow(s2.k, s3.k) && !Full(s0)
    requires r == -1 ==> s2.k.dup3Faults < s3.k.dup3Faults
    requires r == 0 && s3.k.dupFaults == s2.k.dupFaults && Number(s2, Probe(i)) >= 0 ==> Number(s3, Probe(i)) >= 0
    ensures DoneForCause(s0, s3, r, i)
  {
  }

  /** The new wrap is beside fd, which is as it was. */
  lemma MadeAside(s0: State, s1: State, s2: State, fd: int, t: int, synth: int, i: int)
    requires Valid(s0) && Valid(s1) && Valid(s2) && Prepared(s0, s1, fd, t) && PlainFd(s1, fd) && !Stuck(s0, fd)
    requires SynthMade(s1, s2, synth, true, t, i)
    ensures synth != fd
    ensures Ino(s2.k, fd) != s2.table[i].key && !Stuck(s2, fd) && 0 <= fd < s2.k.limit
    ensures Number(s2, Backing(i)) == s1.ttys[t].backing.base != fd && Number(s2, Backing(i)) != synth
  {
    FdIsElsewhere(s1, s2, fd, t, synth, i);
    if Stuck(s2, fd) {
      StuckShrinks(s1, s2, fd);
    }
    if Stuck(s1, fd) {
      StuckShrinks(s0, s1, fd);
    }
    assert EntryOk(s2, i);
  }

  lemma FdIsElsewhere(s1: State, s2: State, fd: int, t: int, synth: int, i: int)
    requires Inv(s2) && fd in s1.k.fds && SynthMade(s1, s2, synth, true, t, i)
    ensures Ino(s2.k, fd) != s2.table[i].key
  {
    assert fd != synth && fd != Number(s2, Probe(i)) && EntryOk(s2, i);
    if fd in s2.k.fds && Ino(s2.k, fd) == s2.table[i].key {
      OnInodeIsExternal(s2, i, fd);
    }
  }

  lemma InstallWraps(s0: State, s1: State, s2: State, s3: State, fd: int, t: int, i: int)
    requires Prepared(s0, s1, fd, t) && Live(s2, i) && s2.table[i].tty == t
    requires |s2.ttys| == |s1.ttys| && s2.ttys[t] == s1.ttys[t]
    requires Kept(s2, s3, i) && IsWrap(s3, fd, i, s1.k.fds[fd].cloexec, s3.table[i].tty)
    ensures Wrapped(s0, s3, fd, i)
  {
  }

  /**
    wslcompat_tty_install. On success fd, with its close-on-exec flag, is a wrap whose backing is
    the terminal it named before. On failure fd is intact, no entry is new and no handler state
    stays claimed. Every other descriptor of the application is untouched either way.
  */
  method TtyInstallHere(lib: Library, fd: int) returns (r: int, ghost i: int, ghost made: set<int>)
    requires Valid(lib.S()) && PlainFd(lib.S(), fd) && !Stuck(lib.S(), fd)
    modifies lib
    ensures Valid(lib.S()) && Installed(old(lib.S()), lib.S(), fd, r, i, made)
  {
    ghost var s0 := lib.S();
    var t := TtyPrepare(lib, fd);
    if t == -1 {
      EffectWiden(s0, lib.S(), {}, {fd});
      assert {fd} + {} == {fd};
      KernelLineage(s0, lib.k);
      return -1, -1, {};
    }
    r, i, made := TtyFinish(lib, fd, t, s0);
  }

  /**
    The same on any terminal. If a view of another process's entry is stuck at fd, the install is as if that
    view had been given up; it is lost to the wrap if the install succeeds, and only then.
  */
  method TtyInstall(lib: Library, fd: int) returns (r: int, ghost i: int, ghost made: set<int>, ghost s1: State)
    requires Valid(lib.S()) && PlainFd(lib.S(), fd)
    modifies lib
    ensures Valid(s1) && Installed(Lend(old(lib.S()), fd), s1, fd, r, i, made)
    ensures Valid(lib.S()) && lib.S() == TakeBack(s1, fd)
    ensures DoneForCause(old(lib.S()), lib.S(), r, i)
    ensures r == -1 ==> lib.lent <= old(lib.lent)
    ensures r == 0 ==> StuckAt(old(lib.S()), fd) <= lib.lent
  {
    ghost var s := lib.S();
    LendKeeps(s, fd);
    LendUnsticks(s, fd);
    lib.lent := Lend(lib.S(), fd).lent;
    assert lib.S() == Lend(s, fd);
    r, i, made := TtyInstallHere(lib, fd);
    s1 := lib.S();
    InstallEnds(s, s1, fd, r, i, made);
    CauseStays(s, s1, fd, r, i);
    lib.lent := TakeBack(lib.S(), fd).lent;
    assert lib.S() == TakeBack(s1, fd);
  }

  /** Views that are lent are views of other processes' entries, which the sweep does not free anyway. */
  lemma CauseStays(s: State, s1: State, fd: int, r: int, i: int)
    requires Valid(s) && Valid(s1) && DoneForCause(Lend(s, fd), s1, r, i)
    ensures DoneForCause(s, TakeBack(s1, fd), r, i)
  {
    TakeBackKeeps(s1, fd);
    LendIsAsFull(s, Lend(s, fd), fd);
    assert Number(s1, Probe(i)) >= 0 ==> Number(TakeBack(s1, fd), Probe(i)) == Raw(s1, Probe(i));
  }

  lemma LendIsAsFull(s: State, sL: State, fd: int)
    requires Valid(s) && sL == Lend(s, fd)
    ensures Full(sL) == Full(s) && AllClaimed(sL) == AllClaimed(s)
  {
    LendNumbers(s, fd);
    assert sL.table == s.table && sL.ttys == s.ttys && sL.k == s.k && sL.self == s.self;
    forall j
      ensures Live(sL, j) == Live(s, j) && Sweepable(sL, j) == Sweepable(s, j)
    {
      assert Live(s, j) && s.table[j].installer == s.self ==> RefRoom(s, Probe(j));
    }
  }

  lemma InstallEnds(s: State, s1: State, fd: int, r: int, i: int, made: set<int>)
    requires Valid(s) && Valid(s1) && Installed(Lend(s, fd), s1, fd, r, i, made)
    ensures Valid(TakeBack(s1, fd))
    ensures r == -1 ==> TakeBack(s1, fd).lent <= s.lent
    ensures r == 0 ==> StuckAt(s, fd) <= TakeBack(s1, fd).lent
  {
    assert Valid(TakeBack(s1, fd)) by { TakeBackKeeps(s1, fd); }
    if r == 0 {
      WrapTakesPlace(s, s1, fd, i);
    } else {
      IntactComesBack(s, s1, fd, made);
    }
  }

  lemma WrapTakesPlace(s: State, s1: State, fd: int, i: int)
    requires Inv(s1) && s1.lent == Lend(s, fd).lent && Wrapped(Lend(s, fd), s1, fd, i)
    ensures StuckAt(s, fd) <= TakeBack(s1, fd).lent
  {
    WrapIsNoView(s1, fd, i);
  }

  /** A view that was lent at fd does not come back when fd is a wrap. */
  lemma WrapIsNoView(s: State, fd: int, i: int)
    requires Inv(s) && fd in s.k.fds && Live(s, i) && s.table[i].installer == s.self
    requires s.k.fds[fd].ofd == s.table[i].wrap
    ensures TakeBack(s, fd) == s
  {
    assert EntryOk(s, i);
    forall r: Ref | r in s.lent
      ensures !NamesAgain(s, fd, r)
    {
      assert r.Probe? ==> EntryOk(s, r.i);
    }
    assert forall r :: r in TakeBack(s, fd).lent <==> r in s.lent;
  }

  /** It comes back when fd is as it was. */
  lemma IntactComesBack(s: State, s1: State, fd: int, made: set<int>)
    requires Valid(s) && Valid(s1) && Effect(Lend(s, fd), s1, {fd} + made)
    requires fd in s.k.fds && !Internal(Lend(s, fd), fd) ==>
               fd in s1.k.fds && s1.k.fds[fd] == s.k.fds[fd] && !Internal(s1, fd)
    ensures TakeBack(s1, fd).lent <= s.lent
  {
    forall r | r in StuckAt(s, fd)
      ensures r !in TakeBack(s1, fd).lent
    {
      StuckComesBack(s, s1, fd, made, r);
    }
  }

  lemma StuckComesBack(s: State, s1: State, fd: int, made: set<int>, r: Ref)
    requires Valid(s) && Valid(s1) && Effect(Lend(s, fd), s1, {fd} + made) && r in StuckAt(s, fd)
    requires fd in s.k.fds && !Internal(Lend(s, fd), fd) ==>
               fd in s1.k.fds && s1.k.fds[fd] == s.k.fds[fd] && !Internal(s1, fd)
    ensures r !in TakeBack(s1, fd).lent
  {
    StuckAtIs(s, fd, r);
    LendNumbers(s, fd);
    assert s.k.fds[fd] == Desc(Original(s, r), true);
    assert forall q :: Number(Lend(s, fd), q) != fd;
    TakeBackIs(s1, fd);
    assert !r.Registered? && s.table[r.i].installer != s.self;
    assert Kept(Lend(s, fd), s1, r.i);
    assert Raw(s1, r) == fd && NamesAgain(s1, fd, r);
  }

  lemma InstallEffect(s0: State, s1: State, s2: State, s3: State, fd: int, n: int, synth: int)
    requires Valid(s0) && Effect(s0, s1, {n}) && Effect(s1, s2, {synth} + {n}) && Effect(s2, s3, {fd, synth})
    ensures Effect(s0, s3, {fd} + {n, synth})
  {
    EffectThen(s0, s1, s2, {n}, {synth} + {n}, {fd} + {n, synth});
    EffectThen(s0, s2, s3, {fd} + {n, synth}, {fd, synth}, {fd} + {n, synth});
  }

  lemma FdIsIntact(s0: State, s1: State, s2: State, fd: int, n: int, synth: int)
    requires Effect(s0, s1, {n}) && Effect(s1, s2, {synth} + {n}) && fd in s0.k.fds && !Internal(s0, fd)
    requires n !in s0.k.fds && synth !in s1.k.fds
    ensures fd in s2.k.fds && s2.k.fds[fd] == s0.k.fds[fd]
  {
  }
}
