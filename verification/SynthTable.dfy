/** The synthetic-descriptor table, the close and dup shims around it, and the kernel they call. */
module SynthTable {
  import opened DescriptorView
  import opened KernelState
  import opened SynthState
  import opened SynthLemmas
  import opened SynthEffects

  class Library {
    var k: Kernel
    var table: seq<Entry>
    var ttys: seq<Tty>
    var registry: seq<Registry>
    const self: Identity
    const alive: set<Identity>
    var lent: set<Ref>

    function S(): State
      reads this
    {
      State(k, table, ttys, registry, self, alive, lent)
    }

    /** The library as it starts: empty tables, and the descriptors it has registered so far. */
    constructor (kernel: Kernel, internals: seq<Registry>, id: Identity, living: set<Identity>)
      requires WfKernel(kernel) && id in living && |internals| <= MAX_INTERNAL_FDS
      requires forall j :: 0 <= j < |internals| ==>
                 || internals[j].fd < 0
                 || (internals[j].fd in kernel.fds && kernel.fds[internals[j].fd] == Desc(internals[j].ofd, true))
      requires forall i, j :: 0 <= i < j < |internals| && internals[i].fd >= 0 ==> internals[i].fd != internals[j].fd
      ensures Valid(S()) && k == kernel && registry == internals && self == id && alive == living && lent == {}
      ensures forall i :: !Live(S(), i)
    {
      k, registry, self, alive, lent := kernel, internals, id, living, {};
      table := seq(SLOTS, _ => Entry(0, 0, id, -1, View(-1, []), 0, 0));
      ttys := seq(SLOTS, _ => Tty(false, View(-1, []), 0));
      new;
      assert forall r: Ref :: IsRef(S(), r) ==> r.Registered?;
    }

    // -------------------------------------------------------------- system calls

    /** fcntl(fd, F_DUPFD_CLOEXEC, min): some unused number at or above min, or a failure. */
    method SysDupFd(fd: int, min: nat) returns (n: int)
      modifies this`k
      ensures n == -1 || (min <= n < k.limit && fd in old(k.fds) && n !in old(k.fds))
      ensures forall m :: min <= m < n ==> m in old(k).fds
      ensures n == -1 ==> k == old(k).(dupFaults := old(k).dupFaults + 1)
      ensures n != -1 ==> k == old(k).(fds := old(k).fds[n := Desc(old(k).fds[fd].ofd, true)])
    {
      n := min;
      while n < k.limit && n in k.fds
        invariant n >= min && k == old(k) && forall m :: min <= m < n ==> m in k.fds
      {
        n := n + 1;
      }
      if fd !in k.fds || n >= k.limit {
        k := k.(dupFaults := k.dupFaults + 1);
        n := -1;
      } else {
        k := k.(fds := k.fds[n := Desc(k.fds[fd].ofd, true)]);
      }
    }

    method SysClose(fd: int) returns (r: int)
      modifies this`k
      ensures k == old(k).(fds := old(k).fds - {fd})
      ensures r == if fd in old(k).fds then 0 else -1
    {
      r := if fd in k.fds then 0 else -1;
      k := k.(fds := k.fds - {fd});
    }

    /** dup3: fails on its own only if dup3Faults says so. */
    method SysDup3(oldfd: int, newfd: int, cloexec: bool) returns (r: int)
      modifies this`k
      ensures r == -1 || r == newfd
      ensures r >= 0 ==> oldfd in old(k.fds) && oldfd != newfd && 0 <= newfd < k.limit
      ensures r >= 0 ==> k == old(k).(fds := old(k).fds[newfd := Desc(old(k).fds[oldfd].ofd, cloexec)])
      ensures r < 0 ==> k == old(k) || k == old(k).(dup3Faults := old(k).dup3Faults + 1)
      ensures r < 0 && k == old(k) ==> !(oldfd in k.fds && oldfd != newfd && 0 <= newfd < k.limit)
    {
      if oldfd in k.fds && oldfd != newfd && 0 <= newfd < k.limit {
        k := k.(fds := k.fds[newfd := Desc(k.fds[oldfd].ofd, cloexec)]);
        r := newfd;
      } else {
        r := -1;
      }
    }

    /** flock(fd, LOCK_EX | LOCK_NB). */
    method SysFlockEx(fd: int) returns (ok: bool)
      requires fd in k.fds
      modifies this`k
      ensures ok == !Contested(old(k), old(k).fds[fd].ofd)
      ensures k == if ok then old(k).(locks := old(k).locks[old(k).fds[fd].ofd := Exclusive]) else old(k)
    {
      ok := !Contested(k, k.fds[fd].ofd);
      if ok {
        k := k.(locks := k.locks[k.fds[fd].ofd := Exclusive]);
      }
    }

    // -------------------------------------------------------------- relocation

    /** wslcompat_view_fd_relocate at r: the new number, 0 if nothing moved, -1 if the duplication failed. */
    method RelocateView(r: Ref, target: int) returns (n: int)
      requires Inv(S()) && IsRef(S(), r) && !r.Registered?
      modifies this`k, this`table, this`ttys
      ensures Inv(S()) && Shifted(old(S()), S(), target)
      ensures Number(S(), r) == target >= 0 ==> !RefRoom(old(S()), r)
      ensures n == 0 ==> Number(S(), r) == Number(old(S()), r)
      ensures n > 0 ==> Number(old(S()), r) == target && Number(S(), r) == n
      ensures n < 0 ==> n == -1 && old(k).dupFaults < k.dupFaults
    {
      ghost var s := S();
      var v := ViewAt(S(), r);
      var installer := InstallerOf(S(), r);
      if LoadView(v, installer, self) != target {
        assert Number(s, r) != target || target < 0;
        ShiftedRefl(s, target);
        return 0;
      }
      n := SysDupFd(target, 3);
      var v', moved := Swapped(v, installer, self, alive, target, n);
      var s' := SetView(S(), r, v');
      table, ttys := s'.table, s'.ttys;
      if n >= 0 && !moved {
        var _ := SysClose(n);
        assert k.fds == s.k.fds;
      }
      assert S() == SetView(s, r, v').(k := k);
      RelocateKeeps(s, r, n, v', moved, k, target);
      RelocateAnswers(s, r, n, v', moved, k, target);
      n := if n >= 0 && !moved then 0 else n;
    }

    /** synth_pin: take a reference if the entry is live. */
    method Pin(i: int) returns (pinned: bool)
      requires 0 <= i < |table|
      modifies this`table
      ensures pinned == (old(table)[i].refcount > 0)
      ensures table ==
              if pinned then old(table)[i := old(table)[i].(refcount := old(table)[i].refcount + 1)] else old(table)
    {
      pinned := table[i].refcount > 0;
      if pinned {
        table := table[i := table[i].(refcount := table[i].refcount + 1)];
      }
    }

    /** The relocations of one pinned entry: the probe, then whatever its handler owns. */
    method RelocateEntry(i: int, target: int)
      requires Inv(S()) && Live(S(), i)
      modifies this`k, this`table, this`ttys
      ensures Inv(S()) && Shifted(old(S()), S(), target)
      ensures forall r: Ref :: !r.Registered? && r.i == i && Number(S(), r) == target >= 0 ==> !RefRoom(old(S()), r)
    {
      ghost var s := S();
      var _ := RelocateView(Probe(i), target);
      if table[i].tty >= 0 {
        ghost var s' := S();
        assert EntryOk(s', i);
        var _ := RelocateView(Backing(i), target);
        ShiftedTrans(s, s', S(), target);
      }
    }

    /** One round of the relocation loop: pin the entry, move its descriptors, unpin. */
    method EvacuateEntry(i: int, target: int)
      requires Inv(S()) && 0 <= i < |table|
      modifies this`k, this`table, this`ttys
      ensures Inv(S()) && Shifted(old(S()), S(), target)
      ensures forall r: Ref :: !r.Registered? && r.i == i && Number(S(), r) == target >= 0 ==> !RefRoom(old(S()), r)
    {
      ghost var s := S();
      var pinned := Pin(i);
      if pinned {
        ghost var c := s.table[i].refcount;
        RecountKeeps(s, i, c + 1);
        RelocateEntry(i, target);
        ghost var s' := S();
        Unpin(i);
        ShiftedUnderPin(s, s', i, target);
        RecountNumbers(s', i, c);
      } else {
        ShiftedRefl(s, target);
      }
    }

    /** wslcompat_synth_relocate_internal: move every probe and backing descriptor off target. */
    method EvacuateEntries(target: int)
      requires Inv(S())
      modifies this`k, this`table, this`ttys
      ensures Inv(S()) && Shifted(old(S()), S(), target)
      ensures forall r: Ref :: !r.Registered? && Number(S(), r) == target >= 0 ==> !RefRoom(old(S()), r)
    {
      ghost var s0 := S();
      ShiftedRefl(s0, target);
      var i := 0;
      while i < SLOTS
        invariant 0 <= i <= SLOTS
        invariant Inv(S()) && Shifted(s0, S(), target)
        invariant forall r: Ref :: !r.Registered? && r.i < i && Number(S(), r) == target >= 0 ==> !RefRoom(s0, r)
      {
        ghost var s := S();
        EvacuateEntry(i, target);
        ShiftedTrans(s0, s, S(), target);
        i := i + 1;
      }
    }

    /** wslcompat_synth_unpin: drop a reference; the last one releases the entry. */
    method Unpin(i: int)
      requires Live(S(), i)
      requires table[i].refcount == 1 ==> Inv(S()) && table[i].installer == self
      modifies this`k, this`table, this`ttys
      ensures Inv(old(S())) ==> Inv(S())
      ensures old(table)[i].refcount > 1 ==> S() == Recounted(old(S()), i, old(table)[i].refcount - 1)
      ensures old(table)[i].refcount == 1 ==> S() == Released(old(S()), i)
    {
      ghost var s := S();
      if table[i].refcount > 1 {
        if Inv(s) { RecountKeeps(s, i, table[i].refcount - 1); }
        table := table[i := table[i].(refcount := table[i].refcount - 1)];
        return;
      }
      Release(i);
    }

    /** The unique cleaner's part of unpin: the handler's release, then the probe, then the slot. */
    method Release(i: int)
      requires Inv(S()) && Live(S(), i) && table[i].refcount == 1 && table[i].installer == self
      modifies this`k, this`table, this`ttys
      ensures Inv(S()) && S() == Released(old(S()), i)
    {
      ghost var s := S();
      ReleaseKeeps(s, i);
      assert EntryOk(s, i);
      table := table[i := table[i].(refcount := -1)];
      var t := table[i].tty;
      if t >= 0 {
        var _ := SysClose(ttys[t].backing.base);
        ttys := ttys[t := Tty(false, View(-1, Cleared(ttys[t].backing.slots)), ttys[t].backingOfd)];
      }
      var probe := LoadView(table[i].probe, table[i].installer, self);
      if probe != -1 {
        var _ := SysClose(probe);
      }
      var dead := Stored(table[i].probe, table[i].installer, self, alive, -1);
      table := table[i := table[i].(probe := dead)];
      table := table[i := table[i].(refcount := 0)];
      assert k.fds == Released(s, i).k.fds;
      assert S() == Released(s, i);
    }

    /**
      wslcompat_register_internal_fd, for a descriptor the library has opened or will open later. When the
      registry is full it is dropped, and close will not move it out of the way.
    */
    method RegisterInternal(fd: int)
      requires Inv(S())
      requires fd >= 0 ==> fd in k.fds && k.fds[fd].cloexec && !Internal(S(), fd) && PlainFd(S(), fd)
      modifies this`registry
      ensures Inv(S()) && (Quiet(old(S())) ==> Quiet(S()))
      ensures fd >= 0 ==> (Internal(S(), fd) <==> old(|registry|) < MAX_INTERNAL_FDS)
      ensures registry ==
              if old(|registry|) == MAX_INTERNAL_FDS then old(registry)
              else old(registry) + [Registry(fd, if fd in k.fds then k.fds[fd].ofd else 0)]
    {
      if |registry| >= MAX_INTERNAL_FDS {
        return;
      }
      var o := if fd in k.fds then k.fds[fd].ofd else 0;
      RegisterKeeps(S(), fd, o);
      registry := registry + [Registry(fd, o)];
    }

    /** One round of the registry loop; on failure the slot is reset to -2, so that it is opened again lazily. */
    method RelocateRegistered(j: int, target: int)
      requires Inv(S()) && 0 <= j < |registry|
      modifies this`k, this`registry
      ensures Inv(S()) && Shifted(old(S()), S(), target)
      ensures target >= 0 ==> registry[j].fd != target
    {
      ghost var s := S();
      assert Number(s, Registered(j)) == registry[j].fd;
      if registry[j].fd != target {
        ShiftedRefl(s, target);
        return;
      }
      var n := SysDupFd(target, 3);
      var desired := if n < 0 then -2 else n;
      registry := registry[j := registry[j].(fd := desired)];
      RegistryMoveKeeps(s, j, desired, k);
    }

    /** wslcompat_relocate_internal_fd: move every registered descriptor off target. */
    method EvacuateRegistry(target: int)
      requires Inv(S())
      modifies this`k, this`registry
      ensures Inv(S()) && Shifted(old(S()), S(), target)
      ensures target >= 0 ==> forall r :: Number(S(), r) == target ==> !r.Registered?
      ensures table == old(table) && ttys == old(ttys)
    {
      ghost var s0 := S();
      ShiftedRefl(s0, target);
      var j := 0;
      while j < |registry|
        invariant 0 <= j <= |registry| == |s0.registry|
        invariant Inv(S()) && Shifted(s0, S(), target)
        invariant target >= 0 ==> forall l :: 0 <= l < j ==> Number(S(), Registered(l)) != target
      {
        ghost var s := S();
        RelocateRegistered(j, target);
        ShiftedTrans(s0, s, S(), target);
        j := j + 1;
      }
    }

    /** relocate_internal: an internal descriptor is left at target only if the target was stuck. */
    method RelocateInternal(target: int)
      requires Inv(S())
      modifies this`k, this`table, this`ttys, this`registry
      ensures Inv(S()) && Shifted(old(S()), S(), target)
      ensures target >= 0 ==> (Internal(S(), target) <==> Stuck(old(S()), target))
    {
      ghost var s0 := S();
      EvacuateEntries(target);
      ghost var s1 := S();
      EvacuateRegistry(target);
      ShiftedTrans(s0, s1, S(), target);
    }

    // -------------------------------------------------------------- release

    /** The walk over /proc/self/fd: stops at the first descriptor on the inode other than the probe. */
    method WalkFindsOther(probe: int, key: int) returns (found: bool)
      ensures found == OtherOn(k, probe, key)
    {
      var todo: set<int> := k.fds.Keys;
      while todo != {}
        invariant todo <= k.fds.Keys
        invariant forall fd :: fd in k.fds && fd !in todo ==> fd == probe || Ino(k, fd) != key
        decreases todo
      {
        SomeMember(todo);
        var fd :| fd in todo;
        if fd != probe && Ino(k, fd) == key {
          return true;
        }
        todo := todo - {fd};
      }
      found := false;
    }

    /** synth_should_release: the lock probe, and the walk when the lock is contested. */
    method DecideRelease(i: int) returns (release: bool)
      requires Inv(S()) && Live(S(), i) && table[i].installer == self
      modifies this`k
      ensures release == ShouldRelease(old(S()), i)
      ensures Inv(S()) && OnlyLocks(old(S()), S()) 
      ensures forall o :: o in old(k).locks ==> o in k.locks
      ensures forall o :: o in k.locks ==> o in old(k).locks || o == old(table)[i].probeOfd
      ensures !release ==> S() == old(S())
    {
      ghost var s := S();
      assert EntryOk(s, i);
      var probe := LoadView(table[i].probe, table[i].installer, self);
      assert probe == Number(s, Probe(i));
      if probe != -1 {
        release := SysFlockEx(probe);
        if release {
          LockKeeps(s, s.table[i].probeOfd);
          return;
        }
      }
      var found := WalkFindsOther(probe, table[i].key);
      release := !found;
    }

    /**
      wslcompat_synth_post_close, consuming the reference that the caller's pin took. If nobody else has
      a pin, the entry goes if and only if this process installed it and the decision says so. If somebody
      has, a decision to release takes one reference more, and says nowhere that it did.
    */
    method PostClose(i: int, ghost touched: set<int>)
      requires Live(S(), i) && table[i].refcount >= 2 && (table[i].installer == self ==> Inv(S()))
      modifies this`k, this`table, this`ttys
      ensures Inv(old(S())) && old(table)[i].refcount == 2 ==> PostClosed(old(S()), S(), i)
      ensures Inv(old(S())) && old(table)[i].refcount == 2 ==> Effect(old(S()), S(), touched)
      ensures old(table)[i].refcount > 2 && old(table)[i].installer == self ==> StillPinned(old(S()), S(), i)
      ensures old(table)[i].installer != self ==> S() == Recounted(old(S()), i, old(table)[i].refcount - 1)
    {
      ghost var s := S();
      if table[i].installer != self {
        Unpin(i);
        if Inv(s) && s.table[i].refcount == 2 {
          PostCloseKeeps(s, i);
          EffectRecount(s, i, 1, touched);
        }
        return;
      }
      PostCloseOwn(i, touched);
    }

    /** The installer's part of post_close. */
    method PostCloseOwn(i: int, ghost touched: set<int>)
      requires Inv(S()) && Live(S(), i) && table[i].refcount >= 2 && table[i].installer == self
      modifies this`k, this`table, this`ttys
      ensures old(table)[i].refcount == 2 ==> PostClosed(old(S()), S(), i) && Effect(old(S()), S(), touched)
      ensures old(table)[i].refcount > 2 ==> StillPinned(old(S()), S(), i)
    {
      ghost var s := S();
      var release := DecideRelease(i);
      ghost var s1 := S();
      if release {
        PinnedIsLive(s, s1, i);
        Unpin(i);
      }
      Unpin(i);
      PostCloseEnds(s, s1, S(), i, release, touched);
    }

    // -------------------------------------------------------------- the shims

    /** wslcompat_synth_pin_fd: pin the live entry whose inode the descriptor is on. */
    method PinFd(fd: int) returns (i: int)
      requires Inv(S())
      modifies this`k, this`table, this`ttys
      ensures i >= -1 && Pinned(old(S()), S(), fd, i)
    {
      ghost var s := S();
      if fd !in k.fds {
        return -1;
      }
      i := 0;
      while i < SLOTS
        invariant 0 <= i <= SLOTS
        invariant S() == s
        invariant forall j :: Live(s, j) && j < i ==> table[j].key != Ino(k, fd)
      {
        var pinned := Pin(i);
        if pinned {
          if table[i].key == Ino(k, fd) {
            return;
          }
          RecountKeeps(s, i, s.table[i].refcount + 1);
          Unpin(i);
          assert table == s.table;
        }
        i := i + 1;
      }
      i := -1;
    }

    /**
      The close shim. Whatever number the application closes, including one of the library's
      own, every internal descriptor stays dead or on its original description, if and only if
      the number was not stuck. An entry this process installed outlives the close only if
      another local descriptor is on its inode.
    */
    method Close(fd: int) returns (r: int)
      requires Valid(S())
      modifies this`k, this`table, this`ttys, this`registry
      ensures fd !in k.fds && r == if fd in old(k).fds then 0 else -1
      ensures Inv(S()) <==> !Stuck(old(S()), fd)
      ensures !Stuck(old(S()), fd) ==> Valid(S()) && CallEffect(old(S()), S(), fd) && KeptForCause(S(), Ino(old(k), fd))
      ensures Stuck(old(S()), fd) ==> Dangles(S(), fd) && OnlyAt(old(S()), S(), fd)
    {
      ghost var s0 := S();
      var i; ghost var s1, s2;
      r, i, s1, s2 := CloseNumber(fd);
      ghost var s3 := S();
      if i >= 0 {
        PostClose(i, {fd});
      }
      CloseEnds(s0, s1, s2, s3, S(), fd, i);
    }

    /** The close shim up to the kernel's close: pin the entry, move the library's descriptors away. */
    method CloseNumber(fd: int) returns (r: int, i: int, ghost s1: State, ghost s2: State)
      requires Valid(S())
      modifies this`k, this`table, this`ttys, this`registry
      ensures i >= -1 && Pinned(old(S()), s1, fd, i) && Shifted(s1, s2, fd) && SameEntries(s1, S())
      ensures S() == s2.(k := s2.k.(fds := s2.k.fds - {fd})) && r == if fd in old(k).fds then 0 else -1
      ensures !Stuck(old(S()), fd) ==> Inv(S()) && Effect(old(S()), S(), {fd})
      ensures Stuck(old(S()), fd) ==>
                Dangles(S(), fd) && OnlyAt(s1, s2, fd) && (i >= 0 ==> table[i].installer != self)
    {
      ghost var s0 := S();
      i := PinFd(fd);
      s1 := S();
      PinKeeps(s0, s1, fd, i, {fd});
      RelocateInternal(fd);
      s2 := S();
      CloseMiddle(s0, s1, s2, fd, i);
      r := SysClose(fd);
    }

    /**
      The second half of dup_common: pin newfd's entry, let the kernel duplicate over newfd,
      post_close. If newfd is still an internal number, the result names the library's original
      only if the call failed or oldfd is another name of it.
    */
    method DupOver(oldfd: int, newfd: int, cloexec: bool) returns (r: int)
      requires Valid(S())
      requires newfd >= 0 && Internal(S(), newfd) ==> Stuck(S(), newfd)
      modifies this`k, this`table, this`ttys
      ensures DupResult(old(k), k, oldfd, newfd, cloexec, r) && k.dupFaults == old(k).dupFaults
      ensures !Stuck(old(S()), newfd) ==>
                && Valid(S()) && CallEffect(old(S()), S(), newfd) && Steady(old(S()), S(), {})
                && KeptForCause(S(), Ino(old(k), newfd)) && (newfd in k.fds ==> !Internal(S(), newfd))
      ensures Stuck(old(S()), newfd) ==>
                OnlyAt(old(S()), S(), newfd) && (Inv(S()) <==> r < 0 || Renames(old(k), oldfd, newfd, cloexec))
    {
      ghost var s1 := S();
      var i := PinFd(newfd);
      ghost var s2 := S();
      r := SysDup3(oldfd, newfd, cloexec);
      ghost var s3 := S();
      DupMiddle(s1, s2, s3, oldfd, newfd, cloexec, r, i);
      if i >= 0 {
        PostClose(i, {});
      }
      if !Stuck(s1, newfd) {
        DupEnds(s1, s2, s3, S(), newfd, i);
      } else {
        StuckDupEnds(s1, s2, s3, S(), newfd, i);
      }
    }

    /**
      dup_common, for dup2 (allowSelf) and dup3: the same dance around the implicit close of
      newfd. On success newfd names what oldfd named; on failure it names what it named before.

      There is one exception. The relocation runs before the kernel has looked at oldfd, so if
      oldfd is closed and newfd is one of the library's own numbers, the library's descriptor may
      land on oldfd; the call then succeeds, and hands out the library's description. Without
      duplication failures this happens exactly when oldfd is the lowest unused number from 3 up.

      If newfd is stuck, nothing but that number changes, and the call breaks the invariant exactly
      when it puts another description there, or the same one without close-on-exec.
    */
    method Dup(oldfd: int, newfd: int, cloexec: bool, allowSelf: bool) returns (r: int)
      requires Valid(S())
      modifies this`k, this`table, this`ttys, this`registry
      ensures r == -1 || r == newfd
      ensures allowSelf && oldfd == newfd ==> S() == old(S()) && r == if newfd in k.fds then newfd else -1
      ensures !Stuck(old(S()), newfd) ==> Valid(S()) && CallEffect(old(S()), S(), newfd)
      ensures !(allowSelf && oldfd == newfd) && !Stuck(old(S()), newfd) ==>
                && KeptForCause(S(), Ino(old(k), newfd))
                && (newfd in k.fds ==> !Internal(S(), newfd))
                && (oldfd in old(k).fds || newfd < 0 || !Internal(old(S()), newfd) ==>
                      DupResult(old(k), k, oldfd, newfd, cloexec, r))
                && (oldfd !in old(k).fds && r >= 0 ==> NamesInternal(old(S()), k, newfd))
                && (oldfd !in old(k).fds && newfd >= 0
                    && k.dupFaults == old(k).dupFaults && k.dup3Faults == old(k).dup3Faults ==>
                      (r >= 0 <==> Internal(old(S()), newfd) && LeastFree(old(k), oldfd)))
      ensures !(allowSelf && oldfd == newfd) && Stuck(old(S()), newfd) ==>
                && DupResult(old(k), k, oldfd, newfd, cloexec, r) && OnlyAt(old(S()), S(), newfd)
                && (Inv(S()) <==> r < 0 || Renames(old(k), oldfd, newfd, cloexec))
                && (k.dup3Faults == old(k).dup3Faults ==>
                      (r < 0 <==> oldfd !in old(k).fds || oldfd == newfd))
    {
      ghost var s0 := S();
      if allowSelf && oldfd == newfd {
        EffectRefl(s0, {newfd});
        return if newfd in k.fds then newfd else -1;
      }
      RelocateInternal(newfd);
      ghost var s1 := S();
      if Stuck(s0, newfd) {
        StuckStays(s0, s1, newfd);
      } else {
        ShiftedIno(s0, s1, newfd);
        if newfd >= 0 && oldfd !in s0.k.fds {
          LandsOnClosed(s0, s1, oldfd, newfd);
        }
      }
      r := DupOver(oldfd, newfd, cloexec);
      if !Stuck(s0, newfd) {
        ShiftThenCall(s0, s1, S(), newfd);
      } else {
        OnlyAtTrans(s0, s1, S(), newfd);
      }
    }
  }
}
