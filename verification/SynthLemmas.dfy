/** Facts about single changes of the tables, used by the methods of the class below. */
module SynthLemmas {
  import opened DescriptorView
  import opened KernelState
  import opened SynthState

  function InstallerOf(s: State, r: Ref): Identity
    requires IsRef(s, r) && !r.Registered?
  {
    s.table[r.i].installer
  }

  function ViewAt(s: State, r: Ref): View
    requires IsRef(s, r) && !r.Registered?
  {
    if r.Probe? then s.table[r.i].probe else s.ttys[s.table[r.i].tty].backing
  }

  function SetView(s: State, r: Ref, v: View): State
    requires IsRef(s, r) && !r.Registered?
  {
    if r.Probe? then s.(table := s.table[r.i := s.table[r.i].(probe := v)])
    else
      var t := s.table[r.i].tty;
      s.(ttys := s.ttys[t := s.ttys[t].(backing := v)])
  }

  lemma SetViewNumbers(s: State, r: Ref, v: View)
    requires KeysDistinct(s) && IsRef(s, r) && !r.Registered? && r !in s.lent
    ensures SameShape(s, SetView(s, r, v)) && LentStay(s, SetView(s, r, v))
    ensures Number(SetView(s, r, v), r) == LoadView(v, InstallerOf(s, r), s.self)
    ensures forall r' :: IsRef(SetView(s, r, v), r') == IsRef(s, r')
    ensures forall r' :: r' != r ==> Number(SetView(s, r, v), r') == Number(s, r')
    ensures forall r' :: Original(SetView(s, r, v), r') == Original(s, r')
  {
  }

  lemma SetViewRoom(s: State, r: Ref, v: View)
    requires KeysDistinct(s) && IsRef(s, r) && !r.Registered?
    ensures forall r' :: r' != r ==> RefRoom(SetView(s, r, v), r') == RefRoom(s, r')
  {
  }

  lemma SetViewIsolates(s: State, r: Ref, v: View)
    requires KeysDistinct(s) && IsRef(s, r) && !r.Registered?
    requires Isolated(ViewAt(s, r), v, InstallerOf(s, r), s.self, s.alive)
    ensures forall i :: Live(s, i) ==> EntryIsolated(s, SetView(s, r, v), i)
  {
  }

  ghost predicate SameProcess(s: State, s': State) {
    s'.self == s.self && s'.alive == s.alive && |s'.ttys| == |s.ttys|
  }

  lemma EntryIsolatedTrans(s0: State, s1: State, s2: State, i: int)
    requires SameProcess(s0, s1) && Live(s0, i) && Live(s1, i) && SameEntry(s0.table[i], s1.table[i])
    requires EntryIsolated(s0, s1, i) && EntryIsolated(s1, s2, i)
    ensures EntryIsolated(s0, s2, i)
  {
  }

  lemma AllIsolatedTrans(s0: State, s1: State, s2: State)
    requires SameShape(s0, s1)
    requires forall i :: Live(s0, i) ==> EntryIsolated(s0, s1, i)
    requires forall i :: Live(s1, i) ==> EntryIsolated(s1, s2, i)
    ensures forall i :: Live(s0, i) ==> EntryIsolated(s0, s2, i)
  {
    forall i | Live(s0, i)
      ensures EntryIsolated(s0, s2, i)
    {
      assert Live(s1, i);
      EntryIsolatedTrans(s0, s1, s2, i);
    }
  }

  /** One reference r moves off target: it reads as before, as dead, or as a fresh duplicate; nothing else changes. */
  ghost predicate OneMoves(s: State, s': State, r: Ref, target: int) {
    && SameShape(s, s') && SameKernelButFds(s.k, s'.k) && WfKernel(s'.k)
    && Number(s, r) == target
    && (forall r' :: r' != r ==> Number(s', r') == Number(s, r'))
    && (forall r' :: RefRoom(s', r') == RefRoom(s, r'))
    && (RefRoom(s, r) || Number(s', r) == target) && LentStay(s, s')
    && (forall i :: Live(s, i) ==> EntryIsolated(s, s', i))
    && (var n := Number(s', r);
        || (n == target && s'.k.fds == s.k.fds)
        || (-2 <= n < 0 && s'.k.fds == s.k.fds && s.k.dupFaults < s'.k.dupFaults)
        || (target >= 0 && LeastFree(s.k, n) && s'.k.fds == s.k.fds[n := Desc(Original(s, r), true)]))
  }

  lemma SameShapeSame(s: State, s': State)
    requires SameShape(s, s')
    ensures forall i :: Live(s', i) == Live(s, i)
    ensures forall r :: IsRef(s', r) == IsRef(s, r)
    ensures forall r :: Original(s', r) == Original(s, r)
  {
  }

  lemma OneMovesNamed(s: State, s': State, r: Ref, target: int)
    requires OneMoves(s, s', r, target) && Named(s) && Distinct(s)
    ensures Named(s') && Distinct(s')
  {
    SameShapeSame(s, s');
    forall r1, r2 | Number(s', r1) >= 0 && Number(s', r1) == Number(s', r2)
      ensures r1 == r2
    {
      assert r1 != r ==> Number(s, r1) == Number(s', r1);
      assert r2 != r ==> Number(s, r2) == Number(s', r2);
    }
  }

  lemma OneMovesEntries(s: State, s': State, r: Ref, target: int)
    requires OneMoves(s, s', r, target) && Inv(s)
    requires !r.Registered? ==> Number(s', r) >= -1
    ensures forall i :: 0 <= i < |s'.table| ==> EntryOk(s', i)
  {
    SameShapeSame(s, s');
    forall i | 0 <= i < |s'.table|
      ensures EntryOk(s', i)
    {
      assert EntryOk(s, i);
      assert Live(s, i) == Live(s', i);
      assert Number(s, Probe(i)) >= 0 || Probe(i) != r || Number(s', r) < 0;
    }
  }

  lemma OneMovesKeeps(s: State, s': State, r: Ref, target: int)
    requires OneMoves(s, s', r, target) && Inv(s)
    requires !r.Registered? ==> Number(s', r) >= -1
    requires UniqueViews(s')
    ensures Inv(s') && Shifted(s, s', target)
  {
    SameShapeSame(s, s');
    OneMovesNamed(s, s', r, target);
    OneMovesEntries(s, s', r, target);
    assert BackingsPlain(s') by {
      assert Number(s', r) >= 0 ==> Number(s, r) >= 0;
    }
    assert Shifted(s, s', target) by {
      assert Number(s', r) >= 0 ==> Internal(s', Number(s', r));
    }
  }

  /** The same, for a view that is replaced as a whole. */
  lemma MoveKeeps(s: State, r: Ref, v: View, k: Kernel, target: int)
    requires Inv(s) && IsRef(s, r) && !r.Registered? && r !in s.lent && Unique(v.slots)
    requires Number(s, r) == target
    requires SameKernelButFds(s.k, k) && WfKernel(k)
    requires var n := LoadView(v, InstallerOf(s, r), s.self);
             || (n == target && k.fds == s.k.fds)
             || (n == -1 && k.fds == s.k.fds && s.k.dupFaults < k.dupFaults)
             || (target >= 0 && LeastFree(s.k, n) && k.fds == s.k.fds[n := Desc(Original(s, r), true)])
    requires RefRoom(s, r) <==> Room(v, InstallerOf(s, r), s.self, s.alive)
    requires LoadView(v, InstallerOf(s, r), s.self) == target || RefRoom(s, r)
    requires Isolated(ViewAt(s, r), v, InstallerOf(s, r), s.self, s.alive)
    ensures Inv(SetView(s, r, v).(k := k))
    ensures Shifted(s, SetView(s, r, v).(k := k), target)
    ensures Number(SetView(s, r, v).(k := k), r) == LoadView(v, InstallerOf(s, r), s.self)
  {
    var s1 := SetView(s, r, v);
    var s' := s1.(k := k);
    SetViewNumbers(s, r, v);
    SetViewRoom(s, r, v);
    SetViewIsolates(s, r, v);
    SameButKernel(s1, s');
    assert EntryOk(s, r.i) && (r == Probe(r.i) || r == Backing(r.i));
    OneMovesKeeps(s, s', r, target);
  }

  /** The transition that a relocation attempts, after the duplication gave n (or failed). */
  lemma RelocateMoves(s: State, r: Ref, n: int, v: View, moved: bool, k: Kernel)
    requires Inv(s) && IsRef(s, r) && !r.Registered? && r !in s.lent
    requires (v, moved) == CasView(ViewAt(s, r), InstallerOf(s, r), s.self, s.alive, Number(s, r), n)
    requires SameKernelButFds(s.k, k) && WfKernel(k)
    requires n == -1 ==> k.fds == s.k.fds && s.k.dupFaults < k.dupFaults
    requires n != -1 ==>
               && LeastFree(s.k, n) && Number(s, r) in s.k.fds
               && k.fds == if moved then s.k.fds[n := s.k.fds[Number(s, r)]] else s.k.fds
    ensures var s' := SetView(s, r, v).(k := k);
            Inv(s') && Shifted(s, s', Number(s, r)) && Number(s', r) == (if RefRoom(s, r) then n else Number(s, r))
  {
    CasMovesIffRoom(ViewAt(s, r), InstallerOf(s, r), s.self, s.alive, n);
    CasIsolates(ViewAt(s, r), InstallerOf(s, r), s.self, s.alive, Number(s, r), n);
    MoveKeeps(s, r, v, k, Number(s, r));
  }

  /** The relocation of a probe that is lent, and so cannot move, comes to nothing. */
  lemma LentDoesNotMove(s: State, r: Ref, n: int, v: View, moved: bool, k: Kernel, target: int)
    requires Inv(s) && r in s.lent && !r.Registered?
    requires WfKernel(k) && SameKernelButFds(s.k, k) && k.fds == s.k.fds
    requires (v, moved) == CasView(ViewAt(s, r), InstallerOf(s, r), s.self, s.alive, target, n)
    ensures !moved && SetView(s, r, v) == s
    ensures Inv(s.(k := k)) && Shifted(s, s.(k := k), target)
  {
    CasWithoutRoom(ViewAt(s, r), InstallerOf(s, r), s.self, s.alive, target, n);
    SameFdsKeep(s, k, target);
  }

  /** A change of the failure count alone. */
  lemma SameFdsKeep(s: State, k: Kernel, target: int)
    requires Inv(s) && WfKernel(k) && SameKernelButFds(s.k, k) && k.fds == s.k.fds
    ensures Inv(s.(k := k)) && Shifted(s, s.(k := k), target)
  {
    SameButKernel(s, s.(k := k));
    forall j | 0 <= j < |s.table|
      ensures EntryOk(s.(k := k), j)
    {
      assert EntryOk(s, j);
    }
  }

  /** What the number of the relocated view is afterwards. */
  lemma RelocateAnswers(s: State, r: Ref, n: int, v: View, moved: bool, k: Kernel, target: int)
    requires Inv(s) && IsRef(s, r) && !r.Registered? && target == LoadView(ViewAt(s, r), InstallerOf(s, r), s.self)
    requires (v, moved) == CasView(ViewAt(s, r), InstallerOf(s, r), s.self, s.alive, target, n)
    ensures var s' := SetView(s, r, v).(k := k);
            && (moved ==> Number(s, r) == target && Number(s', r) == n)
            && (!moved ==> Number(s', r) == Number(s, r))
  {
    if r in s.lent || !RefRoom(s, r) {
      CasWithoutRoom(ViewAt(s, r), InstallerOf(s, r), s.self, s.alive, target, n);
    } else {
      CasMovesIffRoom(ViewAt(s, r), InstallerOf(s, r), s.self, s.alive, n);
    }
  }

  /** Relocation of one view, lent or not, after the duplication gave n (or failed). */
  lemma RelocateKeeps(s: State, r: Ref, n: int, v: View, moved: bool, k: Kernel, target: int)
    requires Inv(s) && IsRef(s, r) && !r.Registered? && target == LoadView(ViewAt(s, r), InstallerOf(s, r), s.self)
    requires (v, moved) == CasView(ViewAt(s, r), InstallerOf(s, r), s.self, s.alive, target, n)
    requires SameKernelButFds(s.k, k) && WfKernel(k)
    requires n == -1 ==> k.fds == s.k.fds && s.k.dupFaults < k.dupFaults
    requires n != -1 ==>
               && LeastFree(s.k, n) && target in s.k.fds
               && k.fds == if moved then s.k.fds[n := Desc(s.k.fds[target].ofd, true)] else s.k.fds
    ensures var s' := SetView(s, r, v).(k := k);
            && Inv(s') && Shifted(s, s', target)
            && (Number(s', r) == target >= 0 ==> !RefRoom(s, r))
  {
    if r in s.lent {
      CasWithoutRoom(ViewAt(s, r), InstallerOf(s, r), s.self, s.alive, target, n);
      LentDoesNotMove(s, r, n, v, moved, k, target);
      SameButKernel(s, s.(k := k));
    } else {
      assert Number(s, r) == target;
      RelocateMoves(s, r, n, v, moved, k);
    }
  }

  lemma SameButKernel(s: State, s': State)
    requires s' == s.(k := s'.k)
    ensures forall r :: Number(s', r) == Number(s, r)
    ensures forall r :: Original(s', r) == Original(s, r)
    ensures forall r :: RefRoom(s', r) == RefRoom(s, r)
    ensures forall r :: IsRef(s', r) == IsRef(s, r)
    ensures forall n :: Internal(s', n) == Internal(s, n)
    ensures forall r :: Raw(s', r) == Raw(s, r)
  {
  }

  lemma RegistryMoveKeeps(s: State, j: int, n: int, k: Kernel)
    requires Inv(s) && 0 <= j < |s.registry|
    requires SameKernelButFds(s.k, k) && WfKernel(k)
    requires var target := s.registry[j].fd;
             || (n == -2 && k.fds == s.k.fds && s.k.dupFaults < k.dupFaults)
             || (target >= 0 && LeastFree(s.k, n) && k.fds == s.k.fds[n := Desc(s.registry[j].ofd, true)])
    ensures var s' := s.(k := k, registry := s.registry[j := s.registry[j].(fd := n)]);
            Inv(s') && Shifted(s, s', s.registry[j].fd) && Number(s', Registered(j)) == n
  {
    var s' := s.(k := k, registry := s.registry[j := s.registry[j].(fd := n)]);
    assert forall r :: r != Registered(j) ==> Number(s', r) == Number(s, r);
    OneMovesKeeps(s, s', Registered(j), s.registry[j].fd);
  }

  lemma RegisterNumbers(s: State, s': State, fd: int, o: nat)
    requires Lendings(s) && s' == s.(registry := s.registry + [Registry(fd, o)])
    ensures forall r :: r != Registered(|s.registry|) ==>
              && IsRef(s', r) == IsRef(s, r) && Raw(s', r) == Raw(s, r) && Number(s', r) == Number(s, r)
              && Original(s', r) == Original(s, r) && RefRoom(s', r) == RefRoom(s, r)
    ensures Number(s', Registered(|s.registry|)) == fd && Original(s', Registered(|s.registry|)) == o
  {
  }

  lemma RegisterKeeps(s: State, fd: int, o: nat)
    requires Inv(s) && |s.registry| < MAX_INTERNAL_FDS
    requires fd >= 0 ==> fd in s.k.fds && s.k.fds[fd] == Desc(o, true) && !Internal(s, fd) && PlainFd(s, fd)
    ensures var s' := s.(registry := s.registry + [Registry(fd, o)]);
            Inv(s') && (Quiet(s) ==> Quiet(s')) && Number(s', Registered(|s.registry|)) == fd
  {
    var s' := s.(registry := s.registry + [Registry(fd, o)]);
    RegisterNumbers(s, s', fd, o);
    RegisterEntries(s, s', |s.registry|);
  }

  lemma RegisterEntries(s: State, s': State, j: int)
    requires Inv(s) && s' == s.(registry := s'.registry)
    requires forall r :: r != Registered(j) ==>
               && IsRef(s', r) == IsRef(s, r) && Raw(s', r) == Raw(s, r) && Number(s', r) == Number(s, r)
               && RefRoom(s', r) == RefRoom(s, r)
    ensures Lendings(s') && forall i :: 0 <= i < |s.table| ==> EntryOk(s', i)
  {
    forall i | 0 <= i < |s.table|
      ensures EntryOk(s', i)
    {
      assert EntryOk(s, i);
    }
  }

  // ---------------------------------------------------------------- composing moves

  lemma ShiftedRefl(s: State, target: int)
    ensures Shifted(s, s, target)
  {
  }

  /** If a reference still sits at target then nothing has moved yet. */
  lemma NotYetMoved(s: State, s': State, r: Ref, target: int)
    requires Shifted(s, s', target) && Named(s) && Distinct(s) && WfKernel(s'.k)
    requires Number(s, r) == target && Number(s', r) == target && target >= 0
    ensures s'.k.fds == s.k.fds
  {
    assert forall r' :: Number(s', r') == Number(s, r');
    forall n | n >= 0 && Internal(s', n)
      ensures n in s.k.fds
    {
      var r' :| Number(s', r') == n;
      assert Number(s, r') == n;
    }
    assert forall fd :: fd in s.k.fds ==> fd in s'.k.fds && s'.k.fds[fd] == s.k.fds[fd];
    assert forall fd :: fd in s'.k.fds ==> fd in s.k.fds;
    assert s'.k.fds.Keys == s.k.fds.Keys;
    assert s'.k.fds == s.k.fds;
  }

  lemma ShiftedTrans(s0: State, s1: State, s2: State, target: int)
    requires Shifted(s0, s1, target) && Shifted(s1, s2, target)
    requires Named(s0) && Distinct(s0) && WfKernel(s1.k)
    ensures Shifted(s0, s2, target)
  {
    AllIsolatedTrans(s0, s1, s2);
    forall fd | fd in s2.k.fds && fd !in s0.k.fds
      ensures Internal(s2, fd)
    {
      if fd in s1.k.fds {
        var r :| Number(s1, r) == fd;
        assert Number(s2, r) == fd;
      }
    }
    forall r | Number(s2, r) != Number(s0, r)
      ensures Number(s0, r) == target
      ensures Number(s2, r) < 0 ==> s0.k.dupFaults < s2.k.dupFaults
      ensures Number(s2, r) >= 0 ==> target >= 0 && LeastFree(s0.k, Number(s2, r))
      ensures RefRoom(s0, r)
    {
      if Number(s2, r) != Number(s1, r) && Number(s2, r) >= 0 {
        NotYetMoved(s0, s1, r, target);
      }
    }
  }

  /** A live entry whose reference count becomes c. */
  function Recounted(s: State, i: int, c: int): State
    requires 0 <= i < |s.table|
  {
    s.(table := s.table[i := s.table[i].(refcount := c)])
  }

  lemma RecountNumbers(s: State, i: int, c: int)
    requires Live(s, i) && c > 0
    ensures var s' := Recounted(s, i, c);
            && (forall j :: Live(s', j) == Live(s, j))
            && (forall r :: IsRef(s', r) == IsRef(s, r))
            && (forall r :: Raw(s', r) == Raw(s, r))
            && (forall r :: Number(s', r) == Number(s, r))
            && (forall r :: Original(s', r) == Original(s, r))
            && (forall r :: RefRoom(s', r) == RefRoom(s, r))
            && (forall n :: Internal(s', n) == Internal(s, n))
  {
  }

  lemma RecountKeeps(s: State, i: int, c: int)
    requires Inv(s) && Live(s, i) && c > 0
    ensures Inv(Recounted(s, i, c))
  {
    RecountNumbers(s, i, c);
    var s' := Recounted(s, i, c);
    forall j | 0 <= j < |s'.table|
      ensures EntryOk(s', j)
    {
      assert EntryOk(s, j);
    }
  }

  /** Moving under a pin is moving: the pin and its removal cancel. */
  lemma ShiftedUnderPin(s: State, s': State, i: int, target: int)
    requires Live(s, i) && Shifted(Recounted(s, i, s.table[i].refcount + 1), s', target)
    ensures Shifted(s, Recounted(s', i, s.table[i].refcount), target)
  {
    var c := s.table[i].refcount;
    RecountNumbers(s, i, c + 1);
    RecountNumbers(s', i, c);
  }

  // ---------------------------------------------------------------- release

  function Cleared(slots: seq<Override>): seq<Override> {
    seq(|slots|, _ => Free)
  }

  /** The descriptor numbers that belong to entry i. */
  function Owns(s: State, i: int): set<int> {
    {Number(s, Probe(i)), Number(s, Backing(i))}
  }

  /** Entry i torn down: its own descriptors closed, its handler state unclaimed, its slot free. */
  function Released(s: State, i: int): State
    requires 0 <= i < |s.table|
  {
    var e := s.table[i];
    s.(k := s.k.(fds := s.k.fds - Owns(s, i)),
       table := s.table[i := e.(refcount := 0, probe := StoreView(e.probe, e.installer, s.self, s.alive, -1))],
       ttys := if 0 <= e.tty < |s.ttys|
               then s.ttys[e.tty := Tty(false, View(-1, Cleared(s.ttys[e.tty].backing.slots)),
                                        s.ttys[e.tty].backingOfd)]
               else s.ttys)
  }

  lemma ReleaseNumbers(s: State, i: int)
    requires Inv(s) && Live(s, i)
    ensures var s' := Released(s, i);
            && (forall j :: Live(s', j) == (Live(s, j) && j != i))
            && (forall r: Ref :: !r.Registered? && r.i == i ==> !IsRef(s', r))
            && (forall r: Ref :: r.Registered? || r.i != i ==>
                  && IsRef(s', r) == IsRef(s, r) && Raw(s', r) == Raw(s, r) && Number(s', r) == Number(s, r)
                  && Original(s', r) == Original(s, r) && RefRoom(s', r) == RefRoom(s, r))
  {
  }

  lemma ReleaseKeeps(s: State, i: int)
    requires Inv(s) && Live(s, i) && Probe(i) !in s.lent && Backing(i) !in s.lent
    ensures Inv(Released(s, i))
  {
    var s' := Released(s, i);
    ReleaseNumbers(s, i);
    assert UniqueViews(s') by {
      StoreIsLoadedIffRoom(s.table[i].probe, s.table[i].installer, s.self, s.alive, -1);
    }
    ReleaseNamed(s, i);
    forall j | 0 <= j < |s'.table|
      ensures EntryOk(s', j)
    {
      assert EntryOk(s, j);
    }
  }

  lemma ReleaseNamed(s: State, i: int)
    requires Inv(s) && Live(s, i) && Probe(i) !in s.lent && Backing(i) !in s.lent
    ensures Named(Released(s, i)) && Distinct(Released(s, i))
  {
    var s' := Released(s, i);
    ReleaseNumbers(s, i);
    forall r | Number(s', r) >= 0
      ensures Number(s', r) == Number(s, r)
      ensures Number(s', r) in s'.k.fds && s'.k.fds[Number(s', r)] == Desc(Original(s', r), true)
    {
      assert r != Probe(i) && r != Backing(i);
    }
  }

  // ---------------------------------------------------------------- the release decision

  /** The answer of synth_should_release: the lock is free system-wide, or no other local descriptor is on the inode. */
  predicate ShouldRelease(s: State, i: int)
    requires Live(s, i)
  {
    var p := Number(s, Probe(i));
    || (p != -1 && !Contested(s.k, s.table[i].probeOfd))
    || !OtherOn(s.k, p, s.table[i].key)
  }

  lemma HeldIsKept(s: State, i: int)
    requires Inv(s) && Live(s, i) && HeldHere(s.k, s.table[i].wrap)
    ensures !ShouldRelease(s, i)
  {
    var e := s.table[i];
    var p := Number(s, Probe(i));
    assert EntryOk(s, i);
    var fd :| fd in s.k.fds && s.k.fds[fd].ofd == e.wrap;
    assert p != -1 ==> e.wrap in s.k.locks && Alive(s.k, e.wrap) && s.k.fds[p].ofd == e.probeOfd;
    assert Ino(s.k, fd) == e.key && fd != p;
  }

  /** The decision never says yes while a local descriptor refers to the wrap. */
  lemma ReleaseIsSafe(s: State, i: int)
    requires Inv(s) && Live(s, i) && ShouldRelease(s, i)
    ensures !HeldHere(s.k, s.table[i].wrap)
  {
    if HeldHere(s.k, s.table[i].wrap) {
      HeldIsKept(s, i);
    }
  }

  /** flock(LOCK_EX) granted on a description leaves the invariant alone. */
  lemma LockKeeps(s: State, o: nat)
    requires Inv(s)
    ensures Inv(s.(k := s.k.(locks := s.k.locks[o := Exclusive])))
  {
    var s' := s.(k := s.k.(locks := s.k.locks[o := Exclusive]));
    SameButKernel(s, s');
    forall i | 0 <= i < |s'.table|
      ensures EntryOk(s', i)
    {
      assert EntryOk(s, i);
    }
  }
}
