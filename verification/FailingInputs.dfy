/** Concrete states in which the code does not meet the property one would expect of it. */
module FailingInputs {
  import opened DescriptorView
  import opened KernelState
  import opened SynthState
  import opened SynthLemmas
  import opened SynthEffects
  import opened SynthTable
  import opened Registration
  import opened Parkings
  import opened Preexec
  import opened ExecRestore
  import opened DispatchPins
  import Mmap = MmapShim
  import Copy = CopyRange

  function Parent(): Identity { Identity(1, 0) }

  function Child(n: nat): Identity { Identity(1 + n, n) }

  function Family(): set<Identity> {
    {Parent(), Child(1), Child(2), Child(3), Child(4), Child(5)}
  }

  const NO_ENTRY := Entry(0, 0, Parent(), -1, View(-1, []), 0, 0)
  const NO_TTY := Tty(false, View(-1, []), 0)

  function FirstEntry(e: Entry): seq<Entry> { seq(SLOTS, i => if i == 0 then e else NO_ENTRY) }

  // ---------------------------------------------------------------- dup2 of a closed descriptor

  /** The library has one descriptor, registered, at 10; 0, 1 and 2 are the application's. */
  function OneRegistered(): Kernel {
    Kernel(map[0 := Desc(0, false), 1 := Desc(0, false), 2 := Desc(0, false), 10 := Desc(1, true)],
           map[0 := 0, 1 := 1], map[], {}, 1024, 2, 2, 0, 0, 0, 0)
  }

  /** dup2(3, 10), with 3 closed, succeeds and hands out the library's description, unless a duplication fails. */
  method DupOfClosedSucceeds() returns (r: int, k: Kernel)
    ensures 3 !in OneRegistered().fds
    ensures k.dupFaults == 0 && k.dup3Faults == 0 ==> r == 10 && 10 in k.fds && k.fds[10].ofd == 1
  {
    var lib := new Library(OneRegistered(), [Registry(10, 1)], Parent(), {Parent()});
    ghost var s := lib.S();
    assert Number(s, Registered(0)) == 10;
    assert LeastFree(s.k, 3);
    assert !Stuck(s, 10);
    r := lib.Dup(3, 10, false, true);
    k := lib.k;
  }

  // ---------------------------------------------------------------- a dropped relocation

  /** The slots after the first n children have moved their view of descriptor 5 to 9. */
  function Taken(n: nat): seq<Override> {
    seq(SYNTH_OVERRIDE_SLOTS, i requires 0 <= i => if i < n then Owned(Child(i + 1), 9) else Free)
  }

  function Move(n: nat): Op { Cas(Child(n), Family(), 5, 9) }

  lemma NextMove(n: nat)
    requires n < 4
    ensures Apply(View(5, Taken(n)), Parent(), Move(n + 1)) == View(5, Taken(n + 1))
  {
    assert Child(n + 1) in Family();
    assert Swept(Taken(n), Family()) == Taken(n);
    assert Taken(n)[n] == Free;
    FreeAt(Taken(n), n);
    assert FindOwn(Taken(n), Child(n + 1)) == -1;
    assert Taken(n)[n := Owned(Child(n + 1), 5)][n := Owned(Child(n + 1), 9)] == Taken(n + 1);
  }

  /** The moves of the children after the first n. */
  function MovesAfter(n: nat): seq<Op>
    decreases 4 - n
  {
    if n >= 4 then [] else [Move(n + 1)] + MovesAfter(n + 1)
  }

  lemma {:induction false} RunMoves(n: nat)
    requires n <= 4
    ensures Run(View(5, Taken(n)), Parent(), MovesAfter(n)) == View(5, Taken(4))
    decreases 4 - n
  {
    if n < 4 {
      NextMove(n);
      RunMoves(n + 1);
      assert MovesAfter(n)[1..] == MovesAfter(n + 1);
    }
  }

  lemma AllTaken()
    ensures FindOwn(Taken(4), Child(5)) == -1 && FindFree(Taken(4)) == -1
    ensures Swept(Taken(4), Family()) == Taken(4) && Unique(Taken(4))
    ensures !Room(View(5, Taken(4)), Parent(), Child(5), Family())
  {
    assert forall i :: 0 <= i < 4 ==> Taken(4)[i] == Owned(Child(i + 1), 9);
  }

  /** Once four living children have moved, the fifth one's relocation is dropped: it keeps reading 5. */
  lemma FifthIsDropped()
    ensures Run(View(5, NoOverrides()), Parent(), MovesAfter(0)) == View(5, Taken(4))
    ensures CasView(View(5, Taken(4)), Parent(), Child(5), Family(), 5, 9) == (View(5, Taken(4)), false)
    ensures LoadView(View(5, Taken(4)), Parent(), Child(5)) == 5
  {
    assert NoOverrides() == Taken(0);
    RunMoves(0);
    AllTaken();
  }

  /** The fifth child: the parent's wrap has no backing, and its probe is at 5. */
  function Fifth(): State {
    State(Kernel(map[5 := Desc(1, true)], map[0 := 0, 1 := 0], map[0 := Shared], {0}, 1024, 2, 1, 0, 0, 0, 0),
          FirstEntry(Entry(1, 0, Parent(), -1, View(5, Taken(4)), 0, 1)), seq(SLOTS, _ => NO_TTY), [],
          Child(5), Family(), {})
  }

  lemma FifthIsStuck()
    ensures Valid(Fifth()) && Stuck(Fifth(), 5)
  {
    var s := Fifth();
    AllTaken();
    assert s.table[0] == Entry(1, 0, Parent(), -1, View(5, Taken(4)), 0, 1);
    assert Number(s, Probe(0)) == 5;
    assert forall i :: Live(s, i) ==> i == 0;
    forall r: Ref | r != Probe(0)
      ensures !IsRef(s, r)
    {
    }
    assert !RefRoom(s, Probe(0));
  }

  /** Closing 5 there leaves the view on a closed number. */
  method FifthCloses() returns (lib: Library)
    ensures Dangles(lib.S(), 5) && !Inv(lib.S())
  {
    FifthIsStuck();
    var s := Fifth();
    lib := new Library(s.k, [], s.self, s.alive);
    lib.table, lib.ttys := s.table, s.ttys;
    assert lib.S() == s;
    var _ := lib.Close(5);
  }

  // ---------------------------------------------------------------- a wrap lost by a failed exec

  /**
    Where InstallTty(0), OpenFile on the wrap's inode and ForkChild lead when 0, 1 and 2 are a terminal. The
    terminal was duplicated to 3; the temporary descriptor, the wrap and the probe were opened at 4, 5 and 6, on
    descriptions 1, 2 and 3; the wrap was duplicated over 0, and 4 and 5 closed; the application opened the
    wrap's file at 4; and a child holds everything.
  */
  function Forked(): State {
    State(Kernel(map[0 := Desc(2, false), 1 := Desc(0, false), 2 := Desc(0, false), 3 := Desc(0, true),
                     4 := Desc(4, false), 6 := Desc(3, true)],
                 map[0 := 0, 1 := 1, 2 := 1, 3 := 1, 4 := 1], map[2 := Shared], {0, 2, 3, 4}, 1024, 5, 2, 0, 0, 0, 0),
          FirstEntry(Entry(1, 1, Parent(), 0, View(6, NoOverrides()), 2, 3)),
          seq(SLOTS, i => if i == 0 then Tty(true, View(3, NoOverrides()), 0) else NO_TTY), [],
          Parent(), {Parent()}, {})
  }

  lemma ForkedRefs()
    ensures forall i :: Live(Forked(), i) <==> i == 0
    ensures forall r :: IsRef(Forked(), r) <==> r == Probe(0) || r == Backing(0)
    ensures Number(Forked(), Probe(0)) == 6 && Number(Forked(), Backing(0)) == 3
    ensures Original(Forked(), Probe(0)) == 3 && Original(Forked(), Backing(0)) == 0
  {
  }

  lemma ForkedIsValid()
    ensures Valid(Forked())
  {
    var s := Forked();
    ForkedRefs();
    TwoRefs(s, 6, 3);
    assert Unique(NoOverrides());
    assert EntryOk(s, 0);
  }

  /** The part of the invariant that is about numbers, when there are only a probe and a backing. */
  lemma TwoRefs(s: State, probe: int, backing: int)
    requires forall r :: IsRef(s, r) ==> r == Probe(0) || r == Backing(0)
    requires Number(s, Probe(0)) == probe != backing == Number(s, Backing(0))
    requires probe in s.k.fds && s.k.fds[probe] == Desc(Original(s, Probe(0)), true)
    requires backing in s.k.fds && s.k.fds[backing] == Desc(Original(s, Backing(0)), true)
    ensures Named(s) && Distinct(s)
  {
  }

  lemma StillLive(s: State)
    requires CallEffect(Forked(), s, 0)
    ensures Kept(Forked(), s, 0)
  {
    var s0 := Forked();
    ForkedRefs();
    assert !Internal(s0, 4);
    assert 4 in s.k.fds && s.k.fds[4] == s0.k.fds[4];
    assert 2 in s.k.locks && Alive(s.k, 2) && InoOf(s.k, 2) == 1 && InoOf(s.k, 3) == 1;
    assert Contested(s.k, s0.table[0].probeOfd);
    assert Ino(s.k, 4) == 1;
    assert OtherOn(s.k, -1, s0.table[0].key);
    assert Live(s, 0);
  }

  lemma NumbersStay(s: State)
    requires Valid(s) && CallEffect(Forked(), s, 0)
    ensures Number(s, Probe(0)) == 6 && Number(s, Backing(0)) == 3
    ensures forall r :: Number(s, r) >= 0 ==> r == Probe(0) || r == Backing(0)
  {
    var s0 := Forked();
    ForkedRefs();
    StillLive(s);
    assert EntryOk(s, 0);
    forall r | Number(s, r) >= 0
      ensures r == Probe(0) || r == Backing(0)
    {
      assert IsRef(s, r);
      if !r.Registered? {
        assert Live(s, r.i) && Live(s0, r.i);
      }
    }
  }

  /** The numbers that stay open when the wrap is closed. */
  const REST := {1, 2, 3, 4, 6}

  lemma OneOfRest(s: State, n: int)
    requires Effect(Forked(), s, {0}) && WfKernel(s.k) && Named(s) && 0 !in s.k.fds && n in s.k.fds
    requires Number(s, Probe(0)) == 6 && Original(s, Probe(0)) == 3
    requires Number(s, Backing(0)) == 3 && Original(s, Backing(0)) == 0
    requires forall r :: Number(s, r) >= 0 ==> r == Probe(0) || r == Backing(0)
    ensures n in REST && s.k.fds[n].ofd != 2
  {
    var s0 := Forked();
    ForkedRefs();
    assert n >= 0 && (n in s0.k.fds || Internal(s, n));
    assert n == 1 || n == 2 || n == 4 ==> !Internal(s0, n);
  }

  lemma OnlyRestOpen(s: State)
    requires Valid(s) && CallEffect(Forked(), s, 0) && 0 !in s.k.fds
    ensures s.k.fds.Keys <= REST && !HeldHere(s.k, 2)
  {
    ForkedRefs();
    NumbersStay(s);
    forall n | n in s.k.fds
      ensures n in REST && s.k.fds[n].ofd != 2
    {
      OneOfRest(s, n);
    }
  }

  /** When the child is gone too, nobody holds the lock of the wrap. */
  lemma NobodyHolds(k: Kernel)
    requires k.inode == Forked().k.inode && (forall o :: o in k.locks ==> o == 2 || o == 3)
    requires k.foreign == {} && !HeldHere(k, 2)
    ensures !Contested(k, 3)
  {
  }

  lemma AfterClose(s: State)
    requires Valid(s) && CallEffect(Forked(), s, 0)
    ensures Live(s, 0) && s.table[0].installer == s.self && s.table[0].probeOfd == 3
    ensures s.k.inode == Forked().k.inode && forall o :: o in s.k.locks ==> o == 2 || o == 3
  {
    ForkedRefs();
    StillLive(s);
  }

  lemma ChildGone(s: State, s': State)
    requires Live(s, 0) && s.table[0].installer == s.self && s.table[0].probeOfd == 3
    requires s.k.inode == Forked().k.inode && forall o :: o in s.k.locks ==> o == 2 || o == 3
    requires Number(s, Probe(0)) == 6 && Number(s, Backing(0)) == 3 && s.k.fds.Keys <= REST && !HeldHere(s.k, 2)
    requires s' == s.(k := s.k.(foreign := {}))
    ensures Unheld(s', 0) && Number(s', Backing(0)) >= 0 && |Matching(s')| <= SYNTH_PREEXEC_MAX
  {
    SameButKernel(s, s');
    NobodyHolds(s'.k);
    Few(Matching(s'), REST);
  }

  lemma {:induction false} Few(m: set<int>, all: set<int>)
    requires m <= all
    ensures |m| <= |all|
    decreases m
  {
    if m != {} {
      SomeMember(m);
      var n :| n in m;
      Few(m - {n}, all - {n});
    }
  }

  /**
    The application closes its wrap, the child goes away, and an exec fails: unless a duplication failed, the entry
    that was live before the exec is gone, and the exec was no round trip.
  */
  method LostInFailedExec() returns (lib: Library, ghost s: State)
    ensures Valid(s) && Live(s, 0)
    ensures NoFaults(s, lib.S()) ==> !Live(lib.S(), 0) && !RoundTrip(s, lib.S())
  {
    ForkedIsValid();
    ForkedRefs();
    var s0 := Forked();
    lib := new Library(s0.k, [], s0.self, s0.alive);
    lib.table, lib.ttys := s0.table, s0.ttys;
    assert lib.S() == s0;
    assert !Stuck(s0, 0);
    var _ := lib.Close(0);
    ghost var s1 := lib.S();
    lib.k := lib.k.(foreign := {});
    s := lib.S();
    AfterClose(s1);
    NumbersStay(s1);
    OnlyRestOpen(s1);
    ChildGone(s1, s);
    KernelKeeps(s1, s.k);
    ghost var faults := FailedExec(lib);
  }

  // ---------------------------------------------------------------- a stuck probe and a failed exec

  /** The fifth child again, with a backing at 4 and the parent's wrap at 0 and, inheritable, at 7. */
  function FifthBacked(): State {
    State(Kernel(map[0 := Desc(1, true), 3 := Desc(2, true), 4 := Desc(0, true), 7 := Desc(1, false)],
                 map[0 := 0, 1 := 1, 2 := 1], map[1 := Shared], {1}, 1024, 3, 2, 0, 0, 0, 0),
          FirstEntry(Entry(1, 1, Parent(), 0, View(3, Taken(4)), 1, 2)),
          seq(SLOTS, i => if i == 0 then Tty(true, View(4, NoOverrides()), 0) else NO_TTY), [],
          Child(5), Family(), {})
  }

  lemma FifthBackedRefs()
    ensures forall i :: Live(FifthBacked(), i) <==> i == 0
    ensures forall r :: IsRef(FifthBacked(), r) <==> r == Probe(0) || r == Backing(0)
    ensures Number(FifthBacked(), Probe(0)) == 3 && Number(FifthBacked(), Backing(0)) == 4
    ensures Original(FifthBacked(), Probe(0)) == 2 && Original(FifthBacked(), Backing(0)) == 0
  {
    AllTaken();
    assert FindOwn(NoOverrides(), Child(5)) == -1;
  }

  lemma FifthBackedIsValid()
    ensures Valid(FifthBacked())
  {
    var s := FifthBacked();
    FifthBackedRefs();
    assert Unique(Taken(4)) by { AllTaken(); }
    TwoRefs(s, 3, 4);
    assert Unique(NoOverrides());
    assert EntryOk(s, 0);
  }

  lemma FifthBackedIsStuck()
    ensures StuckCandidate(FifthBacked(), 3) && WrapsHeld(FifthBacked())
  {
    var s := FifthBacked();
    FifthBackedRefs();
    assert !RefRoom(s, Probe(0)) by { RoomlessAt(3); }
    assert BackedBy(s, 3, 0);
  }

  /** Room does not depend on the base value. */
  lemma RoomlessAt(fd: int)
    ensures !Room(View(fd, Taken(4)), Parent(), Child(5), Family())
  {
    AllTaken();
  }

  /** The save breaks the invariant at 3, and the restore mends it: unless dup3 fails, nothing has changed. */
  method FifthExecs() returns (lib: Library)
    ensures lib.k.dup3Faults == 0 ==> RoundTrip(FifthBacked(), lib.S())
  {
    FifthBackedIsValid();
    FifthBackedIsStuck();
    var s := FifthBacked();
    lib := new Library(s.k, [], s.self, s.alive);
    lib.table, lib.ttys := s.table, s.ttys;
    assert lib.S() == s;
    ghost var faults := FailedExec(lib);
  }

  // ---------------------------------------------------------------- an entry released under a pin

  /** An entry of two references, the producer's and that of a dispatch, whose wrap nobody holds. */
  function Dispatching(): State {
    State(Kernel(map[3 := Desc(1, true)], map[0 := 0, 1 := 0], map[0 := Shared], {}, 1024, 2, 1, 0, 0, 0, 0),
          FirstEntry(Entry(2, 0, Parent(), -1, View(3, NoOverrides()), 0, 1)), seq(SLOTS, _ => NO_TTY), [],
          Parent(), {Parent()}, {})
  }

  lemma DispatchingIsCondemned()
    ensures Condemned(Dispatching(), 0, 2)
  {
    var s := Dispatching();
    assert Number(s, Probe(0)) == 3;
    assert forall i :: Live(s, i) ==> i == 0;
    assert forall r: Ref :: r != Probe(0) ==> !IsRef(s, r);
    assert Unique(NoOverrides());
    assert !Contested(s.k, 1);
  }

  /** A close and a sweep, or two closes, release it although the dispatch has not returned. */
  method ReleasedUnderPin() returns (lib: Library)
    ensures !Live(lib.S(), 0)
  {
    DispatchingIsCondemned();
    var s := Dispatching();
    lib := new Library(s.k, [], s.self, s.alive);
    lib.table, lib.ttys := s.table, s.ttys;
    assert lib.S() == s;
    PostCloseTimes(lib, 0, 2);
  }

  // ---------------------------------------------------------------- a mapping lost by mmap

  /** Page 16 is mapped; MAP_FIXED | MAP_LOCKED there, with mlock failing, leaves it unmapped. */
  method MmapLosesPage() returns (p: Mmap.Process, r: Mmap.Result, ghost undone: bool)
    ensures undone ==> r == Mmap.Failed(Mmap.ENOMEM) && 16 in p.s.others && 16 !in p.s.pages
  {
    p := new Mmap.Process(Mmap.Space(map[16 := 7], map[16 := 7], {}, {}), true);
    ghost var range := Mmap.Pages(16 * Mmap.PAGE, Mmap.PAGE);
    assert Mmap.Overlaps(16 * Mmap.PAGE, Mmap.PAGE, 16) && 16 in range;
    assert range == {16};
    r, undone := p.Mmap(16 * Mmap.PAGE, Mmap.PAGE, Mmap.Flags(true, false, true), Mmap.Usable, false, 9);
  }

  // ---------------------------------------------------------------- a cursor left behind by copy_file_range

  /** A copy through the cursors that fails after r bytes reports them and leaves both cursors where they were. */
  method CopyLeavesCursors(bytes: seq<Copy.Byte>) returns (input: Copy.File, output: Copy.File, r: int, ghost ok: bool)
    ensures !ok && r > 0 ==> input.cursor == 0 != r && output.cursor == 0 && |output.data| >= r
  {
    input := new Copy.File(bytes, 0);
    output := new Copy.File([], 0);
    var offIn, offOut;
    ghost var extra;
    r, offIn, offOut, ok, extra := Copy.CopyFileRange(input, Copy.Null, output, Copy.Null, |bytes|);
    if !ok && r > 0 {
      Copy.SpliceMeans([], 0, bytes[..r + extra]);
      assert bytes[0..r + extra] == bytes[..r + extra];
    }
  }
}
