/** Whole histories: any sequence of calls by the application, with files opened and children coming and going. */
module History {
  import opened DescriptorView
  import opened KernelState
  import opened SynthState
  import opened SynthLemmas
  import opened SynthEffects
  import opened SynthTable
  import opened Registration
  import opened Install
  import opened Lending
  import opened Parkings
  import opened Places
  import opened Preexec
  import opened ExecRestore

  datatype Op =
    | CloseFd(fd: int)
    | Dup2(oldfd: int, newfd: int)
    | Dup3(oldfd: int, newfd: int, cloexec: bool)
    | OpenFile(cloexec: bool, ino: nat)
    | OpenSynth(cloexec: bool)
    | InstallTty(fd: int)
    | OpenInternal(ino: nat)
    | ExecFails
    | ForkChild
    | ChildrenKeep(held: set<nat>)

  /** The numbers an operation names as its target. */
  function Targets(op: Op): set<int> {
    match op
    case CloseFd(fd) => {fd}
    case Dup2(_, newfd) => {newfd}
    case Dup3(_, newfd, _) => {newfd}
    case InstallTty(fd) => {fd}
    case _ => {}
  }

  /**
    The numbers in `mine` are the application's, they name what they named, and the wraps among them
    have their entries.
  */
  ghost predicate Preserves(s0: State, s: State, mine: set<int>) {
    && (forall n :: n in mine ==> n in s0.k.fds && n in s.k.fds && s.k.fds[n] == s0.k.fds[n] && !Internal(s, n))
    && (forall n, i :: n in mine && Live(s0, i) && s0.k.fds[n].ofd == s0.table[i].wrap ==> Kept(s0, s, i))
  }

  /** A view without room had none at the start, and is read where it was read then. */
  ghost predicate RawStays(s0: State, s: State) {
    forall r :: !RefRoom(s, r) ==> !RefRoom(s0, r) && Raw(s, r) == Raw(s0, r)
  }

  /**
    Where a history stands that began at s0 with nothing lent: views are lost only where they were
    stuck, and only at numbers that an operation has named.
  */
  ghost predicate Reached(s0: State, s: State, mine: set<int>, named: set<int>) {
    && Inv(s0) && Valid(s) && SameProcess(s0, s)
    && Preserves(s0, s, mine) && Lineage(s0, s) && RawStays(s0, s)
    && (forall r :: r in s.lent ==> Raw(s, r) in named)
  }

  lemma PreservesStep(s0: State, s: State, s': State, mine: set<int>, touched: set<int>)
    requires Preserves(s0, s, mine) && Effect(s, s', touched) && touched !! mine
    ensures Preserves(s0, s', mine)
  {
    forall n, i | n in mine && Live(s0, i) && s0.k.fds[n].ofd == s0.table[i].wrap
      ensures Kept(s0, s', i)
    {
      assert Kept(s0, s, i);
      assert s'.k.fds[n].ofd == s.table[i].wrap;
      assert HeldHere(s'.k, s.table[i].wrap);
      assert Kept(s, s', i);
    }
  }

  lemma RawStaysStep(s0: State, s: State, s': State, touched: set<int>)
    requires RawStays(s0, s) && Effect(s, s', touched)
    ensures RawStays(s0, s')
  {
    forall r | !RefRoom(s', r)
      ensures !RefRoom(s, r) && Raw(s', r) == Raw(s, r)
    {
      assert Number(s', r) == Number(s, r);
    }
  }

  lemma ReachedStep(s0: State, s: State, s': State, mine: set<int>, named: set<int>, touched: set<int>)
    requires Reached(s0, s, mine, named) && Valid(s') && Effect(s, s', touched) && touched !! mine && Lineage(s, s')
    ensures Reached(s0, s', mine, named)
  {
    PreservesStep(s0, s, s', mine, touched);
    LineageTrans(s0, s, s');
    RawStaysStep(s0, s, s', touched);
  }

  /** Only what is lent at u changed, and u is not in `mine`. */
  lemma ReachedRelabelled(s0: State, s: State, s': State, u: int, mine: set<int>, named: set<int>)
    requires Reached(s0, s, mine, named) && Relabelled(s, s', u) && Valid(s') && u !in mine
    requires forall r :: r in s'.lent ==> r in s.lent || (Raw(s, r) == u && u in named)
    ensures Reached(s0, s', mine, named)
  {
    forall n | n in mine
      ensures !Internal(s', n)
    {
      assert n != u && n >= 0;
    }
    assert Lineage(s, s');
    LineageTrans(s0, s, s');
  }

  /** A view that is stuck at u is given up, because the application takes the number. */
  lemma ReachedLend(s0: State, s: State, u: int, mine: set<int>, named: set<int>)
    requires Reached(s0, s, mine, named) && u !in mine && u in named
    ensures Reached(s0, Lend(s, u), mine, named) && !Stuck(Lend(s, u), u)
  {
    LendKeeps(s, u);
    LendNumbers(s, u);
    LendUnsticks(s, u);
    forall r | r in StuckAt(s, u)
      ensures Raw(s, r) == u
    {
      StuckAtIs(s, u, r);
    }
    ReachedRelabelled(s0, s, Lend(s, u), u, mine, named);
  }

  /** It is the library's again if the number still, or again, names its description. */
  lemma ReachedTakeBack(s0: State, s: State, u: int, mine: set<int>, named: set<int>)
    requires Reached(s0, s, mine, named) && u !in mine
    ensures Reached(s0, TakeBack(s, u), mine, named)
  {
    TakeBackKeeps(s, u);
    ReachedRelabelled(s0, s, TakeBack(s, u), u, mine, named);
  }

  /** A close-like call on a number outside `mine`. */
  lemma ReachedCall(s0: State, s: State, s': State, mine: set<int>, named: set<int>, target: int)
    requires Reached(s0, s, mine, named) && Valid(s') && CallEffect(s, s', target) && target !in mine
    ensures Reached(s0, s', mine, named)
  {
    CallLineage(s, s', target);
    ReachedStep(s0, s, s', mine, named, {target});
  }

  /** Children hold other descriptions: nothing in this process changes. */
  lemma ReachedByForeign(s0: State, s: State, foreign: set<nat>, mine: set<int>, named: set<int>)
    requires Reached(s0, s, mine, named)
    ensures Reached(s0, s.(k := s.k.(foreign := foreign)), mine, named)
  {
    var s' := s.(k := s.k.(foreign := foreign));
    KernelKeeps(s, s'.k);
    SameButKernel(s, s');
    KernelLineage(s, s'.k);
    LineageTrans(s0, s, s');
  }

  /** A failed exec that restores all but the entries that waited to be released. */
  lemma ReachedByExec(s0: State, s: State, s': State, mine: set<int>, named: set<int>)
    requires Reached(s0, s, mine, named) && s.lent == {} && Restored(s, s') && Carried(s, s')
    ensures Reached(s0, s', mine, named)
  {
    assert Lineage(s0, s') by { LineageTrans(s0, s, s'); }
    ExecKeepsRaw(s, s');
    forall n | n in mine
      ensures n in s'.k.fds && s'.k.fds[n] == s0.k.fds[n] && !Internal(s', n)
    {
      assert Unlost(s, s', n);
    }
    forall n, i | n in mine && Live(s0, i) && s0.k.fds[n].ofd == s0.table[i].wrap
      ensures Kept(s0, s', i)
    {
      assert Kept(s0, s, i);
      HeldIsNotDoomed(s, i, n);
      assert Kept(s, s', i);
    }
  }

  /** An entry whose wrap the application has open does not wait to be released. */
  lemma HeldIsNotDoomed(s: State, i: int, n: int)
    requires Inv(s) && Live(s, i) && n in s.k.fds && s.k.fds[n].ofd == s.table[i].wrap
    ensures !Doomed(s, i)
  {
    assert EntryOk(s, i) && HeldHere(s.k, s.table[i].wrap);
    assert s.table[i].wrap in s.k.locks ==> Contested(s.k, s.table[i].probeOfd);
  }

  lemma ExecKeepsRaw(s: State, s': State)
    requires Inv(s) && s.lent == {} && s'.lent == {} && NoNewEntries(s, s') && Carried(s, s')
    ensures RawStays(s, s')
  {
    forall r: Ref | !RefRoom(s', r)
      ensures Raw(s', r) == Raw(s, r) && !RefRoom(s, r)
    {
      assert IsRef(s', r) && ProbeStays(s, s', r.i);
      assert Number(s', Backing(r.i)) == Number(s, Backing(r.i));
    }
  }

  /** If entry i waits to be released, its probe is below the parking numbers. */
  predicate IsLow(s: State, i: int) {
    && Live(s, i) && s.table[i].installer == s.self && Number(s, Probe(i)) >= 0 && Number(s, Backing(i)) >= 0
    && !Contested(s.k, s.table[i].probeOfd)
    ==> Number(s, Probe(i)) < SLOTS
  }

  predicate AllLow(s: State) {
    forall i :: 0 <= i < |s.table| ==> IsLow(s, i)
  }

  lemma AllLowIs(s: State)
    ensures AllLow(s) <==> DoomedLow(s)
  {
    forall i
      ensures IsLow(s, i) <==> (Doomed(s, i) ==> Number(s, Probe(i)) < SLOTS)
    {
    }
  }

  // ---------------------------------------------------------------- what an operation does

  /** newfd names what oldfd named, or the call failed; but see Library.Dup for a closed oldfd. */
  ghost predicate DupDoes(s: State, s': State, oldfd: int, newfd: int, cloexec: bool, allowSelf: bool) {
    if allowSelf && oldfd == newfd then s'.k.fds == s.k.fds
    else
      || (exists r :: DupResult(s.k, s'.k, oldfd, newfd, cloexec, r))
      || (oldfd !in s.k.fds && Internal(s, newfd))
  }

  /** A new description on the inode, at a number that was closed, or a failure. */
  ghost predicate OpenDoes(s: State, s': State, n: int, cloexec: bool, ino: nat) {
    if n == -1 then s'.k == s.k.(openFaults := s.k.openFaults + 1)
    else n !in s.k.fds && s'.k == Opened(s.k, n, cloexec, ino)
  }

  /** A terminal becomes a wrap with the same flag, or there is a reason why not. */
  ghost predicate InstallDoes(s: State, s': State, fd: int, r: int, i: int) {
    && (r == 0 || r == -1) && DoneForCause(s, s', r, i)
    && (r == 0 ==>
          && fd in s.k.fds && fd in s'.k.fds && Live(s', i)
          && s'.k.fds[fd] == Desc(s'.table[i].wrap, s.k.fds[fd].cloexec)
          && Original(s', Backing(i)) == s.k.fds[fd].ofd)
  }

  /** What the operation is there for. */
  ghost predicate Does(op: Op, s: State, s': State) {
    match op
    case CloseFd(fd) => fd !in s'.k.fds
    case Dup2(oldfd, newfd) => DupDoes(s, s', oldfd, newfd, false, true)
    case Dup3(oldfd, newfd, cloexec) => DupDoes(s, s', oldfd, newfd, cloexec, false)
    case OpenFile(cloexec, ino) => exists n :: OpenDoes(s, s', n, cloexec, ino)
    case OpenSynth(cloexec) =>
      Full(s) || s.k.openFaults < s'.k.openFaults || exists fd, i :: SynthMade(s, s', fd, cloexec, -1, i)
    case InstallTty(fd) => PlainFd(s, fd) ==> exists r, i :: InstallDoes(s, s', fd, r, i)
    case OpenInternal(ino) =>
      exists n :: && OpenDoes(s, s', n, true, ino)
                  && (n != -1 && PlainFd(s.(k := s'.k), n) && |s.registry| < MAX_INTERNAL_FDS ==> Internal(s', n))
    case ExecFails => s.lent == {} && DoomedLow(s) && s'.k.dup3Faults == s.k.dup3Faults ==> Restored(s, s')
    case ForkChild => s'.k.foreign == s.k.foreign + set fd | fd in s.k.fds :: s.k.fds[fd].ofd
    case ChildrenKeep(held) => s'.k.foreign == s.k.foreign * held
  }

  /**
    One operation. Only an exec that fails can break what the history keeps: when the probe of an entry
    that waits to be released is among the parking numbers, when dup3 fails, or when a view had been
    lost before.
  */
  method Step(lib: Library, op: Op, ghost s0: State, ghost mine: set<int>, ghost named: set<int>)
    returns (whole: bool)
    requires Reached(s0, lib.S(), mine, named) && Targets(op) !! mine && Targets(op) <= named
    modifies lib
    ensures Does(op, old(lib.S()), lib.S())
    ensures whole ==> Reached(s0, lib.S(), mine, named)
    ensures !whole ==> op.ExecFails? && MayFail(old(lib.S()), lib.S())
  {
    ghost var s := lib.S();
    whole := true;
    match op
    case CloseFd(fd) =>
      ReachedLend(s0, s, fd, mine, named);
      lib.lent := Lend(lib.S(), fd).lent;
      assert lib.S() == Lend(s, fd);
      var _ := lib.Close(fd);
      ReachedCall(s0, Lend(s, fd), lib.S(), mine, named, fd);
    case Dup2(oldfd, newfd) =>
      DupOnto(lib, oldfd, newfd, false, true, s0, mine, named);
    case Dup3(oldfd, newfd, cloexec) =>
      DupOnto(lib, oldfd, newfd, cloexec, false, s0, mine, named);
    case OpenFile(cloexec, ino) =>
      var n := OpenAny(lib, cloexec, ino, s0, mine, named);
      assert OpenDoes(s, lib.S(), n, cloexec, ino);
    case OpenSynth(cloexec) =>
      var fd; ghost var i;
      fd, i := SynthOpen(lib, cloexec, -1);
      ReachedStep(s0, s, lib.S(), mine, named, if fd == -1 then {} else {fd});
    case InstallTty(fd) =>
      InstallOver(lib, fd, s0, mine, named);
    case OpenInternal(ino) =>
      OpenAndRegister(lib, ino, s0, mine, named);
    case ExecFails =>
      whole := ExecAndFail(lib, s0, mine, named);
    case ForkChild =>
      lib.k := lib.k.(foreign := lib.k.foreign + set fd | fd in lib.k.fds :: lib.k.fds[fd].ofd);
      ReachedByForeign(s0, s, lib.k.foreign, mine, named);
    case ChildrenKeep(held) =>
      lib.k := lib.k.(foreign := lib.k.foreign * held);
      ReachedByForeign(s0, s, lib.k.foreign, mine, named);
  }

  /** dup2 or dup3 onto any number. */
  /** dup2 or dup3 onto a number that no view of the library is stuck at. */
  method DupUnstuck(lib: Library, oldfd: int, newfd: int, cloexec: bool, allowSelf: bool) returns (r: int)
    requires Valid(lib.S()) && !Stuck(lib.S(), newfd)
    modifies lib`k, lib`table, lib`ttys, lib`registry
    ensures Valid(lib.S()) && CallEffect(old(lib.S()), lib.S(), newfd)
    ensures DupDoes(old(lib.S()), lib.S(), oldfd, newfd, cloexec, allowSelf)
  {
    r := lib.Dup(oldfd, newfd, cloexec, allowSelf);
    assert (allowSelf && oldfd == newfd)
           || DupResult(old(lib.k), lib.k, oldfd, newfd, cloexec, r)
           || (oldfd !in old(lib.k).fds && Internal(old(lib.S()), newfd));
  }

  method DupOnto(lib: Library, oldfd: int, newfd: int, cloexec: bool, allowSelf: bool,
                 ghost s0: State, ghost mine: set<int>, ghost named: set<int>)
    requires Reached(s0, lib.S(), mine, named) && newfd !in mine && newfd in named
    modifies lib
    ensures Reached(s0, lib.S(), mine, named) && DupDoes(old(lib.S()), lib.S(), oldfd, newfd, cloexec, allowSelf)
  {
    ghost var s := lib.S();
    ReachedLend(s0, s, newfd, mine, named);
    LendNumbers(s, newfd);
    lib.lent := Lend(lib.S(), newfd).lent;
    assert lib.S() == Lend(s, newfd);
    var r := DupUnstuck(lib, oldfd, newfd, cloexec, allowSelf);
    assert Reached(s0, lib.S(), mine, named) by { ReachedCall(s0, Lend(s, newfd), lib.S(), mine, named, newfd); }
    ReachedTakeBack(s0, lib.S(), newfd, mine, named);
    lib.lent := TakeBack(lib.S(), newfd).lent;
  }

  /** What can go wrong with an exec that fails. */
  ghost predicate MayFail(s: State, s': State) {
    !DoomedLow(s) || s'.k.dup3Faults != s.k.dup3Faults || s.lent != {}
  }

  /** An exec that fails; whole says whether it was free of trouble. It is not followed if a view is lost. */
  method ExecAndFail(lib: Library, ghost s0: State, ghost mine: set<int>, ghost named: set<int>) returns (whole: bool)
    requires Reached(s0, lib.S(), mine, named)
    modifies lib
    ensures Does(ExecFails, old(lib.S()), lib.S())
    ensures whole ==> Reached(s0, lib.S(), mine, named)
    ensures !whole ==> MayFail(old(lib.S()), lib.S())
  {
    ghost var s := lib.S();
    if lib.lent != {} {
      return false;
    }
    var faults := lib.k.dup3Faults;
    whole := AllLow(lib.S());
    AllLowIs(s);
    ghost var restoring := FailedExec(lib);
    whole := whole && lib.k.dup3Faults == faults;
    if whole {
      ReachedByExec(s0, s, lib.S(), mine, named);
    }
  }

  /** The library opens a descriptor for itself and registers it, unless it is on a wrap. */
  method OpenAndRegister(lib: Library, ino: nat, ghost s0: State, ghost mine: set<int>, ghost named: set<int>)
    requires Reached(s0, lib.S(), mine, named)
    modifies lib
    ensures Reached(s0, lib.S(), mine, named) && Does(OpenInternal(ino), old(lib.S()), lib.S())
  {
    ghost var s1 := lib.S();
    var n := OpenAny(lib, true, ino, s0, mine, named);
    ghost var s := lib.S();
    if n != -1 && PlainFd(lib.S(), n) && |lib.registry| < MAX_INTERNAL_FDS {
      lib.RegisterInternal(n);
      RegisterEffect(s, lib.S(), n, s.k.fds[n].ofd);
      ReachedStep(s0, s, lib.S(), mine, named, {n});
    }
    assert OpenDoes(s1, lib.S(), n, true, ino);
  }

  /** The application opens a file of its own. */
  method OpenAny(lib: Library, cloexec: bool, ino: nat, ghost s0: State, ghost mine: set<int>, ghost named: set<int>)
    returns (n: int)
    requires Reached(s0, lib.S(), mine, named)
    modifies lib
    ensures Reached(s0, lib.S(), mine, named) && OpenDoes(old(lib.S()), lib.S(), n, cloexec, ino)
    ensures lib.S() == old(lib.S()).(k := lib.k)
    ensures n != -1 ==>
              n !in mine && n in lib.k.fds && n >= 0 && lib.k.fds[n].cloexec == cloexec && !Internal(lib.S(), n)
  {
    ghost var s := lib.S();
    n := SysOpen(lib, cloexec, ino);
    KernelLineage(s, lib.k);
    if n != -1 {
      OpenKeeps(s, n, cloexec, ino);
      ReachedStep(s0, s, lib.S(), mine, named, {n});
    } else {
      FaultKeeps(s, lib.S());
      ReachedStep(s0, s, lib.S(), mine, named, {});
    }
  }

  /** A terminal is wrapped, if fd is one. */
  method InstallOver(lib: Library, fd: int, ghost s0: State, ghost mine: set<int>, ghost named: set<int>)
    requires Reached(s0, lib.S(), mine, named) && fd !in mine && fd in named
    modifies lib
    ensures Reached(s0, lib.S(), mine, named) && Does(InstallTty(fd), old(lib.S()), lib.S())
  {
    ghost var s := lib.S();
    if PlainFd(lib.S(), fd) {
      var r; ghost var i, made, s1;
      r, i, made, s1 := TtyInstall(lib, fd);
      assert InstallDoes(s, lib.S(), fd, r, i) by { InstallIsDone(s, s1, fd, r, i, made); }
      ReachedByInstall(s0, s, s1, fd, r, i, made, mine, named);
    }
  }

  lemma InstallIsDone(s: State, s1: State, fd: int, r: int, i: int, made: set<int>)
    requires Installed(Lend(s, fd), s1, fd, r, i, made) && DoneForCause(s, TakeBack(s1, fd), r, i)
    ensures InstallDoes(s, TakeBack(s1, fd), fd, r, i)
  {
  }

  lemma ReachedByInstall(s0: State, s: State, s1: State, fd: int, r: int, i: int, made: set<int>,
                         mine: set<int>, named: set<int>)
    requires Reached(s0, s, mine, named) && fd !in mine && fd in named
    requires Valid(s1) && Installed(Lend(s, fd), s1, fd, r, i, made)
    ensures Reached(s0, TakeBack(s1, fd), mine, named)
  {
    assert Reached(s0, Lend(s, fd), mine, named) by { ReachedLend(s0, s, fd, mine, named); }
    assert made !! mine by {
      assert forall n :: n in mine ==> n in s.k.fds.Keys;
    }
    assert Reached(s0, s1, mine, named) by {
      ReachedStep(s0, Lend(s, fd), s1, mine, named, {fd} + made);
    }
    ReachedTakeBack(s0, s1, fd, mine, named);
  }

  /** The numbers that the operations of a history name. */
  function AllTargets(ops: seq<Op>): set<int> {
    set j, n | 0 <= j < |ops| && n in Targets(ops[j]) :: n
  }

  /** The states that the first |trace| - 1 operations went through. */
  ghost predicate IsTrace(trace: seq<State>, ops: seq<Op>) {
    0 < |trace| <= |ops| + 1 && forall k :: 0 <= k < |trace| - 1 ==> Does(ops[k], trace[k], trace[k + 1])
  }

  lemma TraceGrows(trace: seq<State>, trace': seq<State>, ops: seq<Op>, s: State,
                   s0: State, mine: set<int>, named: set<int>)
    requires IsTrace(trace, ops) && |trace| <= |ops| && trace' == trace + [s]
    requires Does(ops[|trace| - 1], trace[|trace| - 1], s) && Reached(s0, trace[|trace| - 1], mine, named)
    requires forall k :: 0 <= k < |trace| - 1 ==> Reached(s0, trace[k], mine, named)
    ensures IsTrace(trace', ops) && trace'[0] == trace[0] && trace'[|trace| - 1] == trace[|trace| - 1]
    ensures forall k :: 0 <= k < |trace| ==> Reached(s0, trace'[k], mine, named)
  {
  }

  /**
    Through every history each operation does what it is there for, and in every state on the way the
    invariant holds, each descriptor of the application that no operation names still names what it
    named, a wrap that the application keeps open keeps its entry, and the registry and the surviving
    entries are on the descriptions they were on at the start. What the library has lost are views that
    were stuck at numbers that the history named, and no others. Only an exec that fails can end this,
    for one of the reasons of MayFail.
  */
  method RunHistory(lib: Library, ops: seq<Op>, ghost mine: set<int>)
    returns (whole: bool, done: nat, ghost trace: seq<State>)
    requires Valid(lib.S()) && lib.lent == {}
    requires forall n :: n in mine ==> n in lib.k.fds && !Internal(lib.S(), n)
    requires forall j :: 0 <= j < |ops| ==> Targets(ops[j]) !! mine
    modifies lib
    ensures IsTrace(trace, ops) && |trace| == done + 1 && trace[0] == old(lib.S()) && trace[done] == lib.S()
    ensures forall k :: 0 <= k < done ==> Reached(old(lib.S()), trace[k], mine, AllTargets(ops))
    ensures whole ==> done == |ops| && Reached(old(lib.S()), lib.S(), mine, AllTargets(ops))
    ensures whole ==> forall r :: SameRef(old(lib.S()), lib.S(), r) ==> DeadOrOriginal(old(lib.S()), lib.S(), r)
    ensures whole ==> forall r :: r in lib.lent ==> LostAt(old(lib.S()), r, AllTargets(ops))
    ensures !whole ==> 0 < done <= |ops| && ops[done - 1].ExecFails? && MayFail(trace[done - 1], lib.S())
  {
    ghost var s0 := lib.S();
    ghost var named := AllTargets(ops);
    assert Reached(s0, s0, mine, named) by { LineageRefl(s0); }
    whole, done, trace := true, 0, [s0];
    while done < |ops| && whole
      invariant done <= |ops| && IsTrace(trace, ops) && |trace| == done + 1 && trace[0] == s0 && trace[done] == lib.S()
      invariant forall k :: 0 <= k < done ==> Reached(s0, trace[k], mine, named)
      invariant whole ==> Reached(s0, lib.S(), mine, named)
      invariant !whole ==> 0 < done && ops[done - 1].ExecFails? && MayFail(trace[done - 1], lib.S())
    {
      ghost var before := trace;
      whole := Step(lib, ops[done], s0, mine, named);
      trace, done := before + [lib.S()], done + 1;
      TraceGrows(before, trace, ops, lib.S(), s0, mine, named);
    }
    if whole {
      OriginalsStay(s0, lib.S(), mine, named);
    }
  }

  /** The view r was stuck at the start, at a number that the history names. */
  ghost predicate LostAt(s0: State, r: Ref, named: set<int>) {
    Stuck(s0, Number(s0, r)) && Number(s0, r) in named
  }

  /** r is the same place at both ends: a registry slot, or a view of an entry on an inode that existed at the start. */
  ghost predicate SameRef(s0: State, s: State, r: Ref) {
    IsRef(s, r) && if r.Registered? then r.j < |s0.registry| else s.table[r.i].key < s0.k.nextInode
  }

  /** The descriptor remembered at r is marked dead, or still names the description it was on at the start. */
  ghost predicate DeadOrOriginal(s0: State, s: State, r: Ref) {
    && IsRef(s0, r) && Original(s, r) == Original(s0, r)
    && (Number(s, r) < 0 || (Number(s, r) in s.k.fds && s.k.fds[Number(s, r)].ofd == Original(s0, r)))
  }

  lemma OriginalsStay(s0: State, s: State, mine: set<int>, named: set<int>)
    requires Valid(s0) && s0.lent == {} && Reached(s0, s, mine, named)
    ensures forall r :: SameRef(s0, s, r) ==> DeadOrOriginal(s0, s, r)
    ensures forall r :: r in s.lent ==> LostAt(s0, r, named)
  {
    forall r | SameRef(s0, s, r)
      ensures DeadOrOriginal(s0, s, r)
    {
      if !r.Registered? {
        assert Kept(s0, s, r.i) && EntryOk(s0, r.i);
      }
    }
  }
}
