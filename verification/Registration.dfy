/** Claiming a slot for a new wrap, with the sweep of a full table, and what that does to the tables. */
module Registration {
  import opened DescriptorView
  import opened KernelState
  import opened SynthState
  import opened SynthLemmas
  import opened SynthEffects
  import opened SynthTable

  const SYNTH_OVERRIDE_SLOTS := 4

  /** The arguments of synth_register, with the descriptions behind them. */
  datatype Wrap = Wrap(key: nat, ofd: nat, probe: int, probeOfd: nat, tty: int)

  function NoOverrides(): seq<Override> {
    seq(SYNTH_OVERRIDE_SLOTS, _ => Free)
  }

  function NewEntry(w: Wrap, self: Identity): Entry {
    Entry(1, w.key, self, w.tty, View(w.probe, NoOverrides()), w.ofd, w.probeOfd)
  }

  /** A descriptor the library has just opened, close-on-exec, and not yet recorded anywhere. */
  ghost predicate Loose(s: State, n: int, o: nat) {
    n in s.k.fds && s.k.fds[n] == Desc(o, true) && !Internal(s, n)
  }

  /** Handler state t is claimed by the caller, whose backing descriptor is open, unrecorded and on no wrap. */
  ghost predicate SpareTty(s: State, t: int) {
    && 0 <= t < |s.ttys| && s.ttys[t].claimed && Unique(s.ttys[t].backing.slots)
    && Loose(s, s.ttys[t].backing.base, s.ttys[t].backingOfd)
    && (forall i :: Live(s, i) ==> s.table[i].tty != t && s.table[i].key != InoOf(s.k, s.ttys[t].backingOfd))
  }

  ghost predicate Ready(s: State, w: Wrap) {
    && InoOf(s.k, w.ofd) == w.key && InoOf(s.k, w.probeOfd) == w.key && w.ofd != w.probeOfd
    && (w.probe == -1 || (w.probe >= 0 && Loose(s, w.probe, w.probeOfd) && w.ofd in s.k.locks))
    && (forall i :: Live(s, i) ==> s.table[i].key != w.key)
    && (forall r: Ref :: !r.Probe? && Raw(s, r) >= 0 ==> InoOf(s.k, Original(s, r)) != w.key)
    && w.tty >= -1
    && (w.tty >= 0 ==>
          SpareTty(s, w.tty) && InoOf(s.k, s.ttys[w.tty].backingOfd) != w.key && w.probe != s.ttys[w.tty].backing.base)
  }

  /** The numbers that become internal. */
  ghost function Adopted(s: State, w: Wrap): set<int> {
    {w.probe, if 0 <= w.tty < |s.ttys| then s.ttys[w.tty].backing.base else -1}
  }

  function Claimed(s: State, w: Wrap, i: int): State
    requires 0 <= i < |s.table|
  {
    s.(table := s.table[i := NewEntry(w, s.self)])
  }

  lemma ClaimNumbers(s: State, w: Wrap, i: int)
    requires Inv(s) && Ready(s, w) && 0 <= i < |s.table| && !Live(s, i)
    ensures var s' := Claimed(s, w, i);
            && (forall j :: Live(s', j) == (Live(s, j) || j == i))
            && (forall r :: r != Probe(i) && r != Backing(i) ==>
                  && IsRef(s', r) == IsRef(s, r) && Raw(s', r) == Raw(s, r) && Number(s', r) == Number(s, r)
                  && Original(s', r) == Original(s, r) && RefRoom(s', r) == RefRoom(s, r))
            && Number(s', Probe(i)) == w.probe && Original(s', Probe(i)) == w.probeOfd
            && Number(s', Backing(i)) == (if w.tty >= 0 then s.ttys[w.tty].backing.base else -3)
            && (w.tty >= 0 ==> Original(s', Backing(i)) == s.ttys[w.tty].backingOfd)
            && RefRoom(s', Probe(i)) && RefRoom(s', Backing(i))
  {
  }

  lemma ClaimNamed(s: State, w: Wrap, i: int)
    requires Inv(s) && Ready(s, w) && 0 <= i < |s.table| && !Live(s, i)
    ensures Named(Claimed(s, w, i)) && Distinct(Claimed(s, w, i))
  {
    var s' := Claimed(s, w, i);
    ClaimNumbers(s, w, i);
    forall r1, r2 | Number(s', r1) >= 0 && Number(s', r1) == Number(s', r2)
      ensures r1 == r2
    {
      var mine := {Probe(i), Backing(i)};
      assert r1 !in mine ==> Number(s, r1) == Number(s', r1) && Internal(s, Number(s', r1));
      assert r2 !in mine ==> Number(s, r2) == Number(s', r2) && Internal(s, Number(s', r2));
    }
  }

  lemma ClaimKeeps(s: State, w: Wrap, i: int)
    requires Valid(s) && Ready(s, w) && 0 <= i < |s.table| && !Live(s, i)
    ensures Valid(Claimed(s, w, i))
  {
    var s' := Claimed(s, w, i);
    ClaimNumbers(s, w, i);
    ClaimNamed(s, w, i);
    assert Unique(NoOverrides());
    forall j | 0 <= j < |s'.table|
      ensures EntryOk(s', j)
    {
      assert EntryOk(s, j);
    }
    assert KeysDistinct(s');
    assert BackingsPlain(s');
  }

  lemma ClaimEffect(s: State, w: Wrap, i: int)
    requires Inv(s) && Ready(s, w) && 0 <= i < |s.table| && !Live(s, i)
    ensures Effect(s, Claimed(s, w, i), Adopted(s, w))
  {
    var s' := Claimed(s, w, i);
    ClaimNumbers(s, w, i);
    forall n | n in s.k.fds && n !in Adopted(s, w)
      ensures Internal(s', n) == Internal(s, n)
    {
      if Internal(s, n) {
        var r :| Number(s, r) == n;
        assert Number(s', r) == n;
      }
      assert forall r :: Number(s', r) == n ==> Number(s, r) == n;
    }
  }

  // ---------------------------------------------------------------- the sweep

  /** The sweep would free entry i: this process installed it and is done with it. */
  ghost predicate Sweepable(s: State, i: int) {
    Live(s, i) && s.table[i].installer == s.self && ShouldRelease(s, i)
  }

  /** What keeps an entry in the table: another process installed it, or a local descriptor is on its inode. */
  lemma UnsweepableMeans(s: State, i: int)
    requires Inv(s) && Live(s, i) && !Sweepable(s, i)
    ensures s.table[i].installer != s.self || OtherOn(s.k, Number(s, Probe(i)), s.table[i].key)
  {
  }

  lemma ReadyAfterSweep(s: State, s': State, w: Wrap)
    requires Inv(s) && Inv(s') && Ready(s, w)
    requires Effect(s, s', {}) && NoNewEntries(s, s') && Shrinks(s, s')
    ensures Ready(s', w) && Adopted(s', w) == Adopted(s, w)
  {
    forall r: Ref | !r.Probe? && Number(s', r) >= 0
      ensures InoOf(s'.k, Original(s', r)) != w.key
    {
      assert Number(s, r) >= 0;
      assert Original(s', r) == Original(s, r);
      assert s.k.fds[Number(s, r)].ofd == Original(s, r);
    }
  }

  /** One round of the sweep: pin, run the close path, look at the count. */
  method SweepEntry(lib: Library, i: int) returns (freed: bool)
    requires Valid(lib.S()) && 0 <= i < SLOTS
    modifies lib
    ensures freed <==> Sweepable(old(lib.S()), i)
    ensures !freed ==> lib.S() == old(lib.S())
    ensures freed ==> Valid(lib.S()) && NoNewEntries(old(lib.S()), lib.S()) && Shrinks(old(lib.S()), lib.S())
    ensures freed ==> Effect(old(lib.S()), lib.S(), {}) && lib.table[i].refcount == 0
  {
    ghost var s := lib.S();
    var pinned := lib.Pin(i);
    if !pinned {
      return false;
    }
    ghost var s1 := lib.S();
    RecountKeeps(s, i, 2);
    SweepUnderPin(s, i);
    lib.PostClose(i, {});
    freed := lib.table[i].refcount == 0;
    if freed {
      EffectRecount(s, i, 2, {});
      EffectTrans(s, s1, lib.S(), {});
      SweptIsValid(s, lib.S(), i);
    } else {
      assert lib.table == s.table;
    }
  }

  /**
    synth_table_gc: run the close path over each entry until one is freed. It reports success
    exactly when some entry can be freed, a success leaves a free slot, and a failure leaves
    everything as it was.
  */
  method TableGc(lib: Library) returns (freed: bool)
    requires Valid(lib.S())
    modifies lib
    ensures Valid(lib.S())
    ensures freed ==>
              Effect(old(lib.S()), lib.S(), {}) && NoNewEntries(old(lib.S()), lib.S()) && Shrinks(old(lib.S()), lib.S())
    ensures freed <==> exists i :: Sweepable(old(lib.S()), i)
    ensures freed ==> HasFree(lib.S())
    ensures !freed ==> lib.S() == old(lib.S())
  {
    ghost var s := lib.S();
    var i := 0;
    while i < SLOTS
      invariant 0 <= i <= SLOTS
      invariant lib.S() == s
      invariant forall j :: j < i ==> !Sweepable(s, j)
    {
      freed := SweepEntry(lib, i);
      if freed {
        return;
      }
      i := i + 1;
    }
    freed := false;
  }

  lemma SweepUnderPin(s: State, i: int)
    requires Valid(s) && Live(s, i)
    ensures ShouldRelease(Recounted(s, i, 2), i) == ShouldRelease(s, i)
  {
  }

  lemma SweptIsValid(s: State, s': State, i: int)
    requires Valid(s) && Live(s, i) && PostClosed(Recounted(s, i, 2), s', i) && !Live(s', i)
    ensures Valid(s') && NoNewEntries(s, s') && Shrinks(s, s')
  {
    RecountNumbers(s, i, 2);
    RecountKeeps(s, i, 2);
    forall j | Kept(s, s', j)
      ensures EntryIsolated(s, s', j)
    {
      assert Kept(Recounted(s, i, 2), s', j);
    }
  }

  // ---------------------------------------------------------------- registration

  predicate HasFree(s: State) {
    exists i :: 0 <= i < |s.table| && s.table[i].refcount == 0
  }

  /** The claiming loop of synth_register: the first free slot, if there is one. */
  method ClaimFirstFree(lib: Library, w: Wrap) returns (i: int)
    requires Valid(lib.S()) && Ready(lib.S(), w)
    modifies lib
    ensures i == -1 <==> forall j :: 0 <= j < SLOTS ==> Live(old(lib.S()), j)
    ensures i == -1 ==> lib.S() == old(lib.S())
    ensures i != -1 ==> 0 <= i < SLOTS && !Live(old(lib.S()), i) && lib.S() == Claimed(old(lib.S()), w, i)
    ensures forall j :: 0 <= j < i ==> Live(old(lib.S()), j)
  {
    ghost var s := lib.S();
    i := 0;
    while i < SLOTS
      invariant 0 <= i <= SLOTS && lib.S() == s
      invariant forall j :: 0 <= j < i ==> Live(s, j)
    {
      assert EntryOk(s, i);
      if lib.table[i].refcount == 0 {
        lib.table := lib.table[i := NewEntry(w, lib.self)];
        return;
      }
      i := i + 1;
    }
    i := -1;
  }

  /** Every slot holds a live entry that the sweep cannot free. */
  ghost predicate Full(s: State) {
    forall j :: 0 <= j < |s.table| ==> Live(s, j) && !Sweepable(s, j)
  }

  /** The only entry that was not there before is i, and the registry is the same. */
  ghost predicate OnlyNew(s: State, s': State, i: int) {
    && s'.registry == s.registry && s'.k.nextInode == s.k.nextInode && s'.k.inode == s.k.inode
    && s'.k.openFaults == s.k.openFaults && s'.k.lockFaults == s.k.lockFaults
    && (forall j :: Live(s', j) && j != i ==> Kept(s, s', j) && EntryIsolated(s, s', j))
    && (forall fd :: fd in s'.k.fds ==> fd in s.k.fds && s'.k.fds[fd] == s.k.fds[fd])
    && (forall t :: 0 <= t < |s'.ttys| && s'.ttys[t].claimed ==> t < |s.ttys| && s.ttys[t].claimed)
  }

  lemma ClaimOnlyNew(s: State, w: Wrap, i: int)
    requires Inv(s) && Ready(s, w) && 0 <= i < |s.table| && !Live(s, i)
    ensures OnlyNew(s, Claimed(s, w, i), i)
  {
    ClaimNumbers(s, w, i);
  }

  lemma SweepThenNew(s: State, s1: State, s2: State, i: int)
    requires SameProcess(s, s1) && NoNewEntries(s, s1) && Shrinks(s, s1) && OnlyNew(s1, s2, i)
    ensures OnlyNew(s, s2, i)
  {
    forall j | Live(s2, j) && j != i
      ensures Kept(s, s2, j) && EntryIsolated(s, s2, j)
    {
      assert Kept(s1, s2, j) && Kept(s, s1, j);
      EntryIsolatedTrans(s, s1, s2, j);
    }
  }

  /**
    synth_register. It retries at most once, after a sweep that freed a slot. It fails exactly
    when every slot holds a live entry that the sweep cannot free, and then changes nothing.
  */
  method Register(lib: Library, w: Wrap) returns (i: int)
    requires Valid(lib.S()) && Ready(lib.S(), w)
    modifies lib
    ensures Valid(lib.S())
    ensures Effect(old(lib.S()), lib.S(), Adopted(old(lib.S()), w))
    ensures i == -1 <==> Full(old(lib.S()))
    ensures i == -1 ==> lib.S() == old(lib.S())
    ensures i != -1 ==> 0 <= i < SLOTS && lib.table[i] == NewEntry(w, lib.self)
    ensures i != -1 && w.tty >= 0 ==> lib.ttys[w.tty] == old(lib.ttys)[w.tty]
    ensures OnlyNew(old(lib.S()), lib.S(), i)
    decreases if HasFree(lib.S()) then 0 else 1
  {
    ghost var s := lib.S();
    i := ClaimFirstFree(lib, w);
    if i >= 0 {
      ClaimsSlot(s, w, i);
      return;
    }
    var freed := TableGc(lib);
    if freed {
      ghost var s1 := lib.S();
      ReadyAfterSweep(s, s1, w);
      i := Register(lib, w);
      RegisteredAfterSweep(s, s1, lib.S(), w, i);
    } else {
      EffectRefl(s, Adopted(s, w));
    }
  }

  lemma ClaimsSlot(s: State, w: Wrap, i: int)
    requires Valid(s) && Ready(s, w) && 0 <= i < |s.table| && !Live(s, i)
    ensures var s' := Claimed(s, w, i); Valid(s') && Effect(s, s', Adopted(s, w)) && OnlyNew(s, s', i)
  {
    ClaimKeeps(s, w, i);
    ClaimEffect(s, w, i);
    ClaimOnlyNew(s, w, i);
  }

  lemma RegisteredAfterSweep(s: State, s1: State, s2: State, w: Wrap, i: int)
    requires Inv(s) && SameProcess(s, s1) && Effect(s, s1, {}) && NoNewEntries(s, s1) && Shrinks(s, s1)
    requires OnlyNew(s1, s2, i) && Effect(s1, s2, Adopted(s, w))
    ensures Effect(s, s2, Adopted(s, w)) && OnlyNew(s, s2, i)
  {
    EffectThen(s, s1, s2, {}, Adopted(s, w), Adopted(s, w));
    SweepThenNew(s, s1, s2, i);
  }
}
