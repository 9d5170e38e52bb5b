/**
  A probe at a number that is used for parking. Its entry waits to be released; once it is, the number
  is free for the next parking descriptor, although it is still a candidate itself.
*/
module ParkingCollision {
  import opened DescriptorView
  import opened KernelState
  import opened SynthState
  import opened SynthLemmas
  import opened SynthEffects
  import opened SynthTable
  import opened Registration
  import opened Parkings
  import opened Preexec
  import opened ExecRestore
  import opened FailingInputs

  /**
    Two wrapped terminals. Entry 0, on inode 1, waits to be released: nobody has its wrap, and the application
    has the file open a second time at 5; its probe is at 64 and its backing at 3. Entry 1, on inode 2, has its
    wrap at 6, its probe at 7 and its backing at 4.
  */
  function Crowded(): State {
    State(Kernel(map[3 := Desc(0, true), 4 := Desc(1, true), 5 := Desc(12, false), 6 := Desc(20, false),
                     7 := Desc(21, true), 64 := Desc(11, true)],
                 map[0 := 0, 1 := 0, 10 := 1, 11 := 1, 12 := 1, 20 := 2, 21 := 2],
                 map[10 := Shared, 20 := Shared], {}, 1024, 22, 3, 0, 0, 0, 0),
          seq(SLOTS, i => if i == 0 then Entry(1, 1, Parent(), 0, View(64, NoOverrides()), 10, 11)
                          else if i == 1 then Entry(1, 2, Parent(), 1, View(7, NoOverrides()), 20, 21) else NO_ENTRY),
          seq(SLOTS, t => if t == 0 then Tty(true, View(3, NoOverrides()), 0)
                          else if t == 1 then Tty(true, View(4, NoOverrides()), 1) else NO_TTY), [],
          Parent(), {Parent()}, {})
  }

  lemma CrowdedRefs()
    ensures forall i :: Live(Crowded(), i) <==> i == 0 || i == 1
    ensures forall r :: IsRef(Crowded(), r) <==> r in {Probe(0), Probe(1), Backing(0), Backing(1)}
    ensures Number(Crowded(), Probe(0)) == 64 && Number(Crowded(), Backing(0)) == 3
    ensures Number(Crowded(), Probe(1)) == 7 && Number(Crowded(), Backing(1)) == 4
    ensures Original(Crowded(), Probe(0)) == 11 && Original(Crowded(), Backing(0)) == 0
    ensures Original(Crowded(), Probe(1)) == 21 && Original(Crowded(), Backing(1)) == 1
  {
  }

  lemma CrowdedIsValid()
    ensures Valid(Crowded())
  {
    var s := Crowded();
    assert Named(s) && Distinct(s) by {
      CrowdedRefs();
      FourRefs(s);
    }
    assert UniqueViews(s) by { assert Unique(NoOverrides()); }
    CrowdedEntries();
    assert WfKernel(s.k);
  }

  lemma CrowdedEntries()
    ensures var s := Crowded();
            && (forall i :: 0 <= i < |s.table| ==> EntryOk(s, i))
            && KeysDistinct(s) && BackingsPlain(s) && Lendings(s) && Quiet(s)
  {
    var s := Crowded();
    CrowdedRefs();
    assert EntryOk(s, 0) && EntryOk(s, 1);
  }

  /** The part of the invariant that is about numbers. */
  lemma FourRefs(s: State)
    requires forall r :: IsRef(s, r) <==> r in {Probe(0), Probe(1), Backing(0), Backing(1)}
    requires Number(s, Probe(0)) == 64 && Number(s, Backing(0)) == 3
    requires Number(s, Probe(1)) == 7 && Number(s, Backing(1)) == 4
    requires 64 in s.k.fds && s.k.fds[64] == Desc(Original(s, Probe(0)), true)
    requires 3 in s.k.fds && s.k.fds[3] == Desc(Original(s, Backing(0)), true)
    requires 7 in s.k.fds && s.k.fds[7] == Desc(Original(s, Probe(1)), true)
    requires 4 in s.k.fds && s.k.fds[4] == Desc(Original(s, Backing(1)), true)
    ensures Named(s) && Distinct(s)
  {
    assert forall r :: Number(s, r) >= 0 ==> IsRef(s, r);
  }

  lemma FirstIsDoomed()
    ensures Doomed(Crowded(), 0) && !DoomedLow(Crowded()) && BackedBy(Crowded(), 5, 0)
    ensures !Doomed(Crowded(), 1)
  {
    var s := Crowded();
    CrowdedRefs();
    assert forall fd :: fd in s.k.fds ==> s.k.fds[fd].ofd != 10;
    assert !Contested(s.k, 11);
    assert HeldHere(s.k, 20) by { assert s.k.fds[6].ofd == 20; }
    assert Contested(s.k, 21) by { assert 20 in s.k.locks && Alive(s.k, 20) && InoOf(s.k, 20) == InoOf(s.k, 21); }
  }

  /** What is left of the second entry in the states that follow, and where 6 and 64 are. */
  ghost predicate SecondStands(s: State) {
    && Valid(s) && s.lent == {} && Live(s, 1) && !Doomed(s, 1) && s.table[1].key == 2
    && Number(s, Backing(1)) == 4 && Original(s, Backing(1)) == 1
    && (forall r :: Number(s, r) >= 0 ==> r == Probe(1) || r == Backing(1))
    && InoOf(s.k, 20) == 2
  }

  lemma SecondStays(s: State, s': State, u: int, p: Outcome)
    requires SecondStands(s) && SavedOne(s, s', u, p) && Number(s, Probe(1)) != u && u >= 0 && u != 4
    ensures SecondStands(s') && Number(s', Probe(1)) == Number(s, Probe(1))
  {
    assert Kept(s, s', 1);
    assert forall r :: r !in s'.lent;
    forall r | Number(s', r) >= 0
      ensures r == Probe(1) || r == Backing(1)
    {
      assert IsRef(s', r) && Number(s', r) == Number(s, r);
    }
  }

  /** What matters about the start. */
  ghost predicate Starts(s: State) {
    && Valid(s) && s.lent == {} && Live(s, 1) && s.table[1].key == 2 && InoOf(s.k, 20) == 2
    && Doomed(s, 0) && !Doomed(s, 1) && BackedBy(s, 5, 0)
    && (forall r :: IsRef(s, r) ==> r in {Probe(0), Probe(1), Backing(0), Backing(1)})
    && Number(s, Probe(0)) == 64 && Number(s, Backing(0)) == 3 && Number(s, Probe(1)) == 7 && Number(s, Backing(1)) == 4
    && Original(s, Backing(1)) == 1
    && 5 in s.k.fds && !s.k.fds[5].cloexec && 6 in s.k.fds && s.k.fds[6] == Desc(20, false)
    && 64 in s.k.fds && 65 !in s.k.fds
  }

  lemma CrowdedStarts()
    ensures Starts(Crowded())
  {
    CrowdedIsValid();
    CrowdedRefs();
    FirstIsDoomed();
  }

  lemma AfterFirst(s: State, s1: State, p: Outcome)
    requires Starts(s) && SavedOne(s, s1, 5, p) && NoFaults(s, s1)
    ensures SecondStands(s1) && Number(s1, Probe(1)) == 7 && p.Parked? && p.at == Parking(5, 65, false)
    ensures 64 !in s1.k.fds && 6 in s1.k.fds && s1.k.fds[6] == Desc(20, false) && !Internal(s1, 6)
  {
    assert !Live(s1, 0) && Live(s1, 1) && Kept(s, s1, 1);
    assert SecondStands(s1) && Number(s1, Probe(1)) == 7 by { SecondIsLeft(s, s1, p); }
    NumbersAfterFirst(s, s1, p);
  }

  lemma NumbersAfterFirst(s: State, s1: State, p: Outcome)
    requires TriedOne(s, s1, 5, p) && NoFaults(s, s1) && BackedBy(s, 5, 0)
    requires forall r :: Number(s, r) >= 0 ==> r in {Probe(0), Probe(1), Backing(0), Backing(1)}
    requires Number(s, Probe(0)) == 64 && Number(s, Backing(0)) == 3
    requires Number(s, Probe(1)) == 7 && Number(s, Backing(1)) == 4
    requires forall r :: Number(s1, r) >= 0 ==> r == Probe(1) || r == Backing(1)
    requires Number(s1, Probe(1)) == 7 && Number(s1, Backing(1)) == 4
    requires 5 in s.k.fds && !s.k.fds[5].cloexec && 6 in s.k.fds && 64 in s.k.fds && 65 !in s.k.fds
    ensures p.Parked? && p.at == Parking(5, 65, false)
    ensures 64 !in s1.k.fds && 6 in s1.k.fds && s1.k.fds[6] == s.k.fds[6] && !Internal(s1, 6)
  {
    assert Internal(s, 64) && !Internal(s, 6);
    assert 64 in s1.k.fds ==> Internal(s1, 64);
  }

  lemma OnlySecond(s: State, s1: State, p: Outcome)
    requires Starts(s) && SavedOne(s, s1, 5, p) && !Live(s1, 0) && Live(s1, 1)
    ensures forall r :: Number(s1, r) >= 0 ==> r == Probe(1) || r == Backing(1)
  {
    forall r | Number(s1, r) >= 0
      ensures r == Probe(1) || r == Backing(1)
    {
      OnlySecondRef(s, s1, r);
    }
  }

  lemma OnlySecondRef(s: State, s1: State, r: Ref)
    requires forall r :: IsRef(s, r) ==> r in {Probe(0), Probe(1), Backing(0), Backing(1)}
    requires IsRef(s1, r) && Number(s, r) != 5 ==> Number(s1, r) == Number(s, r)
    requires !Live(s1, 0) && Number(s1, r) >= 0
    ensures r == Probe(1) || r == Backing(1)
  {
    assert IsRef(s1, r) && IsRef(s, r);
  }

  lemma SecondIsLeft(s: State, s1: State, p: Outcome)
    requires Starts(s) && SavedOne(s, s1, 5, p) && !Live(s1, 0) && Live(s1, 1) && Kept(s, s1, 1)
    ensures SecondStands(s1) && Number(s1, Probe(1)) == 7
  {
    OnlySecond(s, s1, p);
    assert Number(s1, Probe(1)) == 7;
  }

  lemma AfterSecond(s1: State, s2: State, p: Outcome)
    requires SecondStands(s1) && Number(s1, Probe(1)) == 7 && 64 !in s1.k.fds
    requires 6 in s1.k.fds && s1.k.fds[6] == Desc(20, false)
    requires SavedOne(s1, s2, 6, p) && NoFaults(s1, s2)
    ensures SecondStands(s2) && Number(s2, Probe(1)) == 7 && p.Parked? && p.at == Parking(6, 64, false)
    ensures 64 in s2.k.fds && s2.k.fds[64] == Desc(20, true) && !Internal(s2, 64)
    ensures 6 in s2.k.fds && s2.k.fds[6] == Desc(1, false) && !Internal(s2, 6)
  {
    SecondStays(s1, s2, 6, p);
    assert BackedBy(s1, 6, 1);
  }

  lemma AfterThird(s2: State, s3: State, p: Outcome)
    requires SecondStands(s2) && Number(s2, Probe(1)) == 7
    requires 64 in s2.k.fds && s2.k.fds[64] == Desc(20, true)
    requires 6 in s2.k.fds && s2.k.fds[6] == Desc(1, false) && !Internal(s2, 6)
    requires SavedOne(s2, s3, 64, p) && NoFaults(s2, s3)
    ensures Valid(s3) && 64 in s3.k.fds && s3.k.fds[64] == Desc(1, true) && !Internal(s3, 64)
    ensures 6 in s3.k.fds && s3.k.fds[6] == Desc(1, false) && !Internal(s3, 6)
  {
    assert BackedBy(s2, 64, 1);
  }

  /**
    The candidates 5, 6 and 64, in this order. Parking 5 releases the first entry and frees 64; 6 is parked
    there; then 64 is a candidate that is on the second wrap, and gets its backing. The record of 6 is not true
    any more, and restoring from it leaves 6 on the terminal itself instead of its wrap.
  */
  method ParkedTwice() returns (lib: Library, ghost s3: State)
    ensures 6 in Crowded().k.fds && Crowded().k.fds[6].ofd == 20
    ensures NoFaults(Crowded(), s3) && lib.k.dup3Faults == s3.k.dup3Faults ==>
              6 in lib.k.fds && lib.k.fds[6].ofd == 1
  {
    CrowdedStarts();
    var s := Crowded();
    lib := new Library(s.k, [], s.self, s.alive);
    lib.table, lib.ttys := s.table, s.ttys;
    assert lib.S() == s;
    var p := SaveOne(lib, 5);
    ghost var s1 := lib.S();
    if !(lib.k.dupFaults == 0 && lib.k.dup3Faults == 0) {
      s3 := s1;
      return;
    }
    AfterFirst(s, s1, p);
    p := SaveOne(lib, 6);
    ghost var s2 := lib.S();
    if !(lib.k.dupFaults == 0 && lib.k.dup3Faults == 0) {
      s3 := s2;
      return;
    }
    AfterSecond(s1, s2, p);
    var q := SaveOne(lib, 64);
    s3 := lib.S();
    if !(lib.k.dupFaults == 0 && lib.k.dup3Faults == 0) {
      return;
    }
    AfterThird(s2, s3, q);
    var r; ghost var s4;
    r, s4 := SwapBack(lib, p.at);
    assert lib.k.dup3Faults == s3.k.dup3Faults ==> s4.k.dup3Faults == s3.k.dup3Faults;
  }
}
