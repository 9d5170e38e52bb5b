/** The save before an exec: collect the descriptors that match an entry, and park them one by one. */
module Preexec {
  import opened DescriptorView
  import opened KernelState
  import opened SynthState
  import opened SynthLemmas
  import opened SynthEffects
  import opened SynthTable
  import opened Lending
  import opened Parkings
  import opened Places

  const SYNTH_PREEXEC_MAX := 64

  // ---------------------------------------------------------------- collecting

  predicate Matches(s: State, fd: int) {
    exists i :: 0 <= i < |s.table| && s.table[i].refcount > 0 && s.table[i].key == Ino(s.k, fd)
  }

  /** The descriptors on the inode of some live entry: wraps, their duplicates, and probes. */
  function Matching(s: State): set<int> {
    set fd | fd in s.k.fds && Matches(s, fd)
  }

  ghost predicate AllDistinct(c: seq<int>) {
    forall j, l :: 0 <= j < l < |c| ==> c[j] != c[l]
  }

  lemma {:induction false} DistinctCovers(c: seq<int>, m: set<int>)
    requires AllDistinct(c) && (forall j :: 0 <= j < |c| ==> c[j] in m)
    ensures |c| <= |m|
    ensures |c| == |m| ==> forall fd :: fd in m ==> fd in c
    decreases |c|
  {
    if c != [] {
      var n := |c| - 1;
      var rest := m - {c[n]};
      DistinctCovers(c[..n], rest);
      assert |rest| == |m| - 1;
      assert forall fd :: fd in c[..n] ==> fd in c;
    }
  }

  /** One visit of the walk: pin by descriptor, and unpin. */
  method Visit(lib: Library, fd: int) returns (matches: bool)
    requires Valid(lib.S()) && fd in lib.k.fds
    modifies lib
    ensures lib.S() == old(lib.S()) && matches == Matches(lib.S(), fd)
  {
    ghost var s := lib.S();
    var i := lib.PinFd(fd);
    matches := i >= 0;
    if matches {
      RecountKeeps(s, i, 2);
      lib.Unpin(i);
      assert lib.table == s.table;
    } else {
      assert forall j :: 0 <= j < |s.table| && s.table[j].refcount > 0 ==> Live(s, j);
    }
  }

  /** Pass 1 of preexec_save: the matching descriptors, at most SYNTH_PREEXEC_MAX of them. */
  method Collect(lib: Library) returns (c: seq<int>)
    requires Valid(lib.S())
    modifies lib
    ensures lib.S() == old(lib.S())
    ensures Candidates(lib.S(), c)
    ensures |Matching(lib.S())| <= SYNTH_PREEXEC_MAX ==> forall fd :: fd in Matching(lib.S()) ==> fd in c
  {
    ghost var s := lib.S();
    c := [];
    var todo := lib.k.fds.Keys;
    while todo != {} && |c| < SYNTH_PREEXEC_MAX
      invariant lib.S() == s && todo <= s.k.fds.Keys && |c| <= SYNTH_PREEXEC_MAX
      invariant AllDistinct(c)
      invariant forall j :: 0 <= j < |c| ==> c[j] in Matching(s) && c[j] !in todo
      invariant forall fd :: fd in Matching(s) && fd !in todo ==> fd in c
      decreases todo
    {
      SomeMember(todo);
      var fd :| fd in todo;
      todo := todo - {fd};
      var matches := Visit(lib, fd);
      if matches {
        c := c + [fd];
      }
    }
    DistinctCovers(c, Matching(s));
  }

  // ---------------------------------------------------------------- saving all

  function Users(ps: seq<Parking>): set<int> {
    set j | 0 <= j < |ps| :: ps[j].user
  }

  function Saveds(ps: seq<Parking>): set<int> {
    set j | 0 <= j < |ps| :: ps[j].saved
  }

  function Append(ps: seq<Parking>, p: Outcome): (r: seq<Parking>)
    ensures p.Parked? ==> Users(r) == Users(ps) + {p.at.user} && Saveds(r) == Saveds(ps) + {p.at.saved}
  {
    if p.Parked? then
      var r := ps + [p.at];
      assert forall j :: 0 <= j < |ps| ==> r[j] == ps[j];
      assert r[|ps|] == p.at;
      r
    else ps
  }

  /** What a record is good for in any case: the user's number is on no wrap, and neither number is internal. */
  ghost predicate UserOk(s0: State, s: State, p: Parking) {
    && p.user in s0.k.fds && p.user in s.k.fds && s.k.fds[p.user].cloexec == s0.k.fds[p.user].cloexec
    && !Internal(s, p.user) && PlainFd(s, p.user)
    && p.saved in s.k.fds && !Internal(s, p.saved)
  }

  /** What is lent is lent to a recorded user, and is no parking number. */
  ghost predicate LentRecorded(s: State, ps: seq<Parking>) {
    && BackingsThere(s)
    && (forall i :: Probe(i) in s.lent ==> Raw(s, Probe(i)) in Users(ps))
    && (forall i :: Probe(i) in s.lent ==> Raw(s, Probe(i)) !in Saveds(ps))
  }

  /** Where any save stands. */
  ghost predicate SavedWeakly(s0: State, s: State, ps: seq<Parking>) {
    && Carried(s0, s) && HeldStay(s0, s) && InPlace(s0, s, Users(ps), Saveds(ps))
    && AppsKeep(s0, s, Users(ps)) && LentRecorded(s, ps) && DistinctUsers(ps)
    && (forall j :: 0 <= j < |ps| ==> UserOk(s0, s, ps[j]))
  }

  ghost predicate DistinctUsers(ps: seq<Parking>) {
    forall j, l :: 0 <= j < l < |ps| ==> ps[j].user != ps[l].user
  }

  lemma LentRecordedStep(s0: State, s: State, s': State, ps: seq<Parking>, u: int, p: Outcome)
    requires Inv(s) && SavedWeakly(s0, s, ps) && SavedOne(s, s', u, p)
    ensures LentRecorded(s', Append(ps, p))
  {
    forall i | Probe(i) in s'.lent
      ensures Raw(s', Probe(i)) in Users(Append(ps, p)) && Raw(s', Probe(i)) !in Saveds(Append(ps, p))
    {
      assert Live(s', i) && ProbeStays(s, s', i);
      LentIsRecorded(s0, s, s', ps, u, p, i);
    }
  }

  lemma LentIsRecorded(s0: State, s: State, s': State, ps: seq<Parking>, u: int, p: Outcome, i: int)
    requires Inv(s) && LentRecorded(s, ps) && (forall j :: 0 <= j < |ps| ==> UserOk(s0, s, ps[j]))
    requires TriedOne(s, s', u, p) && Probe(i) in s'.lent && ProbeStays(s, s', i)
    ensures Raw(s', Probe(i)) in Users(Append(ps, p)) && Raw(s', Probe(i)) !in Saveds(Append(ps, p))
  {
    if Probe(i) in s.lent {
      OldIsRecorded(s0, s, ps, i);
    } else {
      NewIsRecorded(s0, s, ps, u, i);
    }
  }

  lemma OldIsRecorded(s0: State, s: State, ps: seq<Parking>, i: int)
    requires LentRecorded(s, ps) && Probe(i) in s.lent && forall j :: 0 <= j < |ps| ==> UserOk(s0, s, ps[j])
    ensures Raw(s, Probe(i)) in Users(ps) && Raw(s, Probe(i)) !in Saveds(ps) && Raw(s, Probe(i)) in s.k.fds
  {
    var j :| 0 <= j < |ps| && ps[j].user == Raw(s, Probe(i));
    assert UserOk(s0, s, ps[j]);
  }

  lemma NewIsRecorded(s0: State, s: State, ps: seq<Parking>, u: int, i: int)
    requires Inv(s) && Number(s, Probe(i)) == u >= 0 && forall j :: 0 <= j < |ps| ==> UserOk(s0, s, ps[j])
    ensures Raw(s, Probe(i)) == u && u in s.k.fds && u !in Saveds(ps)
  {
    assert Internal(s, u);
    forall j | 0 <= j < |ps|
      ensures ps[j].saved != u
    {
      assert UserOk(s0, s, ps[j]);
    }
  }

  lemma UserStaysOk(s0: State, s: State, s': State, p: Parking, u: int, o: Outcome)
    requires WfKernel(s.k) && UserOk(s0, s, p) && TriedOne(s, s', u, o) && p.user != u && NoNewEntries(s, s')
    requires forall d :: d in s.k.inode ==> InoOf(s'.k, d) == InoOf(s.k, d)
    ensures UserOk(s0, s', p)
  {
    forall i | 0 <= i < |s'.table| && Live(s', i)
      ensures s'.table[i].key != Ino(s'.k, p.user)
    {
      assert Kept(s, s', i);
      assert s'.k.fds[p.user] == s.k.fds[p.user];
    }
  }

  /** The close-on-exec flag of a number that was open at the start and has not been swapped. */
  lemma FlagStays(s0: State, s: State, users: set<int>, u: int)
    requires Inv(s0) && AppsKeep(s0, s, users) && u in s0.k.fds && u in s.k.fds && u !in users
    ensures s.k.fds[u].cloexec == s0.k.fds[u].cloexec
  {
    if Internal(s0, u) {
      InternalIsCloexec(s0, u);
    }
  }

  lemma WeakStep(s0: State, s: State, s': State, ps: seq<Parking>, u: int, p: Outcome)
    requires Valid(s0) && SavedWeakly(s0, s, ps) && u in s0.k.fds && u !in Users(ps) && SavedOne(s, s', u, p)
    ensures SavedWeakly(s0, s', Append(ps, p))
  {
    assert Carried(s0, s') by { CarriedTrans(s0, s, s'); }
    assert HeldStay(s0, s') by { HeldStayTrans(s0, s, s'); }
    PlacesStep(s0, s, s', ps, u, p);
    LentRecordedStep(s0, s, s', ps, u, p);
    WeakStepApps(s0, s, s', ps, u, p);
    UsersStayOk(s0, s, s', ps, u, p);
  }

  lemma PlacesStep(s0: State, s: State, s': State, ps: seq<Parking>, u: int, p: Outcome)
    requires Inv(s0) && Inv(s) && Lineage(s0, s) && InPlace(s0, s, Users(ps), Saveds(ps)) && SavedOne(s, s', u, p)
    requires u in s0.k.fds && forall j :: 0 <= j < |ps| ==> UserOk(s0, s, ps[j])
    ensures InPlace(s0, s', Users(Append(ps, p)), Saveds(Append(ps, p)))
  {
    assert Users(ps) <= s.k.fds.Keys;
    InPlaceStep(s0, s, s', Users(ps), Saveds(ps), u, p);
    assert Users(Append(ps, p)) == Users(ps) + if p.Parked? then {u} else {};
    assert Saveds(Append(ps, p)) == Saveds(ps) + if p.Parked? then {p.at.saved} else {};
  }

  lemma UsersStayOk(s0: State, s: State, s': State, ps: seq<Parking>, u: int, p: Outcome)
    requires WfKernel(s.k) && TriedOne(s, s', u, p) && NoNewEntries(s, s') && DistinctUsers(ps) && u !in Users(ps)
    requires forall d :: d in s.k.inode ==> InoOf(s'.k, d) == InoOf(s.k, d)
    requires forall j :: 0 <= j < |ps| ==> UserOk(s0, s, ps[j])
    requires p.Parked? ==> UserOk(s0, s', p.at)
    ensures DistinctUsers(Append(ps, p)) && forall j :: 0 <= j < |Append(ps, p)| ==> UserOk(s0, s', Append(ps, p)[j])
  {
    assert forall j :: 0 <= j < |ps| ==> ps[j].user in Users(ps);
    forall j | 0 <= j < |ps|
      ensures UserOk(s0, s', ps[j])
    {
      UserStaysOk(s0, s, s', ps[j], u, p);
    }
  }

  lemma WeakStepApps(s0: State, s: State, s': State, ps: seq<Parking>, u: int, p: Outcome)
    requires Inv(s0) && AppsKeep(s0, s, Users(ps)) && u in s0.k.fds && u !in Users(ps) && TriedOne(s, s', u, p)
    ensures AppsKeep(s0, s', Users(Append(ps, p))) && (p.Parked? ==> UserOk(s0, s', p.at))
  {
    AppsKeepTrans(s0, s, s', Users(ps), if p.Parked? then {u} else {});
    assert Users(Append(ps, p)) == Users(ps) + if p.Parked? then {u} else {};
    if p.Parked? {
      FlagStays(s0, s, Users(ps), u);
    }
  }

  /** The candidates from j on that are probes are still where they were. */
  ghost predicate ProbesWait(s0: State, s: State, c: seq<int>, j: nat) {
    forall i, l :: Live(s, i) && j <= l < |c| && Number(s0, Probe(i)) == c[l] ==> Number(s, Probe(i)) == c[l]
  }

  /** The candidates before j whose entry has a backing are parked, unless the entry is gone. */
  ghost predicate Handled(s0: State, s: State, ps: seq<Parking>, c: seq<int>, j: nat) {
    forall l, i :: 0 <= l < j <= |c| && BackedBy(s0, c[l], i) && Live(s, i) ==> c[l] in Users(ps)
  }

  /** Entries with a backing that nobody holds are gone once their probe was a candidate before j. */
  ghost predicate UnheldGone(s0: State, s: State, c: seq<int>, j: nat) {
    forall l, i :: 0 <= l < j <= |c| && Number(s0, Probe(i)) == c[l] && Unheld(s0, i) && Number(s0, Backing(i)) >= 0 ==>
      !Live(s, i)
  }

  lemma ProbesWaitStep(s0: State, s: State, s': State, c: seq<int>, j: nat, p: Outcome)
    requires ProbesWait(s0, s, c, j) && j < |c| && AllDistinct(c) && SavedOne(s, s', c[j], p)
    ensures ProbesWait(s0, s', c, j + 1)
  {
    forall i, l | Live(s', i) && j + 1 <= l < |c| && Number(s0, Probe(i)) == c[l]
      ensures Number(s', Probe(i)) == c[l]
    {
      assert Kept(s, s', i) && Number(s, Probe(i)) == c[l] && IsRef(s', Probe(i));
    }
  }

  /** A candidate of an entry that is still there is still a candidate. */
  lemma StillBacked(s0: State, s: State, ps: seq<Parking>, c: seq<int>, j: nat, i: int)
    requires Valid(s0) && SavedWeakly(s0, s, ps) && ProbesWait(s0, s, c, j) && j < |c|
    requires c[j] !in Users(ps) && BackedBy(s0, c[j], i) && Live(s, i)
    ensures BackedBy(s, c[j], i)
  {
    var u := c[j];
    CandidateIs(s0, u, i);
    assert Kept(s0, s, i) && EntryOk(s, i);
    if Internal(s0, u) {
      var r :| Number(s0, r) == u;
      InternalOnInode(s0, i, r);
      assert Number(s, Probe(i)) == u;
      assert s.k.fds[u].ofd == Original(s, Probe(i));
    }
  }

  lemma HandledStep(s0: State, s: State, s': State, ps: seq<Parking>, c: seq<int>, j: nat, p: Outcome)
    requires Valid(s0) && SavedWeakly(s0, s, ps) && ProbesWait(s0, s, c, j) && j < |c| && c[j] !in Users(ps)
    requires Handled(s0, s, ps, c, j) && SavedOne(s, s', c[j], p) && NoFaults(s, s')
    ensures Handled(s0, s', Append(ps, p), c, j + 1)
  {
    forall l, i | 0 <= l < j + 1 && BackedBy(s0, c[l], i) && Live(s', i)
      ensures c[l] in Users(Append(ps, p))
    {
      assert Kept(s, s', i);
      if l == j {
        StillBacked(s0, s, ps, c, j, i);
      }
    }
  }

  lemma UnheldGoneStep(s0: State, s: State, s': State, ps: seq<Parking>, c: seq<int>, j: nat, p: Outcome)
    requires Valid(s0) && SavedWeakly(s0, s, ps) && ProbesWait(s0, s, c, j) && j < |c| && c[j] !in Users(ps)
    requires UnheldGone(s0, s, c, j) && SavedOne(s, s', c[j], p) && NoFaults(s, s')
    ensures UnheldGone(s0, s', c, j + 1)
  {
    forall i | Number(s0, Probe(i)) == c[j] && Unheld(s0, i) && Number(s0, Backing(i)) >= 0
      ensures !Live(s', i)
    {
      if Live(s, i) {
        assert s0.k.fds[c[j]].ofd == Original(s0, Probe(i)) && EntryOk(s0, i);
        StillBacked(s0, s, ps, c, j, i);
        assert Kept(s0, s, i) && Unheld(s, i);
      }
    }
    assert forall i :: Live(s', i) ==> Live(s, i);
  }

  // ---------------------------------------------------------------- what the records say

  /**
    The entries that the save will release have their probes below the numbers of the parking
    descriptors. Else the number of such a probe could be reused for parking while it is a candidate.
  */
  ghost predicate DoomedLow(s: State) {
    forall i :: Doomed(s, i) ==> Number(s, Probe(i)) < SLOTS
  }

  /** Every live entry on whose inode the parking descriptor is has a backing. */
  ghost predicate RecordBacked(s: State, p: Parking) {
    forall i :: Live(s, i) && s.table[i].key == Ino(s.k, p.saved) ==> Number(s, Backing(i)) >= 0
  }

  /**
    The record p tells the truth: what was at p.user is at p.saved, and p.user has the backing, unless
    p.user was the number of an entry that is gone.
  */
  ghost predicate TrueRecord(s0: State, s: State, p: Parking) {
    && p.user in s0.k.fds && p.cloexec == s0.k.fds[p.user].cloexec
    && p.user in s.k.fds && p.saved in s.k.fds && RecordBacked(s, p)
    && (Unlost(s0, s, p.user) ==>
          && s.k.fds[p.saved] == Desc(s0.k.fds[p.user].ofd, true)
          && exists i :: BackedBy(s0, p.user, i) && s.k.fds[p.user] == Desc(Original(s0, Backing(i)), p.cloexec))
  }

  ghost predicate RecordsTrue(s0: State, s: State, ps: seq<Parking>) {
    forall j :: 0 <= j < |ps| ==> TrueRecord(s0, s, ps[j])
  }

  /** No two parking descriptors are at one number, and none is at a user's. */
  ghost predicate SavedsApart(ps: seq<Parking>) {
    && (forall j, l :: 0 <= j < |ps| && 0 <= l < |ps| ==> ps[j].saved != ps[l].user)
    && (forall j, l :: 0 <= j < l < |ps| ==> ps[j].saved != ps[l].saved)
  }

  /** The records are true and apart, also from the candidates that are still to come. */
  ghost predicate RecordsStand(s0: State, s: State, ps: seq<Parking>, c: seq<int>, j: nat) {
    RecordsTrue(s0, s, ps) && SavedsApart(ps) && forall l :: j <= l < |c| ==> c[l] !in Saveds(ps)
  }

  /** Where a save stands whose records tell all. */
  ghost predicate SavedFully(s0: State, s: State, ps: seq<Parking>) {
    SavedWeakly(s0, s, ps) && RecordsTrue(s0, s, ps) && SavedsApart(ps)
  }

  /** A candidate that is still to come is open, or below the parking numbers. */
  lemma CandidateWaits(s0: State, s: State, ps: seq<Parking>, c: seq<int>, j: nat, l: nat)
    requires Valid(s0) && DoomedLow(s0) && SavedWeakly(s0, s, ps) && ProbesWait(s0, s, c, j) && j <= l < |c|
    requires c[l] in Matching(s0) && c[l] !in Users(ps)
    ensures c[l] in s.k.fds || c[l] < SLOTS
  {
    if Internal(s0, c[l]) {
      var i :| 0 <= i < |s0.table| && s0.table[i].refcount > 0 && s0.table[i].key == Ino(s0.k, c[l]);
      var r :| Number(s0, r) == c[l];
      InternalOnInode(s0, i, r);
      assert Live(s, i) ==> Number(s, Probe(i)) == c[l];
      assert !Live(s, i) ==> Doomed(s0, i);
    }
  }

  lemma RecordStays(s0: State, s: State, s': State, q: Parking, u: int, p: Outcome)
    requires WfKernel(s.k) && UserOk(s0, s, q) && TrueRecord(s0, s, q) && SavedOne(s, s', u, p)
    requires q.user != u && q.saved != u && |s0.registry| <= |s.registry|
    ensures TrueRecord(s0, s', q)
  {
    assert s'.k.fds[q.user] == s.k.fds[q.user] && s'.k.fds[q.saved] == s.k.fds[q.saved];
    forall i | Live(s', i) && s'.table[i].key == Ino(s'.k, q.saved)
      ensures Number(s', Backing(i)) >= 0
    {
      assert Kept(s, s', i) && Ino(s.k, q.saved) == s.table[i].key;
    }
    if Unlost(s0, s', q.user) {
      UnlostBefore(s0, s, s', q.user);
    }
  }

  /** What is parked now is what was there at the start. */
  lemma RecordBegins(s0: State, s: State, s': State, ps: seq<Parking>, u: int, p: Outcome)
    requires Valid(s0) && SavedWeakly(s0, s, ps) && SavedOne(s, s', u, p) && p.Parked?
    requires u in s0.k.fds && u !in Users(ps)
    ensures TrueRecord(s0, s', p.at)
  {
    FlagStays(s0, s, Users(ps), u);
    var i :| BackedBy(s, u, i) && s'.k.fds[u] == Desc(Original(s, Backing(i)), p.at.cloexec);
    ParkedIsBacked(s, s', u, i, p.at);
    if Unlost(s0, s', u) {
      UnlostBefore(s0, s, s', u);
      assert s.k.fds[u] == s0.k.fds[u] && Kept(s0, s, i);
      assert BackedBy(s0, u, i);
    }
  }

  lemma ParkedIsBacked(s: State, s': State, u: int, i: int, p: Parking)
    requires Inv(s) && BackedBy(s, u, i) && SwappedOut(s, s', u, p) && Carried(s, s')
    ensures RecordBacked(s', p)
  {
    forall j | Live(s', j) && s'.table[j].key == Ino(s'.k, p.saved)
      ensures Number(s', Backing(j)) >= 0
    {
      assert Kept(s, s', j) && s.k.fds[u].ofd in s.k.inode;
      assert j == i;
    }
  }

  lemma ApartStep(s: State, ps: seq<Parking>, c: seq<int>, j: nat, p: Outcome)
    requires SavedsApart(ps) && j < |c| && (forall l :: j <= l < |c| ==> c[l] !in Saveds(ps))
    requires forall k :: 0 <= k < |ps| ==> ps[k].user in s.k.fds && ps[k].saved in s.k.fds
    requires p.Parked? ==> p.at.user == c[j] && c[j] in s.k.fds && SLOTS <= p.at.saved && p.at.saved !in s.k.fds
    requires forall l :: j < l < |c| ==> c[l] in s.k.fds || c[l] < SLOTS
    ensures SavedsApart(Append(ps, p)) && forall l :: j + 1 <= l < |c| ==> c[l] !in Saveds(Append(ps, p))
  {
    assert forall k :: 0 <= k < |ps| ==> ps[k].saved in Saveds(ps);
  }

  lemma RecordsStep(s0: State, s: State, s': State, ps: seq<Parking>, c: seq<int>, j: nat, p: Outcome)
    requires Valid(s0) && DoomedLow(s0) && SavedTo(s0, s, ps, c, j) && Candidates(s0, c) && j < |c|
    requires RecordsStand(s0, s, ps, c, j) && SavedOne(s, s', c[j], p)
    ensures RecordsStand(s0, s', Append(ps, p), c, j + 1)
  {
    assert forall l :: j < l < |c| ==> c[l] in s.k.fds || c[l] < SLOTS by {
      forall l | j < l < |c|
        ensures c[l] in s.k.fds || c[l] < SLOTS
      {
        CandidateWaits(s0, s, ps, c, j, l);
      }
    }
    assert forall k :: 0 <= k < |ps| ==> ps[k].user in s.k.fds && ps[k].saved in s.k.fds by {
      assert forall k :: 0 <= k < |ps| ==> TrueRecord(s0, s, ps[k]);
    }
    ApartStep(s, ps, c, j, p);
    RecordsStayTrue(s0, s, s', ps, c[j], p);
  }

  lemma RecordsStayTrue(s0: State, s: State, s': State, ps: seq<Parking>, u: int, p: Outcome)
    requires Valid(s0) && SavedWeakly(s0, s, ps) && RecordsTrue(s0, s, ps) && SavedOne(s, s', u, p)
    requires u in s0.k.fds && u !in Users(ps) && u !in Saveds(ps)
    ensures RecordsTrue(s0, s', Append(ps, p))
  {
    forall k | 0 <= k < |ps|
      ensures TrueRecord(s0, s', ps[k])
    {
      assert UserOk(s0, s, ps[k]) && ps[k].saved in Saveds(ps) && ps[k].user in Users(ps);
      RecordStays(s0, s, s', ps[k], u, p);
    }
    if p.Parked? {
      RecordBegins(s0, s, s', ps, u, p);
    }
    RecordsAppend(s0, s', ps, p);
  }

  lemma RecordsAppend(s0: State, s: State, ps: seq<Parking>, p: Outcome)
    requires RecordsTrue(s0, s, ps) && (p.Parked? ==> TrueRecord(s0, s, p.at))
    ensures RecordsTrue(s0, s, Append(ps, p))
  {
  }

  // ---------------------------------------------------------------- the save

  /** Where pass 2 stands when the candidates before j are done. */
  ghost predicate SavedTo(s0: State, s: State, ps: seq<Parking>, c: seq<int>, j: nat) {
    && SavedWeakly(s0, s, ps) && ProbesWait(s0, s, c, j)
    && (forall l :: j <= l < |c| ==> c[l] !in Users(ps))
    && (NoFaults(s0, s) ==> Handled(s0, s, ps, c, j) && UnheldGone(s0, s, c, j))
  }

  lemma SavedToStep(s0: State, s: State, s': State, ps: seq<Parking>, c: seq<int>, j: nat, p: Outcome)
    requires Valid(s0) && SavedTo(s0, s, ps, c, j) && j < |c| && AllDistinct(c) && c[j] in s0.k.fds
    requires SavedOne(s, s', c[j], p)
    ensures SavedTo(s0, s', Append(ps, p), c, j + 1)
  {
    WeakStep(s0, s, s', ps, c[j], p);
    ProbesWaitStep(s0, s, s', c, j, p);
    OthersWait(ps, c, j, p);
    if NoFaults(s0, s') {
      FaultsAddUp(s0, s, s');
      HandledStep(s0, s, s', ps, c, j, p);
      UnheldGoneStep(s0, s, s', ps, c, j, p);
    }
  }

  lemma FaultsAddUp(s0: State, s: State, s': State)
    requires SameWorld(s0, s) && SameWorld(s, s') && NoFaults(s0, s')
    ensures NoFaults(s0, s) && NoFaults(s, s')
  {
  }

  lemma OthersWait(ps: seq<Parking>, c: seq<int>, j: nat, p: Outcome)
    requires j < |c| && AllDistinct(c) && (p.Parked? ==> p.at.user == c[j])
    requires forall l :: j <= l < |c| ==> c[l] !in Users(ps)
    ensures forall l :: j + 1 <= l < |c| ==> c[l] !in Users(Append(ps, p))
  {
  }

  /** What pass 1 hands to pass 2. */
  ghost predicate Candidates(s: State, c: seq<int>) {
    AllDistinct(c) && |c| <= SYNTH_PREEXEC_MAX && forall j :: 0 <= j < |c| ==> c[j] in Matching(s)
  }

  /** Where pass 2 stands, and what its records say if `full`. */
  ghost predicate Saving(s0: State, s: State, ps: seq<Parking>, c: seq<int>, j: nat, full: bool) {
    SavedTo(s0, s, ps, c, j) && (full ==> RecordsStand(s0, s, ps, c, j))
  }

  /** One round of pass 2. */
  method SaveNext(lib: Library, c: seq<int>, j: nat, ps: seq<Parking>, ghost s0: State, ghost full: bool)
    returns (ps': seq<Parking>)
    requires Valid(s0) && Candidates(s0, c) && j < |c| && (full ==> DoomedLow(s0))
    requires Saving(s0, lib.S(), ps, c, j, full)
    modifies lib
    ensures Saving(s0, lib.S(), ps', c, j + 1, full) && |ps'| <= |ps| + 1
  {
    ghost var s := lib.S();
    var p := SaveOne(lib, c[j]);
    SavedToStep(s0, s, lib.S(), ps, c, j, p);
    if full {
      RecordsStep(s0, s, lib.S(), ps, c, j, p);
    }
    ps' := Append(ps, p);
  }

  /** Pass 2 of preexec_save: park the candidates one by one. */
  method SaveAll(lib: Library, c: seq<int>, ghost s0: State, ghost full: bool) returns (ps: seq<Parking>)
    requires Valid(s0) && Candidates(s0, c) && (full ==> DoomedLow(s0)) && Saving(s0, lib.S(), [], c, 0, full)
    modifies lib
    ensures Saving(s0, lib.S(), ps, c, |c|, full)
  {
    ps := [];
    var j := 0;
    while j < |c| && |ps| < SYNTH_PREEXEC_MAX
      invariant 0 <= j <= |c| && |ps| <= j
      invariant Saving(s0, lib.S(), ps, c, j, full)
    {
      ps := SaveNext(lib, c, j, ps, s0, full);
      j := j + 1;
    }
  }

  lemma NothingSavedYet(s: State, c: seq<int>)
    requires Valid(s) && s.lent == {}
    ensures Saving(s, s, [], c, 0, DoomedLow(s))
  {
    forall n | n in s.k.fds && Internal(s, n)
      ensures s.k.fds[n].cloexec
    {
      InternalIsCloexec(s, n);
    }
  }

  /** A descriptor that survives exec and refers to the wrap of an entry that has a backing. */
  ghost predicate Leaks(s0: State, s: State, n: int, i: int) {
    && n in s.k.fds && !s.k.fds[n].cloexec
    && Live(s0, i) && s.k.fds[n].ofd == s0.table[i].wrap && Number(s0, Backing(i)) >= 0
  }

  ghost predicate NoLeaks(s0: State, s: State) {
    forall n, i :: !Leaks(s0, s, n, i)
  }

  /** Every candidate of an entry that is still there, and has a backing, is parked. */
  ghost predicate Complete(s0: State, s: State, ps: seq<Parking>) {
    forall u, i :: BackedBy(s0, u, i) && Live(s, i) ==> u in Users(ps)
  }

  /** A complete save leaves no inheritable descriptor on a wrap that has a backing, held or not. */
  lemma CompleteSaveHasNoLeaks(s0: State, s: State, ps: seq<Parking>)
    requires Valid(s0) && SavedWeakly(s0, s, ps) && Complete(s0, s, ps)
    ensures NoLeaks(s0, s)
  {
    forall n, i | n in s.k.fds && Live(s0, i) && s.k.fds[n].ofd == s0.table[i].wrap && Number(s0, Backing(i)) >= 0
      ensures s.k.fds[n].cloexec
    {
      assert HeldHere(s.k, s0.table[i].wrap) && Live(s, i);
      assert Kept(s0, s, i) && EntryOk(s0, i) && EntryOk(s, i) && Ino(s.k, n) == s.table[i].key;
      assert n !in Users(ps);
      assert n in s0.k.fds && !Internal(s0, n) ==> BackedBy(s0, n, i);
    }
  }

  /** Descriptors keep their close-on-exec flag even where they were swapped, and the application's stay open. */
  ghost predicate SameFlags(s0: State, s: State) {
    forall n :: n in s0.k.fds ==>
      && (n in s.k.fds ==> s.k.fds[n].cloexec == s0.k.fds[n].cloexec)
      && (!Internal(s0, n) ==> n in s.k.fds)
  }

  lemma SaveKeepsFlags(s0: State, s: State, ps: seq<Parking>)
    requires Valid(s0) && SavedWeakly(s0, s, ps)
    ensures SameFlags(s0, s)
  {
    forall n | n in s0.k.fds
      ensures n in s.k.fds ==> s.k.fds[n].cloexec == s0.k.fds[n].cloexec
      ensures !Internal(s0, n) ==> n in s.k.fds
    {
      if n in Users(ps) {
        var j :| 0 <= j < |ps| && ps[j].user == n;
        assert UserOk(s0, s, ps[j]);
      } else if n in s.k.fds {
        FlagStays(s0, s, Users(ps), n);
      }
    }
  }

  /** Every entry with a backing that nobody holds is gone. */
  ghost predicate UnheldLost(s0: State, s: State) {
    forall i :: Unheld(s0, i) && Number(s0, Backing(i)) >= 0 ==> !Live(s, i)
  }

  lemma AllCandidatesSaved(s0: State, s: State, ps: seq<Parking>, c: seq<int>)
    requires Valid(s0) && SavedTo(s0, s, ps, c, |c|) && NoFaults(s0, s)
    requires forall fd :: fd in Matching(s0) ==> fd in c
    ensures Complete(s0, s, ps) && UnheldLost(s0, s)
  {
    forall u, i | BackedBy(s0, u, i) && Live(s, i)
      ensures u in Users(ps)
    {
      CandidateIs(s0, u, i);
      assert Matches(s0, u) && u in Matching(s0);
      var l :| 0 <= l < |c| && c[l] == u;
    }
    forall i | Unheld(s0, i) && Number(s0, Backing(i)) >= 0
      ensures !Live(s, i)
    {
      var u := Number(s0, Probe(i));
      assert s0.k.fds[u].ofd == Original(s0, Probe(i)) && EntryOk(s0, i);
      assert Matches(s0, u) && u in Matching(s0);
      var l :| 0 <= l < |c| && c[l] == u;
    }
  }

  /**
    wslcompat_synth_preexec_save. If at most SYNTH_PREEXEC_MAX descriptors match and no
    duplication fails, no descriptor that survives exec refers to a wrap that has a backing, and
    the entries with a backing that nobody holds are released. No other entry is lost in any case,
    and the records say what was parked where.
  */
  method Save(lib: Library) returns (ps: seq<Parking>)
    requires Valid(lib.S()) && lib.lent == {}
    modifies lib
    ensures SavedWeakly(old(lib.S()), lib.S(), ps) && SameFlags(old(lib.S()), lib.S())
    ensures DoomedLow(old(lib.S())) ==> SavedFully(old(lib.S()), lib.S(), ps)
    ensures |Matching(old(lib.S()))| <= SYNTH_PREEXEC_MAX && NoFaults(old(lib.S()), lib.S()) ==>
              && NoLeaks(old(lib.S()), lib.S())
              && Complete(old(lib.S()), lib.S(), ps) && UnheldLost(old(lib.S()), lib.S())
  {
    ghost var s0 := lib.S();
    var c := Collect(lib);
    NothingSavedYet(s0, c);
    ps := SaveAll(lib, c, s0, DoomedLow(s0));
    SaveKeepsFlags(s0, lib.S(), ps);
    if |Matching(s0)| <= SYNTH_PREEXEC_MAX && NoFaults(s0, lib.S()) {
      AllCandidatesSaved(s0, lib.S(), ps, c);
      CompleteSaveHasNoLeaks(s0, lib.S(), ps);
    }
  }
}
