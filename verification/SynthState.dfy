/**
  The kernel as one process sees it: its descriptor table, the open file descriptions
  behind it, their inodes and flock holders, and the descriptions that a fork child
  also keeps open.
*/
module KernelState {

  datatype Desc = Desc(ofd: nat, cloexec: bool)

  datatype Lock = Shared | Exclusive

  /**
    Failures of F_DUPFD (descriptor limit, memory), of dup3, of open and of a shared flock are
    counted, so that a theorem can say "if none failed".
  */
  datatype Kernel = Kernel(
    fds: map<int, Desc>,
    inode: map<nat, nat>,
    locks: map<nat, Lock>,
    foreign: set<nat>,
    limit: int,
    nextOfd: nat,
    nextInode: nat,
    dupFaults: nat,
    dup3Faults: nat,
    openFaults: nat,
    lockFaults: nat)

  /** Failures are counted, and never forgotten. */
  predicate FaultsGrow(k: Kernel, k': Kernel) {
    && k.dupFaults <= k'.dupFaults && k.dup3Faults <= k'.dup3Faults
    && k.openFaults <= k'.openFaults && k.lockFaults <= k'.lockFaults
  }

  ghost predicate WfKernel(k: Kernel) {
    && (forall fd :: fd in k.fds ==> 0 <= fd < k.limit && k.fds[fd].ofd in k.inode)
    && (forall o :: o in k.inode ==> o < k.nextOfd && k.inode[o] < k.nextInode)
  }

  /** The inode of a description; -1 for none. */
  function InoOf(k: Kernel, o: nat): int {
    if o in k.inode then k.inode[o] else -1
  }

  /** The inode behind a descriptor number; -1 when it is not open. */
  function Ino(k: Kernel, fd: int): int {
    if fd in k.fds then InoOf(k, k.fds[fd].ofd) else -1
  }

  /** Some descriptor of this process refers to the description. */
  predicate HeldHere(k: Kernel, o: nat) {
    exists fd :: fd in k.fds && k.fds[fd].ofd == o
  }

  /** A description, and any flock on it, lives while some process holds it. */
  predicate Alive(k: Kernel, o: nat) {
    o in k.foreign || HeldHere(k, o)
  }

  /** Some descriptor other than `probe` is open on the inode. */
  predicate OtherOn(k: Kernel, probe: int, key: int) {
    exists fd :: fd in k.fds && fd != probe && Ino(k, fd) == key
  }

  /** Another living description holds a flock on the inode of p, so LOCK_EX | LOCK_NB through p fails. */
  predicate Contested(k: Kernel, p: nat) {
    exists o :: o in k.locks && o != p && Alive(k, o) && InoOf(k, o) == InoOf(k, p)
  }

  lemma SomeMember(s: set<int>)
    requires s != {}
    ensures exists fd :: fd in s
  {
    assert (forall fd :: fd !in s) ==> s == {};
  }
}

/**
  The library's tables as values, and the invariant that ties them to the kernel. The
  history fields `wrap`, `probeOfd`, `backingOfd` and `Registry.ofd` record the description
  each descriptor was opened on, and `lent` the views that have had to give their number to the
  application, because they could not move; no decision of the code reads them.
*/
module SynthState {
  import opened DescriptorView
  import opened KernelState

  const SLOTS := 64
  const MAX_INTERNAL_FDS := 16

  /** tty is the index of the handler's state, or -1 for a handler without a backing descriptor. */
  datatype Entry = Entry(
    refcount: int,
    key: nat,
    installer: Identity,
    tty: int,
    probe: View,
    wrap: nat,
    probeOfd: nat)

  datatype Tty = Tty(claimed: bool, backing: View, backingOfd: nat)

  datatype Registry = Registry(fd: int, ofd: nat)

  datatype State = State(
    k: Kernel,
    table: seq<Entry>,
    ttys: seq<Tty>,
    registry: seq<Registry>,
    self: Identity,
    alive: set<Identity>,
    lent: set<Ref>)

  /** A place where the library remembers a descriptor number of its own. */
  datatype Ref = Probe(i: int) | Backing(i: int) | Registered(j: int)

  predicate Live(s: State, i: int) {
    0 <= i < |s.table| && s.table[i].refcount > 0
  }

  predicate IsRef(s: State, r: Ref) {
    match r
    case Probe(i) => Live(s, i)
    case Backing(i) => Live(s, i) && 0 <= s.table[i].tty < |s.ttys|
    case Registered(j) => 0 <= j < |s.registry|
  }

  /** The descriptor at fd is on no wrap. */
  predicate PlainFd(s: State, fd: int) {
    forall i :: 0 <= i < |s.table| && Live(s, i) ==> s.table[i].key != Ino(s.k, fd)
  }

  /** The number this process reads there, lent or not; negative when dead or when there is no such place. */
  function Raw(s: State, r: Ref): int {
    if !IsRef(s, r) then -3
    else
      match r
      case Probe(i) => LoadView(s.table[i].probe, s.table[i].installer, s.self)
      case Backing(i) => LoadView(s.ttys[s.table[i].tty].backing, s.table[i].installer, s.self)
      case Registered(j) => s.registry[j].fd
  }

  /** The number remembered there: one that is lent is not the library's for the time being. */
  function Number(s: State, r: Ref): int {
    if r in s.lent then -1 else Raw(s, r)
  }

  /** The description it was opened on. */
  function Original(s: State, r: Ref): nat {
    if !IsRef(s, r) then 0
    else
      match r
      case Probe(i) => s.table[i].probeOfd
      case Backing(i) => s.ttys[s.table[i].tty].backingOfd
      case Registered(j) => s.registry[j].ofd
  }

  ghost predicate Internal(s: State, n: int) {
    exists r :: Number(s, r) == n
  }

  /** Every internal number that is not marked dead still names its original description, close-on-exec. */
  ghost predicate Named(s: State) {
    forall r :: Number(s, r) >= 0 ==> Number(s, r) in s.k.fds && s.k.fds[Number(s, r)] == Desc(Original(s, r), true)
  }

  ghost predicate Distinct(s: State) {
    forall r, r' :: Number(s, r) >= 0 && Number(s, r) == Number(s, r') ==> r == r'
  }

  ghost predicate EntryOk(s: State, i: int)
    requires 0 <= i < |s.table|
  {
    var e := s.table[i];
    && e.refcount >= 0
    && (e.refcount > 0 ==>
          && InoOf(s.k, e.wrap) == e.key && InoOf(s.k, e.probeOfd) == e.key && e.wrap != e.probeOfd
          && Number(s, Probe(i)) >= -1
          && (Number(s, Probe(i)) >= 0 ==> e.wrap in s.k.locks)
          && (e.tty >= 0 ==> e.tty < |s.ttys| && s.ttys[e.tty].claimed && Number(s, Backing(i)) >= -1))
  }

  /** Live entries have different inodes and different handler states. */
  ghost predicate KeysDistinct(s: State) {
    forall i, j :: Live(s, i) && Live(s, j) && i != j ==>
      s.table[i].key != s.table[j].key && (s.table[i].tty >= 0 ==> s.table[i].tty != s.table[j].tty)
  }

  /** A backing descriptor, or a registered one, is never itself a wrap. */
  ghost predicate BackingsPlain(s: State) {
    forall r, i :: IsRef(s, r) && !r.Probe? && Raw(s, r) >= 0 && Live(s, i) ==>
      InoOf(s.k, Original(s, r)) != s.table[i].key
  }

  ghost predicate UniqueViews(s: State) {
    && (forall i :: 0 <= i < |s.table| ==> Unique(s.table[i].probe.slots))
    && (forall t :: 0 <= t < |s.ttys| ==> Unique(s.ttys[t].backing.slots))
  }

  /** Only a view that cannot move, because another process installed it and others took the slots, is ever lent. */
  ghost predicate Lendings(s: State) {
    && (forall r :: r in s.lent ==>
          && IsRef(s, r) && !RefRoom(s, r) && Raw(s, r) >= 0 && Original(s, r) in s.k.inode
          && (r.Probe? ==> s.table[r.i].wrap in s.k.locks))
    && (forall r, r' :: r in s.lent && IsRef(s, r') && !RefRoom(s, r') && Raw(s, r') == Raw(s, r) ==> r' == r)
  }

  ghost predicate Inv(s: State) {
    && WfKernel(s.k)
    && |s.table| == SLOTS && |s.ttys| == SLOTS && |s.registry| <= MAX_INTERNAL_FDS
    && s.self in s.alive
    && (forall i :: 0 <= i < |s.table| ==> EntryOk(s, i))
    && UniqueViews(s)
    && Named(s) && Distinct(s) && KeysDistinct(s) && BackingsPlain(s) && Lendings(s)
  }

  /** No dispatch is in flight: every live entry has exactly its producer's reference. */
  ghost predicate Quiet(s: State) {
    forall i :: Live(s, i) ==> s.table[i].refcount == 1
  }

  predicate RefRoom(s: State, r: Ref) {
    match r
    case Probe(i) => IsRef(s, r) ==> Room(s.table[i].probe, s.table[i].installer, s.self, s.alive)
    case Backing(i) => IsRef(s, r) ==> Room(s.ttys[s.table[i].tty].backing, s.table[i].installer, s.self, s.alive)
    case Registered(_) => true
  }

  /** The number n cannot be vacated: a view of this process is there, and no override slot is left to move it. */
  ghost predicate Stuck(s: State, n: int) {
    n >= 0 && exists r :: Number(s, r) == n && !RefRoom(s, r)
  }

  /** Room for a view does not go away, and a view without room stays where it is. */
  ghost predicate RoomStays(s: State, s': State) {
    && (forall r :: RefRoom(s, r) ==> RefRoom(s', r))
    && (forall r :: !RefRoom(s', r) ==> Number(s', r) == Number(s, r))
  }

  ghost predicate Valid(s: State) {
    Inv(s) && Quiet(s)
  }

  /** Everything about an entry except its views and its reference count. */
  ghost predicate SameEntry(e: Entry, e': Entry) {
    e'.key == e.key && e'.installer == e.installer && e'.tty == e.tty && e'.wrap == e.wrap && e'.probeOfd == e.probeOfd
  }

  ghost predicate SameShape(s: State, s': State) {
    && |s'.table| == |s.table| && |s'.ttys| == |s.ttys| && |s'.registry| == |s.registry|
    && s'.self == s.self && s'.alive == s.alive && s'.lent == s.lent
    && (forall i :: 0 <= i < |s.table| ==>
          SameEntry(s.table[i], s'.table[i]) && s'.table[i].refcount == s.table[i].refcount)
    && (forall t :: 0 <= t < |s.ttys| ==>
          s'.ttys[t].claimed == s.ttys[t].claimed && s'.ttys[t].backingOfd == s.ttys[t].backingOfd)
    && (forall j :: 0 <= j < |s.registry| ==> s'.registry[j].ofd == s.registry[j].ofd)
  }

  ghost predicate SameKernelButFds(k: Kernel, k': Kernel) {
    && k'.inode == k.inode && k'.locks == k.locks && k'.foreign == k.foreign && k'.limit == k.limit
    && k'.nextOfd == k.nextOfd && k'.nextInode == k.nextInode
    && k'.dup3Faults == k.dup3Faults && k'.dupFaults >= k.dupFaults
    && k'.openFaults == k.openFaults && k'.lockFaults == k.lockFaults
  }

  /** Every descriptor open before is open afterwards, on the same description with the same flag. */
  ghost predicate Extends(k: Kernel, k': Kernel) {
    forall fd :: fd in k.fds ==> fd in k'.fds && k'.fds[fd] == k.fds[fd]
  }

  /** n is the number F_DUPFD would choose: the lowest unused one from 3 up. */
  ghost predicate LeastFree(k: Kernel, n: int) {
    n >= 3 && n !in k.fds && forall m :: 3 <= m < n ==> m in k.fds
  }

  /**
    What moving internal descriptors off `target` may do: descriptors are only added, each
    added one is an internal number, and an internal number changes only by leaving `target`,
    if it has room, for the lowest unused number or, when the duplication fails, for a dead mark.
  */
  ghost predicate Shifted(s: State, s': State, target: int) {
    && SameShape(s, s')
    && SameKernelButFds(s.k, s'.k)
    && Extends(s.k, s'.k)
    && (forall fd :: fd in s'.k.fds && fd !in s.k.fds ==> Internal(s', fd))
    && (forall r :: Number(s', r) != Number(s, r) ==>
          && Number(s, r) == target
          && (Number(s', r) < 0 ==> s.k.dupFaults < s'.k.dupFaults)
          && (Number(s', r) >= 0 ==> target >= 0 && LeastFree(s.k, Number(s', r)))
          && RefRoom(s, r))
    && (forall r :: RefRoom(s', r) == RefRoom(s, r))
    && (forall i :: Live(s, i) ==> EntryIsolated(s, s', i))
    && LentStay(s, s')
  }

  /** What other processes see of the views of entry i is as before. */
  ghost predicate EntryIsolated(s: State, s': State, i: int) {
    0 <= i < |s.table| && i < |s'.table| ==>
      var (e, e') := (s.table[i], s'.table[i]);
      && Isolated(e.probe, e'.probe, e.installer, s.self, s.alive)
      && (0 <= e.tty < |s.ttys| && e.tty < |s'.ttys| ==>
            Isolated(s.ttys[e.tty].backing, s'.ttys[e.tty].backing, e.installer, s.self, s.alive))
  }

  /** That is so of every entry that is still there. */
  ghost predicate Undisturbed(s: State, s': State) {
    forall i :: Kept(s, s', i) ==> EntryIsolated(s, s', i)
  }

  /** The same views are lent, at the same numbers. */
  ghost predicate LentStay(s: State, s': State) {
    s'.lent == s.lent && forall r :: r in s.lent ==> Raw(s', r) == Raw(s, r)
  }

  /** Entry i is still the same live entry, on the same backing. */
  ghost predicate Kept(s: State, s': State, i: int) {
    && Live(s, i) && Live(s', i) && SameEntry(s.table[i], s'.table[i])
    && Original(s', Backing(i)) == Original(s, Backing(i))
  }

  /** Every live entry was there before, with the same number of references. */
  ghost predicate NoNewEntries(s: State, s': State) {
    forall i :: Live(s', i) ==> Kept(s, s', i) && s'.table[i].refcount == s.table[i].refcount
  }

  /** A handler state is claimed as before, unless the entry it belonged to is gone. */
  ghost predicate ClaimsFollow(s: State, s': State) {
    && |s'.ttys| == |s.ttys|
    && (forall t :: 0 <= t < |s.ttys| ==>
          (s'.ttys[t].claimed <==> s.ttys[t].claimed && forall i :: Live(s, i) && s.table[i].tty == t ==> Live(s', i)))
  }

  /**
    Internal descriptors stay on their original descriptions, at the numbers they had except
    those that the caller took; no lock is dropped, and only probes take one.
  */
  ghost predicate Steady(s: State, s': State, touched: set<int>) {
    && |s'.registry| == |s.registry| && ClaimsFollow(s, s')
    && FaultsGrow(s.k, s'.k)
    && s'.k.inode == s.k.inode && s'.k.nextInode == s.k.nextInode
    && (forall o :: o in s.k.locks ==> o in s'.k.locks)
    && (forall o :: o in s'.k.locks ==> o in s.k.locks || exists i :: Live(s, i) && s.table[i].probeOfd == o)
    && (forall r :: IsRef(s', r) ==>
          && Original(s', r) == Original(s, r) && RefRoom(s', r) == RefRoom(s, r)
          && (Number(s, r) !in touched ==> Number(s', r) == Number(s, r)))
    && (s'.k.dupFaults == s.k.dupFaults ==>
          forall r :: IsRef(s', r) && Number(s', r) < 0 ==> Number(s', r) == Number(s, r))
  }

  /**
    Only the entry whose inode `target` was on can go, and only if its lock is free system-wide
    or no local descriptor is left on its inode.
  */
  ghost predicate ReleasedForCause(s: State, s': State, target: int) {
    forall i :: Live(s, i) && !Live(s', i) ==>
      && s.table[i].key == Ino(s.k, target)
      && ((Number(s, Probe(i)) >= 0 && !Contested(s'.k, s.table[i].probeOfd)) || !OtherOn(s'.k, -1, s.table[i].key))
  }

  /**
    What a call made by the application may do beyond the numbers it names: descriptors that
    are not internal stay as they are and stay outside the library's bookkeeping, descriptors
    that appear are internal, and an entry goes only if this process installed it and has no
    descriptor left on its wrap.
  */
  ghost predicate Effect(s: State, s': State, touched: set<int>) {
    && s'.self == s.self && s'.alive == s.alive && s'.k.foreign == s.k.foreign && s'.k.limit == s.k.limit
    && (forall n :: n in s.k.fds && n !in touched && !Internal(s, n) ==>
          n in s'.k.fds && s'.k.fds[n] == s.k.fds[n] && !Internal(s', n))
    && (forall n :: n in s'.k.fds && n !in s.k.fds && n !in touched ==> Internal(s', n))
    && (forall n :: n in s.k.fds && n in s'.k.fds && n !in touched && Internal(s, n) ==> Internal(s', n))
    && (forall o :: o in s.k.inode && HeldHere(s'.k, o) ==> HeldHere(s.k, o))
    && (forall o :: o in s.k.inode ==> InoOf(s'.k, o) == InoOf(s.k, o))
    && (forall i :: Live(s, i) && !Kept(s, s', i) ==>
          s.table[i].installer == s.self && !HeldHere(s'.k, s.table[i].wrap))
    && RoomStays(s, s') && LentStay(s, s') && FaultsGrow(s.k, s'.k)
  }

  /**
    Where the tables of s' come from: the registry only grows, up to the numbers, and an entry of s'
    was already in s, on the same descriptions, or is on an inode that did not exist then. Of those
    that were there other processes see what they saw.
  */
  ghost predicate Lineage(s: State, s': State) {
    && |s'.registry| >= |s.registry| && (forall j :: 0 <= j < |s.registry| ==> s'.registry[j].ofd == s.registry[j].ofd)
    && s.k.nextInode <= s'.k.nextInode
    && (forall i :: Live(s', i) ==> Kept(s, s', i) || s'.table[i].key >= s.k.nextInode)
    && Undisturbed(s, s')
  }

  /** The effect of a close-like call on `target`. */
  ghost predicate CallEffect(s: State, s': State, target: int) {
    && Effect(s, s', {target}) && NoNewEntries(s, s') && Steady(s, s', {target}) && ReleasedForCause(s, s', target)
    && Undisturbed(s, s')
  }
}
