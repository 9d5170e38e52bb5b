/**
  Copy-on-write descriptor views.

  A view is one descriptor number kept in memory that several processes may share
  (a vfork child, or a clone with CLONE_VM, runs on its parent's memory). The process
  that installed it reads and writes the base value. Every other process claims one of
  a few override slots, under its own identity, and diverges there. Identities are
  never recycled within a run, and a liveness oracle says which processes still exist.
*/
module DescriptorView {

  /** A process: pid and start time together, so a recycled pid is a different process. */
  datatype Identity = Identity(pid: nat, starttime: nat)

  /** A slot: pid 0 (Free), pid -1 (Reserved by a claimant), or published with its payload. */
  datatype Override = Free | Reserved | Owned(id: Identity, fd: int)

  datatype View = View(base: int, slots: seq<Override>)

  predicate IsOwn(o: Override, id: Identity) {
    o.Owned? && o.id == id
  }

  predicate IsStale(o: Override, alive: set<Identity>) {
    o.Owned? && o.id !in alive
  }

  /** No two slots carry the same identity. */
  ghost predicate Unique(slots: seq<Override>) {
    forall i, j :: 0 <= i < j < |slots| && slots[i].Owned? && slots[j].Owned? ==> slots[i].id != slots[j].id
  }

  /** The first slot of an identity, or -1. */
  function FindOwn(slots: seq<Override>, id: Identity): (r: int)
    ensures -1 <= r < |slots|
    ensures r >= 0 ==> IsOwn(slots[r], id)
    ensures forall i :: 0 <= i < (if r < 0 then |slots| else r) ==> !IsOwn(slots[i], id)
  {
    if slots == [] then -1
    else
      var n := |slots| - 1;
      var r := FindOwn(slots[..n], id);
      if r >= 0 then r else if IsOwn(slots[n], id) then n else -1
  }

  /** The first free slot, or -1. */
  function FindFree(slots: seq<Override>): (r: int)
    ensures -1 <= r < |slots|
    ensures r >= 0 ==> slots[r] == Free
    ensures forall i :: 0 <= i < (if r < 0 then |slots| else r) ==> slots[i] != Free
  {
    if slots == [] then -1
    else
      var n := |slots| - 1;
      var r := FindFree(slots[..n]);
      if r >= 0 then r else if slots[n] == Free then n else -1
  }

  /** The slots after the sweep that every acquire starts with: those of dead processes are freed. */
  function Swept(slots: seq<Override>, alive: set<Identity>): (r: seq<Override>)
    ensures |r| == |slots|
    ensures forall i :: 0 <= i < |slots| ==> r[i] == if IsStale(slots[i], alive) then Free else slots[i]
  {
    seq(|slots|, i requires 0 <= i < |slots| => if IsStale(slots[i], alive) then Free else slots[i])
  }

  /** The slots and the index after an acquire; the index is -1 when the slots are exhausted. */
  function Acquired(slots: seq<Override>, id: Identity, alive: set<Identity>, initial: int): (r: (seq<Override>, int))
    ensures |r.0| == |slots| && -1 <= r.1 < |slots|
  {
    var swept := Swept(slots, alive);
    var own := FindOwn(swept, id);
    var free := FindFree(swept);
    if own >= 0 then (swept, own)
    else if free >= 0 then (swept[free := Owned(id, initial)], free)
    else (swept, -1)
  }

  function LoadView(v: View, installer: Identity, id: Identity): int {
    if id == installer then v.base
    else
      var s := FindOwn(v.slots, id);
      if s >= 0 then v.slots[s].fd else v.base
  }

  function StoreView(v: View, installer: Identity, id: Identity, alive: set<Identity>, fd: int): View {
    if id == installer then v.(base := fd)
    else
      var (slots, s) := Acquired(v.slots, id, alive, fd);
      if s < 0 then v.(slots := slots) else v.(slots := slots[s := Owned(id, fd)])
  }

  function CasView(v: View, installer: Identity, id: Identity, alive: set<Identity>, expected: int, desired: int)
    : (r: (View, bool))
  {
    if id == installer then
      if v.base == expected then (v.(base := desired), true) else (v, false)
    else
      var (slots, s) := Acquired(v.slots, id, alive, expected);
      if s < 0 then (v.(slots := slots), false)
      else if slots[s].fd == expected then (v.(slots := slots[s := Owned(id, desired)]), true)
      else (v.(slots := slots), false)
  }

  /** What a process needs so that its next store or transition is not dropped. */
  predicate Room(v: View, installer: Identity, id: Identity, alive: set<Identity>) {
    id == installer
    || exists i :: 0 <= i < |v.slots| && (IsOwn(v.slots[i], id) || v.slots[i] == Free || IsStale(v.slots[i], alive))
  }

  // ---------------------------------------------------------------- one operation

  lemma OwnSlotIs(slots: seq<Override>, id: Identity, k: int)
    requires Unique(slots) && 0 <= k < |slots| && IsOwn(slots[k], id)
    ensures FindOwn(slots, id) == k
  {
  }

  /** An acquire leaves at most one slot per identity and touches no slot of another live process. */
  lemma AcquireKeepsOthers(slots: seq<Override>, id: Identity, alive: set<Identity>, initial: int)
    requires Unique(slots) && id in alive
    ensures var (r, s) := Acquired(slots, id, alive, initial);
            && Unique(r)
            && (s >= 0 ==> IsOwn(r[s], id))
            && (forall i :: 0 <= i < |slots| && slots[i].Owned? && slots[i].id in alive ==> r[i] == slots[i])
            && (forall i :: 0 <= i < |r| && r[i].Owned? && r[i].id != id ==> r[i] == slots[i])
            && (s < 0 ==> forall i :: 0 <= i < |slots| ==>
                  !(IsOwn(slots[i], id) || slots[i] == Free || IsStale(slots[i], alive)))
  {
  }

  /** A store is what its process next loads if and only if there was room, or it stored what it already saw. */
  lemma StoreIsLoadedIffRoom(v: View, installer: Identity, id: Identity, alive: set<Identity>, fd: int)
    requires Unique(v.slots) && id in alive
    ensures var v' := StoreView(v, installer, id, alive, fd);
            && Unique(v'.slots)
            && (LoadView(v', installer, id) == fd <==>
                  Room(v, installer, id, alive) || LoadView(v, installer, id) == fd)
            && (Room(v, installer, id, alive) ==> Room(v', installer, id, alive))
  {
    if id != installer {
      AcquireKeepsOthers(v.slots, id, alive, fd);
      var (slots, s) := Acquired(v.slots, id, alive, fd);
      if s >= 0 {
        var slots' := slots[s := Owned(id, fd)];
        OwnSlotIs(slots', id, s);
        assert IsOwn(slots'[s], id);
        RoomFromSlot(v, installer, id, alive, slots, s, fd);
      } else {
        assert FindOwn(slots, id) < 0;
      }
    }
  }

  /** Without room a transition changes nothing at all. */
  lemma CasWithoutRoom(v: View, installer: Identity, id: Identity, alive: set<Identity>, expected: int, desired: int)
    requires !Room(v, installer, id, alive)
    ensures CasView(v, installer, id, alive, expected, desired) == (v, false)
  {
    assert Swept(v.slots, alive) == v.slots;
  }

  lemma RoomFromSlot(v: View, installer: Identity, id: Identity, alive: set<Identity>, slots: seq<Override>, s: int,
                     initial: int)
    requires id != installer && (slots, s) == Acquired(v.slots, id, alive, initial) && s >= 0
    ensures Room(v, installer, id, alive)
  {
  }

  /**
    A transition off the loaded value succeeds if and only if there is room; without room
    the view does not move, and the process goes on reading the value it wanted to leave.
  */
  lemma CasMovesIffRoom(v: View, installer: Identity, id: Identity, alive: set<Identity>, desired: int)
    requires Unique(v.slots) && id in alive
    ensures var old_fd := LoadView(v, installer, id);
            var (v', moved) := CasView(v, installer, id, alive, old_fd, desired);
            && Unique(v'.slots)
            && (moved <==> Room(v, installer, id, alive))
            && LoadView(v', installer, id) == (if moved then desired else old_fd)
            && (Room(v', installer, id, alive) <==> Room(v, installer, id, alive))
  {
    var old_fd := LoadView(v, installer, id);
    if id != installer {
      AcquireKeepsOthers(v.slots, id, alive, old_fd);
      var (slots, s) := Acquired(v.slots, id, alive, old_fd);
      if s >= 0 {
        var swept := Swept(v.slots, alive);
        var own := FindOwn(v.slots, id);
        if own >= 0 {
          assert IsOwn(swept[own], id);
          OwnSlotIs(slots, id, own);
          OwnSlotIs(slots, id, s);
        }
        assert slots[s].fd == old_fd;
        var slots' := slots[s := Owned(id, desired)];
        OwnSlotIs(slots', id, s);
        assert IsOwn(slots'[s], id);
        RoomFromSlot(v, installer, id, alive, slots, s, old_fd);
      } else {
        assert FindOwn(slots, id) < 0;
        assert slots == v.slots;
      }
    }
  }

  // ---------------------------------------------------------------- what other processes see

  /**
    From v to v' only what is self's has changed: the base if self is the installer, else a slot that
    was its own, free or a dead process's.
  */
  ghost predicate Isolated(v: View, v': View, installer: Identity, self: Identity, alive: set<Identity>) {
    && |v'.slots| == |v.slots|
    && (self != installer ==> v'.base == v.base)
    && (forall i :: 0 <= i < |v.slots| && v.slots[i].Owned? && v.slots[i].id != self && v.slots[i].id in alive ==>
          v'.slots[i] == v.slots[i])
    && (forall i :: 0 <= i < |v.slots| && v'.slots[i].Owned? && v'.slots[i].id != self ==> v'.slots[i] == v.slots[i])
  }

  /** A transition is isolated, whether it is made or not. */
  lemma CasIsolates(v: View, installer: Identity, id: Identity, alive: set<Identity>, expected: int, desired: int)
    requires Unique(v.slots) && id in alive
    ensures Isolated(v, CasView(v, installer, id, alive, expected, desired).0, installer, id, alive)
  {
    if id != installer {
      AcquireKeepsOthers(v.slots, id, alive, expected);
    }
  }

  /**
    Then every other living process loads what it loaded, if it is the installer, or has a slot, or if
    self is not the installer.
  */
  lemma OthersLoadTheSame(v: View, v': View, installer: Identity, self: Identity, alive: set<Identity>, x: Identity)
    requires Isolated(v, v', installer, self, alive) && Unique(v.slots) && Unique(v'.slots)
    requires x != self && x in alive && (self != installer || FindOwn(v.slots, x) >= 0)
    ensures LoadView(v', installer, x) == LoadView(v, installer, x)
  {
    if x != installer && FindOwn(v.slots, x) >= 0 {
      SameSlotLoadsSame(v, v', installer, x);
    } else {
      var k := FindOwn(v'.slots, x);
      assert k >= 0 ==> v'.slots[k] == v.slots[k];
    }
  }

  // ---------------------------------------------------------------- whole runs

  /** One operation by one process, under the liveness the kernel reports at that moment. */
  datatype Op =
    | Load(id: Identity, alive: set<Identity>)
    | Store(id: Identity, alive: set<Identity>, fd: int)
    | Cas(id: Identity, alive: set<Identity>, expected: int, desired: int)

  function Apply(v: View, installer: Identity, op: Op): View {
    match op
    case Load(_, _) => v
    case Store(id, alive, fd) => StoreView(v, installer, id, alive, fd)
    case Cas(id, alive, expected, desired) => CasView(v, installer, id, alive, expected, desired).0
  }

  function Run(v: View, installer: Identity, ops: seq<Op>): View
    decreases |ops|
  {
    if ops == [] then v else Run(Apply(v, installer, ops[0]), installer, ops[1..])
  }

  /** Processes act only while they are alive. */
  ghost predicate Sane(ops: seq<Op>) {
    forall i :: 0 <= i < |ops| ==> ops[i].id in ops[i].alive
  }

  /** None of the operations is by id, and id is alive throughout. */
  ghost predicate Others(ops: seq<Op>, id: Identity) {
    forall i :: 0 <= i < |ops| ==> ops[i].id != id && id in ops[i].alive
  }

  /** A process whose slot did not change loads what it loaded. */
  lemma SameSlotLoadsSame(v: View, v': View, installer: Identity, id: Identity)
    requires Unique(v'.slots) && id != installer && FindOwn(v.slots, id) >= 0
    requires |v'.slots| == |v.slots| && v'.slots[FindOwn(v.slots, id)] == v.slots[FindOwn(v.slots, id)]
    ensures LoadView(v', installer, id) == LoadView(v, installer, id) && FindOwn(v'.slots, id) >= 0
  {
    OwnSlotIs(v'.slots, id, FindOwn(v.slots, id));
  }

  /** What an operation leaves is what its acquire left, up to the fd in the process's own slot. */
  lemma ApplyIsAcquire(v: View, installer: Identity, op: Op)
    requires Unique(v.slots) && op.id in op.alive && op.id != installer && !op.Load?
    ensures var (slots, s) := Acquired(v.slots, op.id, op.alive, if op.Store? then op.fd else op.expected);
            var r := Apply(v, installer, op).slots;
            && |r| == |slots| && Unique(r)
            && (forall i :: 0 <= i < |r| ==>
                  r[i] == slots[i] || (i == s && IsOwn(slots[i], op.id) && IsOwn(r[i], op.id)))
  {
    AcquireKeepsOthers(v.slots, op.id, op.alive, if op.Store? then op.fd else op.expected);
  }

  lemma ApplyKeeps(v: View, installer: Identity, op: Op, id: Identity)
    requires Unique(v.slots) && op.id in op.alive
    ensures Unique(Apply(v, installer, op).slots)
    ensures op.id != id && id in op.alive && (id == installer || FindOwn(v.slots, id) >= 0) ==>
              && LoadView(Apply(v, installer, op), installer, id) == LoadView(v, installer, id)
              && (id != installer ==> FindOwn(Apply(v, installer, op).slots, id) >= 0)
  {
    if !op.Load? && op.id != installer {
      ApplyIsAcquire(v, installer, op);
      AcquireKeepsOthers(v.slots, op.id, op.alive, if op.Store? then op.fd else op.expected);
      if op.id != id && id in op.alive && id != installer && FindOwn(v.slots, id) >= 0 {
        SameSlotLoadsSame(v, Apply(v, installer, op), installer, id);
      }
    }
  }

  /** At most one slot per identity, over every run. */
  lemma {:induction false} RunKeepsUnique(v: View, installer: Identity, ops: seq<Op>)
    requires Unique(v.slots) && Sane(ops)
    ensures Unique(Run(v, installer, ops).slots)
    decreases |ops|
  {
    if ops != [] {
      ApplyKeeps(v, installer, ops[0], ops[0].id);
      RunKeepsUnique(Apply(v, installer, ops[0]), installer, ops[1..]);
    }
  }

  /**
    The installer, and any process that owns a slot, see nothing of what other processes do:
    over every run of loads, stores and transitions by any number of other processes the
    view they load stays the same.
  */
  lemma {:induction false} RunIsolates(v: View, installer: Identity, ops: seq<Op>, id: Identity)
    requires Unique(v.slots) && Sane(ops) && Others(ops, id)
    requires id == installer || FindOwn(v.slots, id) >= 0
    ensures LoadView(Run(v, installer, ops), installer, id) == LoadView(v, installer, id)
    decreases |ops|
  {
    if ops != [] {
      ApplyKeeps(v, installer, ops[0], id);
      RunIsolates(Apply(v, installer, ops[0]), installer, ops[1..], id);
    }
  }

  /** A store that had room is what its process next loads, whatever the others do in between. */
  lemma StoreSurvivesOthers(v: View, installer: Identity, id: Identity, alive: set<Identity>, fd: int, ops: seq<Op>)
    requires Unique(v.slots) && id in alive && Sane(ops) && Others(ops, id)
    requires Room(v, installer, id, alive)
    ensures LoadView(Run(StoreView(v, installer, id, alive, fd), installer, ops), installer, id) == fd
  {
    var v' := StoreView(v, installer, id, alive, fd);
    StoreIsLoadedIffRoom(v, installer, id, alive, fd);
    if id != installer {
      AcquireKeepsOthers(v.slots, id, alive, fd);
      var (slots, s) := Acquired(v.slots, id, alive, fd);
      var i :| 0 <= i < |v.slots| && (IsOwn(v.slots[i], id) || v.slots[i] == Free || IsStale(v.slots[i], alive));
      assert IsOwn(v'.slots[s], id);
      OwnSlotIs(v'.slots, id, s);
    }
    RunIsolates(v', installer, ops, id);
  }

  // ---------------------------------------------------------------- the code

  /** The base value and the slot array as they sit in memory, with the loops that walk them. */
  class ViewCell {
    var base: int
    const slots: array<Override>
    const installer: Identity

    ghost function Value(): View
      reads this, slots
    {
      View(base, slots[..])
    }

    constructor (n: nat, fd: int, id: Identity)
      ensures fresh(slots) && slots.Length == n && installer == id
      ensures Value().base == fd && forall i :: 0 <= i < n ==> Value().slots[i] == Free
    {
      base := fd;
      installer := id;
      slots := new Override[n](_ => Free);
    }

    /** A cell that holds a given view. */
    constructor Holding(v: View, id: Identity)
      ensures fresh(slots) && installer == id && Value() == v
    {
      base := v.base;
      installer := id;
      slots := new Override[|v.slots|](i requires 0 <= i < |v.slots| => v.slots[i]);
      new;
      assert slots[..] == v.slots;
    }

    method Gc(alive: set<Identity>)
      modifies slots
      ensures slots[..] == Swept(old(slots[..]), alive)
    {
      ghost var was := slots[..];
      var i := 0;
      while i < slots.Length
        invariant 0 <= i <= slots.Length
        invariant forall j :: 0 <= j < i ==> slots[j] == Swept(was, alive)[j]
        invariant forall j :: i <= j < slots.Length ==> slots[j] == was[j]
      {
        if slots[i].Owned? && slots[i].id !in alive {
          slots[i] := Free;
        }
        i := i + 1;
      }
      assert slots[..] == Swept(was, alive);
    }

    method Get(id: Identity) returns (s: int)
      ensures s == FindOwn(slots[..], id)
    {
      s := 0;
      while s < slots.Length
        invariant 0 <= s <= slots.Length
        invariant forall j :: 0 <= j < s ==> !IsOwn(slots[j], id)
      {
        if IsOwn(slots[s], id) {
          FoundAt(slots[..], id, s);
          return;
        }
        s := s + 1;
      }
      assert FindOwn(slots[..], id) < 0;
      s := -1;
    }

    method Acquire(id: Identity, alive: set<Identity>, initial: int) returns (s: int)
      modifies slots
      ensures (slots[..], s) == Acquired(old(slots[..]), id, alive, initial)
    {
      Gc(alive);
      s := Get(id);
      if s >= 0 {
        return;
      }
      s := 0;
      while s < slots.Length
        invariant 0 <= s <= slots.Length
        invariant slots[..] == Swept(old(slots[..]), alive)
        invariant forall j :: 0 <= j < s ==> slots[j] != Free
      {
        if slots[s] == Free {
          FreeAt(slots[..], s);
          slots[s] := Owned(id, initial);
          return;
        }
        s := s + 1;
      }
      assert FindFree(slots[..]) < 0;
      s := -1;
    }

    method LoadFd(id: Identity) returns (fd: int)
      ensures fd == LoadView(Value(), installer, id)
    {
      if id == installer {
        return base;
      }
      var s := Get(id);
      if s >= 0 {
        return slots[s].fd;
      }
      fd := base;
    }

    method StoreFd(id: Identity, alive: set<Identity>, fd: int)
      requires id in alive && Unique(slots[..])
      modifies this, slots
      ensures Value() == StoreView(old(Value()), installer, id, alive, fd)
      ensures Unique(slots[..])
    {
      StoreIsLoadedIffRoom(Value(), installer, id, alive, fd);
      if id == installer {
        base := fd;
        return;
      }
      var s := Acquire(id, alive, fd);
      if s < 0 {
        return;
      }
      slots[s] := Owned(id, fd);
    }

    method CasFd(id: Identity, alive: set<Identity>, expected: int, desired: int) returns (moved: bool)
      requires id in alive && Unique(slots[..])
      modifies this, slots
      ensures (Value(), moved) == CasView(old(Value()), installer, id, alive, expected, desired)
      ensures Unique(slots[..])
    {
      AcquireKeepsOthers(slots[..], id, alive, expected);
      if id == installer {
        moved := base == expected;
        if moved {
          base := desired;
        }
        return;
      }
      var s := Acquire(id, alive, expected);
      if s < 0 {
        return false;
      }
      moved := slots[s].fd == expected;
      if moved {
        slots[s] := Owned(id, desired);
      }
    }
  }

  /** A store, done by the code on the cell. */
  method Stored(v: View, installer: Identity, id: Identity, alive: set<Identity>, fd: int) returns (v': View)
    requires id in alive && Unique(v.slots)
    ensures v' == StoreView(v, installer, id, alive, fd)
  {
    var cell := new ViewCell.Holding(v, installer);
    cell.StoreFd(id, alive, fd);
    v' := View(cell.base, cell.slots[..]);
  }

  /** A compare-and-swap, done by the code on the cell. */
  method Swapped(v: View, installer: Identity, id: Identity, alive: set<Identity>, expected: int, desired: int)
    returns (v': View, moved: bool)
    requires id in alive && Unique(v.slots)
    ensures (v', moved) == CasView(v, installer, id, alive, expected, desired)
  {
    var cell := new ViewCell.Holding(v, installer);
    moved := cell.CasFd(id, alive, expected, desired);
    v' := View(cell.base, cell.slots[..]);
  }

  lemma FoundAt(slots: seq<Override>, id: Identity, k: int)
    requires 0 <= k < |slots| && IsOwn(slots[k], id)
    requires forall i :: 0 <= i < k ==> !IsOwn(slots[i], id)
    ensures FindOwn(slots, id) == k
  {
  }

  lemma FreeAt(slots: seq<Override>, k: int)
    requires 0 <= k < |slots| && slots[k] == Free
    requires forall i :: 0 <= i < k ==> slots[i] != Free
    ensures FindFree(slots) == k
  {
  }
}
