/**
  The override slots of one descriptor view under true concurrency: threads of any number of
  processes share the memory, and every atomic load, compare-and-swap or store is one step.
  A process may die between any two of its steps, even inside the lock. Identities are not
  recycled: no two processes of a run have the same pid.
*/
module OverrideProtocol {
  import opened DescriptorView

  /** pid 0 is free, -1 reserved, positive published. */
  datatype Cell = Cell(pid: int, starttime: nat, fd: int)

  /** Why a slot is acquired: to store a value, or to move the view from one value to another. */
  datatype Goal = Put(fd: int) | Move(from: int, to: int)

  datatype Use = Read | Relocate(target: int)

  datatype Pc =
    | Idle
    // view_fd_load
    | LoadPid(i: nat, use: Use) | LoadTime(i: nat, use: Use) | LoadFd(i: nat, use: Use) | LoadBase(use: Use)
    // view_fd_relocate
    | Dup(target: int) | CloseLoser(fd: int)
    // the installer's store and compare-and-swap
    | OnBase(goal: Goal)
    // override_gc
    | GcPid(i: nat, goal: Goal) | GcTime(i: nat, p: int, goal: Goal)
    | GcTest(i: nat, p: int, seen: nat, goal: Goal) | GcCas(i: nat, p: int, goal: Goal)
    // override_acquire_pid
    | TakeLock(goal: Goal)
    | FindPid(i: nat, goal: Goal) | FindTime(i: nat, goal: Goal)
    | Claim(i: nat, goal: Goal)
    | WriteTime(i: nat, goal: Goal) | WriteFd(i: nat, goal: Goal) | PublishPid(i: nat, goal: Goal)
    | DropLock(slot: int, goal: Goal)
    // the store or compare-and-swap on the acquired slot
    | OnSlot(i: nat, goal: Goal)

  datatype Thread = Thread(id: Identity, pc: Pc)

  /** A successful transition of some process's view. */
  datatype Moved = Moved(id: Identity, from: int, to: int)

  /** A value that some process's load returned. */
  datatype Loaded = Loaded(id: Identity, fd: int)

  datatype State = State(
    ids: set<Identity>, alive: set<Identity>, installer: Identity,
    base: int, cells: seq<Cell>, lock: bool,
    tables: map<Identity, map<int, int>>,
    threads: seq<Thread>, moves: seq<Moved>, loads: seq<Loaded>)

  datatype Action =
    | BeginLoad | BeginStore(fd: int) | BeginRelocate(target: int)
    | Application(fds: map<int, int>)
    | Die
    | Advance(n: int)

  // ---------------------------------------------------------------- steps

  ghost predicate Shape(s: State) {
    && s.alive <= s.ids && s.tables.Keys == s.ids
    && (forall x :: x in s.ids ==> x.pid > 0)
    && (forall x, y :: x in s.ids && y in s.ids && x.pid == y.pid ==> x == y)
    && (forall t :: 0 <= t < |s.threads| ==> s.threads[t].id in s.ids)
  }

  predicate PcOk(pc: Pc, n: nat) {
    match pc
    case LoadTime(i, _) => i < n
    case LoadFd(i, _) => i < n
    case GcTime(i, p, _) => i < n && p > 0
    case GcTest(i, p, _, _) => i < n && p > 0
    case GcCas(i, p, _) => i < n && p > 0
    case FindTime(i, _) => i < n
    case WriteTime(i, _) => i < n
    case WriteFd(i, _) => i < n
    case PublishPid(i, _) => i < n
    case DropLock(slot, _) => -1 <= slot < n
    case OnSlot(i, _) => i < n
    case _ => true
  }

  ghost predicate Ready(s: State, t: nat) {
    Shape(s) && t < |s.threads| && PcOk(s.threads[t].pc, |s.cells|)
  }

  /** Only threads of living processes step; the kernel picks the number a dup returns, or fails it. */
  predicate Enabled(s: State, t: nat, a: Action) {
    && t < |s.threads| && s.threads[t].id in s.alive && s.threads[t].id in s.tables
    && match a
       case Advance(n) =>
         !s.threads[t].pc.Idle? && (s.threads[t].pc.Dup? ==> n == -1 || (n >= 3 && n !in s.tables[s.threads[t].id]))
       case Die => true
       case _ => s.threads[t].pc.Idle?
  }

  /** What a step does to the shared memory, or to its process's descriptor table. */
  datatype Effect = Nothing | SetCell(i: nat, c: Cell) | SetBase(v: int) | SetLock(b: bool) | SetFds(fds: map<int, int>)

  datatype Next = Next(effect: Effect, pc: Pc)

  function AfterLoad(use: Use, v: int): Pc {
    if use.Relocate? && use.target == v then Dup(v) else Idle
  }

  /** A transition or a store starts on the base, or with the sweep that acquiring a slot begins with. */
  function Start(installer: bool, goal: Goal): Pc {
    if installer then OnBase(goal) else GcPid(0, goal)
  }

  function Initial(goal: Goal): int { if goal.Put? then goal.fd else goal.from }

  /** A transition that was not made gives its duplicate back. */
  function Lost(goal: Goal): Pc {
    if goal.Move? && goal.to >= 0 then CloseLoser(goal.to) else Idle
  }

  /** The step a thread of process id takes at pc; n is the kernel's choice for a dup. */
  function Do(s: State, id: Identity, pc: Pc, n: int): Next
    requires PcOk(pc, |s.cells|) && id in s.tables
  {
    var (cells, fds, size, onBase) := (s.cells, s.tables[id], |s.cells|, id == s.installer);
    match pc
    case Idle => Next(Nothing, Idle)
    case LoadPid(i, use) =>
      Next(Nothing, if i >= size then LoadBase(use)
                    else if cells[i].pid == id.pid then LoadTime(i, use) else LoadPid(i + 1, use))
    case LoadTime(i, use) =>
      Next(Nothing, if cells[i].starttime == id.starttime then LoadFd(i, use) else LoadPid(i + 1, use))
    case LoadFd(i, use) => Next(Nothing, AfterLoad(use, cells[i].fd))
    case LoadBase(use) => Next(Nothing, AfterLoad(use, s.base))
    case Dup(target) =>
      if n >= 0 && target in fds then Next(SetFds(fds[n := fds[target]]), Start(onBase, Move(target, n)))
      else Next(Nothing, Start(onBase, Move(target, -1)))
    case CloseLoser(fd) => Next(SetFds(fds - {fd}), Idle)
    case OnBase(goal) =>
      if goal.Put? then Next(SetBase(goal.fd), Idle)
      else if s.base == goal.from then Next(SetBase(goal.to), Idle)
      else Next(Nothing, Lost(goal))
    case GcPid(i, goal) =>
      Next(Nothing, if i >= size then TakeLock(goal)
                    else if cells[i].pid <= 0 then GcPid(i + 1, goal) else GcTime(i, cells[i].pid, goal))
    case GcTime(i, p, goal) => Next(Nothing, GcTest(i, p, cells[i].starttime, goal))
    case GcTest(i, p, seen, goal) =>
      Next(Nothing, if Identity(p, seen) in s.alive then GcPid(i + 1, goal) else GcCas(i, p, goal))
    case GcCas(i, p, goal) =>
      Next(if cells[i].pid == p then SetCell(i, cells[i].(pid := 0)) else Nothing, GcPid(i + 1, goal))
    case TakeLock(goal) => if s.lock then Next(Nothing, pc) else Next(SetLock(true), FindPid(0, goal))
    case FindPid(i, goal) =>
      Next(Nothing, if i >= size then Claim(0, goal)
                    else if cells[i].pid == id.pid then FindTime(i, goal) else FindPid(i + 1, goal))
    case FindTime(i, goal) =>
      Next(Nothing, if cells[i].starttime == id.starttime then DropLock(i, goal) else FindPid(i + 1, goal))
    case Claim(i, goal) =>
      if i >= size then Next(Nothing, DropLock(-1, goal))
      else if cells[i].pid == 0 then Next(SetCell(i, cells[i].(pid := -1)), WriteTime(i, goal))
      else Next(Nothing, Claim(i + 1, goal))
    case WriteTime(i, goal) => Next(SetCell(i, cells[i].(starttime := id.starttime)), WriteFd(i, goal))
    case WriteFd(i, goal) => Next(SetCell(i, cells[i].(fd := Initial(goal))), PublishPid(i, goal))
    case PublishPid(i, goal) => Next(SetCell(i, cells[i].(pid := id.pid)), DropLock(i, goal))
    case DropLock(slot, goal) => Next(SetLock(false), if slot < 0 then Lost(goal) else OnSlot(slot, goal))
    case OnSlot(i, goal) =>
      if goal.Put? then Next(SetCell(i, cells[i].(fd := goal.fd)), Idle)
      else if cells[i].fd == goal.from then Next(SetCell(i, cells[i].(fd := goal.to)), Idle)
      else Next(Nothing, Lost(goal))
  }

  /** The transition, if any, that the step at pc makes. */
  function Made(s: State, id: Identity, pc: Pc): seq<Moved>
    requires PcOk(pc, |s.cells|)
  {
    if pc.OnBase? && pc.goal.Move? && s.base == pc.goal.from then [Moved(id, pc.goal.from, pc.goal.to)]
    else if pc.OnSlot? && pc.goal.Move? && s.cells[pc.i].fd == pc.goal.from then [Moved(id, pc.goal.from, pc.goal.to)]
    else []
  }

  /** The value, if any, that the step at pc loads. */
  function Returned(s: State, id: Identity, pc: Pc): seq<Loaded>
    requires PcOk(pc, |s.cells|)
  {
    if pc.LoadFd? then [Loaded(id, s.cells[pc.i].fd)] else if pc.LoadBase? then [Loaded(id, s.base)] else []
  }

  /** The history of s with what one step adds to it. */
  function Noted(s: State, made: seq<Moved>, read: seq<Loaded>): State {
    s.(moves := s.moves + made, loads := s.loads + read)
  }

  function Apply(s: State, id: Identity, e: Effect): State
    requires e.SetCell? ==> e.i < |s.cells|
  {
    match e
    case Nothing => s
    case SetCell(i, c) => s.(cells := s.cells[i := c])
    case SetBase(v) => s.(base := v)
    case SetLock(b) => s.(lock := b)
    case SetFds(fds) => s.(tables := s.tables[id := fds])
  }

  function Goto(s: State, t: nat, pc: Pc): State
    requires t < |s.threads|
  {
    s.(threads := s.threads[t := Thread(s.threads[t].id, pc)])
  }

  function Advanced(s: State, t: nat, n: int): State
    requires Ready(s, t)
  {
    var th := s.threads[t];
    var next := Do(s, th.id, th.pc, n);
    Noted(Goto(Apply(s, th.id, next.effect), t, next.pc), Made(s, th.id, th.pc), Returned(s, th.id, th.pc))
  }

  function Step(s: State, t: nat, a: Action): State
    requires Ready(s, t) && Enabled(s, t, a)
  {
    var id := s.threads[t].id;
    match a
    case BeginLoad => Goto(s, t, if id == s.installer then LoadBase(Read) else LoadPid(0, Read))
    case BeginStore(fd) => Goto(s, t, Start(id == s.installer, Put(fd)))
    case BeginRelocate(target) =>
      Goto(s, t, if id == s.installer then LoadBase(Relocate(target)) else LoadPid(0, Relocate(target)))
    case Application(fds) => s.(tables := s.tables[id := fds])
    case Die => s.(alive := s.alive - {id})
    case Advance(n) => Advanced(s, t, n)
  }

  // ---------------------------------------------------------------- what every step keeps

  /** Cell c is published under the identity x. */
  predicate Is(c: Cell, x: Identity) {
    c.pid == x.pid && c.starttime == x.starttime
  }

  /** Inside the lock. */
  predicate Inside(pc: Pc) {
    pc.FindPid? || pc.FindTime? || pc.Claim? || pc.WriteTime? || pc.WriteFd? || pc.PublishPid? || pc.DropLock?
  }

  ghost predicate Locked(s: State) {
    && (forall t :: 0 <= t < |s.threads| && Inside(s.threads[t].pc) ==> s.lock)
    && (forall t, u :: 0 <= t < u < |s.threads| ==> !(Inside(s.threads[t].pc) && Inside(s.threads[u].pc)))
  }

  /** Published cells carry identities of the run, and no two the same. */
  ghost predicate CellsOk(s: State) {
    && (forall i :: 0 <= i < |s.cells| && s.cells[i].pid > 0 ==>
          Identity(s.cells[i].pid, s.cells[i].starttime) in s.ids)
    && (forall i, j :: 0 <= i < j < |s.cells| && s.cells[i].pid > 0 ==> s.cells[i].pid != s.cells[j].pid)
  }

  /** No cell below n is published under x. */
  ghost predicate NoneBelow(cells: seq<Cell>, n: nat, x: Identity) {
    forall i :: 0 <= i < n && i < |cells| ==> !Is(cells[i], x)
  }

  /** A sweep that saw pid p in cell i: the process of that pid, if alive, still has that cell. */
  ghost predicate Seen(alive: set<Identity>, cells: seq<Cell>, i: nat, p: int) {
    forall x :: x in alive && x.pid == p ==> i < |cells| && Is(cells[i], x)
  }

  /** What a living thread of process id knows at its program point. */
  ghost predicate Knows(alive: set<Identity>, cells: seq<Cell>, id: Identity, pc: Pc)
    requires PcOk(pc, |cells|)
  {
    match pc
    case LoadTime(i, _) => Is(cells[i], id)
    case LoadFd(i, _) => Is(cells[i], id)
    case GcTime(i, p, _) => Seen(alive, cells, i, p)
    case GcTest(i, p, seen, _) =>
      Seen(alive, cells, i, p) && forall x :: x in alive && x.pid == p ==> x.starttime == seen
    case GcCas(i, p, _) => forall x :: x in alive ==> x.pid != p
    case FindPid(i, _) => NoneBelow(cells, i, id)
    case FindTime(i, _) => Is(cells[i], id)
    case Claim(_, _) => NoneBelow(cells, |cells|, id)
    case WriteTime(i, _) => NoneBelow(cells, |cells|, id) && cells[i].pid == -1
    case WriteFd(i, _) => NoneBelow(cells, |cells|, id) && cells[i].pid == -1 && cells[i].starttime == id.starttime
    case PublishPid(i, goal) =>
      && NoneBelow(cells, |cells|, id) && cells[i].pid == -1
      && cells[i].starttime == id.starttime && cells[i].fd == Initial(goal)
    case DropLock(slot, _) => slot >= 0 ==> Is(cells[slot], id)
    case OnSlot(i, _) => Is(cells[i], id)
    case _ => true
  }

  predicate HasGoal(pc: Pc) {
    || pc.OnBase? || pc.GcPid? || pc.GcTime? || pc.GcTest? || pc.GcCas? || pc.TakeLock? || pc.FindPid? || pc.FindTime?
    || pc.Claim? || pc.WriteTime? || pc.WriteFd? || pc.PublishPid? || pc.DropLock? || pc.OnSlot?
  }

  /** The installer works on the base, everybody else on a slot. */
  predicate Fits(pc: Pc, installer: bool) {
    HasGoal(pc) ==> (pc.OnBase? <==> installer)
  }

  ghost predicate ThreadOk(s: State, t: nat)
    requires t < |s.threads|
  {
    var th := s.threads[t];
    && PcOk(th.pc, |s.cells|) && Fits(th.pc, th.id == s.installer)
    && (th.id in s.alive ==> Knows(s.alive, s.cells, th.id, th.pc))
  }

  ghost predicate Inv(s: State) {
    && Shape(s) && Locked(s) && CellsOk(s)
    && (forall t :: 0 <= t < |s.threads| ==> ThreadOk(s, t))
  }

  /** Freshly initialised slots, no thread inside the protocol. */
  ghost predicate Starting(s: State) {
    && Shape(s) && !s.lock
    && (forall i :: 0 <= i < |s.cells| ==> s.cells[i].pid == 0)
    && (forall t :: 0 <= t < |s.threads| ==> s.threads[t].pc.Idle?)
  }

  /** All that a step of thread t can do to one cell. */
  ghost predicate CellStep(s: State, s': State, t: nat, i: nat)
    requires t < |s.threads| && i < |s.cells| == |s'.cells|
  {
    var (c, c', th) := (s.cells[i], s'.cells[i], s.threads[t]);
    || c' == c
    || (c.pid > 0 && c' == c.(pid := 0) && forall x :: x in s.alive ==> x.pid != c.pid)
    || (Inside(th.pc) && c.pid == 0 && c' == c.(pid := -1))
    || (Inside(th.pc) && c.pid == -1 && c'.pid == -1)
    || (Inside(th.pc) && c.pid == -1 && c' == c.(pid := th.id.pid) && Is(c', th.id)
        && NoneBelow(s.cells, |s.cells|, th.id))
    || (Is(c, th.id) && Is(c', th.id) && th.pc.OnSlot? && th.pc.i == i)
  }

  ghost predicate OneChanges(cells: seq<Cell>, cells': seq<Cell>) {
    && |cells| == |cells'|
    && forall i, j :: 0 <= i < j < |cells| ==> cells'[i] == cells[i] || cells'[j] == cells[j]
  }

  lemma StepOnCells(s: State, t: nat, a: Action)
    requires Inv(s) && Enabled(s, t, a)
    ensures Ready(s, t)
    ensures |Step(s, t, a).cells| == |s.cells|
    ensures forall i :: 0 <= i < |s.cells| ==> CellStep(s, Step(s, t, a), t, i)
    ensures OneChanges(s.cells, Step(s, t, a).cells)
  {
    assert ThreadOk(s, t);
  }

  lemma NextIsOk(s: State, id: Identity, pc: Pc, n: int)
    requires PcOk(pc, |s.cells|) && id in s.tables
    ensures PcOk(Do(s, id, pc, n).pc, |s.cells|)
    ensures Fits(pc, id == s.installer) ==> Fits(Do(s, id, pc, n).pc, id == s.installer)
  {
  }

  lemma ShapeStays(s: State, s': State)
    requires Shape(s) && s'.ids == s.ids && s'.alive <= s.alive && s'.tables.Keys == s.tables.Keys
    requires |s'.threads| == |s.threads| && forall t :: 0 <= t < |s.threads| ==> s'.threads[t].id == s.threads[t].id
    ensures Shape(s')
  {
  }

  lemma EffectKeepsTables(s: State, id: Identity, e: Effect)
    requires id in s.tables && (e.SetCell? ==> e.i < |s.cells|)
    ensures Apply(s, id, e).tables.Keys == s.tables.Keys
  {
  }

  /** Whatever its effect, a step leaves processes and other threads alone. */
  lemma EffectFrame(s: State, t: nat, next: Next, made: seq<Moved>, read: seq<Loaded>)
    requires Shape(s) && t < |s.threads| && (next.effect.SetCell? ==> next.effect.i < |s.cells|)
    ensures var s' := Noted(Goto(Apply(s, s.threads[t].id, next.effect), t, next.pc), made, read);
      && Shape(s') && s'.ids == s.ids && s'.alive == s.alive && s'.installer == s.installer
      && s'.threads == s.threads[t := Thread(s.threads[t].id, next.pc)]
  {
    EffectKeepsTables(s, s.threads[t].id, next.effect);
    ShapeStays(s, Noted(Goto(Apply(s, s.threads[t].id, next.effect), t, next.pc), made, read));
  }

  lemma StepIsLocal(s: State, t: nat, a: Action)
    requires Inv(s) && Enabled(s, t, a)
    ensures Ready(s, t)
    ensures var s' := Step(s, t, a);
      && Shape(s') && s'.ids == s.ids && s'.alive <= s.alive && s'.installer == s.installer
      && |s'.threads| == |s.threads| && s'.threads == s.threads[t := Thread(s.threads[t].id, s'.threads[t].pc)]
      && PcOk(s'.threads[t].pc, |s.cells|)
  {
    assert ThreadOk(s, t);
    var th := s.threads[t];
    if a.Advance? {
      NextIsOk(s, th.id, th.pc, a.n);
      EffectFrame(s, t, Do(s, th.id, th.pc, a.n), Made(s, th.id, th.pc), Returned(s, th.id, th.pc));
    } else {
      assert s.threads == s.threads[t := th];
    }
  }

  // ---------------------------------------------------------------- preservation

  lemma NextOnLock(s: State, id: Identity, pc: Pc, n: int)
    requires PcOk(pc, |s.cells|) && id in s.tables
    ensures var next := Do(s, id, pc, n);
      && (next.effect.SetLock? ==>
            (next.effect.b && !s.lock && Inside(next.pc)) || (!next.effect.b && Inside(pc) && !Inside(next.pc)))
      && (!next.effect.SetLock? ==> (Inside(pc) <==> Inside(next.pc)))
  {
  }

  lemma StepKeepsLock(s: State, t: nat, a: Action)
    requires Inv(s) && Enabled(s, t, a)
    ensures Ready(s, t)
    ensures Locked(Step(s, t, a))
  {
    StepIsLocal(s, t, a);
    if a.Advance? {
      AdvanceOnLock(s, t, a.n);
      LockMoves(s, Step(s, t, a), t);
    }
  }

  lemma AdvanceOnLock(s: State, t: nat, n: int)
    requires Ready(s, t) && Enabled(s, t, Advance(n))
    ensures var (pc, s') := (s.threads[t].pc, Step(s, t, Advance(n)));
      && |s'.threads| == |s.threads|
      && (Inside(s'.threads[t].pc) ==> (s'.lock && !s.lock) || (Inside(pc) && s'.lock == s.lock))
      && (s.lock && !s'.lock ==> Inside(pc))
  {
    NextOnLock(s, s.threads[t].id, s.threads[t].pc, n);
  }

  lemma LockMoves(s: State, s': State, t: nat)
    requires Locked(s) && t < |s.threads| == |s'.threads| && s'.threads == s.threads[t := s'.threads[t]]
    requires Inside(s'.threads[t].pc) ==> s'.lock && (Inside(s.threads[t].pc) || !s.lock)
    requires s.lock && !s'.lock ==> Inside(s.threads[t].pc)
    ensures Locked(s')
  {
  }

  lemma StepKeepsCells(s: State, t: nat, a: Action)
    requires Inv(s) && Enabled(s, t, a)
    ensures Ready(s, t)
    ensures CellsOk(Step(s, t, a))
  {
    StepIsLocal(s, t, a);
    StepOnCells(s, t, a);
    CellStepsKeepCells(s, Step(s, t, a), t);
  }

  lemma CellStepsKeepCells(s: State, s': State, t: nat)
    requires Shape(s) && CellsOk(s) && t < |s.threads| && |s'.cells| == |s.cells| && s'.ids == s.ids
    requires forall i :: 0 <= i < |s.cells| ==> CellStep(s, s', t, i)
    requires OneChanges(s.cells, s'.cells)
    ensures CellsOk(s')
  {
    var id := s.threads[t].id;
    forall i | 0 <= i < |s.cells|
      ensures s'.cells[i].pid > 0 ==> Identity(s'.cells[i].pid, s'.cells[i].starttime) in s.ids
      ensures s'.cells[i].pid > 0 && s.cells[i].pid != s'.cells[i].pid ==>
                s'.cells[i].pid == id.pid && NoneBelow(s.cells, |s.cells|, id)
    {
      assert CellStep(s, s', t, i);
    }
    forall j | 0 <= j < |s.cells| && s.cells[j].pid == id.pid
      ensures Is(s.cells[j], id)
    {
      assert Identity(s.cells[j].pid, s.cells[j].starttime) in s.ids;
    }
  }

  /** A living process's cell is changed by its own threads only, and stays its cell. */
  lemma CellStays(s: State, s': State, t: nat, i: nat, x: Identity)
    requires Shape(s) && t < |s.threads| && i < |s.cells| == |s'.cells| && CellStep(s, s', t, i)
    requires x in s.alive && Is(s.cells[i], x)
    ensures Is(s'.cells[i], x)
    ensures x != s.threads[t].id ==> s'.cells[i] == s.cells[i]
  {
  }

  lemma NoneBelowStays(s: State, s': State, t: nat, n: nat, x: Identity)
    requires Shape(s) && CellsOk(s) && t < |s.threads| && |s.cells| == |s'.cells| && x.pid > 0
    requires forall i :: 0 <= i < |s.cells| ==> CellStep(s, s', t, i)
    requires NoneBelow(s.cells, n, x) && !Inside(s.threads[t].pc)
    ensures NoneBelow(s'.cells, n, x)
  {
    forall i | 0 <= i < n && i < |s.cells|
      ensures !Is(s'.cells[i], x)
    {
      assert CellStep(s, s', t, i);
    }
  }

  lemma OtherKeepsKnowing(s: State, s': State, t: nat, u: nat)
    requires Inv(s) && t < |s.threads| && u < |s.threads| && u != t && |s.cells| == |s'.cells|
    requires s'.ids == s.ids && s'.alive <= s.alive && s'.installer == s.installer && |s'.threads| == |s.threads|
    requires s'.threads[u] == s.threads[u]
    requires forall i :: 0 <= i < |s.cells| ==> CellStep(s, s', t, i)
    ensures ThreadOk(s', u)
  {
    assert ThreadOk(s, u);
    var (id, pc) := (s.threads[u].id, s.threads[u].pc);
    assert forall i, x :: 0 <= i < |s.cells| && x in s.alive && Is(s.cells[i], x) ==> Is(s'.cells[i], x) by {
      forall i, x | 0 <= i < |s.cells| && x in s.alive && Is(s.cells[i], x)
        ensures Is(s'.cells[i], x)
      {
        CellStays(s, s', t, i, x);
      }
    }
    if id in s'.alive && Inside(pc) {
      assert !Inside(s.threads[t].pc);
      if pc.FindPid? && NoneBelow(s.cells, pc.i, id) {
        NoneBelowStays(s, s', t, pc.i, id);
      } else if NoneBelow(s.cells, |s.cells|, id) {
        NoneBelowStays(s, s', t, |s.cells|, id);
      }
      forall i | 0 <= i < |s.cells| && s.cells[i].pid == -1
        ensures s'.cells[i] == s.cells[i]
      {
        assert CellStep(s, s', t, i) && s.threads[t].id.pid > 0;
      }
    }
  }

  /** A published pid names the process, since pids are not recycled. */
  lemma PidNames(s: State, i: nat, x: Identity)
    requires Shape(s) && CellsOk(s) && i < |s.cells| && x in s.ids && s.cells[i].pid == x.pid
    ensures Is(s.cells[i], x)
  {
  }

  function NewCells(cells: seq<Cell>, e: Effect): seq<Cell>
    requires e.SetCell? ==> e.i < |cells|
  {
    if e.SetCell? then cells[e.i := e.c] else cells
  }

  /** Published pids name their processes. */
  ghost predicate PidsName(s: State) {
    forall i, x :: 0 <= i < |s.cells| && x in s.ids && s.cells[i].pid == x.pid ==> Is(s.cells[i], x)
  }

  lemma NextKnowsOutside(s: State, id: Identity, pc: Pc, n: int)
    requires Shape(s) && PidsName(s) && PcOk(pc, |s.cells|) && id in s.alive && Knows(s.alive, s.cells, id, pc)
    requires !Inside(pc)
    ensures var next := Do(s, id, pc, n);
            PcOk(next.pc, |s.cells|) && Knows(s.alive, NewCells(s.cells, next.effect), id, next.pc)
  {
  }

  lemma NextKnowsInside(s: State, id: Identity, pc: Pc, n: int)
    requires Shape(s) && PidsName(s) && PcOk(pc, |s.cells|) && id in s.alive && Knows(s.alive, s.cells, id, pc)
    requires Inside(pc)
    ensures var next := Do(s, id, pc, n);
            PcOk(next.pc, |s.cells|) && Knows(s.alive, NewCells(s.cells, next.effect), id, next.pc)
  {
  }

  lemma EffectKnows(s: State, t: nat, next: Next, made: seq<Moved>, read: seq<Loaded>)
    requires t < |s.threads| && (next.effect.SetCell? ==> next.effect.i < |s.cells|)
    requires PcOk(next.pc, |s.cells|) && Knows(s.alive, NewCells(s.cells, next.effect), s.threads[t].id, next.pc)
    requires Fits(next.pc, s.threads[t].id == s.installer)
    ensures ThreadOk(Noted(Goto(Apply(s, s.threads[t].id, next.effect), t, next.pc), made, read), t)
  {
  }

  lemma NextKnows(s: State, t: nat, n: int)
    requires Inv(s) && t < |s.threads| && s.threads[t].id in s.alive
    ensures Ready(s, t)
    ensures ThreadOk(Advanced(s, t, n), t)
  {
    assert ThreadOk(s, t);
    var (id, pc) := (s.threads[t].id, s.threads[t].pc);
    assert PidsName(s) by {
      forall i, x | 0 <= i < |s.cells| && x in s.ids && s.cells[i].pid == x.pid
        ensures Is(s.cells[i], x)
      {
        PidNames(s, i, x);
      }
    }
    if Inside(pc) {
      NextKnowsInside(s, id, pc, n);
    } else {
      NextKnowsOutside(s, id, pc, n);
    }
    NextIsOk(s, id, pc, n);
    EffectKnows(s, t, Do(s, id, pc, n), Made(s, id, pc), Returned(s, id, pc));
  }

  lemma StepKeeps(s: State, t: nat, a: Action)
    requires Inv(s) && Enabled(s, t, a)
    ensures Ready(s, t)
    ensures Inv(Step(s, t, a))
  {
    StepIsLocal(s, t, a);
    StepOnCells(s, t, a);
    StepKeepsLock(s, t, a);
    StepKeepsCells(s, t, a);
    var s' := Step(s, t, a);
    forall u | 0 <= u < |s.threads|
      ensures ThreadOk(s', u)
    {
      if u != t {
        OtherKeepsKnowing(s, s', t, u);
      } else if a.Advance? {
        NextKnows(s, t, a.n);
      } else {
        assert ThreadOk(s, t);
      }
    }
  }

  // ---------------------------------------------------------------- whole runs

  datatype Event = Event(thread: nat, action: Action)

  ghost predicate Follows(s: State, ev: Event, s': State) {
    Ready(s, ev.thread) && Enabled(s, ev.thread, ev.action) && s' == Step(s, ev.thread, ev.action)
  }

  /** Event k leads from tr[k] to tr[k + 1]. */
  ghost predicate StepAt(tr: seq<State>, evs: seq<Event>, k: int) {
    0 <= k < |evs| && k + 1 < |tr| && Follows(tr[k], evs[k], tr[k + 1])
  }

  /** tr[k + 1] is tr[k] after event k. */
  ghost predicate IsRun(tr: seq<State>, evs: seq<Event>) {
    && |tr| == |evs| + 1 && Starting(tr[0])
    && (forall k :: 0 <= k < |evs| ==> StepAt(tr, evs, k))
  }

  lemma FollowsKeeps(s: State, ev: Event, s': State)
    requires Inv(s) && Follows(s, ev, s')
    ensures Inv(s')
  {
    StepKeeps(s, ev.thread, ev.action);
  }

  lemma {:induction false} RunKeeps(tr: seq<State>, evs: seq<Event>, k: nat)
    requires IsRun(tr, evs) && k < |tr|
    ensures Inv(tr[k])
  {
    if k == 0 {
      assert Starting(tr[0]);
    } else {
      RunKeeps(tr, evs, k - 1);
      assert StepAt(tr, evs, k - 1);
      FollowsKeeps(tr[k - 1], evs[k - 1], tr[k]);
    }
  }

  /** However many of its threads race to acquire, a process never has two slots. */
  lemma OneSlotPerProcess(tr: seq<State>, evs: seq<Event>, k: nat, x: Identity, i: nat, j: nat)
    requires IsRun(tr, evs) && k < |tr| && x.pid > 0
    requires i < |tr[k].cells| && j < |tr[k].cells| && Is(tr[k].cells[i], x) && Is(tr[k].cells[j], x)
    ensures i == j
  {
    RunKeeps(tr, evs, k);
  }

  /** Event k is a step of process x. */
  predicate By(s: State, ev: Event, x: Identity) {
    ev.thread < |s.threads| && s.threads[ev.thread].id == x
  }

  /** From s to s' nothing happened to what process x sees, if it is the installer or has a slot. */
  ghost predicate SameView(s: State, s': State, x: Identity) {
    && x in s'.alive && |s'.cells| == |s.cells| && s'.installer == s.installer
    && (x == s.installer ==> s'.base == s.base)
    && (forall i :: 0 <= i < |s.cells| && Is(s.cells[i], x) ==> s'.cells[i] == s.cells[i])
  }

  lemma StepOfOthers(s: State, ev: Event, s': State, x: Identity)
    requires Inv(s) && Follows(s, ev, s') && !By(s, ev, x) && x in s.alive
    ensures SameView(s, s', x)
  {
    assert ThreadOk(s, ev.thread);
    StepOnCells(s, ev.thread, ev.action);
    forall i | 0 <= i < |s.cells| && Is(s.cells[i], x)
      ensures s'.cells[i] == s.cells[i]
    {
      CellStays(s, s', ev.thread, i, x);
    }
  }

  lemma OthersOneStep(tr: seq<State>, evs: seq<Event>, k: nat, x: Identity)
    requires IsRun(tr, evs) && k < |evs| && !By(tr[k], evs[k], x) && x in tr[k].alive
    ensures SameView(tr[k], tr[k + 1], x)
  {
    RunKeeps(tr, evs, k);
    assert StepAt(tr, evs, k);
    StepOfOthers(tr[k], evs[k], tr[k + 1], x);
  }

  /** The view of the installer, or of a process with a slot, is out of every other process's reach. */
  lemma {:induction false} ViewIsIsolated(tr: seq<State>, evs: seq<Event>, j: nat, k: nat, x: Identity)
    requires IsRun(tr, evs) && j <= k < |tr| && x in tr[j].alive
    requires forall m {:trigger evs[m]} :: j <= m < k ==> !By(tr[m], evs[m], x)
    ensures SameView(tr[j], tr[k], x)
    decreases k - j
  {
    if j < k {
      ViewIsIsolated(tr, evs, j, k - 1, x);
      OthersOneStep(tr, evs, k - 1, x);
    }
  }

  lemma SlotStaysOneStep(tr: seq<State>, evs: seq<Event>, k: nat, x: Identity, i: nat)
    requires IsRun(tr, evs) && k < |evs| && x in tr[k].alive && i < |tr[k].cells| && Is(tr[k].cells[i], x)
    ensures i < |tr[k + 1].cells| && Is(tr[k + 1].cells[i], x)
  {
    RunKeeps(tr, evs, k);
    assert StepAt(tr, evs, k);
    StepOnCells(tr[k], evs[k].thread, evs[k].action);
    CellStays(tr[k], tr[k + 1], evs[k].thread, i, x);
  }

  lemma AliveOneStep(tr: seq<State>, evs: seq<Event>, k: nat)
    requires IsRun(tr, evs) && k < |evs|
    ensures tr[k + 1].alive <= tr[k].alive
  {
    RunKeeps(tr, evs, k);
    assert StepAt(tr, evs, k);
    StepIsLocal(tr[k], evs[k].thread, evs[k].action);
  }

  /** A living process keeps its slot: no sweep, however slow, frees it. */
  lemma {:induction false} LivingKeepSlots(tr: seq<State>, evs: seq<Event>, j: nat, k: nat, x: Identity, i: nat)
    requires IsRun(tr, evs) && j <= k < |tr| && x in tr[k].alive
    requires i < |tr[j].cells| && Is(tr[j].cells[i], x)
    ensures i < |tr[k].cells| && Is(tr[k].cells[i], x)
    decreases k - j
  {
    if j < k {
      AliveOneStep(tr, evs, k - 1);
      LivingKeepSlots(tr, evs, j, k - 1, x, i);
      SlotStaysOneStep(tr, evs, k - 1, x, i);
    }
  }
}
