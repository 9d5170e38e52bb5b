/**
  Threads of one process race to move a view off a number that is still open: at most one
  transition succeeds, every loser closes its duplicate, so the description gains at most one
  descriptor. Meanwhile the threads of every other process do whatever they like.
*/
module RelocationRace {
  import opened DescriptorView
  import opened OverrideProtocol

  /** The transitions of process p among the moves. */
  function MovesOf(moves: seq<Moved>, p: Identity): seq<Moved> {
    if moves == [] then []
    else MovesOf(moves[..|moves| - 1], p) + if moves[|moves| - 1].id == p then [moves[|moves| - 1]] else []
  }

  lemma MovesAppend(moves: seq<Moved>, m: Moved, p: Identity)
    ensures MovesOf(moves + [m], p) == MovesOf(moves, p) + if m.id == p then [m] else []
  {
  }

  /** The duplicate a thread has made and neither installed nor closed, or -1. */
  function Duplicate(pc: Pc): int {
    if pc.CloseLoser? then pc.fd
    else if HasGoal(pc) && pc.goal.Move? && pc.goal.to >= 0 then pc.goal.to
    else -1
  }

  /** A thread that is idle or relocating target. */
  predicate Racing(pc: Pc, target: int) {
    || pc.Idle?
    || ((pc.LoadPid? || pc.LoadTime? || pc.LoadFd? || pc.LoadBase?) && pc.use == Relocate(target))
    || (pc.Dup? && pc.target == target)
    || (pc.CloseLoser? && pc.fd >= 0)
    || (HasGoal(pc) && pc.goal.Move? && pc.goal.from == target && pc.goal.to >= -1)
  }

  /** The duplicates in flight in process p. */
  function Flight(threads: seq<Thread>, p: Identity): set<int> {
    set t | 0 <= t < |threads| && threads[t].id == p && Duplicate(threads[t].pc) >= 0 :: Duplicate(threads[t].pc)
  }

  ghost predicate FlightDistinct(threads: seq<Thread>, p: Identity) {
    forall t, u ::
      0 <= t < u < |threads| && threads[t].id == p && threads[u].id == p && Duplicate(threads[t].pc) >= 0 ==>
      Duplicate(threads[t].pc) != Duplicate(threads[u].pc)
  }

  function Some(n: int): set<int> { if n >= 0 then {n} else {} }

  lemma FlightUpdate(threads: seq<Thread>, t: nat, pc: Pc, p: Identity)
    requires t < |threads| && threads[t].id == p && FlightDistinct(threads, p)
    requires Duplicate(pc) == Duplicate(threads[t].pc) || Duplicate(pc) == -1 || Duplicate(pc) !in Flight(threads, p)
    ensures var threads' := threads[t := Thread(p, pc)];
      && FlightDistinct(threads', p)
      && Flight(threads', p) == Flight(threads, p) - Some(Duplicate(threads[t].pc)) + Some(Duplicate(pc))
  {
    var threads' := threads[t := Thread(p, pc)];
    forall u | 0 <= u < |threads| && u != t && threads[u].id == p && Duplicate(threads[u].pc) >= 0
      ensures threads'[u] == threads[u] && Duplicate(threads[u].pc) in Flight(threads, p)
      ensures Duplicate(threads[u].pc) != Duplicate(threads[t].pc)
      ensures Duplicate(threads[u].pc) != Duplicate(pc)
    {
      assert threads'[u] == threads[u];
    }
    assert threads'[t].pc == pc;
    forall n | n in Flight(threads, p) - Some(Duplicate(threads[t].pc)) + Some(Duplicate(pc))
      ensures n in Flight(threads', p)
    {
      if n !in Some(Duplicate(pc)) {
        var u :| 0 <= u < |threads| && threads[u].id == p && Duplicate(threads[u].pc) == n;
        assert threads'[u] == threads[u];
      }
    }
  }

  // ---------------------------------------------------------------- the race

  /** The transitions of p since the race began. */
  function Won(start: State, s: State, p: Identity): seq<Moved> {
    if |start.moves| <= |s.moves| then MovesOf(s.moves[|start.moves|..], p) else []
  }

  function Kept(won: seq<Moved>): set<int> {
    if won == [] then {} else Some(won[0].to)
  }

  /** The view of p is no longer at target, and p will see that. */
  ghost predicate MovedOff(s: State, p: Identity, target: int) {
    if p == s.installer then s.base != target
    else exists i :: 0 <= i < |s.cells| && Is(s.cells[i], p) && s.cells[i].fd != target
  }

  ghost predicate RaceMoves(start: State, s: State, p: Identity, target: int) {
    var won := Won(start, s, p);
    && start.moves <= s.moves && s.installer == start.installer && |won| <= 1
    && (won != [] ==> won[0].from == target && won[0].to != target && MovedOff(s, p, target))
  }

  /** Every number that was open still names what it named; the new ones are duplicates of target. */
  ghost predicate RaceFds(start: State, s: State, p: Identity, target: int) {
    && p in start.tables && p in s.tables && target in start.tables[p] && target >= 0
    && FlightDistinct(s.threads, p)
    && Accounted(start.tables[p], s.tables[p], Kept(Won(start, s, p)), Flight(s.threads, p), target)
  }

  ghost predicate Accounted(before: map<int, int>, now: map<int, int>, kept: set<int>, flight: set<int>, target: int)
    requires target in before
  {
    && now.Keys == before.Keys + kept + flight
    && kept !! before.Keys && flight !! before.Keys && flight !! kept
    && (forall n :: n in before ==> now[n] == before[n])
    && (forall n :: n in now && n !in before ==> now[n] == before[target])
  }

  ghost predicate RaceInv(start: State, s: State, p: Identity, target: int) {
    && p in s.alive
    && (forall t :: 0 <= t < |s.threads| && s.threads[t].id == p ==> Racing(s.threads[t].pc, target))
    && RaceMoves(start, s, p, target)
    && RaceFds(start, s, p, target)
  }

  /** During the race p's threads start nothing but relocations of target, and p does not die. */
  predicate RaceEvent(s: State, ev: Event, p: Identity, target: int) {
    By(s, ev, p) ==> ev.action == BeginRelocate(target) || ev.action.Advance?
  }

  lemma RaceBegins(s: State, p: Identity, target: int)
    requires Shape(s) && p in s.alive && target >= 0 && target in s.tables[p]
    requires forall t :: 0 <= t < |s.threads| && s.threads[t].id == p ==> s.threads[t].pc.Idle?
    ensures RaceInv(s, s, p, target)
  {
    assert s.moves[|s.moves|..] == [];
    assert Flight(s.threads, p) == {};
  }

  // ---------------------------------------------------------------- steps of other processes

  lemma OthersKeepRace(start: State, s: State, ev: Event, s': State, p: Identity, target: int)
    requires Inv(s) && RaceInv(start, s, p, target) && Follows(s, ev, s') && !By(s, ev, p)
    ensures RaceInv(start, s', p, target)
  {
    var t := ev.thread;
    StepOfOthers(s, ev, s', p);
    StepIsLocal(s, t, ev.action);
    OthersMakeNone(start, s, ev, s', p);
    OthersFlight(s, s', t, p);
    assert s'.tables[p] == s.tables[p] by {
      OthersTables(s, ev, s', p);
    }
  }

  lemma OthersTables(s: State, ev: Event, s': State, p: Identity)
    requires Follows(s, ev, s') && !By(s, ev, p) && p in s.tables
    ensures p in s'.tables && s'.tables[p] == s.tables[p]
  {
  }

  lemma OthersMakeNone(start: State, s: State, ev: Event, s': State, p: Identity)
    requires Follows(s, ev, s') && !By(s, ev, p) && start.moves <= s.moves
    ensures start.moves <= s'.moves && Won(start, s', p) == Won(start, s, p)
  {
    MovesGrow(s, ev, s');
    if s'.moves != s.moves {
      var m := s'.moves[|s.moves|];
      assert s'.moves[|start.moves|..] == s.moves[|start.moves|..] + [m];
      MovesAppend(s.moves[|start.moves|..], m, p);
    }
  }

  /** A step makes at most one transition, for its own process. */
  lemma MovesGrow(s: State, ev: Event, s': State)
    requires Follows(s, ev, s')
    ensures s'.moves == s.moves || exists m :: s'.moves == s.moves + [m] && m.id == s.threads[ev.thread].id
  {
    var th := s.threads[ev.thread];
    if ev.action.Advance? && Made(s, th.id, th.pc) != [] {
      assert s'.moves == s.moves + [Made(s, th.id, th.pc)[0]];
    } else {
      assert s'.moves == s.moves;
    }
  }

  lemma OthersFlight(s: State, s': State, t: nat, p: Identity)
    requires t < |s.threads| == |s'.threads| && s.threads[t].id != p
    requires s'.threads == s.threads[t := Thread(s.threads[t].id, s'.threads[t].pc)]
    ensures Flight(s'.threads, p) == Flight(s.threads, p)
    ensures FlightDistinct(s.threads, p) ==> FlightDistinct(s'.threads, p)
  {
    assert forall u :: 0 <= u < |s.threads| && s.threads[u].id == p ==> s'.threads[u] == s.threads[u];
    assert forall u :: 0 <= u < |s.threads| && s'.threads[u].id == p ==> s'.threads[u] == s.threads[u];
  }

  // ---------------------------------------------------------------- steps of the racing process

  /** Outside the dup, the close and a won transition, a step changes neither table nor duplicate. */
  ghost predicate RacingStep(fds: map<int, int>, pc: Pc, n: int, next: Next, made: seq<Moved>, target: int) {
    && Racing(pc, target) && Racing(next.pc, target) && target in fds
    && (pc.Dup? && n >= 3 ==>
          n !in fds && next.effect == SetFds(fds[n := fds[target]]) && Duplicate(next.pc) == n && Duplicate(pc) == -1)
    && (pc.CloseLoser? ==> next.effect == SetFds(fds - {pc.fd}) && Duplicate(next.pc) == -1)
    && (next.effect.SetFds? ==> pc.CloseLoser? || (pc.Dup? && n >= 3))
    && (made == [] && !next.effect.SetFds? ==> Duplicate(next.pc) == Duplicate(pc))
    && |made| <= 1
    && (made != [] ==> made[0].to == Duplicate(pc) && Duplicate(next.pc) == -1 && !next.effect.SetFds?
                       && !pc.Dup? && !pc.CloseLoser?)
  }

  lemma RacingNext(s: State, id: Identity, pc: Pc, n: int, target: int)
    requires PcOk(pc, |s.cells|) && id in s.tables && Racing(pc, target) && target in s.tables[id]
    requires pc.Dup? ==> n == -1 || (n >= 3 && n !in s.tables[id])
    ensures RacingStep(s.tables[id], pc, n, Do(s, id, pc, n), Made(s, id, pc), target)
  {
    if pc.OnBase? || pc.OnSlot? {
      RacingSwap(s, id, pc, n, target);
    }
  }

  lemma RacingSwap(s: State, id: Identity, pc: Pc, n: int, target: int)
    requires PcOk(pc, |s.cells|) && id in s.tables && Racing(pc, target) && target in s.tables[id]
    requires pc.OnBase? || pc.OnSlot?
    ensures RacingStep(s.tables[id], pc, n, Do(s, id, pc, n), Made(s, id, pc), target)
  {
  }

  lemma RacingMade(s: State, id: Identity, pc: Pc, n: int, target: int)
    requires PcOk(pc, |s.cells|) && id in s.tables && Racing(pc, target)
    ensures var next := Do(s, id, pc, n);
      && (Made(s, id, pc) == [] ==> !next.effect.SetBase? && (next.effect.SetCell? ==> !pc.OnSlot?))
      && (Made(s, id, pc) != [] ==>
            && Made(s, id, pc) == [Moved(id, target, pc.goal.to)] && !next.effect.SetFds?
            && Duplicate(pc) == pc.goal.to
            && (pc.OnBase? ==> s.base == target && next.effect == SetBase(pc.goal.to))
            && (!pc.OnBase? ==>
                  && pc.OnSlot? && s.cells[pc.i].fd == target
                  && next.effect == SetCell(pc.i, s.cells[pc.i].(fd := pc.goal.to))))
  {
  }

  lemma AppendWon(start: State, s: State, s': State, made: seq<Moved>, p: Identity)
    requires start.moves <= s.moves && s'.moves == s.moves + made && |made| <= 1
    requires made != [] ==> made[0].id == p
    ensures start.moves <= s'.moves && Won(start, s', p) == Won(start, s, p) + made
  {
    assert s'.moves[|start.moves|..] == s.moves[|start.moves|..] + made;
    if made == [] {
      assert s'.moves == s.moves;
    } else {
      assert made == [made[0]];
      MovesAppend(s.moves[|start.moves|..], made[0], p);
    }
  }

  /** A transition that succeeds is the first: after one, the view the thread compares is off target. */
  lemma WinnerIsFirst(start: State, s: State, t: nat, p: Identity, target: int)
    requires Inv(s) && RaceInv(start, s, p, target) && t < |s.threads| && s.threads[t].id == p
    requires PcOk(s.threads[t].pc, |s.cells|)
    requires Made(s, p, s.threads[t].pc) != []
    ensures Won(start, s, p) == []
    ensures s.threads[t].pc.goal.to != target
  {
    assert ThreadOk(s, t);
    var pc := s.threads[t].pc;
    RacingMade(s, p, pc, 0, target);
    assert Duplicate(pc) >= 0 ==> Duplicate(pc) in Flight(s.threads, p);
    if pc.OnSlot? {
      forall i | 0 <= i < |s.cells| && Is(s.cells[i], p)
        ensures i == pc.i
      {
        assert p.pid > 0;
      }
    }
  }

  /** The fields of the state after a step of thread t that goes to next. */
  ghost predicate Goes(s: State, s': State, t: nat, next: Next, made: seq<Moved>)
    requires t < |s.threads| && s.threads[t].id in s.tables
  {
    var id := s.threads[t].id;
    && s'.installer == s.installer && s'.alive == s.alive && s'.moves == s.moves + made
    && s'.threads == s.threads[t := Thread(id, next.pc)]
    && id in s'.tables && s'.tables[id] == (if next.effect.SetFds? then next.effect.fds else s.tables[id])
    && s'.base == (if next.effect.SetBase? then next.effect.v else s.base)
    && (!next.effect.SetCell? ==> s'.cells == s.cells)
    && (next.effect.SetCell? ==> next.effect.i < |s.cells| && s'.cells == s.cells[next.effect.i := next.effect.c])
  }

  lemma EffectGoes(s: State, t: nat, next: Next, made: seq<Moved>, read: seq<Loaded>)
    requires t < |s.threads| && (next.effect.SetCell? ==> next.effect.i < |s.cells|) && s.threads[t].id in s.tables
    ensures Goes(s, Noted(Goto(OverrideProtocol.Apply(s, s.threads[t].id, next.effect), t, next.pc), made, read),
                 t, next, made)
  {
  }

  /** No thread but the winner changes the fd of p's own slot. */
  lemma LoserLeavesView(s: State, s': State, t: nat, next: Next, p: Identity, target: int)
    requires Inv(s) && t < |s.threads| && s.threads[t].id == p && p in s.alive && Goes(s, s', t, next, [])
    requires !next.effect.SetBase? && !s.threads[t].pc.OnSlot?
    requires |s'.cells| == |s.cells| && forall i :: 0 <= i < |s.cells| ==> CellStep(s, s', t, i)
    requires MovedOff(s, p, target)
    ensures MovedOff(s', p, target)
  {
    if p != s.installer {
      var i :| 0 <= i < |s.cells| && Is(s.cells[i], p) && s.cells[i].fd != target;
      CellStays(s, s', t, i, p);
      assert CellStep(s, s', t, i);
      assert s'.cells[i] == s.cells[i];
    }
  }

  lemma OwnKeepsMoves(start: State, s: State, s': State, t: nat, n: int, p: Identity, target: int)
    requires Inv(s) && RaceInv(start, s, p, target) && t < |s.threads| && s.threads[t].id == p
    requires PcOk(s.threads[t].pc, |s.cells|)
    requires Goes(s, s', t, Do(s, p, s.threads[t].pc, n), Made(s, p, s.threads[t].pc))
    requires |s'.cells| == |s.cells| && forall i :: 0 <= i < |s.cells| ==> CellStep(s, s', t, i)
    ensures RaceMoves(start, s', p, target)
  {
    assert ThreadOk(s, t);
    var pc := s.threads[t].pc;
    var made := Made(s, p, pc);
    RacingMade(s, p, pc, n, target);
    AppendWon(start, s, s', made, p);
    if made != [] {
      WinnerIsFirst(start, s, t, p, target);
      if pc.OnSlot? {
        assert Is(s'.cells[pc.i], p) && s'.cells[pc.i].fd != target;
      }
    } else if Won(start, s, p) != [] {
      if pc.OnSlot? {
        assert s'.cells == s.cells;
      } else {
        LoserLeavesView(s, s', t, Do(s, p, pc, n), p, target);
      }
    }
  }

  lemma AccountDup(before: map<int, int>, now: map<int, int>, kept: set<int>, flight: set<int>, target: int, n: int)
    requires target in before && Accounted(before, now, kept, flight, target) && n >= 0 && n !in now
    ensures Accounted(before, now[n := now[target]], kept, flight + {n}, target)
  {
  }

  lemma AccountClose(before: map<int, int>, now: map<int, int>, kept: set<int>, flight: set<int>, target: int, n: int)
    requires target in before && Accounted(before, now, kept, flight, target) && n in flight
    ensures Accounted(before, now - {n}, kept, flight - {n}, target)
  {
  }

  lemma AccountWin(before: map<int, int>, now: map<int, int>, flight: set<int>, target: int, n: int)
    requires target in before && Accounted(before, now, {}, flight, target) && (n >= 0 ==> n in flight)
    ensures Accounted(before, now, Some(n), flight - Some(n), target)
  {
  }

  lemma AccountStep(before: map<int, int>, now: map<int, int>, kept: set<int>, flight: set<int>,
                    pc: Pc, n: int, next: Next, made: seq<Moved>, target: int)
    requires target in before && Accounted(before, now, kept, flight, target)
    requires RacingStep(now, pc, n, next, made, target) && Some(Duplicate(pc)) <= flight && (made != [] ==> kept == {})
    ensures var now' := if next.effect.SetFds? then next.effect.fds else now;
      Accounted(before, now', if made == [] then kept else Some(made[0].to),
                flight - Some(Duplicate(pc)) + Some(Duplicate(next.pc)), target)
  {
    if made != [] {
      AccountWin(before, now, flight, target, Duplicate(pc));
      assert flight - Some(Duplicate(pc)) + {} == flight - Some(Duplicate(pc));
    } else if pc.Dup? && n >= 3 {
      AccountDup(before, now, kept, flight, target, n);
      assert flight - {} + {n} == flight + {n};
    } else if pc.CloseLoser? {
      AccountClose(before, now, kept, flight, target, pc.fd);
      assert flight - {pc.fd} + {} == flight - {pc.fd};
    } else {
      assert flight - Some(Duplicate(pc)) + Some(Duplicate(pc)) == flight;
    }
  }

  lemma OwnKeepsFds(start: State, s: State, s': State, t: nat, next: Next, made: seq<Moved>, n: int, p: Identity,
                    target: int)
    requires RaceFds(start, s, p, target) && start.moves <= s.moves && t < |s.threads| && s.threads[t].id == p
    requires Goes(s, s', t, next, made)
    requires RacingStep(s.tables[p], s.threads[t].pc, n, next, made, target)
    requires made != [] ==> Won(start, s, p) == [] && made[0].id == p
    ensures RaceFds(start, s', p, target)
  {
    var pc := s.threads[t].pc;
    var (before, now) := (start.tables[p], s.tables[p]);
    var (flight, kept) := (Flight(s.threads, p), Kept(Won(start, s, p)));
    AppendWon(start, s, s', made, p);
    assert Duplicate(pc) >= 0 ==> Duplicate(pc) in flight;
    FlightUpdate(s.threads, t, next.pc, p);
    AccountStep(before, now, kept, flight, pc, n, next, made, target);
  }

  lemma OwnKeepsRace(start: State, s: State, t: nat, n: int, p: Identity, target: int)
    requires Inv(s) && RaceInv(start, s, p, target) && Enabled(s, t, Advance(n)) && s.threads[t].id == p
    ensures Ready(s, t)
    ensures RaceInv(start, Step(s, t, Advance(n)), p, target)
  {
    assert ThreadOk(s, t);
    var (pc, s') := (s.threads[t].pc, Step(s, t, Advance(n)));
    var (next, made) := (Do(s, p, pc, n), Made(s, p, pc));
    assert target in s.tables[p];
    RacingNext(s, p, pc, n, target);
    EffectGoes(s, t, next, made, Returned(s, p, pc));
    StepOnCells(s, t, Advance(n));
    OwnKeepsMoves(start, s, s', t, n, p, target);
    if made != [] {
      WinnerIsFirst(start, s, t, p, target);
    }
    OwnKeepsFds(start, s, s', t, next, made, n, p, target);
  }

  /** A thread that enters the race, with no duplicate yet, changes no account. */
  lemma BeginKeepsFds(start: State, s: State, s': State, t: nat, pc: Pc, p: Identity, target: int)
    requires RaceFds(start, s, p, target) && t < |s.threads| && s.threads[t].id == p
    requires s' == s.(threads := s.threads[t := Thread(p, pc)])
    requires Duplicate(s.threads[t].pc) == -1 && Duplicate(pc) == -1
    ensures RaceFds(start, s', p, target)
  {
    FlightUpdate(s.threads, t, pc, p);
    assert Flight(s.threads, p) - {} + {} == Flight(s.threads, p);
  }

  lemma BeginKeepsRace(start: State, s: State, t: nat, p: Identity, target: int)
    requires Inv(s) && RaceInv(start, s, p, target) && Enabled(s, t, BeginRelocate(target)) && s.threads[t].id == p
    ensures Ready(s, t)
    ensures RaceInv(start, Step(s, t, BeginRelocate(target)), p, target)
  {
    assert ThreadOk(s, t);
    var s' := Step(s, t, BeginRelocate(target));
    BeginKeepsFds(start, s, s', t, s'.threads[t].pc, p, target);
  }

  lemma StepKeepsRace(start: State, s: State, ev: Event, s': State, p: Identity, target: int)
    requires Inv(s) && RaceInv(start, s, p, target) && Follows(s, ev, s') && RaceEvent(s, ev, p, target)
    ensures RaceInv(start, s', p, target)
  {
    if !By(s, ev, p) {
      OthersKeepRace(start, s, ev, s', p, target);
    } else if ev.action.Advance? {
      OwnKeepsRace(start, s, ev.thread, ev.action.n, p, target);
    } else {
      BeginKeepsRace(start, s, ev.thread, p, target);
    }
  }

  // ---------------------------------------------------------------- whole races

  /** The race starts with target open and no thread of p inside the protocol. */
  ghost predicate RaceStarts(s: State, p: Identity, target: int) {
    && p in s.alive && p in s.tables && target >= 0 && target in s.tables[p]
    && AllIdle(s, p)
  }

  ghost predicate AllIdle(s: State, p: Identity) {
    forall t :: 0 <= t < |s.threads| && s.threads[t].id == p ==> s.threads[t].pc.Idle?
  }

  lemma {:induction false} RaceKeeps(tr: seq<State>, evs: seq<Event>, j: nat, k: nat, p: Identity, target: int)
    requires IsRun(tr, evs) && j <= k < |tr| && RaceStarts(tr[j], p, target)
    requires forall m {:trigger evs[m]} :: j <= m < k ==> RaceEvent(tr[m], evs[m], p, target)
    ensures RaceInv(tr[j], tr[k], p, target)
    decreases k - j
  {
    if j == k {
      RunKeeps(tr, evs, j);
      RaceBegins(tr[j], p, target);
    } else {
      RaceKeeps(tr, evs, j, k - 1, p, target);
      RaceOneStep(tr, evs, tr[j], k - 1, p, target);
    }
  }

  lemma RaceOneStep(tr: seq<State>, evs: seq<Event>, start: State, k: nat, p: Identity, target: int)
    requires IsRun(tr, evs) && k < |evs| && RaceInv(start, tr[k], p, target) && RaceEvent(tr[k], evs[k], p, target)
    ensures RaceInv(start, tr[k + 1], p, target)
  {
    RunKeeps(tr, evs, k);
    assert StepAt(tr, evs, k);
    StepKeepsRace(start, tr[k], evs[k], tr[k + 1], p, target);
  }

  /** The numbers of a table that name description d. */
  function Naming(fds: map<int, int>, d: int): set<int> {
    set n | n in fds && fds[n] == d
  }

  lemma NamingGrows(before: map<int, int>, now: map<int, int>, kept: set<int>, target: int)
    requires target in before && Accounted(before, now, kept, {}, target) && |kept| <= 1
    ensures Naming(now, before[target]) == Naming(before, before[target]) + kept
    ensures |Naming(now, before[target])| <= |Naming(before, before[target])| + 1
    ensures forall d :: d != before[target] ==> Naming(now, d) == Naming(before, d)
  {
    var d0 := before[target];
    assert forall n :: n in now.Keys <==> n in before.Keys + kept;
    forall n
      ensures n in Naming(now, d0) <==> n in Naming(before, d0) + kept
    {
      if n in before {
        assert now[n] == before[n] && n !in kept;
      }
    }
    forall d | d != d0
      ensures Naming(now, d) == Naming(before, d)
    {
      assert forall n :: n in Naming(now, d) <==> n in Naming(before, d);
    }
  }

  /** At most one thread moves the view; when all are done, the table gained at most that one duplicate. */
  lemma RaceHasOneWinner(tr: seq<State>, evs: seq<Event>, j: nat, k: nat, p: Identity, target: int)
    requires IsRun(tr, evs) && j <= k < |tr| && RaceStarts(tr[j], p, target)
    requires forall m {:trigger evs[m]} :: j <= m < k ==> RaceEvent(tr[m], evs[m], p, target)
    ensures |Won(tr[j], tr[k], p)| <= 1
    ensures p in tr[k].tables
    ensures forall n :: n in tr[j].tables[p] ==>
              n in tr[k].tables[p] && tr[k].tables[p][n] == tr[j].tables[p][n]
    ensures AllIdle(tr[k], p) ==>
              var (before, now) := (tr[j].tables[p], tr[k].tables[p]);
              && now.Keys == before.Keys + Kept(Won(tr[j], tr[k], p))
              && |Naming(now, before[target])| <= |Naming(before, before[target])| + 1
              && (forall d :: d != before[target] ==> Naming(now, d) == Naming(before, d))
  {
    RaceKeeps(tr, evs, j, k, p, target);
    var (before, now, kept) := (tr[j].tables[p], tr[k].tables[p], Kept(Won(tr[j], tr[k], p)));
    if AllIdle(tr[k], p) {
      assert Flight(tr[k].threads, p) == {};
      NamingGrows(before, now, kept, target);
    }
  }
}
