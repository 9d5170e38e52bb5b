/**
  A race to move a view off a number is won: by the first thread that gets as far as its
  compare-and-swap, and some thread does, unless the process has no slot and gets none.
*/
module RaceOutcome {
  import opened DescriptorView
  import opened OverrideProtocol
  import opened StoreThenLoad
  import opened OverrideOutcomes
  import opened RelocationRace

  /** What p has as its own view is target; a process without a slot has none. */
  ghost predicate AtTarget(s: State, p: Identity, target: int) {
    if p == s.installer then s.base == target
    else forall i :: 0 <= i < |s.cells| && Is(s.cells[i], p) ==> s.cells[i].fd == target
  }

  /** The race of p's threads for target, from j to k. */
  ghost predicate IsRace(tr: seq<State>, evs: seq<Event>, j: nat, k: nat, p: Identity, target: int) {
    && IsRun(tr, evs) && j <= k < |tr| && RaceStarts(tr[j], p, target)
    && (forall m {:trigger evs[m]} :: j <= m < k ==> RaceEvent(tr[m], evs[m], p, target))
  }

  /** Some thread of p has got to its compare-and-swap between j and k. */
  ghost predicate HasSwapped(tr: seq<State>, evs: seq<Event>, j: nat, k: nat, p: Identity) {
    exists m :: j <= m < k && m < |tr| && m < |evs| && Writes(tr[m], evs[m], p)
  }

  // ---------------------------------------------------------------- the first swap wins

  /** A step of p that is no swap leaves its view, or publishes a slot that shows target. */
  lemma AtTargetStays(s: State, ev: Event, s': State, p: Identity, target: int)
    requires Inv(s) && Follows(s, ev, s') && p in s.alive && !Writes(s, ev, p) && AtTarget(s, p, target)
    requires By(s, ev, p) ==> Racing(s.threads[ev.thread].pc, target) && RaceEvent(s, ev, p, target)
    ensures AtTarget(s', p, target)
  {
    StepIsLocal(s, ev.thread, ev.action);
    StepOnCells(s, ev.thread, ev.action);
    assert ThreadOk(s, ev.thread);
    if !By(s, ev, p) {
      StepOfOthers(s, ev, s', p);
    }
    if p != s.installer {
      forall i | 0 <= i < |s'.cells| && Is(s'.cells[i], p)
        ensures s'.cells[i].fd == target
      {
        NewSlotShows(s, ev, s', p, target, i);
      }
    }
  }

  lemma NewSlotShows(s: State, ev: Event, s': State, p: Identity, target: int, i: nat)
    requires Inv(s) && Follows(s, ev, s') && p in s.alive && !Writes(s, ev, p) && AtTarget(s, p, target)
    requires By(s, ev, p) ==> Racing(s.threads[ev.thread].pc, target) && RaceEvent(s, ev, p, target)
    requires p != s.installer && i < |s.cells| == |s'.cells| && Is(s'.cells[i], p)
    requires CellStep(s, s', ev.thread, i)
    ensures s'.cells[i].fd == target
  {
    assert ThreadOk(s, ev.thread);
  }

  /** A swap of a view that is at target is made. */
  lemma SwapIsMade(s: State, ev: Event, s': State, p: Identity, target: int)
    requires Inv(s) && Follows(s, ev, s') && Writes(s, ev, p) && AtTarget(s, p, target)
    requires Racing(s.threads[ev.thread].pc, target)
    ensures s'.moves == s.moves + [Moved(p, target, s.threads[ev.thread].pc.goal.to)]
  {
    assert ThreadOk(s, ev.thread);
  }

  lemma {:induction false} UntouchedUntilSwap(tr: seq<State>, evs: seq<Event>, j: nat, k: nat, p: Identity, target: int)
    requires IsRace(tr, evs, j, k, p, target) && AtTarget(tr[j], p, target) && !HasSwapped(tr, evs, j, k, p)
    ensures AtTarget(tr[k], p, target)
    decreases k - j
  {
    if j < k {
      assert !Writes(tr[k - 1], evs[k - 1], p);
      assert !HasSwapped(tr, evs, j, k - 1, p);
      UntouchedUntilSwap(tr, evs, j, k - 1, p, target);
      RaceKeeps(tr, evs, j, k - 1, p, target);
      RunKeeps(tr, evs, k - 1);
      assert StepAt(tr, evs, k - 1);
      AtTargetStays(tr[k - 1], evs[k - 1], tr[k], p, target);
    }
  }

  /** The transitions of p grow with each state of the race. */
  lemma WonGrows(tr: seq<State>, evs: seq<Event>, start: State, k: nat, p: Identity)
    requires IsRun(tr, evs) && k < |evs| && start.moves <= tr[k].moves
    ensures start.moves <= tr[k + 1].moves && |Won(start, tr[k], p)| <= |Won(start, tr[k + 1], p)|
    ensures !Writes(tr[k], evs[k], p) ==> Won(start, tr[k + 1], p) == Won(start, tr[k], p)
  {
    RunKeeps(tr, evs, k);
    assert StepAt(tr, evs, k);
    var (s, s') := (tr[k], tr[k + 1]);
    if !By(s, evs[k], p) {
      OthersMakeNone(start, s, evs[k], s', p);
    } else {
      OwnMoves(s, evs[k], s');
      AppendWon(start, s, s', s'.moves[|s.moves|..], p);
    }
  }

  lemma OwnMoves(s: State, ev: Event, s': State)
    requires Inv(s) && Follows(s, ev, s')
    ensures s.moves <= s'.moves && |s'.moves| <= |s.moves| + 1
    ensures s'.moves == s.moves + s'.moves[|s.moves|..]
    ensures forall m :: m in s'.moves[|s.moves|..] ==> m.id == s.threads[ev.thread].id
    ensures !Writes(s, ev, s.threads[ev.thread].id) ==> s'.moves == s.moves
  {
    assert ThreadOk(s, ev.thread);
    MovesGrow(s, ev, s');
  }

  lemma {:induction false} WonStays(tr: seq<State>, evs: seq<Event>, j: nat, i: nat, k: nat, p: Identity)
    requires IsRun(tr, evs) && j <= i <= k < |tr| && tr[j].moves <= tr[i].moves
    ensures tr[j].moves <= tr[k].moves && |Won(tr[j], tr[i], p)| <= |Won(tr[j], tr[k], p)|
    ensures !HasSwapped(tr, evs, i, k, p) ==> Won(tr[j], tr[k], p) == Won(tr[j], tr[i], p)
    decreases k - i
  {
    if i < k {
      WonStays(tr, evs, j, i, k - 1, p);
      WonGrows(tr, evs, tr[j], k - 1, p);
      if !HasSwapped(tr, evs, i, k, p) {
        assert !HasSwapped(tr, evs, i, k - 1, p) && !Writes(tr[k - 1], evs[k - 1], p);
      }
    }
  }

  lemma {:induction false} FirstSwap(tr: seq<State>, evs: seq<Event>, j: nat, k: nat, p: Identity) returns (m: nat)
    requires HasSwapped(tr, evs, j, k, p)
    ensures j <= m < k && m < |tr| && m < |evs| && Writes(tr[m], evs[m], p) && !HasSwapped(tr, evs, j, m, p)
    decreases k
  {
    if HasSwapped(tr, evs, j, k - 1, p) {
      m := FirstSwap(tr, evs, j, k - 1, p);
    } else {
      m := k - 1;
      var m' :| j <= m' < k && m' < |tr| && m' < |evs| && Writes(tr[m'], evs[m'], p);
      assert m' == m;
    }
  }

  lemma NothingWonYet(start: State, p: Identity)
    ensures Won(start, start, p) == []
  {
    assert start.moves[|start.moves|..] == [];
  }

  /**
    If p's own view, if it has one, is target at the start, then a transition is made if and only if
    some thread of p gets to its compare-and-swap.
  */
  lemma FirstSwapWins(tr: seq<State>, evs: seq<Event>, j: nat, k: nat, p: Identity, target: int)
    requires IsRace(tr, evs, j, k, p, target) && AtTarget(tr[j], p, target)
    ensures HasSwapped(tr, evs, j, k, p) <==> Won(tr[j], tr[k], p) != []
  {
    NothingWonYet(tr[j], p);
    if HasSwapped(tr, evs, j, k, p) {
      var m := FirstSwap(tr, evs, j, k, p);
      SwapWins(tr, evs, j, m, p, target);
      WonStays(tr, evs, j, m + 1, k, p);
    } else {
      WonStays(tr, evs, j, j, k, p);
    }
  }

  lemma SwapWins(tr: seq<State>, evs: seq<Event>, j: nat, m: nat, p: Identity, target: int)
    requires IsRace(tr, evs, j, m, p, target) && AtTarget(tr[j], p, target) && !HasSwapped(tr, evs, j, m, p)
    requires m < |evs| && Writes(tr[m], evs[m], p)
    ensures tr[j].moves <= tr[m + 1].moves && Won(tr[j], tr[m + 1], p) != []
  {
    UntouchedUntilSwap(tr, evs, j, m, p, target);
    RaceKeeps(tr, evs, j, m, p, target);
    RunKeeps(tr, evs, m);
    assert StepAt(tr, evs, m);
    SwapIsMade(tr[m], evs[m], tr[m + 1], p, target);
    AppendWon(tr[j], tr[m], tr[m + 1], [Moved(p, target, tr[m].threads[evs[m].thread].pc.goal.to)], p);
  }

  // ---------------------------------------------------------------- some thread gets there

  /** p is the installer, or cell i is its slot. */
  ghost predicate Has(s: State, p: Identity, i: nat) {
    p == s.installer || (i < |s.cells| && Is(s.cells[i], p))
  }

  /** On the way to the compare-and-swap, and not past the slot of its process. */
  predicate OnCourse(pc: Pc, installer: bool, i: nat, target: int) {
    if installer then
      pc == LoadBase(Relocate(target)) || pc == Dup(target) || (pc.OnBase? && pc.goal.Move? && pc.goal.from == target)
    else
      || (AtLoad(pc) && !pc.LoadBase? && pc.use == Relocate(target) && (if pc.LoadPid? then pc.i <= i else pc.i == i))
      || pc == Dup(target)
      || (&& HasGoal(pc) && pc.goal.Move? && pc.goal.from == target
          && !pc.OnBase? && !pc.Claim? && !pc.WriteTime? && !pc.WriteFd? && !pc.PublishPid?
          && (pc.FindPid? ==> pc.i <= i)
          && (pc.FindTime? || pc.OnSlot? ==> pc.i == i)
          && (pc.DropLock? ==> pc.slot == i))
  }

  lemma NextOnCourse(s: State, p: Identity, pc: Pc, n: int, i: nat, target: int)
    requires Shape(s) && CellsOk(s) && p in s.alive && PcOk(pc, |s.cells|) && Knows(s.alive, s.cells, p, pc)
    requires Has(s, p, i) && AtTarget(s, p, target) && OnCourse(pc, p == s.installer, i, target)
    requires !pc.OnBase? && !pc.OnSlot?
    ensures OnCourse(Do(s, p, pc, n).pc, p == s.installer, i, target)
  {
    if p != s.installer {
      assert forall m :: 0 <= m < |s.cells| && s.cells[m].pid == p.pid ==> m == i;
      assert forall m :: 0 <= m < |s.cells| && s.cells[m].pid == p.pid ==> Is(s.cells[m], p);
    }
  }

  lemma CourseStep(s: State, ev: Event, s': State, u: nat, p: Identity, i: nat, target: int)
    requires Inv(s) && Follows(s, ev, s') && p in s'.alive && u < |s.threads| && s.threads[u].id == p
    requires Has(s, p, i) && AtTarget(s, p, target) && OnCourse(s.threads[u].pc, p == s.installer, i, target)
    requires !Writes(s, ev, p)
    ensures u < |s'.threads| && s'.threads[u].id == p && s'.installer == s.installer
    ensures Has(s', p, i) && OnCourse(s'.threads[u].pc, p == s'.installer, i, target)
  {
    HasStays(s, ev, s', p, i);
    BusyThreadWaits(s, ev, s', u);
    if Advances(ev, u) {
      EffectOnCells(s, u, ev.action.n);
      NextOnCourse(s, p, s.threads[u].pc, ev.action.n, i, target);
    }
  }

  lemma HasStays(s: State, ev: Event, s': State, p: Identity, i: nat)
    requires Inv(s) && Follows(s, ev, s') && p in s.alive && Has(s, p, i)
    ensures Has(s', p, i) && s'.installer == s.installer
  {
    StepIsLocal(s, ev.thread, ev.action);
    StepOnCells(s, ev.thread, ev.action);
    if p != s.installer {
      CellStays(s, s', ev.thread, i, p);
    }
  }

  lemma {:induction false} CourseRuns(tr: seq<State>, evs: seq<Event>, j: nat, b: nat, k: nat, u: nat, p: Identity,
                                      i: nat, target: int)
    requires IsRace(tr, evs, j, k, p, target) && j <= b < k && AtTarget(tr[j], p, target) && Has(tr[j], p, i)
    requires evs[b] == Event(u, BeginRelocate(target)) && By(tr[b], evs[b], p)
    requires !HasSwapped(tr, evs, j, k, p)
    ensures u < |tr[k].threads| && tr[k].threads[u].id == p
    ensures Has(tr[k], p, i) && OnCourse(tr[k].threads[u].pc, p == tr[k].installer, i, target)
    decreases k
  {
    assert p in tr[k].alive by {
      RaceKeeps(tr, evs, j, k, p, target);
    }
    if k == b + 1 {
      CourseBegins(tr, evs, j, b, u, p, i, target);
    } else {
      assert !HasSwapped(tr, evs, j, k - 1, p) && !Writes(tr[k - 1], evs[k - 1], p);
      CourseRuns(tr, evs, j, b, k - 1, u, p, i, target);
      UntouchedUntilSwap(tr, evs, j, k - 1, p, target);
      CourseOneStep(tr, evs, k - 1, u, p, i, target);
    }
  }

  lemma CourseOneStep(tr: seq<State>, evs: seq<Event>, k: nat, u: nat, p: Identity, i: nat, target: int)
    requires IsRun(tr, evs) && k < |evs| && p in tr[k + 1].alive && u < |tr[k].threads| && tr[k].threads[u].id == p
    requires Has(tr[k], p, i) && AtTarget(tr[k], p, target) && !Writes(tr[k], evs[k], p)
    requires OnCourse(tr[k].threads[u].pc, p == tr[k].installer, i, target)
    ensures u < |tr[k + 1].threads| && tr[k + 1].threads[u].id == p
    ensures Has(tr[k + 1], p, i) && OnCourse(tr[k + 1].threads[u].pc, p == tr[k + 1].installer, i, target)
  {
    RunKeeps(tr, evs, k);
    assert StepAt(tr, evs, k);
    CourseStep(tr[k], evs[k], tr[k + 1], u, p, i, target);
  }

  lemma CourseBegins(tr: seq<State>, evs: seq<Event>, j: nat, b: nat, u: nat, p: Identity, i: nat, target: int)
    requires IsRun(tr, evs) && j <= b < |evs| && Has(tr[j], p, i) && p in tr[b + 1].alive
    requires evs[b] == Event(u, BeginRelocate(target)) && By(tr[b], evs[b], p)
    ensures u < |tr[b + 1].threads| && tr[b + 1].threads[u].id == p
    ensures Has(tr[b + 1], p, i) && OnCourse(tr[b + 1].threads[u].pc, p == tr[b + 1].installer, i, target)
  {
    InstallerStays(tr, evs, j, b + 1);
    InstallerStays(tr, evs, b, b + 1);
    if p != tr[j].installer {
      LivingKeepSlots(tr, evs, j, b + 1, p, i);
    }
    assert StepAt(tr, evs, b);
  }

  lemma {:induction false} InstallerStays(tr: seq<State>, evs: seq<Event>, j: nat, k: nat)
    requires IsRun(tr, evs) && j <= k < |tr|
    ensures tr[k].installer == tr[j].installer
    decreases k - j
  {
    if j < k {
      InstallerStays(tr, evs, j, k - 1);
      assert StepAt(tr, evs, k - 1);
    }
  }

  /**
    If the installer, or a process with a slot, races to move its view off target, at least one thread
    began and all have finished, then exactly one transition was made, and the view is off target.
  */
  lemma RaceIsWon(tr: seq<State>, evs: seq<Event>, j: nat, b: nat, k: nat, p: Identity, i: nat, target: int)
    requires IsRace(tr, evs, j, k, p, target) && j <= b < k && AtTarget(tr[j], p, target) && Has(tr[j], p, i)
    requires evs[b].action == BeginRelocate(target) && By(tr[b], evs[b], p) && AllIdle(tr[k], p)
    ensures |Won(tr[j], tr[k], p)| == 1 && MovedOff(tr[k], p, target)
  {
    if !HasSwapped(tr, evs, j, k, p) {
      CourseRuns(tr, evs, j, b, k, evs[b].thread, p, i, target);
      assert false;
    }
    FirstSwapWins(tr, evs, j, k, p, target);
    RaceKeeps(tr, evs, j, k, p, target);
  }

  /**
    Whatever its slots, a process whose race made no transition has only relocations that read another
    number than target, or were refused a slot.
  */
  lemma NobodyWonMeans(tr: seq<State>, evs: seq<Event>, j: nat, k: nat, p: Identity, target: int,
                       t: nat, b: nat, e: nat)
    requires IsRace(tr, evs, j, k, p, target) && AtTarget(tr[j], p, target) && Won(tr[j], tr[k], p) == []
    requires IsCall(tr, evs, t, b, e) && evs[b].action == BeginRelocate(target) && By(tr[b], evs[b], p)
    requires j <= b && e <= k
    ensures ReadElsewhere(tr, evs, t, b, e, target) || WasRefused(tr, evs, t, b, e)
  {
    forall n
      ensures HasAttempted(tr, evs, t, b, e, Move(target, n)) ==> HasSwapped(tr, evs, j, k, p)
    {
      AttemptIsSwap(tr, evs, t, b, e, Move(target, n), j, k, p);
    }
    FirstSwapWins(tr, evs, j, k, p, target);
    RelocateEnds(tr, evs, t, b, e, target);
  }

  lemma AttemptIsSwap(tr: seq<State>, evs: seq<Event>, t: nat, b: nat, e: nat, goal: Goal, j: nat, k: nat, p: Identity)
    requires IsRun(tr, evs) && j <= b < e <= k < |tr| && t < |tr[b].threads| && tr[b].threads[t].id == p
    ensures HasAttempted(tr, evs, t, b, e, goal) ==> HasSwapped(tr, evs, j, k, p)
  {
    if HasAttempted(tr, evs, t, b, e, goal) {
      var m :| b < m < e && Attempts(tr, evs, t, m, goal);
      SameProcess(tr, evs, b, m, t);
      assert Writes(tr[m], evs[m], p);
    }
  }
}
