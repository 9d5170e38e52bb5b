/**
  What a load, a store and a relocation of a view have done once they are over, in every
  interleaving, and when a process is refused an override slot.
*/
module OverrideOutcomes {
  import opened DescriptorView
  import opened OverrideProtocol
  import opened StoreThenLoad

  /** Thread t begins a call with event b, and is idle again at e for the first time. */
  ghost predicate IsCall(tr: seq<State>, evs: seq<Event>, t: nat, b: nat, e: nat) {
    && IsRun(tr, evs) && b < e < |tr| && evs[b].thread == t
    && t < |tr[e].threads| && tr[e].threads[t].pc.Idle?
    && (forall m :: b < m < e ==> t < |tr[m].threads| && !tr[m].threads[t].pc.Idle?)
  }

  ghost predicate Within(tr: seq<State>, evs: seq<Event>, t: nat, b: nat, k: nat) {
    IsRun(tr, evs) && b < k < |tr| && evs[b].thread == t < |tr[k].threads|
  }

  lemma CallBegins(tr: seq<State>, evs: seq<Event>, t: nat, b: nat)
    requires IsRun(tr, evs) && b < |evs| && evs[b].thread == t
    ensures Within(tr, evs, t, b, b + 1) && StepAt(tr, evs, b)
    ensures tr[b + 1].threads[t].id == tr[b].threads[t].id && tr[b + 1].installer == tr[b].installer
  {
    RunKeeps(tr, evs, b);
    assert StepAt(tr, evs, b);
    StepIsLocal(tr[b], t, evs[b].action);
  }

  /** From k to k + 1 thread t advances, or stays where it is while another thread steps or a process dies. */
  lemma CallGoesOn(tr: seq<State>, evs: seq<Event>, t: nat, b: nat, k: nat)
    requires Within(tr, evs, t, b, k) && k < |evs| && !tr[k].threads[t].pc.Idle?
    ensures Within(tr, evs, t, b, k + 1) && Inv(tr[k]) && ThreadOk(tr[k], t) && Ready(tr[k], t)
    ensures StepAt(tr, evs, k)
    ensures tr[k + 1].threads[t].id == tr[k].threads[t].id && tr[k + 1].installer == tr[k].installer
    ensures !Advances(evs[k], t) ==> tr[k + 1].threads[t] == tr[k].threads[t]
    ensures Advances(evs[k], t) ==>
              tr[k].threads[t].id in tr[k].alive && tr[k + 1] == Advanced(tr[k], t, evs[k].action.n)
  {
    RunKeeps(tr, evs, k);
    assert StepAt(tr, evs, k);
    BusyThreadWaits(tr[k], evs[k], tr[k + 1], t);
  }

  lemma BusyThreadWaits(s: State, ev: Event, s': State, t: nat)
    requires Inv(s) && Follows(s, ev, s') && t < |s.threads| && !s.threads[t].pc.Idle?
    ensures ThreadOk(s, t) && Ready(s, t) && t < |s'.threads|
    ensures s'.threads[t].id == s.threads[t].id && s'.installer == s.installer
    ensures !Advances(ev, t) ==> s'.threads[t] == s.threads[t]
    ensures Advances(ev, t) ==> s.threads[t].id in s.alive && s' == Advanced(s, t, ev.action.n)
  {
    assert ThreadOk(s, t);
    StepIsLocal(s, ev.thread, ev.action);
    assert ev.thread == t ==> ev.action.Advance? || ev.action.Die?;
  }

  predicate Advances(ev: Event, t: nat) {
    ev.thread == t && ev.action.Advance?
  }

  // ---------------------------------------------------------------- load

  predicate AtLoad(pc: Pc) {
    pc.LoadPid? || pc.LoadTime? || pc.LoadFd? || pc.LoadBase?
  }

  /** At some time up to k cell i was not published under x. */
  ghost predicate WasOther(tr: seq<State>, b: nat, k: nat, i: nat, x: Identity) {
    exists m :: b < m <= k && m < |tr| && i < |tr[m].cells| && !Is(tr[m].cells[i], x)
  }

  lemma OtherStays(tr: seq<State>, b: nat, k: nat, k': nat, x: Identity)
    requires k <= k'
    ensures forall i: nat :: WasOther(tr, b, k, i, x) ==> WasOther(tr, b, k', i, x)
  {
    forall i: nat | WasOther(tr, b, k, i, x)
      ensures WasOther(tr, b, k', i, x)
    {
      var m :| b < m <= k && m < |tr| && i < |tr[m].cells| && !Is(tr[m].cells[i], x);
    }
  }

  /** The cells below the one the load is at were not its process's; at the base, none was. */
  ghost predicate LoadAt(tr: seq<State>, t: nat, b: nat, k: nat, use: Use)
    requires k < |tr| && t < |tr[k].threads|
  {
    var (pc, x) := (tr[k].threads[t].pc, tr[k].threads[t].id);
    && AtLoad(pc) && pc.use == use
    && (x != tr[k].installer && (pc.LoadPid? || pc.LoadBase?) ==>
          forall i :: 0 <= i < |tr[k].cells| && (pc.LoadPid? ==> i < pc.i) ==> WasOther(tr, b, k, i, x))
  }

  /** Event m makes a load of thread t, begun with event b, return v: its process's slot, or the base without one. */
  ghost predicate Loads(tr: seq<State>, evs: seq<Event>, t: nat, b: nat, m: nat, v: int) {
    && m < |evs| && m + 1 < |tr| && Advances(evs[m], t) && t < |tr[m].threads|
    && var x := tr[m].threads[t].id;
       && tr[m + 1].loads == tr[m].loads + [Loaded(x, v)]
       && (|| (exists i :: 0 <= i < |tr[m].cells| && Is(tr[m].cells[i], x) && tr[m].cells[i].fd == v)
           || (tr[m].base == v && (x == tr[m].installer || NoSlotSeen(tr, b, m, x))))
  }

  /** Each cell was, at some time of the scan, not x's. */
  ghost predicate NoSlotSeen(tr: seq<State>, b: nat, m: nat, x: Identity)
    requires m < |tr|
  {
    forall i :: 0 <= i < |tr[m].cells| ==> WasOther(tr, b, m, i, x)
  }

  lemma LoadStep(tr: seq<State>, evs: seq<Event>, t: nat, b: nat, k: nat, use: Use)
    requires Within(tr, evs, t, b, k) && k < |evs| && LoadAt(tr, t, b, k, use)
    ensures Within(tr, evs, t, b, k + 1)
    ensures || LoadAt(tr, t, b, k + 1, use)
            || exists v :: Loads(tr, evs, t, b, k, v) && tr[k + 1].threads[t].pc == AfterLoad(use, v)
  {
    CallGoesOn(tr, evs, t, b, k);
    var (pc, x) := (tr[k].threads[t].pc, tr[k].threads[t].id);
    OtherStays(tr, b, k, k + 1, x);
    StepOnCells(tr[k], evs[k].thread, evs[k].action);
    if Advances(evs[k], t) {
      if pc.LoadFd? {
        assert Loads(tr, evs, t, b, k, tr[k].cells[pc.i].fd);
      } else if pc.LoadBase? {
        assert Loads(tr, evs, t, b, k, tr[k].base);
      } else if pc.i < |tr[k].cells| && !Is(tr[k].cells[pc.i], x) {
        assert WasOther(tr, b, k + 1, pc.i, x);
      }
    }
  }

  ghost predicate HasLoaded(tr: seq<State>, evs: seq<Event>, t: nat, b: nat, k: nat) {
    exists m: nat, v :: b < m < k && Loads(tr, evs, t, b, m, v)
  }

  lemma {:induction false} LoadRuns(tr: seq<State>, evs: seq<Event>, t: nat, b: nat, k: nat, e: nat)
    requires IsCall(tr, evs, t, b, e) && evs[b].action == BeginLoad && b < k <= e
    ensures Within(tr, evs, t, b, k)
    ensures LoadAt(tr, t, b, k, Read) || (tr[k].threads[t].pc.Idle? && HasLoaded(tr, evs, t, b, k))
    decreases k
  {
    if k == b + 1 {
      CallBegins(tr, evs, t, b);
    } else {
      LoadRuns(tr, evs, t, b, k - 1, e);
      LoadStep(tr, evs, t, b, k - 1, Read);
    }
  }

  /** A load that is over has returned what its process's slot held, or the base if it had none. */
  lemma LoadEnds(tr: seq<State>, evs: seq<Event>, t: nat, b: nat, e: nat)
    requires IsCall(tr, evs, t, b, e) && evs[b].action == BeginLoad
    ensures HasLoaded(tr, evs, t, b, e)
  {
    LoadRuns(tr, evs, t, b, e, e);
  }

  // ---------------------------------------------------------------- store and relocation

  /** Event m is the store, or the compare-and-swap, of thread t's goal. */
  ghost predicate Attempts(tr: seq<State>, evs: seq<Event>, t: nat, m: nat, goal: Goal) {
    && m < |evs| && m < |tr| && Advances(evs[m], t) && t < |tr[m].threads|
    && var pc := tr[m].threads[t].pc; (pc.OnBase? || pc.OnSlot?) && pc.goal == goal
  }

  ghost predicate HasAttempted(tr: seq<State>, evs: seq<Event>, t: nat, b: nat, k: nat, goal: Goal) {
    exists m :: b < m < k && Attempts(tr, evs, t, m, goal)
  }

  /** With event m thread t finds itself at the end of the slots, without one. */
  ghost predicate Refused(tr: seq<State>, evs: seq<Event>, t: nat, m: nat) {
    && m < |evs| && m < |tr| && Advances(evs[m], t) && t < |tr[m].threads|
    && tr[m].threads[t].pc.Claim? && tr[m].threads[t].pc.i >= |tr[m].cells|
  }

  ghost predicate WasRefused(tr: seq<State>, evs: seq<Event>, t: nat, b: nat, k: nat) {
    exists m :: b < m < k && Refused(tr, evs, t, m)
  }

  /** On the way to its goal, past it, or refused. */
  ghost predicate GoalAt(tr: seq<State>, evs: seq<Event>, t: nat, b: nat, k: nat, goal: Goal)
    requires Within(tr, evs, t, b, k)
  {
    var pc := tr[k].threads[t].pc;
    && (HasGoal(pc) ==> pc.goal == goal)
    && (HasGoal(pc) || pc == Idle || pc == Lost(goal))
    && (pc.DropLock? && pc.slot < 0 ==> WasRefused(tr, evs, t, b, k))
    && (!HasGoal(pc) ==> HasAttempted(tr, evs, t, b, k, goal) || WasRefused(tr, evs, t, b, k))
  }

  lemma NextGoal(s: State, id: Identity, pc: Pc, n: int, goal: Goal)
    requires PcOk(pc, |s.cells|) && id in s.tables
    requires (HasGoal(pc) && pc.goal == goal) || pc == Lost(goal)
    ensures var pc' := Do(s, id, pc, n).pc;
      && (HasGoal(pc') ==> pc'.goal == goal && HasGoal(pc))
      && (HasGoal(pc') || pc' == Idle || pc' == Lost(goal))
      && (pc'.DropLock? && pc'.slot < 0 ==> pc.Claim? && pc.i >= |s.cells|)
      && (HasGoal(pc) && !HasGoal(pc') ==> pc.OnBase? || pc.OnSlot? || (pc.DropLock? && pc.slot < 0))
  {
  }

  lemma GoalStep(tr: seq<State>, evs: seq<Event>, t: nat, b: nat, k: nat, goal: Goal)
    requires Within(tr, evs, t, b, k) && k < |evs| && !tr[k].threads[t].pc.Idle? && GoalAt(tr, evs, t, b, k, goal)
    ensures Within(tr, evs, t, b, k + 1) && GoalAt(tr, evs, t, b, k + 1, goal)
  {
    CallGoesOn(tr, evs, t, b, k);
    var (id, pc) := (tr[k].threads[t].id, tr[k].threads[t].pc);
    if Advances(evs[k], t) {
      assert tr[k + 1].threads[t].pc == Do(tr[k], id, pc, evs[k].action.n).pc;
      NextGoal(tr[k], id, pc, evs[k].action.n, goal);
    }
    TriedStays(tr, evs, t, b, k, k + 1, goal);
  }

  lemma TriedStays(tr: seq<State>, evs: seq<Event>, t: nat, b: nat, k: nat, k': nat, goal: Goal)
    requires b < k < k'
    ensures HasAttempted(tr, evs, t, b, k, goal) || Attempts(tr, evs, t, k, goal) ==>
              HasAttempted(tr, evs, t, b, k', goal)
    ensures WasRefused(tr, evs, t, b, k) || Refused(tr, evs, t, k) ==> WasRefused(tr, evs, t, b, k')
  {
  }

  lemma {:induction false} StoreRuns(tr: seq<State>, evs: seq<Event>, t: nat, b: nat, k: nat, e: nat, fd: int)
    requires IsCall(tr, evs, t, b, e) && evs[b].action == BeginStore(fd) && b < k <= e
    ensures Within(tr, evs, t, b, k) && GoalAt(tr, evs, t, b, k, Put(fd))
    decreases k
  {
    if k == b + 1 {
      CallBegins(tr, evs, t, b);
    } else {
      StoreRuns(tr, evs, t, b, k - 1, e, fd);
      GoalStep(tr, evs, t, b, k - 1, Put(fd));
    }
  }

  /** A store that is over has stored, or was refused a slot. */
  lemma StoreEnds(tr: seq<State>, evs: seq<Event>, t: nat, b: nat, e: nat, fd: int)
    requires IsCall(tr, evs, t, b, e) && evs[b].action == BeginStore(fd)
    ensures HasAttempted(tr, evs, t, b, e, Put(fd)) || WasRefused(tr, evs, t, b, e)
  {
    StoreRuns(tr, evs, t, b, e, e, fd);
  }

  /** The load of the relocation has returned another number than the target. */
  ghost predicate ReadElsewhere(tr: seq<State>, evs: seq<Event>, t: nat, b: nat, k: nat, target: int) {
    exists m: nat, v :: b < m < k && Loads(tr, evs, t, b, m, v) && v != target
  }

  /** Event m duplicates the target at a number that was closed, or fails to. */
  ghost predicate Duplicates(tr: seq<State>, evs: seq<Event>, t: nat, m: nat, target: int, n: int) {
    && m < |evs| && m + 1 < |tr| && Advances(evs[m], t) && t < |tr[m].threads|
    && var x := tr[m].threads[t].id;
       && x in tr[m].tables && x in tr[m + 1].tables
       && (n >= 0 ==> target in tr[m].tables[x] && n !in tr[m].tables[x]
                      && tr[m + 1].tables[x] == tr[m].tables[x][n := tr[m].tables[x][target]])
       && (n < 0 ==> n == -1 && tr[m + 1].tables[x] == tr[m].tables[x])
  }

  ghost predicate HasDuplicated(tr: seq<State>, evs: seq<Event>, t: nat, b: nat, k: nat, target: int, n: int) {
    exists m :: b < m < k && Duplicates(tr, evs, t, m, target, n)
  }

  /** Thread t has a duplicate of the target, or has failed to make one, and is on the way to moving the view there. */
  ghost predicate MoveAt(tr: seq<State>, evs: seq<Event>, t: nat, b: nat, k: nat, target: int)
    requires Within(tr, evs, t, b, k)
  {
    exists n :: HasDuplicated(tr, evs, t, b, k, target, n) && GoalAt(tr, evs, t, b, k, Move(target, n))
  }

  ghost predicate RelocateAt(tr: seq<State>, evs: seq<Event>, t: nat, b: nat, k: nat, target: int)
    requires Within(tr, evs, t, b, k)
  {
    || LoadAt(tr, t, b, k, Relocate(target))
    || (tr[k].threads[t].pc.Idle? && ReadElsewhere(tr, evs, t, b, k, target))
    || tr[k].threads[t].pc == Dup(target)
    || MoveAt(tr, evs, t, b, k, target)
  }

  lemma DupStep(tr: seq<State>, evs: seq<Event>, t: nat, b: nat, k: nat, target: int)
    requires Within(tr, evs, t, b, k) && k < |evs| && tr[k].threads[t].pc == Dup(target)
    ensures Within(tr, evs, t, b, k + 1)
    ensures tr[k + 1].threads[t].pc == Dup(target) || MoveAt(tr, evs, t, b, k + 1, target)
  {
    CallGoesOn(tr, evs, t, b, k);
    if Advances(evs[k], t) {
      var (x, n) := (tr[k].threads[t].id, evs[k].action.n);
      var to := if n >= 0 && target in tr[k].tables[x] then n else -1;
      assert Duplicates(tr, evs, t, k, target, to);
      assert HasDuplicated(tr, evs, t, b, k + 1, target, to);
      assert GoalAt(tr, evs, t, b, k + 1, Move(target, to));
    }
  }

  lemma MoveStep(tr: seq<State>, evs: seq<Event>, t: nat, b: nat, k: nat, target: int)
    requires Within(tr, evs, t, b, k) && k < |evs| && !tr[k].threads[t].pc.Idle? && MoveAt(tr, evs, t, b, k, target)
    ensures Within(tr, evs, t, b, k + 1) && MoveAt(tr, evs, t, b, k + 1, target)
  {
    var n :| HasDuplicated(tr, evs, t, b, k, target, n) && GoalAt(tr, evs, t, b, k, Move(target, n));
    GoalStep(tr, evs, t, b, k, Move(target, n));
    var m :| b < m < k && Duplicates(tr, evs, t, m, target, n);
    assert HasDuplicated(tr, evs, t, b, k + 1, target, n);
  }

  lemma RelocateStep(tr: seq<State>, evs: seq<Event>, t: nat, b: nat, k: nat, target: int)
    requires Within(tr, evs, t, b, k) && k < |evs| && !tr[k].threads[t].pc.Idle?
    requires RelocateAt(tr, evs, t, b, k, target)
    ensures Within(tr, evs, t, b, k + 1) && RelocateAt(tr, evs, t, b, k + 1, target)
  {
    if LoadAt(tr, t, b, k, Relocate(target)) {
      LoadStep(tr, evs, t, b, k, Relocate(target));
    } else if tr[k].threads[t].pc == Dup(target) {
      DupStep(tr, evs, t, b, k, target);
    } else {
      MoveStep(tr, evs, t, b, k, target);
    }
  }

  lemma {:induction false} RelocateRuns(tr: seq<State>, evs: seq<Event>, t: nat, b: nat, k: nat, e: nat, target: int)
    requires IsCall(tr, evs, t, b, e) && evs[b].action == BeginRelocate(target) && b < k <= e
    ensures Within(tr, evs, t, b, k) && RelocateAt(tr, evs, t, b, k, target)
    decreases k
  {
    if k == b + 1 {
      CallBegins(tr, evs, t, b);
    } else {
      RelocateRuns(tr, evs, t, b, k - 1, e, target);
      RelocateStep(tr, evs, t, b, k - 1, target);
    }
  }

  /**
    A relocation that is over has read another number than the target, or has duplicated the target, or
    failed to, and then has tried to move the view there, unless it was refused a slot.
  */
  lemma RelocateEnds(tr: seq<State>, evs: seq<Event>, t: nat, b: nat, e: nat, target: int)
    requires IsCall(tr, evs, t, b, e) && evs[b].action == BeginRelocate(target)
    ensures || ReadElsewhere(tr, evs, t, b, e, target)
            || exists n :: && HasDuplicated(tr, evs, t, b, e, target, n)
                           && (HasAttempted(tr, evs, t, b, e, Move(target, n)) || WasRefused(tr, evs, t, b, e))
  {
    RelocateRuns(tr, evs, t, b, e, e, target);
    if MoveAt(tr, evs, t, b, e, target) {
      var n :| HasDuplicated(tr, evs, t, b, e, target, n) && GoalAt(tr, evs, t, b, e, Move(target, n));
    }
  }

  // ---------------------------------------------------------------- who is refused

  /** Cell i could be claimed: it is free, or its owner is dead. */
  predicate Claimable(s: State, i: nat) {
    && i < |s.cells|
    && (s.cells[i].pid == 0 || (s.cells[i].pid > 0 && Identity(s.cells[i].pid, s.cells[i].starttime) !in s.alive))
  }

  /** The sweep has been at cell i. */
  predicate PastSweep(pc: Pc, i: nat) {
    || ((pc.GcPid? || pc.GcTime? || pc.GcTest? || pc.GcCas?) && pc.i > i)
    || pc.TakeLock? || pc.FindPid? || pc.FindTime? || pc.Claim?
  }

  /** Where a thread stands while cell i is claimable all along: it frees the cell, and does not go past it. */
  ghost predicate RoomAt(s: State, t: nat, i: nat)
    requires t < |s.threads| && i < |s.cells|
  {
    var pc := s.threads[t].pc;
    && (PastSweep(pc, i) ==> s.cells[i].pid == 0)
    && ((pc.GcTime? || pc.GcTest? || pc.GcCas?) && pc.i == i ==> s.cells[i].pid == pc.p || s.cells[i].pid == 0)
    && (pc.Claim? ==> pc.i <= i)
  }

  lemma RoomStep(tr: seq<State>, evs: seq<Event>, t: nat, b: nat, k: nat, i: nat)
    requires Within(tr, evs, t, b, k) && k < |evs| && !tr[k].threads[t].pc.Idle?
    requires Claimable(tr[k], i) && Claimable(tr[k + 1], i) && RoomAt(tr[k], t, i)
    ensures Within(tr, evs, t, b, k + 1) && RoomAt(tr[k + 1], t, i)
  {
    CallGoesOn(tr, evs, t, b, k);
    StepOnCells(tr[k], evs[k].thread, evs[k].action);
    assert CellStep(tr[k], tr[k + 1], evs[k].thread, i);
    if Advances(evs[k], t) {
      RoomAdvance(tr[k], t, evs[k].action.n, i);
    }
  }

  lemma RoomAdvance(s: State, t: nat, n: int, i: nat)
    requires Inv(s) && Ready(s, t) && s.threads[t].id in s.alive && Claimable(s, i) && RoomAt(s, t, i)
    requires Claimable(Advanced(s, t, n), i)
    ensures RoomAt(Advanced(s, t, n), t, i)
  {
    var (id, pc) := (s.threads[t].id, s.threads[t].pc);
    assert ThreadOk(s, t);
    RoomNext(s, id, pc, n, i);
    EffectOnCells(s, t, n);
  }

  lemma EffectOnCells(s: State, t: nat, n: int)
    requires Ready(s, t)
    ensures var next := Do(s, s.threads[t].id, s.threads[t].pc, n);
      && (next.effect.SetCell? ==> next.effect.i < |s.cells|)
      && Advanced(s, t, n).cells == NewCells(s.cells, next.effect)
      && Advanced(s, t, n).threads[t].pc == next.pc
  {
  }

  lemma RoomNext(s: State, id: Identity, pc: Pc, n: int, i: nat)
    requires PcOk(pc, |s.cells|) && id in s.tables && Claimable(s, i) && Knows(s.alive, s.cells, id, pc)
    requires PastSweep(pc, i) ==> s.cells[i].pid == 0
    requires (pc.GcTime? || pc.GcTest? || pc.GcCas?) && pc.i == i ==> s.cells[i].pid == pc.p || s.cells[i].pid == 0
    requires pc.Claim? ==> pc.i <= i
    ensures var next := Do(s, id, pc, n);
      && (next.effect.SetCell? ==> next.effect.i < |s.cells|)
      && var (cells, pc') := (NewCells(s.cells, next.effect), next.pc);
         && (PastSweep(pc', i) ==> cells[i].pid == 0)
         && ((pc'.GcTime? || pc'.GcTest? || pc'.GcCas?) && pc'.i == i ==> cells[i].pid == pc'.p || cells[i].pid == 0)
         && (pc'.Claim? ==> pc'.i <= i)
  {
  }

  lemma {:induction false} RoomRuns(tr: seq<State>, evs: seq<Event>, t: nat, b: nat, k: nat, e: nat, i: nat)
    requires IsCall(tr, evs, t, b, e) && b < k <= e
    requires evs[b].action.BeginStore? || evs[b].action.BeginRelocate?
    requires forall m :: b < m <= k ==> Claimable(tr[m], i)
    ensures Within(tr, evs, t, b, k) && i < |tr[k].cells| && RoomAt(tr[k], t, i)
    decreases k
  {
    if k == b + 1 {
      CallBegins(tr, evs, t, b);
    } else {
      RoomRuns(tr, evs, t, b, k - 1, e, i);
      RoomStep(tr, evs, t, b, k - 1, i);
    }
  }

  /** At some time up to m cell i was reserved, or a living process's. */
  ghost predicate WasUnclaimable(tr: seq<State>, b: nat, m: nat, i: nat) {
    exists k :: b < k <= m && k < |tr| && !Claimable(tr[k], i)
  }

  /**
    A call that is refused is one of a process that did not install the view and has no slot, and each
    slot was, at some time of the call, reserved or a living process's.
  */
  lemma RefusedForCause(tr: seq<State>, evs: seq<Event>, t: nat, b: nat, m: nat, e: nat)
    requires IsCall(tr, evs, t, b, e) && b < m < e && Refused(tr, evs, t, m)
    requires evs[b].action.BeginStore? || evs[b].action.BeginRelocate?
    ensures var x := tr[m].threads[t].id;
      x != tr[m].installer && forall i :: 0 <= i < |tr[m].cells| ==> !Is(tr[m].cells[i], x)
    ensures forall i :: 0 <= i < |tr[m].cells| ==> WasUnclaimable(tr, b, m, i)
  {
    RunKeeps(tr, evs, m);
    assert StepAt(tr, evs, m) && ThreadOk(tr[m], t);
    assert NoneBelow(tr[m].cells, |tr[m].cells|, tr[m].threads[t].id);
    forall i | 0 <= i < |tr[m].cells|
      ensures WasUnclaimable(tr, b, m, i)
    {
      if !WasUnclaimable(tr, b, m, i) {
        RoomRuns(tr, evs, t, b, m, e, i);
        assert false;
      }
    }
  }

  /** Only the installer, and a process that has a slot, gets to change its view. */
  lemma AttemptNeedsSlot(tr: seq<State>, evs: seq<Event>, t: nat, m: nat, goal: Goal)
    requires IsRun(tr, evs) && Attempts(tr, evs, t, m, goal)
    ensures var x := tr[m].threads[t].id;
      x == tr[m].installer || exists i :: 0 <= i < |tr[m].cells| && Is(tr[m].cells[i], x)
  {
    RunKeeps(tr, evs, m);
    assert StepAt(tr, evs, m) && ThreadOk(tr[m], t);
  }

  // ---------------------------------------------------------------- calls come to an end

  /** The cells from i on. */
  function Left(n: nat, i: nat): nat { if i < n then n - i else 0 }

  /** A bound on the steps that a call at pc takes over n cells when the lock is free. */
  function StepsLeft(pc: Pc, n: nat): nat {
    var claim := 7 + n;
    var find := claim + 1 + 2 * n;
    var sweep := find + 2 + 4 * n;
    var load := sweep + 1;
    match pc
    case Idle => 0
    case CloseLoser(_) => 1
    case OnBase(_) => 2
    case OnSlot(_, _) => 2
    case DropLock(_, _) => 3
    case PublishPid(_, _) => 4
    case WriteFd(_, _) => 5
    case WriteTime(_, _) => 6
    case Claim(i, _) => 7 + Left(n, i)
    case FindTime(i, _) => claim + 2 * Left(n, i)
    case FindPid(i, _) => claim + 1 + 2 * Left(n, i)
    case TakeLock(_) => find + 1
    case GcCas(i, _, _) => find + 4 * Left(n, i)
    case GcTest(i, _, _, _) => find + 1 + 4 * Left(n, i)
    case GcTime(i, _, _) => find + 2 + 4 * Left(n, i)
    case GcPid(i, _) => find + 2 + 4 * Left(n, i) + 1
    case Dup(_) => load + 1
    case LoadBase(_) => load + 2
    case LoadFd(_, _) => load + 2
    case LoadTime(i, _) => load + 2 + 3 * Left(n, i)
    case LoadPid(i, _) => load + 3 + 3 * Left(n, i)
  }

  /** Every step brings the call nearer to its end, unless it waits for the lock. */
  lemma StepsShrink(s: State, t: nat, n: int)
    requires Ready(s, t) && !s.threads[t].pc.Idle? && !(s.threads[t].pc.TakeLock? && s.lock)
    ensures |Advanced(s, t, n).cells| == |s.cells| && |Advanced(s, t, n).threads| == |s.threads|
    ensures StepsLeft(Advanced(s, t, n).threads[t].pc, |s.cells|) < StepsLeft(s.threads[t].pc, |s.cells|)
  {
    EffectOnCells(s, t, n);
    NextIsNearer(s, s.threads[t].id, s.threads[t].pc, n);
  }

  lemma NextIsNearer(s: State, id: Identity, pc: Pc, n: int)
    requires PcOk(pc, |s.cells|) && id in s.tables && !pc.Idle? && !(pc.TakeLock? && s.lock)
    ensures StepsLeft(Do(s, id, pc, n).pc, |s.cells|) < StepsLeft(pc, |s.cells|)
  {
    if Inside(pc) {
      NextInsideIsNearer(s, id, pc, n);
    }
  }

  lemma NextInsideIsNearer(s: State, id: Identity, pc: Pc, n: int)
    requires PcOk(pc, |s.cells|) && id in s.tables && Inside(pc)
    ensures StepsLeft(Do(s, id, pc, n).pc, |s.cells|) < StepsLeft(pc, |s.cells|)
  {
  }
}
