/** In every interleaving, what a process has stored in its view is what its next load returns. */
module StoreThenLoad {
  import opened DescriptorView
  import opened OverrideProtocol

  /** The view of process x is fd: at the base if x is the installer, in slot i otherwise. */
  ghost predicate Shows(s: State, x: Identity, fd: int, i: nat) {
    if x == s.installer then s.base == fd else i < |s.cells| && Is(s.cells[i], x) && s.cells[i].fd == fd
  }

  /** The event is a store or a transition of process x on its view. */
  predicate Writes(s: State, ev: Event, x: Identity) {
    By(s, ev, x) && ev.action.Advance? && (s.threads[ev.thread].pc.OnSlot? || s.threads[ev.thread].pc.OnBase?)
  }

  /** Thread u of process x is in a load that has not gone past slot i. */
  ghost predicate Loading(s: State, u: nat, x: Identity, i: nat) {
    && u < |s.threads| && s.threads[u].id == x
    && var pc := s.threads[u].pc;
       if x == s.installer then pc.LoadBase?
       else (pc.LoadPid? && pc.i <= i) || ((pc.LoadTime? || pc.LoadFd?) && pc.i == i)
  }

  /** The event makes thread u's load return. */
  predicate Finishes(s: State, ev: Event, u: nat) {
    ev.thread == u < |s.threads| && ev.action.Advance? && (s.threads[u].pc.LoadFd? || s.threads[u].pc.LoadBase?)
  }

  lemma ShowsStep(s: State, ev: Event, s': State, x: Identity, fd: int, i: nat)
    requires Inv(s) && Follows(s, ev, s') && x in s'.alive && !Writes(s, ev, x) && Shows(s, x, fd, i)
    ensures Shows(s', x, fd, i)
  {
    StepIsLocal(s, ev.thread, ev.action);
    StepOnCells(s, ev.thread, ev.action);
    assert ThreadOk(s, ev.thread);
    if x != s.installer {
      CellStays(s, s', ev.thread, i, x);
      assert CellStep(s, s', ev.thread, i);
    }
  }

  /** The loading thread's own step: it stops at slot i, or its load returns. */
  lemma LoadingAdvances(s: State, u: nat, n: int, x: Identity, fd: int, i: nat)
    requires Inv(s) && Ready(s, u) && x in s.alive && Loading(s, u, x, i) && Shows(s, x, fd, i)
    ensures var s' := Advanced(s, u, n);
      if Finishes(s, Event(u, Advance(n)), u) then s'.loads == s.loads + [Loaded(x, fd)] else Loading(s', u, x, i)
  {
    var pc := s.threads[u].pc;
    if pc.LoadPid? && x != s.installer && s.cells[pc.i].pid == x.pid {
      PidNames(s, pc.i, x);
      assert pc.i == i;
    }
  }

  lemma LoadingStep(s: State, ev: Event, s': State, u: nat, x: Identity, fd: int, i: nat)
    requires Inv(s) && Follows(s, ev, s') && x in s'.alive && Loading(s, u, x, i) && Shows(s, x, fd, i)
    ensures if Finishes(s, ev, u) then s'.loads == s.loads + [Loaded(x, fd)] else Loading(s', u, x, i)
  {
    StepIsLocal(s, ev.thread, ev.action);
    if ev.thread == u && ev.action.Advance? {
      LoadingAdvances(s, u, ev.action.n, x, fd, i);
    }
  }

  /** Threads keep their process. */
  lemma OneStep(tr: seq<State>, evs: seq<Event>, k: nat)
    requires IsRun(tr, evs) && k < |evs|
    ensures |tr[k + 1].threads| == |tr[k].threads|
    ensures forall u :: 0 <= u < |tr[k].threads| ==> tr[k + 1].threads[u].id == tr[k].threads[u].id
  {
    RunKeeps(tr, evs, k);
    assert StepAt(tr, evs, k);
    StepIsLocal(tr[k], evs[k].thread, evs[k].action);
  }

  lemma {:induction false} AliveBefore(tr: seq<State>, evs: seq<Event>, j: nat, k: nat, x: Identity)
    requires IsRun(tr, evs) && j <= k < |tr| && x in tr[k].alive
    ensures x in tr[j].alive
    decreases k - j
  {
    if j < k {
      AliveOneStep(tr, evs, k - 1);
      AliveBefore(tr, evs, j, k - 1, x);
    }
  }

  /** No store or transition of x between j and k. */
  ghost predicate NoWrites(tr: seq<State>, evs: seq<Event>, j: nat, k: nat, x: Identity)
    requires k <= |evs| && |tr| == |evs| + 1
  {
    forall m {:trigger evs[m]} :: j <= m < k ==> !Writes(tr[m], evs[m], x)
  }

  lemma ShowsOneStep(tr: seq<State>, evs: seq<Event>, k: nat, x: Identity, fd: int, i: nat)
    requires IsRun(tr, evs) && k < |evs| && x in tr[k + 1].alive && !Writes(tr[k], evs[k], x) && Shows(tr[k], x, fd, i)
    ensures Shows(tr[k + 1], x, fd, i)
  {
    RunKeeps(tr, evs, k);
    assert StepAt(tr, evs, k);
    ShowsStep(tr[k], evs[k], tr[k + 1], x, fd, i);
  }

  lemma {:induction false} ShowsUntil(tr: seq<State>, evs: seq<Event>, j: nat, k: nat, x: Identity, fd: int, i: nat)
    requires IsRun(tr, evs) && j <= k < |tr| && x in tr[k].alive && Shows(tr[j], x, fd, i) && NoWrites(tr, evs, j, k, x)
    ensures Shows(tr[k], x, fd, i)
    decreases k - j
  {
    if j < k {
      AliveBefore(tr, evs, k - 1, k, x);
      ShowsUntil(tr, evs, j, k - 1, x, fd, i);
      ShowsOneStep(tr, evs, k - 1, x, fd, i);
    }
  }

  lemma LoadingOneStep(tr: seq<State>, evs: seq<Event>, k: nat, u: nat, x: Identity, fd: int, i: nat)
    requires IsRun(tr, evs) && k < |evs| && x in tr[k + 1].alive && Loading(tr[k], u, x, i) && Shows(tr[k], x, fd, i)
    ensures if Finishes(tr[k], evs[k], u) then tr[k + 1].loads == tr[k].loads + [Loaded(x, fd)]
            else Loading(tr[k + 1], u, x, i)
  {
    RunKeeps(tr, evs, k);
    assert StepAt(tr, evs, k);
    LoadingStep(tr[k], evs[k], tr[k + 1], u, x, fd, i);
  }

  /** No load of thread u returns between b and k. */
  ghost predicate NoReturn(tr: seq<State>, evs: seq<Event>, b: nat, k: nat, u: nat)
    requires k <= |evs| && |tr| == |evs| + 1
  {
    forall m {:trigger evs[m]} :: b <= m < k ==> !Finishes(tr[m], evs[m], u)
  }

  lemma {:induction false} LoadingUntil(tr: seq<State>, evs: seq<Event>, b: nat, k: nat, u: nat, x: Identity, fd: int,
                                        i: nat)
    requires IsRun(tr, evs) && b <= k < |tr| && x in tr[k].alive && NoWrites(tr, evs, b, k, x)
    requires Loading(tr[b], u, x, i) && Shows(tr[b], x, fd, i) && NoReturn(tr, evs, b, k, u)
    ensures Loading(tr[k], u, x, i)
    decreases k - b
  {
    if b < k {
      AliveBefore(tr, evs, k - 1, k, x);
      LoadingUntil(tr, evs, b, k - 1, u, x, fd, i);
      ShowsUntil(tr, evs, b, k - 1, x, fd, i);
      LoadingOneStep(tr, evs, k - 1, u, x, fd, i);
    }
  }

  /** A completed store is what the process's view shows. */
  lemma StoreShows(s: State, ev: Event, s': State, x: Identity, fd: int)
    requires Inv(s) && Follows(s, ev, s') && Writes(s, ev, x) && s.threads[ev.thread].pc.goal == Put(fd)
    ensures var pc := s.threads[ev.thread].pc; Shows(s', x, fd, if pc.OnSlot? then pc.i else 0)
  {
    assert ThreadOk(s, ev.thread);
  }

  /**
    Event j completes a store of fd by process x, event b begins a load by a thread of x after it, and
    event k makes that load return. If x makes no other store or transition in between, the load returns
    fd, whatever the other threads of x, and all other processes, do meanwhile.
  */
  lemma StoreIsNextLoaded(tr: seq<State>, evs: seq<Event>, j: nat, b: nat, k: nat, u: nat, x: Identity, fd: int)
    requires IsRun(tr, evs) && j < b < k < |evs|
    requires Writes(tr[j], evs[j], x) && tr[j].threads[evs[j].thread].pc.goal == Put(fd)
    requires evs[b] == Event(u, BeginLoad) && By(tr[b], evs[b], x) && Finishes(tr[k], evs[k], u)
    requires NoWrites(tr, evs, j + 1, k + 1, x)
    requires NoReturn(tr, evs, b + 1, k, u)
    ensures tr[k + 1].loads == tr[k].loads + [Loaded(x, fd)]
  {
    var pc := tr[j].threads[evs[j].thread].pc;
    var i := if pc.OnSlot? then pc.i else 0;
    LoaderIsAlive(tr, evs, b, k, u, x);
    AliveBefore(tr, evs, b + 1, k + 1, x);
    StoredUntil(tr, evs, j, b + 1, x, fd);
    BeginsLoading(tr, evs, b, u, x, i);
    LoadReturns(tr, evs, b + 1, k, u, x, fd, i);
  }

  lemma StoredUntil(tr: seq<State>, evs: seq<Event>, j: nat, k: nat, x: Identity, fd: int)
    requires IsRun(tr, evs) && j < k < |tr| && x in tr[k].alive && NoWrites(tr, evs, j + 1, k, x)
    requires Writes(tr[j], evs[j], x) && tr[j].threads[evs[j].thread].pc.goal == Put(fd)
    ensures var pc := tr[j].threads[evs[j].thread].pc; Shows(tr[k], x, fd, if pc.OnSlot? then pc.i else 0)
  {
    var pc := tr[j].threads[evs[j].thread].pc;
    RunKeeps(tr, evs, j);
    assert StepAt(tr, evs, j);
    StoreShows(tr[j], evs[j], tr[j + 1], x, fd);
    ShowsUntil(tr, evs, j + 1, k, x, fd, if pc.OnSlot? then pc.i else 0);
  }

  lemma LoadReturns(tr: seq<State>, evs: seq<Event>, b: nat, k: nat, u: nat, x: Identity, fd: int, i: nat)
    requires IsRun(tr, evs) && b <= k < |evs| && x in tr[k + 1].alive && NoWrites(tr, evs, b, k, x)
    requires Loading(tr[b], u, x, i) && Shows(tr[b], x, fd, i) && Finishes(tr[k], evs[k], u)
    requires NoReturn(tr, evs, b, k, u)
    ensures tr[k + 1].loads == tr[k].loads + [Loaded(x, fd)]
  {
    AliveBefore(tr, evs, k, k + 1, x);
    LoadingUntil(tr, evs, b, k, u, x, fd, i);
    ShowsUntil(tr, evs, b, k, x, fd, i);
    LoadingOneStep(tr, evs, k, u, x, fd, i);
  }

  lemma BeginsLoading(tr: seq<State>, evs: seq<Event>, b: nat, u: nat, x: Identity, i: nat)
    requires IsRun(tr, evs) && b < |evs| && evs[b] == Event(u, BeginLoad) && By(tr[b], evs[b], x)
    ensures Loading(tr[b + 1], u, x, i)
  {
    assert StepAt(tr, evs, b);
  }

  /** Threads keep their process, and a process whose thread steps at k is alive just after. */
  lemma LoaderIsAlive(tr: seq<State>, evs: seq<Event>, b: nat, k: nat, u: nat, x: Identity)
    requires IsRun(tr, evs) && b <= k < |evs| && By(tr[b], Event(u, BeginLoad), x) && Finishes(tr[k], evs[k], u)
    ensures x in tr[k + 1].alive
  {
    SameProcess(tr, evs, b, k, u);
    assert StepAt(tr, evs, k);
  }

  lemma {:induction false} SameProcess(tr: seq<State>, evs: seq<Event>, b: nat, k: nat, u: nat)
    requires IsRun(tr, evs) && b <= k < |tr| && u < |tr[b].threads|
    ensures u < |tr[k].threads| && tr[k].threads[u].id == tr[b].threads[u].id
    decreases k - b
  {
    if b < k {
      SameProcess(tr, evs, b, k - 1, u);
      OneStep(tr, evs, k - 1);
    }
  }
}
