/**
  The references that a call leaves with its thread, in every interleaving in which callers drop only what
  they hold: those it had, those other threads handed it meanwhile, and what the call itself took or gave up.
*/
module CallBalance {
  import opened SlotProtocol
  import opened SlotOutcomes

  /** h with d more references to slot i, if there is such a slot. */
  function Plus(h: seq<int>, i: int, d: int): seq<int> {
    if 0 <= i < |h| then h[i := h[i] + d] else h
  }

  /** h, and what other threads hand to t with the events from b to k. */
  function Given(evs: seq<Event>, t: nat, b: nat, k: nat, h: seq<int>): seq<int>
    requires b <= k <= |evs|
    decreases k
  {
    if k == b then h
    else
      var (before, a) := (Given(evs, t, b, k - 1, h), evs[k - 1].action);
      if a.Hand? && a.to == t then Plus(before, a.i, 1) else before
  }

  /** What a thread holds at pc, in or at the end of the call that it began with a, if it has been given h. */
  function Balance(a: Action, pc: Pc, h: seq<int>): seq<int> {
    if a.BeginUnpin? then (if pc.UnpinLoad? || pc.UnpinCas? then h else Plus(h, a.i, -1))
    else if pc.Idle? then Plus(h, pc.answer, 1)
    else if a.BeginLookup? && Using(pc) then Plus(h, pc.slot, 1)
    else h
  }

  predicate Begins(a: Action) {
    a.BeginPin? || a.BeginUnpin? || a.BeginLookup? || a.BeginRegister?
  }

  /** pc is a program point of the call that begins with a. */
  predicate Belongs(a: Action, pc: Pc) {
    match a
    case BeginPin(i) => (pc.PinLoad? || pc.PinCas?) && pc.next == Return
    case BeginUnpin(i) => Dropping(pc) && pc.slot == i && pc.next == Return
    case BeginLookup(key) => LookingUp(pc, key)
    case BeginRegister(w) => Registering(pc)
    case _ => false
  }

  lemma BalanceGrows(a: Action, pc: Pc, h: seq<int>, i: int)
    ensures Balance(a, pc, Plus(h, i, 1)) == Plus(Balance(a, pc, h), i, 1)
  {
  }

  /** One step of the thread itself. */
  lemma AdvanceBalances(s: State, t: nat, spurious: bool, a: Action, h: seq<int>)
    requires Shape(s) && t < |s.threads| && PcOk(s.threads[t]) && Belongs(a, s.threads[t]) && |h| == SLOTS
    requires s.threads[t].UnpinLoad? || s.threads[t].UnpinCas? ==> s.slots[s.threads[t].slot].refcount > 0
    requires s.held[t] == Balance(a, s.threads[t], h)
    ensures var s' := Advanced(s, t, spurious);
      && t < |s'.threads| && t < |s'.held|
      && (s'.threads[t].Idle? || Belongs(a, s'.threads[t])) && s'.held[t] == Balance(a, s'.threads[t], h)
  {
    var pc := s.threads[t];
    if pc.UnpinCas? && pc.slot < |h| {
      assert Plus(Plus(h, pc.slot, 1), pc.slot, -1) == h;
    }
  }

  /** A step of another thread changes what t holds only by handing it a reference. */
  lemma OthersLeaveHeld(s: State, u: nat, a: Action, t: nat)
    requires Shape(s) && Enabled(s, u, a) && PcOk(s.threads[u]) && t < |s.held| && u != t
    ensures t < |Step(s, u, a).held|
    ensures Step(s, u, a).held[t] == if a.Hand? && a.to == t then Plus(s.held[t], a.i, 1) else s.held[t]
  {
  }

  ghost predicate BalancedAt(tr: seq<State>, evs: seq<Event>, t: nat, b: nat, k: nat)
    requires Within(tr, evs, t, b, k)
  {
    && Begins(evs[b].action) && t < |tr[b].held| && t < |tr[k].held| && |tr[b].held[t]| == SLOTS
    && (tr[k].threads[t].Idle? || Belongs(evs[b].action, tr[k].threads[t]))
    && tr[k].held[t] == Balance(evs[b].action, tr[k].threads[t], Given(evs, t, b, k, tr[b].held[t]))
  }

  lemma {:induction false} GivenLength(evs: seq<Event>, t: nat, b: nat, k: nat, h: seq<int>)
    requires b <= k <= |evs|
    ensures |Given(evs, t, b, k, h)| == |h|
    decreases k
  {
    if k > b {
      GivenLength(evs, t, b, k - 1, h);
    }
  }

  lemma BalanceBegins(tr: seq<State>, evs: seq<Event>, t: nat, b: nat)
    requires IsRun(tr, evs) && b < |evs| && evs[b].thread == t && Begins(evs[b].action)
    ensures Within(tr, evs, t, b, b + 1) && BalancedAt(tr, evs, t, b, b + 1)
  {
    RunKeeps(tr, evs, b);
    CallBegins(tr, evs, t, b);
    assert Given(evs, t, b, b + 1, tr[b].held[t]) == Given(evs, t, b, b, tr[b].held[t]);
  }

  lemma BalanceStep(tr: seq<State>, evs: seq<Event>, t: nat, b: nat, k: nat, k': nat)
    requires IsDisciplinedRun(tr, evs) && Within(tr, evs, t, b, k) && k' == k + 1 <= |evs|
    requires BalancedAt(tr, evs, t, b, k) && !tr[k].threads[t].Idle?
    ensures Within(tr, evs, t, b, k') && BalancedAt(tr, evs, t, b, k')
  {
    CallGoesOn(tr, evs, t, b, k);
    var (a, h) := (evs[b].action, Given(evs, t, b, k, tr[b].held[t]));
    GivenLength(evs, t, b, k, tr[b].held[t]);
    if evs[k].thread == t {
      if tr[k].threads[t].UnpinLoad? || tr[k].threads[t].UnpinCas? {
        HolderSeesLive(tr, evs, t, k);
      }
      AdvanceBalances(tr[k], t, evs[k].action.spurious, a, h);
      assert Given(evs, t, b, k + 1, tr[b].held[t]) == h;
    } else {
      assert StepAt(tr, evs, k) && ThreadOk(tr[k], evs[k].thread);
      OthersLeaveHeld(tr[k], evs[k].thread, evs[k].action, t);
      if evs[k].action.Hand? {
        BalanceGrows(a, tr[k].threads[t], h, evs[k].action.i);
      }
    }
  }

  lemma {:induction false} BalanceRuns(tr: seq<State>, evs: seq<Event>, t: nat, b: nat, k: nat, e: nat)
    requires IsDisciplinedRun(tr, evs) && IsCall(tr, evs, t, b, e) && Begins(evs[b].action) && b < k <= e
    ensures Within(tr, evs, t, b, k) && BalancedAt(tr, evs, t, b, k)
    decreases k
  {
    if k == b + 1 {
      BalanceBegins(tr, evs, t, b);
    } else {
      BalanceRuns(tr, evs, t, b, k - 1, e);
      BalanceStep(tr, evs, t, b, k - 1, k);
    }
  }

  /**
    A pin, a lookup and a registration that are over have left their thread one reference more, to the slot
    they answer, or none if they failed; an unpin one less. A lookup keeps none of the slots it passes.
  */
  lemma CallBalances(tr: seq<State>, evs: seq<Event>, t: nat, b: nat, e: nat)
    requires IsDisciplinedRun(tr, evs) && IsCall(tr, evs, t, b, e) && Begins(evs[b].action)
    ensures t < |tr[b].held| && t < |tr[e].held|
    ensures var (a, given) := (evs[b].action, Given(evs, t, b, e, tr[b].held[t]));
      tr[e].held[t] == if a.BeginUnpin? then Plus(given, a.i, -1) else Plus(given, tr[e].threads[t].answer, 1)
  {
    BalanceRuns(tr, evs, t, b, e, e);
  }
}
