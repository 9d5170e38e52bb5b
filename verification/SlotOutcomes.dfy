/**
  What a call on the table has done once it is over, in every interleaving: a pin, an unpin, a
  lookup and a registration each end with the answer that the slots they looked at gave them.
*/
module SlotOutcomes {
  import opened SlotProtocol

  /** Thread t begins a call with event b, and is idle again at e for the first time. */
  ghost predicate IsCall(tr: seq<State>, evs: seq<Event>, t: nat, b: nat, e: nat) {
    && IsRun(tr, evs) && b < e < |tr| && evs[b].thread == t
    && t < |tr[e].threads| && tr[e].threads[t].Idle?
    && (forall m :: b < m < e ==> t < |tr[m].threads| && !tr[m].threads[t].Idle?)
  }

  /** What a call has gone through up to k, whatever the other threads do. */
  ghost predicate Within(tr: seq<State>, evs: seq<Event>, t: nat, b: nat, k: nat) {
    IsRun(tr, evs) && b < k < |tr| && evs[b].thread == t < |tr[k].threads|
  }

  /** The state in which a call begins and the one it leads to. */
  lemma CallBegins(tr: seq<State>, evs: seq<Event>, t: nat, b: nat)
    requires IsRun(tr, evs) && b < |evs| && evs[b].thread == t
    ensures Within(tr, evs, t, b, b + 1) && StepAt(tr, evs, b)
    ensures |tr[b + 1].threads| == |tr[b].threads|
  {
    RunKeeps(tr, evs, b);
    assert StepAt(tr, evs, b);
    StepIsLocal(tr[b], t, evs[b].action);
  }

  /** From k to k + 1 either thread t advances, or another thread steps and t stays where it is. */
  lemma CallGoesOn(tr: seq<State>, evs: seq<Event>, t: nat, b: nat, k: nat)
    requires Within(tr, evs, t, b, k) && k < |evs| && !tr[k].threads[t].Idle?
    ensures Within(tr, evs, t, b, k + 1) && Inv(tr[k]) && Shape(tr[k + 1]) && ThreadOk(tr[k], t)
    ensures evs[k].thread != t ==> tr[k + 1].threads[t] == tr[k].threads[t]
    ensures evs[k].thread == t ==>
              evs[k].action.Advance? && tr[k + 1] == Advanced(tr[k], t, evs[k].action.spurious)
  {
    RunKeeps(tr, evs, k);
    RunKeeps(tr, evs, k + 1);
    assert StepAt(tr, evs, k) && ThreadOk(tr[k], t);
    StepIsLocal(tr[k], evs[k].thread, evs[k].action);
  }

  // ---------------------------------------------------------------- lookup

  /** At some time up to k the key was not to be found in slot i. */
  ghost predicate Missed(tr: seq<State>, b: nat, k: nat, i: nat, key: nat) {
    exists m :: b < m <= k && m < |tr| && NotThere(tr[m], i, key)
  }

  predicate NotThere(s: State, i: nat, key: nat) {
    i < |s.slots| && (s.slots[i].refcount <= 0 || s.slots[i].payload.key != key)
  }

  /** Event m is a step of thread t that pins slot i, which is live. */
  ghost predicate Pins(tr: seq<State>, evs: seq<Event>, t: nat, m: nat, i: nat) {
    && m < |evs| && m + 1 < |tr| && evs[m].thread == t && i < |tr[m].slots|
    && tr[m].slots[i].refcount > 0
    && tr[m + 1].slots == tr[m].slots[i := tr[m].slots[i].(refcount := tr[m].slots[i].refcount + 1,
                                                           pins := tr[m].slots[i].pins + 1)]
  }

  ghost predicate HasPinned(tr: seq<State>, evs: seq<Event>, t: nat, b: nat, k: nat, i: nat) {
    exists m :: b < m < k && Pins(tr, evs, t, m, i)
  }

  /** At some time before k slot i had the key. */
  ghost predicate HadKey(tr: seq<State>, b: nat, k: nat, i: nat, key: nat) {
    exists m :: b < m < k && m < |tr| && i < |tr[m].slots| && tr[m].slots[i].payload.key == key
  }

  /** A program point of the lookup of key. */
  predicate LookingUp(pc: Pc, key: nat) {
    || ((pc.PinLoad? || pc.PinCas? || Dropping(pc)) && pc.next == Scan(key))
    || (pc.Compare? && pc.key == key)
  }

  /** A program point of an unpin. */
  predicate Dropping(pc: Pc) {
    pc.UnpinLoad? || pc.UnpinCas? || pc.CallRelease? || pc.CloseProbe? || pc.StoreFree? || pc.Discount?
  }

  /** The slots that a lookup at pc has given up on are those below this one. */
  function PassedBy(pc: Pc): nat {
    if pc.Idle? then SLOTS else if Dropping(pc) then pc.slot + 1 else pc.slot
  }

  ghost predicate LookupAt(tr: seq<State>, evs: seq<Event>, t: nat, b: nat, k: nat, key: nat)
    requires Within(tr, evs, t, b, k)
  {
    var pc := tr[k].threads[t];
    if pc.Idle? && pc.answer != -1 then
      0 <= pc.answer < SLOTS && HasPinned(tr, evs, t, b, k, pc.answer) && HadKey(tr, b, k, pc.answer, key)
    else
      && (pc.Idle? || LookingUp(pc, key))
      && (pc.Compare? ==> HasPinned(tr, evs, t, b, k, pc.slot))
      && (forall i :: 0 <= i < PassedBy(pc) ==> Missed(tr, b, k, i, key))
  }

  lemma MissedStays(tr: seq<State>, b: nat, k: nat, k': nat, key: nat)
    requires k <= k'
    ensures forall i: nat :: Missed(tr, b, k, i, key) ==> Missed(tr, b, k', i, key)
  {
    forall i: nat | Missed(tr, b, k, i, key)
      ensures Missed(tr, b, k', i, key)
    {
      var m :| b < m <= k && m < |tr| && NotThere(tr[m], i, key);
    }
  }

  lemma PinnedStays(tr: seq<State>, evs: seq<Event>, t: nat, b: nat, k: nat, k': nat)
    requires k <= k'
    ensures forall i: nat :: HasPinned(tr, evs, t, b, k, i) ==> HasPinned(tr, evs, t, b, k', i)
  {
    forall i: nat | HasPinned(tr, evs, t, b, k, i)
      ensures HasPinned(tr, evs, t, b, k', i)
    {
      var m :| b < m < k && Pins(tr, evs, t, m, i);
    }
  }

  /** The compare-and-swap of a pin. */
  lemma PinCasGoes(tr: seq<State>, evs: seq<Event>, t: nat, b: nat, k: nat)
    requires Within(tr, evs, t, b, k) && k < |evs| && tr[k].threads[t].PinCas? && evs[k].thread == t
    ensures Within(tr, evs, t, b, k + 1)
    ensures var (pc, pc') := (tr[k].threads[t], tr[k + 1].threads[t]);
      || (Pins(tr, evs, t, k, pc.slot) && pc' == if pc.next.Scan? then Compare(pc.slot, pc.next.key) else Idle(pc.slot))
      || (pc'.PinCas? && pc'.slot == pc.slot && pc'.next == pc.next)
      || (pc' == After(pc.next, pc.slot) && pc.slot < |tr[k].slots| && tr[k].slots[pc.slot].refcount <= 0)
  {
    CallGoesOn(tr, evs, t, b, k);
  }

  lemma LookupStep(tr: seq<State>, evs: seq<Event>, t: nat, b: nat, k: nat, key: nat)
    requires Within(tr, evs, t, b, k) && k < |evs| && !tr[k].threads[t].Idle? && LookupAt(tr, evs, t, b, k, key)
    ensures Within(tr, evs, t, b, k + 1) && LookupAt(tr, evs, t, b, k + 1, key)
  {
    CallGoesOn(tr, evs, t, b, k);
    MissedStays(tr, b, k, k + 1, key);
    PinnedStays(tr, evs, t, b, k, k + 1);
    var pc := tr[k].threads[t];
    if evs[k].thread == t {
      if NotThere(tr[k], pc.slot, key) {
        assert Missed(tr, b, k + 1, pc.slot, key);
      }
      if pc.PinCas? {
        PinCasGoes(tr, evs, t, b, k);
        if Pins(tr, evs, t, k, pc.slot) {
          assert HasPinned(tr, evs, t, b, k + 1, pc.slot);
        }
      } else if pc.Compare? && tr[k].slots[pc.slot].payload.key == key {
        assert HadKey(tr, b, k + 1, pc.slot, key);
      }
    }
  }

  lemma {:induction false} LookupRuns(tr: seq<State>, evs: seq<Event>, t: nat, b: nat, k: nat, e: nat, key: nat)
    requires IsCall(tr, evs, t, b, e) && evs[b].action == BeginLookup(key) && b < k <= e
    ensures Within(tr, evs, t, b, k) && LookupAt(tr, evs, t, b, k, key)
    decreases k
  {
    if k == b + 1 {
      CallBegins(tr, evs, t, b);
    } else {
      LookupRuns(tr, evs, t, b, k - 1, e, key);
      LookupStep(tr, evs, t, b, k - 1, key);
    }
  }

  /**
    A lookup that is over has pinned a slot that had the key, or has found each slot, at some time
    during its scan, without it.
  */
  lemma LookupEnds(tr: seq<State>, evs: seq<Event>, t: nat, b: nat, e: nat, key: nat)
    requires IsCall(tr, evs, t, b, e) && evs[b].action == BeginLookup(key)
    ensures var answer := tr[e].threads[t].answer;
      if answer != -1 then
        0 <= answer < SLOTS && HasPinned(tr, evs, t, b, e, answer) && HadKey(tr, b, e, answer, key)
      else
        forall i :: 0 <= i < SLOTS ==> Missed(tr, b, e, i, key)
  {
    LookupRuns(tr, evs, t, b, e, e, key);
  }

  /** So a key that is live in one slot throughout the scan is found. */
  lemma LiveKeyIsFound(tr: seq<State>, evs: seq<Event>, t: nat, b: nat, e: nat, key: nat, i: nat)
    requires IsCall(tr, evs, t, b, e) && evs[b].action == BeginLookup(key) && i < SLOTS
    requires forall m :: b < m <= e ==> !NotThere(tr[m], i, key)
    ensures var answer := tr[e].threads[t].answer;
      0 <= answer < SLOTS && HasPinned(tr, evs, t, b, e, answer) && HadKey(tr, b, e, answer, key)
  {
    LookupEnds(tr, evs, t, b, e, key);
    assert !Missed(tr, b, e, i, key);
  }

  // ---------------------------------------------------------------- pin

  /** At some time up to k slot i was not live. */
  ghost predicate WasDead(tr: seq<State>, b: nat, k: nat, i: nat) {
    exists m :: b < m <= k && m < |tr| && i < |tr[m].slots| && tr[m].slots[i].refcount <= 0
  }

  ghost predicate PinAt(tr: seq<State>, evs: seq<Event>, t: nat, b: nat, k: nat, i: nat)
    requires Within(tr, evs, t, b, k)
  {
    var pc := tr[k].threads[t];
    || ((pc.PinLoad? || pc.PinCas?) && pc.slot == i && pc.next == Return)
    || (pc == Idle(i) && HasPinned(tr, evs, t, b, k, i))
    || (pc == Idle(-1) && WasDead(tr, b, k, i))
  }

  lemma PinStep(tr: seq<State>, evs: seq<Event>, t: nat, b: nat, k: nat, i: nat)
    requires Within(tr, evs, t, b, k) && k < |evs| && !tr[k].threads[t].Idle? && PinAt(tr, evs, t, b, k, i)
    ensures Within(tr, evs, t, b, k + 1) && PinAt(tr, evs, t, b, k + 1, i)
  {
    CallGoesOn(tr, evs, t, b, k);
    if evs[k].thread == t && tr[k].threads[t].PinCas? {
      PinCasGoes(tr, evs, t, b, k);
    }
  }

  lemma {:induction false} PinRuns(tr: seq<State>, evs: seq<Event>, t: nat, b: nat, k: nat, e: nat, i: nat)
    requires IsCall(tr, evs, t, b, e) && evs[b].action == BeginPin(i) && b < k <= e
    ensures Within(tr, evs, t, b, k) && PinAt(tr, evs, t, b, k, i)
    decreases k
  {
    if k == b + 1 {
      CallBegins(tr, evs, t, b);
    } else {
      PinRuns(tr, evs, t, b, k - 1, e, i);
      PinStep(tr, evs, t, b, k - 1, i);
    }
  }

  /** A pin that is over has taken a reference, or has found the slot not live. */
  lemma PinEnds(tr: seq<State>, evs: seq<Event>, t: nat, b: nat, e: nat, i: nat)
    requires IsCall(tr, evs, t, b, e) && evs[b].action == BeginPin(i)
    ensures var answer := tr[e].threads[t].answer;
      (answer == i && HasPinned(tr, evs, t, b, e, i)) || (answer == -1 && WasDead(tr, b, e, i))
  {
    PinRuns(tr, evs, t, b, e, e, i);
  }

  // ---------------------------------------------------------------- unpin

  /** Event m is a step of thread t that gives up one of its references to slot i. */
  ghost predicate Drops(tr: seq<State>, evs: seq<Event>, t: nat, m: nat, i: nat) {
    && m < |evs| && m + 1 < |tr| && evs[m].thread == t && Shape(tr[m]) && Shape(tr[m + 1]) && i < SLOTS
    && t < |tr[m].held| == |tr[m + 1].held|
    && tr[m].slots[i].refcount > 0 && References(tr[m + 1].slots[i]) == References(tr[m].slots[i]) - 1
    && tr[m + 1].held[t][i] == tr[m].held[t][i] - 1
  }

  /** Event m leaves the references to every slot, and those of thread t, as they are, if it is a step of t. */
  ghost predicate KeepsRefs(tr: seq<State>, evs: seq<Event>, t: nat, m: nat) {
    m < |evs| && m + 1 < |tr| && evs[m].thread == t ==>
      && Shape(tr[m]) && Shape(tr[m + 1]) && t < |tr[m].held| == |tr[m + 1].held|
      && tr[m + 1].held[t] == tr[m].held[t]
      && (forall i :: 0 <= i < SLOTS ==> References(tr[m + 1].slots[i]) == References(tr[m].slots[i]))
  }

  /** From b to k thread t has given up exactly one reference to slot i, with event m. */
  ghost predicate DropsOnce(tr: seq<State>, evs: seq<Event>, t: nat, b: nat, k: nat, i: nat, m: nat) {
    b < m < k && Drops(tr, evs, t, m, i) && forall j: nat :: b < j < k && j != m ==> KeepsRefs(tr, evs, t, j)
  }

  ghost predicate HasDropped(tr: seq<State>, evs: seq<Event>, t: nat, b: nat, k: nat, i: nat) {
    exists m :: DropsOnce(tr, evs, t, b, k, i, m)
  }

  ghost predicate DropsNone(tr: seq<State>, evs: seq<Event>, t: nat, b: nat, k: nat) {
    forall j: nat :: b < j < k ==> KeepsRefs(tr, evs, t, j)
  }

  ghost predicate UnpinAt(tr: seq<State>, evs: seq<Event>, t: nat, b: nat, k: nat, i: nat)
    requires Within(tr, evs, t, b, k)
  {
    var pc := tr[k].threads[t];
    && (pc == Idle(-1) || (Dropping(pc) && pc.slot == i && pc.next == Return))
    && (pc.UnpinLoad? || pc.UnpinCas? ==> DropsNone(tr, evs, t, b, k))
    && (Dropping(pc) && !pc.UnpinLoad? && !pc.UnpinCas? ==> HasDropped(tr, evs, t, b, k, i))
    && (pc.Idle? ==> HasDropped(tr, evs, t, b, k, i) || (DropsNone(tr, evs, t, b, k) && WasDead(tr, b, k, i)))
  }

  lemma RefsStay(tr: seq<State>, evs: seq<Event>, t: nat, b: nat, k: nat, i: nat)
    requires KeepsRefs(tr, evs, t, k)
    ensures DropsNone(tr, evs, t, b, k) ==> DropsNone(tr, evs, t, b, k + 1)
    ensures HasDropped(tr, evs, t, b, k, i) ==> HasDropped(tr, evs, t, b, k + 1, i)
  {
    if HasDropped(tr, evs, t, b, k, i) {
      var m :| DropsOnce(tr, evs, t, b, k, i, m);
      assert DropsOnce(tr, evs, t, b, k + 1, i, m);
    }
  }

  /** A step of an unpin drops a reference at its compare-and-swap, and at no other point. */
  lemma UnpinMoves(tr: seq<State>, evs: seq<Event>, t: nat, b: nat, k: nat)
    requires Within(tr, evs, t, b, k) && k < |evs| && Dropping(tr[k].threads[t]) && evs[k].thread == t
    ensures Within(tr, evs, t, b, k + 1)
    ensures var (pc, pc') := (tr[k].threads[t], tr[k + 1].threads[t]);
      || (pc.UnpinCas? && Drops(tr, evs, t, k, pc.slot)
          && (pc' == After(pc.next, pc.slot) || pc' == CallRelease(pc.slot, pc.next)))
      || (KeepsRefs(tr, evs, t, k)
          && (pc'.UnpinCas? ==> (pc.UnpinLoad? || pc.UnpinCas?) && pc'.slot == pc.slot && pc'.next == pc.next)
          && (pc.UnpinLoad? || pc.UnpinCas? ==>
                || pc'.UnpinCas?
                || (pc' == After(pc.next, pc.slot)
                    && pc.slot < |tr[k].slots| && tr[k].slots[pc.slot].refcount <= 0))
          && (!pc.UnpinLoad? && !pc.UnpinCas? ==>
                || pc' == After(pc.next, pc.slot)
                || (Dropping(pc') && !pc'.UnpinLoad? && pc'.slot == pc.slot && pc'.next == pc.next)))
  {
    CallGoesOn(tr, evs, t, b, k);
    assert SlotOk(tr[k], tr[k].threads[t].slot);
    if Owns(tr[k].threads[t]) {
      OwnerIsAlone(tr[k], t);
    }
  }

  lemma UnpinStep(tr: seq<State>, evs: seq<Event>, t: nat, b: nat, k: nat, i: nat)
    requires Within(tr, evs, t, b, k) && k < |evs| && !tr[k].threads[t].Idle? && UnpinAt(tr, evs, t, b, k, i)
    ensures Within(tr, evs, t, b, k + 1) && UnpinAt(tr, evs, t, b, k + 1, i)
  {
    CallGoesOn(tr, evs, t, b, k);
    if evs[k].thread == t {
      UnpinMoves(tr, evs, t, b, k);
    }
    if KeepsRefs(tr, evs, t, k) {
      RefsStay(tr, evs, t, b, k, i);
    } else {
      assert DropsOnce(tr, evs, t, b, k + 1, i, k);
    }
  }

  lemma {:induction false} UnpinRuns(tr: seq<State>, evs: seq<Event>, t: nat, b: nat, k: nat, e: nat, i: nat)
    requires IsCall(tr, evs, t, b, e) && evs[b].action == BeginUnpin(i) && b < k <= e
    ensures Within(tr, evs, t, b, k) && UnpinAt(tr, evs, t, b, k, i)
    decreases k
  {
    if k == b + 1 {
      CallBegins(tr, evs, t, b);
    } else {
      UnpinRuns(tr, evs, t, b, k - 1, e, i);
      UnpinStep(tr, evs, t, b, k - 1, i);
    }
  }

  /** An unpin that is over has given up exactly one reference, or has found the slot not live. */
  lemma UnpinEnds(tr: seq<State>, evs: seq<Event>, t: nat, b: nat, e: nat, i: nat)
    requires IsCall(tr, evs, t, b, e) && evs[b].action == BeginUnpin(i)
    ensures HasDropped(tr, evs, t, b, e, i) || (DropsNone(tr, evs, t, b, e) && WasDead(tr, b, e, i))
  {
    UnpinRuns(tr, evs, t, b, e, e, i);
  }

  // ---------------------------------------------------------------- register

  /** At some time up to k slot i was not free. */
  ghost predicate WasTaken(tr: seq<State>, b: nat, k: nat, i: nat) {
    exists m :: b < m <= k && m < |tr| && i < |tr[m].slots| && tr[m].slots[i].refcount != 0
  }

  /** Event m is a step of thread t that publishes the record w in slot i. */
  ghost predicate Publishes(tr: seq<State>, evs: seq<Event>, t: nat, m: nat, i: nat, w: Payload) {
    && m < |evs| && m + 1 < |tr| && evs[m].thread == t && i < |tr[m].slots| == |tr[m + 1].slots|
    && tr[m + 1].slots[i].published == tr[m].slots[i].published + 1
    && tr[m + 1].slots[i].payload == w && tr[m + 1].slots[i].refcount == 1
  }

  ghost predicate HasPublished(tr: seq<State>, evs: seq<Event>, t: nat, b: nat, k: nat, i: nat, w: Payload) {
    exists m :: b < m < k && Publishes(tr, evs, t, m, i, w)
  }

  ghost predicate RegisterAt(tr: seq<State>, evs: seq<Event>, t: nat, b: nat, k: nat, w: Payload)
    requires Within(tr, evs, t, b, k)
  {
    var pc := tr[k].threads[t];
    if pc.Idle? && pc.answer != -1 then
      0 <= pc.answer < SLOTS && HasPublished(tr, evs, t, b, k, pc.answer, w)
    else
      && (pc.Idle? || (Registering(pc) && pc.w == w))
      && (pc.Idle? || pc.Claim? ==>
            forall i :: 0 <= i < (if pc.Idle? then SLOTS else pc.slot) ==> WasTaken(tr, b, k, i))
  }

  lemma TakenStays(tr: seq<State>, b: nat, k: nat, k': nat)
    requires k <= k'
    ensures forall i: nat :: WasTaken(tr, b, k, i) ==> WasTaken(tr, b, k', i)
  {
    forall i: nat | WasTaken(tr, b, k, i)
      ensures WasTaken(tr, b, k', i)
    {
      var m :| b < m <= k && m < |tr| && i < |tr[m].slots| && tr[m].slots[i].refcount != 0;
    }
  }

  lemma RegisterStep(tr: seq<State>, evs: seq<Event>, t: nat, b: nat, k: nat, w: Payload)
    requires Within(tr, evs, t, b, k) && k < |evs| && !tr[k].threads[t].Idle? && RegisterAt(tr, evs, t, b, k, w)
    ensures Within(tr, evs, t, b, k + 1) && RegisterAt(tr, evs, t, b, k + 1, w)
  {
    CallGoesOn(tr, evs, t, b, k);
    var pc := tr[k].threads[t];
    TakenStays(tr, b, k, k + 1);
    if evs[k].thread == t {
      if pc.Claim? && pc.slot < SLOTS && tr[k].slots[pc.slot].refcount != 0 {
        assert WasTaken(tr, b, k + 1, pc.slot);
      } else if pc.Publish? {
        assert Publishes(tr, evs, t, k, pc.slot, w);
      }
    }
  }

  lemma {:induction false} RegisterRuns(tr: seq<State>, evs: seq<Event>, t: nat, b: nat, k: nat, e: nat, w: Payload)
    requires IsCall(tr, evs, t, b, e) && evs[b].action == BeginRegister(w) && b < k <= e
    ensures Within(tr, evs, t, b, k) && RegisterAt(tr, evs, t, b, k, w)
    decreases k
  {
    if k == b + 1 {
      CallBegins(tr, evs, t, b);
    } else {
      RegisterRuns(tr, evs, t, b, k - 1, e, w);
      RegisterStep(tr, evs, t, b, k - 1, w);
    }
  }

  /** A registration that is over has published its record, or has found each slot taken at some time. */
  lemma RegisterEnds(tr: seq<State>, evs: seq<Event>, t: nat, b: nat, e: nat, w: Payload)
    requires IsCall(tr, evs, t, b, e) && evs[b].action == BeginRegister(w)
    ensures var answer := tr[e].threads[t].answer;
      if answer != -1 then 0 <= answer < SLOTS && HasPublished(tr, evs, t, b, e, answer, w)
      else forall i :: 0 <= i < SLOTS ==> WasTaken(tr, b, e, i)
  {
    RegisterRuns(tr, evs, t, b, e, e, w);
  }

  // ---------------------------------------------------------------- disciplined runs

  /** A thread in the middle of an unpin holds the reference it is to drop, so the slot is live. */
  lemma HolderSeesLive(tr: seq<State>, evs: seq<Event>, t: nat, k: nat)
    requires IsDisciplinedRun(tr, evs) && k < |tr| && t < |tr[k].threads|
    requires tr[k].threads[t].UnpinLoad? || tr[k].threads[t].UnpinCas?
    ensures tr[k].threads[t].slot < |tr[k].slots| && tr[k].slots[tr[k].threads[t].slot].refcount > 0
  {
    DisciplinedRunKeeps(tr, evs, k);
    assert Using(tr[k].threads[t]);
    RefcountCountsReferences(tr, evs, k, tr[k].threads[t].slot);
  }

  lemma {:induction false} DisciplinedUnpinRuns(tr: seq<State>, evs: seq<Event>, t: nat, b: nat, k: nat, e: nat, i: nat)
    requires IsDisciplinedRun(tr, evs) && IsCall(tr, evs, t, b, e) && evs[b].action == BeginUnpin(i) && b < k <= e
    ensures Within(tr, evs, t, b, k)
    ensures tr[k].threads[t].UnpinLoad? || tr[k].threads[t].UnpinCas? || HasDropped(tr, evs, t, b, k, i)
    decreases k
  {
    if k == b + 1 {
      CallBegins(tr, evs, t, b);
    } else {
      var j := k - 1;
      DisciplinedUnpinRuns(tr, evs, t, b, j, e, i);
      assert UnpinAt(tr, evs, t, b, j, i) by { UnpinRuns(tr, evs, t, b, j, e, i); }
      DisciplinedUnpinStep(tr, evs, t, b, j, i);
    }
  }

  lemma DisciplinedUnpinStep(tr: seq<State>, evs: seq<Event>, t: nat, b: nat, k: nat, i: nat)
    requires IsDisciplinedRun(tr, evs) && Within(tr, evs, t, b, k) && k < |evs| && !tr[k].threads[t].Idle?
    requires UnpinAt(tr, evs, t, b, k, i)
    requires tr[k].threads[t].UnpinLoad? || tr[k].threads[t].UnpinCas? || HasDropped(tr, evs, t, b, k, i)
    ensures Within(tr, evs, t, b, k + 1)
    ensures tr[k + 1].threads[t].UnpinLoad? || tr[k + 1].threads[t].UnpinCas? || HasDropped(tr, evs, t, b, k + 1, i)
  {
    CallGoesOn(tr, evs, t, b, k);
    if tr[k].threads[t].UnpinLoad? || tr[k].threads[t].UnpinCas? {
      HolderSeesLive(tr, evs, t, k);
    }
    if evs[k].thread == t {
      UnpinMoves(tr, evs, t, b, k);
    }
    if KeepsRefs(tr, evs, t, k) {
      RefsStay(tr, evs, t, b, k, i);
    } else {
      assert DropsOnce(tr, evs, t, b, k + 1, i, k);
    }
  }

  lemma LookupBeginsBusy(tr: seq<State>, evs: seq<Event>, t: nat, b: nat, key: nat)
    requires IsRun(tr, evs) && b < |evs| && evs[b] == Event(t, BeginLookup(key))
    ensures t < |tr[b + 1].threads| && !tr[b + 1].threads[t].Idle?
  {
    CallBegins(tr, evs, t, b);
  }

  /** Only the comparison ends a lookup with a slot. */
  lemma FoundByCompare(tr: seq<State>, evs: seq<Event>, t: nat, b: nat, k: nat, key: nat)
    requires Within(tr, evs, t, b, k) && k < |evs| && !tr[k].threads[t].Idle? && LookupAt(tr, evs, t, b, k, key)
    requires t < |tr[k + 1].threads| && tr[k + 1].threads[t].Idle? && tr[k + 1].threads[t].answer >= 0
    ensures evs[k].thread == t && evs[k].action.Advance?
    ensures tr[k].threads[t] == Compare(tr[k + 1].threads[t].answer, key)
  {
    CallGoesOn(tr, evs, t, b, k);
    if tr[k].threads[t].PinCas? && evs[k].thread == t {
      PinCasGoes(tr, evs, t, b, k);
    }
  }

  /** The slot that a lookup answers with has the key, and keeps its record while the caller holds the pin. */
  lemma AnswerHasKey(tr: seq<State>, evs: seq<Event>, t: nat, b: nat, e: nat, k: nat, key: nat)
    requires IsDisciplinedRun(tr, evs) && IsCall(tr, evs, t, b, e) && evs[b].action == BeginLookup(key) && e <= k < |tr|
    requires tr[e].threads[t].answer >= 0 && HoldsThrough(tr, e, k, t, tr[e].threads[t].answer)
    ensures var i := tr[e].threads[t].answer;
      && i < |tr[k].slots| && tr[k].slots[i].refcount > 0
      && tr[k].slots[i].payload.key == key && tr[k].slots[i].payload == tr[e].slots[i].payload
  {
    var j := e - 1;
    LookupBeginsBusy(tr, evs, t, b, key);
    assert Within(tr, evs, t, b, j) && LookupAt(tr, evs, t, b, j, key) by { LookupRuns(tr, evs, t, b, j, e, key); }
    FoundByCompare(tr, evs, t, b, j, key);
    LookupResultIsStable(tr, evs, j, k, t);
  }

  /** If callers drop only what they hold, an unpin that is over has given up exactly one reference. */
  lemma DisciplinedUnpinEnds(tr: seq<State>, evs: seq<Event>, t: nat, b: nat, e: nat, i: nat)
    requires IsDisciplinedRun(tr, evs) && IsCall(tr, evs, t, b, e) && evs[b].action == BeginUnpin(i)
    ensures HasDropped(tr, evs, t, b, e, i)
  {
    DisciplinedUnpinRuns(tr, evs, t, b, e, e, i);
  }

  // ---------------------------------------------------------------- calls come to an end

  /** The most steps that a lookup takes at one slot, when it runs alone. */
  const SCAN_STEPS := 11

  /** A bound on the steps that a call at pc takes when nobody interferes. */
  function StepsLeft(slots: seq<Slot>, pc: Pc): nat {
    match pc
    case Idle(_) => 0
    case PinLoad(i, next) => SCAN_STEPS + Beyond(i, next)
    case PinCas(i, cur, next) => 9 + Stale(slots, i, cur) + Beyond(i, next)
    case Compare(i, key) => 8 + Beyond(i, Scan(key))
    case UnpinLoad(i, next) => 7 + Beyond(i, next)
    case UnpinCas(i, cur, next) => 5 + Stale(slots, i, cur) + Beyond(i, next)
    case CallRelease(i, next) => 4 + Beyond(i, next)
    case CloseProbe(i, next) => 3 + Beyond(i, next)
    case StoreFree(i, next) => 2 + Beyond(i, next)
    case Discount(i, next) => 1 + Beyond(i, next)
    case Claim(i, _) => if i <= SLOTS then SLOTS - i + 6 else 0
    case AddLive(_, _) => 5
    case WriteKey(_, _) => 4
    case WriteOps(_, _) => 3
    case WriteUserptr(_, _) => 2
    case Publish(_, _) => 1
  }

  /** One step more for a compare-and-swap that will fail, because the count is not cur any more. */
  function Stale(slots: seq<Slot>, i: nat, cur: int): nat {
    Bit(i < |slots| && slots[i].refcount != cur)
  }

  /** The steps that a scan takes at the slots after this one. */
  function Beyond(slot: nat, next: Then): nat {
    if next.Scan? && slot < SLOTS then (SLOTS - 1 - slot) * SCAN_STEPS else 0
  }

  /** Every step whose compare-and-swap does not fail for no reason brings the call nearer to its end. */
  lemma StepsShrink(s: State, t: nat)
    requires Inv(s) && t < |s.threads| && !s.threads[t].Idle?
    ensures ThreadOk(s, t) && |Advanced(s, t, false).threads| == |s.threads|
    ensures var s' := Advanced(s, t, false); StepsLeft(s'.slots, s'.threads[t]) < StepsLeft(s.slots, s.threads[t])
  {
    assert ThreadOk(s, t);
    AdvanceIsLocal(s, t, false);
    var pc := s.threads[t];
    if pc.PinLoad? || pc.PinCas? || pc.Compare? {
      PinningShrinks(s, t);
    } else if Registering(pc) {
      RegisteringShrinks(s, t);
    } else {
      UnpinningShrinks(s, t);
    }
  }

  lemma PinningShrinks(s: State, t: nat)
    requires t < |s.threads| && ThreadOk(s, t) && Shape(s)
    requires s.threads[t].PinLoad? || s.threads[t].PinCas? || s.threads[t].Compare?
    ensures var s' := Advanced(s, t, false);
            |s'.threads| == |s.threads| && StepsLeft(s'.slots, s'.threads[t]) < StepsLeft(s.slots, s.threads[t])
  {
  }

  lemma UnpinningShrinks(s: State, t: nat)
    requires t < |s.threads| && ThreadOk(s, t) && Shape(s) && !s.threads[t].Idle?
    requires !s.threads[t].PinLoad? && !s.threads[t].PinCas? && !s.threads[t].Compare? && !Registering(s.threads[t])
    ensures var s' := Advanced(s, t, false);
            |s'.threads| == |s.threads| && StepsLeft(s'.slots, s'.threads[t]) < StepsLeft(s.slots, s.threads[t])
  {
  }

  lemma RegisteringShrinks(s: State, t: nat)
    requires t < |s.threads| && ThreadOk(s, t) && Shape(s) && Registering(s.threads[t])
    ensures var s' := Advanced(s, t, false);
            |s'.threads| == |s.threads| && StepsLeft(s'.slots, s'.threads[t]) < StepsLeft(s.slots, s.threads[t])
  {
  }

  /** So a thread that runs alone from j to k is done after so many steps, whatever call it is in. */
  lemma {:induction false} AloneIsSoonDone(tr: seq<State>, evs: seq<Event>, j: nat, k: nat, t: nat)
    requires IsRun(tr, evs) && j <= k < |tr| && t < |tr[j].threads|
    requires forall m :: j <= m < k ==> evs[m] == Event(t, Advance(false))
    ensures t < |tr[k].threads|
    ensures k - j + StepsLeft(tr[k].slots, tr[k].threads[t]) <= StepsLeft(tr[j].slots, tr[j].threads[t])
    decreases k - j
  {
    if j < k {
      AloneIsSoonDone(tr, evs, j, k - 1, t);
      RunKeeps(tr, evs, k - 1);
      assert StepAt(tr, evs, k - 1) && evs[k - 1] == Event(t, Advance(false));
      StepsShrink(tr[k - 1], t);
    }
  }
}
