/**
  The lock-free life of the table's slots, as an interleaved step system: any number of threads,
  each at one program point, and every atomic load, compare-and-swap or store is one step.

    refcount  0  free          refcount -1  transient, one owner
    refcount >= 1  live: the producer's reference plus one per pin
*/
module SlotProtocol {

  const SLOTS: nat := 64
  const UINT_MOD := 0x1_0000_0000

  datatype Payload = Payload(key: nat, ops: nat, userptr: nat)

  /** The last three fields count events: publications, release calls and successful pins of this slot. */
  datatype Slot = Slot(refcount: int, payload: Payload, published: nat, released: nat, pins: nat)

  /** What a pin or an unpin is part of: a bare call, or the scan of a key lookup. */
  datatype Then = Return | Scan(key: nat)

  /** answer is what the thread's last call gave: the slot it pinned or registered, or -1. */
  datatype Pc =
    | Idle(answer: int)
    // synth_pin
    | PinLoad(slot: nat, next: Then)
    | PinCas(slot: nat, cur: int, next: Then)
    // synth_pin_lookup, after a pin
    | Compare(slot: nat, key: nat)
    // wslcompat_synth_unpin
    | UnpinLoad(slot: nat, next: Then)
    | UnpinCas(slot: nat, cur: int, next: Then)
    | CallRelease(slot: nat, next: Then)
    | CloseProbe(slot: nat, next: Then)
    | StoreFree(slot: nat, next: Then)
    | Discount(slot: nat, next: Then)
    // synth_register
    | Claim(slot: nat, w: Payload)
    | AddLive(slot: nat, w: Payload)
    | WriteKey(slot: nat, w: Payload)
    | WriteOps(slot: nat, w: Payload)
    | WriteUserptr(slot: nat, w: Payload)
    | Publish(slot: nat, w: Payload)

  /** held[t][i] counts the references to slot i that thread t has and may drop. */
  datatype State = State(slots: seq<Slot>, live: int, threads: seq<Pc>, held: seq<seq<int>>)

  datatype Action =
    | BeginPin(i: nat)
    | BeginUnpin(i: nat)
    | BeginLookup(key: nat)
    | BeginRegister(w: Payload)
    | Hand(to: nat, i: nat)
    | Advance(spurious: bool)

  // ---------------------------------------------------------------- steps

  ghost predicate Shape(s: State) {
    && |s.slots| == SLOTS && |s.held| == |s.threads|
    && (forall t :: 0 <= t < |s.held| ==> |s.held[t]| == SLOTS)
    && |s.threads| + SLOTS < UINT_MOD
  }

  /** Every program point names a slot of the table, or one past it where a scan ends. */
  predicate PcOk(pc: Pc) {
    && (!pc.Idle? && !pc.Claim? ==> pc.slot < SLOTS)
    && (pc.Claim? ==> pc.slot <= SLOTS)
    && (pc.PinCas? || pc.UnpinCas? ==> pc.cur > 0)
  }

  predicate Enabled(s: State, t: nat, a: Action) {
    && t < |s.threads| && t < |s.held|
    && match a
       case Advance(_) => !s.threads[t].Idle?
       case BeginPin(i) => s.threads[t].Idle? && i < SLOTS
       case BeginUnpin(i) => s.threads[t].Idle? && i < SLOTS
       case Hand(to, i) => s.threads[t].Idle? && to < |s.held| && to != t && i < SLOTS
       case _ => s.threads[t].Idle?
  }

  /** Where a failed pin, or a finished unpin, goes on. */
  function After(next: Then, slot: nat): Pc {
    if next.Scan? && slot + 1 < SLOTS then PinLoad(slot + 1, next) else Idle(-1)
  }

  function Goto(s: State, t: nat, pc: Pc): State
    requires t < |s.threads|
  {
    s.(threads := s.threads[t := pc])
  }

  function SetSlot(s: State, i: nat, e: Slot): State
    requires i < |s.slots|
  {
    s.(slots := s.slots[i := e])
  }

  function AddHeld(s: State, t: nat, i: nat, d: int): State
    requires t < |s.held| && i < |s.held[t]|
  {
    s.(held := s.held[t := s.held[t][i := s.held[t][i] + d]])
  }

  /** One step of the thread's current call. */
  function Advanced(s: State, t: nat, spurious: bool): State
    requires Shape(s) && t < |s.threads| && PcOk(s.threads[t])
  {
    var pc := s.threads[t];
    match pc
    case Idle(_) => s
    case PinLoad(i, next) =>
      var c := s.slots[i].refcount;
      Goto(s, t, if c > 0 then PinCas(i, c, next) else After(next, i))
    case PinCas(i, cur, next) =>
      var e := s.slots[i];
      if e.refcount == cur && !spurious then
        Goto(AddHeld(SetSlot(s, i, e.(refcount := cur + 1, pins := e.pins + 1)), t, i, 1), t,
             if next.Scan? then Compare(i, next.key) else Idle(i))
      else
        Goto(s, t, if e.refcount > 0 then PinCas(i, e.refcount, next) else After(next, i))
    case Compare(i, key) =>
      Goto(s, t, if s.slots[i].payload.key == key then Idle(i) else UnpinLoad(i, Scan(key)))
    case UnpinLoad(i, next) =>
      var c := s.slots[i].refcount;
      Goto(s, t, if c > 0 then UnpinCas(i, c, next) else After(next, i))
    case UnpinCas(i, cur, next) =>
      var e := s.slots[i];
      if e.refcount == cur && !spurious then
        Goto(AddHeld(SetSlot(s, i, e.(refcount := if cur == 1 then -1 else cur - 1)), t, i, -1), t,
             if cur == 1 then CallRelease(i, next) else After(next, i))
      else
        Goto(s, t, if e.refcount > 0 then UnpinCas(i, e.refcount, next) else After(next, i))
    case CallRelease(i, next) =>
      var e := s.slots[i];
      Goto(SetSlot(s, i, e.(released := e.released + 1)), t, CloseProbe(i, next))
    case CloseProbe(i, next) => Goto(s, t, StoreFree(i, next))
    case StoreFree(i, next) => Goto(SetSlot(s, i, s.slots[i].(refcount := 0)), t, Discount(i, next))
    case Discount(i, next) => Goto(s.(live := (s.live - 1) % UINT_MOD), t, After(next, i))
    case Claim(i, w) =>
      if i >= SLOTS then Goto(s, t, Idle(-1))
      else if s.slots[i].refcount == 0 then Goto(SetSlot(s, i, s.slots[i].(refcount := -1)), t, AddLive(i, w))
      else Goto(s, t, Claim(i + 1, w))
    case AddLive(i, w) => Goto(s.(live := (s.live + 1) % UINT_MOD), t, WriteKey(i, w))
    case WriteKey(i, w) =>
      Goto(SetSlot(s, i, s.slots[i].(payload := s.slots[i].payload.(key := w.key))), t, WriteOps(i, w))
    case WriteOps(i, w) =>
      Goto(SetSlot(s, i, s.slots[i].(payload := s.slots[i].payload.(ops := w.ops))), t, WriteUserptr(i, w))
    case WriteUserptr(i, w) =>
      Goto(SetSlot(s, i, s.slots[i].(payload := s.slots[i].payload.(userptr := w.userptr))), t, Publish(i, w))
    case Publish(i, w) =>
      var e := s.slots[i];
      Goto(AddHeld(SetSlot(s, i, e.(refcount := 1, published := e.published + 1)), t, i, 1), t, Idle(i))
  }

  function Step(s: State, t: nat, a: Action): State
    requires Shape(s) && Enabled(s, t, a) && PcOk(s.threads[t])
  {
    match a
    case BeginPin(i) => Goto(s, t, PinLoad(i, Return))
    case BeginUnpin(i) => Goto(s, t, UnpinLoad(i, Return))
    case BeginLookup(key) => Goto(s, t, PinLoad(0, Scan(key)))
    case BeginRegister(w) => Goto(s, t, Claim(0, w))
    case Hand(to, i) => AddHeld(AddHeld(s, t, i, -1), to, i, 1)
    case Advance(spurious) => Advanced(s, t, spurious)
  }

  // ---------------------------------------------------------------- counting

  /** What a program point does to the slot it names, or to the counter. */
  datatype Role = Owner(i: nat) | AnyOwner | Releasing(i: nat) | Uncounted | Undiscounted

  /** The points between taking a slot to -1 and storing its next state. */
  predicate Owns(pc: Pc) {
    || pc.CallRelease? || pc.CloseProbe? || pc.StoreFree?
    || pc.AddLive? || pc.WriteKey? || pc.WriteOps? || pc.WriteUserptr? || pc.Publish?
  }

  predicate Plays(pc: Pc, r: Role) {
    match r
    case Owner(i) => Owns(pc) && pc.slot == i
    case AnyOwner => Owns(pc)
    case Releasing(i) => pc.CallRelease? && pc.slot == i
    case Uncounted => pc.AddLive?
    case Undiscounted => pc.Discount?
  }

  function Bit(b: bool): nat { if b then 1 else 0 }

  function Count(pcs: seq<Pc>, r: Role): nat {
    if pcs == [] then 0 else Count(pcs[..|pcs| - 1], r) + Bit(Plays(pcs[|pcs| - 1], r))
  }

  lemma {:induction false} CountUpdate(pcs: seq<Pc>, t: nat, pc: Pc, r: Role)
    requires t < |pcs|
    ensures Count(pcs[t := pc], r) == Count(pcs, r) - Bit(Plays(pcs[t], r)) + Bit(Plays(pc, r))
  {
    var n := |pcs| - 1;
    if t == n {
      assert pcs[t := pc][..n] == pcs[..n];
    } else {
      assert pcs[t := pc][..n] == pcs[..n][t := pc];
      CountUpdate(pcs[..n], t, pc, r);
    }
  }

  lemma {:induction false} CountBounds(pcs: seq<Pc>, r: Role)
    ensures Count(pcs, r) <= |pcs|
    ensures Count(pcs, Uncounted) <= Count(pcs, AnyOwner)
    ensures r.Owner? ==> Count(pcs, Releasing(r.i)) <= Count(pcs, r)
    ensures forall t :: 0 <= t < |pcs| && Plays(pcs[t], r) ==> Count(pcs, r) >= 1
    ensures Count(pcs, r) >= 1 ==> exists t :: 0 <= t < |pcs| && Plays(pcs[t], r)
  {
    if pcs != [] {
      var n := |pcs| - 1;
      CountBounds(pcs[..n], r);
      assert forall t :: 0 <= t < n ==> pcs[..n][t] == pcs[t];
    }
  }

  lemma {:induction false} CountTwo(pcs: seq<Pc>, r: Role, t: nat, u: nat)
    requires t < u < |pcs| && Plays(pcs[t], r) && Plays(pcs[u], r)
    ensures Count(pcs, r) >= 2
  {
    var n := |pcs| - 1;
    if u == n {
      CountBounds(pcs[..n], r);
      assert Plays(pcs[..n][t], r);
    } else {
      CountTwo(pcs[..n], r, t, u);
    }
  }

  /** Slots with refcount positive, and slots with refcount not zero. */
  function Live(slots: seq<Slot>): nat {
    if slots == [] then 0 else Live(slots[..|slots| - 1]) + Bit(slots[|slots| - 1].refcount > 0)
  }

  function NonFree(slots: seq<Slot>): nat {
    if slots == [] then 0 else NonFree(slots[..|slots| - 1]) + Bit(slots[|slots| - 1].refcount != 0)
  }

  lemma {:induction false} SlotUpdate(slots: seq<Slot>, i: nat, e: Slot)
    requires i < |slots|
    ensures Live(slots[i := e]) == Live(slots) - Bit(slots[i].refcount > 0) + Bit(e.refcount > 0)
    ensures NonFree(slots[i := e]) == NonFree(slots) - Bit(slots[i].refcount != 0) + Bit(e.refcount != 0)
  {
    var n := |slots| - 1;
    if i == n {
      assert slots[i := e][..n] == slots[..n];
    } else {
      assert slots[i := e][..n] == slots[..n][i := e];
      SlotUpdate(slots[..n], i, e);
    }
  }

  lemma {:induction false} SlotBounds(slots: seq<Slot>)
    ensures NonFree(slots) <= |slots|
    ensures forall i :: 0 <= i < |slots| && slots[i].refcount > 0 ==> Live(slots) >= 1
  {
    if slots != [] {
      var n := |slots| - 1;
      SlotBounds(slots[..n]);
      assert forall i :: 0 <= i < n ==> slots[..n][i] == slots[i];
    }
  }

  // ---------------------------------------------------------------- what every step keeps

  /** A transient slot has one owner; registrations and releases alternate. */
  predicate SlotOk(s: State, i: nat)
    requires i < |s.slots|
  {
    var e := s.slots[i];
    && e.refcount >= -1
    && Count(s.threads, Owner(i)) == Bit(e.refcount == -1)
    && e.published == e.released + Bit(e.refcount > 0) + Count(s.threads, Releasing(i))
  }

  /** A registrar has written the fields before the one it is about to write. */
  predicate Written(pc: Pc, p: Payload) {
    && (pc.WriteOps? || pc.WriteUserptr? || pc.Publish? ==> p.key == pc.w.key)
    && (pc.WriteUserptr? || pc.Publish? ==> p.ops == pc.w.ops)
    && (pc.Publish? ==> p.userptr == pc.w.userptr)
  }

  predicate ThreadOk(s: State, t: nat)
    requires t < |s.threads|
  {
    var pc := s.threads[t];
    && PcOk(pc)
    && (Owns(pc) ==> pc.slot < |s.slots| && Written(pc, s.slots[pc.slot].payload))
  }

  /** Non-free slots, less registrars yet to count theirs, plus cleaners yet to discount theirs. */
  function Due(s: State): int {
    NonFree(s.slots) - Count(s.threads, Uncounted) + Count(s.threads, Undiscounted)
  }

  ghost predicate CounterOk(s: State) {
    && NonFree(s.slots) == Live(s.slots) + Count(s.threads, AnyOwner)
    && s.live == Due(s)
  }

  ghost predicate Inv(s: State) {
    && Shape(s)
    && (forall i :: 0 <= i < SLOTS ==> SlotOk(s, i))
    && (forall t :: 0 <= t < |s.threads| ==> ThreadOk(s, t))
    && CounterOk(s)
  }

  /** The zero-initialised table, with any number of threads. */
  ghost predicate Initial(s: State) {
    && Shape(s)
    && (forall i :: 0 <= i < SLOTS ==> s.slots[i].refcount == 0 && s.slots[i].published == s.slots[i].released == 0)
    && s.live == 0
    && (forall t :: 0 <= t < |s.threads| ==> s.threads[t].Idle?)
    && (forall t, i :: 0 <= t < |s.held| && 0 <= i < SLOTS ==> s.held[t][i] == 0)
  }

  /** A thread that owns a slot is the only one, and the slot is transient. */
  lemma OwnerIsAlone(s: State, t: nat)
    requires Inv(s) && t < |s.threads| && Owns(s.threads[t])
    ensures s.threads[t].slot < |s.slots| && s.slots[s.threads[t].slot].refcount == -1
    ensures forall u :: 0 <= u < |s.threads| && u != t ==> !Plays(s.threads[u], Owner(s.threads[t].slot))
  {
    var i := s.threads[t].slot;
    assert ThreadOk(s, t) && SlotOk(s, i);
    CountBounds(s.threads, Owner(i));
    forall u | 0 <= u < |s.threads| && u != t
      ensures !Plays(s.threads[u], Owner(i))
    {
      if Plays(s.threads[u], Owner(i)) {
        CountTwo(s.threads, Owner(i), if t < u then t else u, if t < u then u else t);
      }
    }
  }

  /** One step moves one thread, and changes at most the slot that thread is at. */
  lemma StepIsLocal(s: State, t: nat, a: Action)
    requires Inv(s) && Enabled(s, t, a)
    ensures ThreadOk(s, t)
    ensures var s' := Step(s, t, a);
      && Shape(s') && PcOk(s'.threads[t])
      && s'.threads == s.threads[t := s'.threads[t]]
      && (forall i :: 0 <= i < SLOTS && s'.slots[i] != s.slots[i] ==> !s.threads[t].Idle? && s.threads[t].slot == i)
      && (a.Advance? || s'.slots == s.slots)
  {
    assert ThreadOk(s, t);
    if a.Advance? {
      AdvanceIsLocal(s, t, a.spurious);
    } else {
      assert Step(s, t, a).threads == s.threads[t := Step(s, t, a).threads[t]];
    }
  }

  lemma AdvanceIsLocal(s: State, t: nat, spurious: bool)
    requires Shape(s) && t < |s.threads| && PcOk(s.threads[t])
    ensures var s' := Advanced(s, t, spurious);
      && Shape(s') && PcOk(s'.threads[t])
      && s'.threads == s.threads[t := s'.threads[t]]
      && (forall i :: 0 <= i < SLOTS && s'.slots[i] != s.slots[i] ==> !s.threads[t].Idle? && s.threads[t].slot == i)
  {
    AdvanceKeepsRows(s, t, spurious);
    AdvanceTouches(s, t, spurious);
  }

  lemma AdvanceTouches(s: State, t: nat, spurious: bool)
    requires Shape(s) && t < |s.threads| && PcOk(s.threads[t])
    ensures var s' := Advanced(s, t, spurious);
      && |s'.slots| == SLOTS
      && (forall i :: 0 <= i < SLOTS && s'.slots[i] != s.slots[i] ==> !s.threads[t].Idle? && s.threads[t].slot == i)
  {
  }

  lemma AdvanceKeepsRows(s: State, t: nat, spurious: bool)
    requires Shape(s) && t < |s.threads| && PcOk(s.threads[t])
    ensures var held := Advanced(s, t, spurious).held;
      |held| == |s.held| && forall u :: 0 <= u < |held| ==> |held[u]| == SLOTS
  {
  }

  /** What a step adds to the number of non-free slots, and to the number of owners. */
  function Gain(s: State, s': State, i: nat): int
    requires i < |s.slots| && i < |s'.slots|
  {
    Bit(s'.slots[i].refcount != 0) - Bit(s.slots[i].refcount != 0)
  }

  function DueGain(s: State, s': State, t: nat, i: nat): int
    requires t < |s.threads| && t < |s'.threads| && i < |s.slots| && i < |s'.slots|
  {
    var pc, pc' := s.threads[t], s'.threads[t];
    Gain(s, s', i) - (Bit(pc'.AddLive?) - Bit(pc.AddLive?)) + Bit(pc'.Discount?) - Bit(pc.Discount?)
  }

  /** Slots leave and enter the free state with their owners, and the counter follows once it is told. */
  predicate Balanced(s: State, s': State, t: nat, i: nat)
    requires t < |s.threads| && t < |s'.threads| && i < |s.slots| && i < |s'.slots|
  {
    var pc, pc' := s.threads[t], s'.threads[t];
    && Gain(s, s', i) == Bit(s'.slots[i].refcount > 0) - Bit(s.slots[i].refcount > 0) + Bit(Owns(pc')) - Bit(Owns(pc))
    && ((s'.live == s.live && DueGain(s, s', t, i) == 0) || s'.live == (s.live + DueGain(s, s', t, i)) % UINT_MOD)
  }

  lemma AdvanceBalance(s: State, t: nat, spurious: bool)
    requires Shape(s) && t < |s.threads| && PcOk(s.threads[t]) && !s.threads[t].Idle?
    requires s.threads[t].slot < SLOTS && s.slots[s.threads[t].slot].refcount >= -1
    requires Owns(s.threads[t]) ==> s.slots[s.threads[t].slot].refcount == -1
    ensures Balanced(s, Advanced(s, t, spurious), t, s.threads[t].slot)
  {
  }

  /** A slot turns transient with its owner, and releases and publications keep in step with it. */
  predicate SlotMoves(s: State, s': State, t: nat, i: nat)
    requires t < |s.threads| && t < |s'.threads| && i < |s.slots| && i < |s'.slots|
  {
    var e, e', pc, pc' := s.slots[i], s'.slots[i], s.threads[t], s'.threads[t];
    && e'.refcount >= -1
    && (Owns(pc') ==> pc'.slot == i)
    && Bit(e'.refcount == -1) - Bit(e.refcount == -1) == Bit(Owns(pc')) - Bit(Owns(pc))
    && e'.published - e'.released - Bit(e'.refcount > 0) - Bit(pc'.CallRelease?)
       == e.published - e.released - Bit(e.refcount > 0) - Bit(pc.CallRelease?)
  }

  lemma AdvanceMovesSlot(s: State, t: nat, spurious: bool)
    requires Shape(s) && t < |s.threads| && PcOk(s.threads[t]) && !s.threads[t].Idle?
    requires s.threads[t].slot < SLOTS && s.slots[s.threads[t].slot].refcount >= -1
    requires Owns(s.threads[t]) ==> s.slots[s.threads[t].slot].refcount == -1
    ensures SlotMoves(s, Advanced(s, t, spurious), t, s.threads[t].slot)
  {
    if Registering(s.threads[t]) {
      RegisterMovesSlot(s, t, spurious);
    }
  }

  lemma RegisterMovesSlot(s: State, t: nat, spurious: bool)
    requires Shape(s) && t < |s.threads| && PcOk(s.threads[t]) && Registering(s.threads[t])
    requires s.threads[t].slot < SLOTS && s.slots[s.threads[t].slot].refcount >= -1
    requires Owns(s.threads[t]) ==> s.slots[s.threads[t].slot].refcount == -1
    ensures SlotMoves(s, Advanced(s, t, spurious), t, s.threads[t].slot)
  {
  }

  lemma StepKeepsSlot(s: State, t: nat, a: Action, i: nat)
    requires Inv(s) && Enabled(s, t, a) && i < SLOTS
    ensures ThreadOk(s, t)
    ensures SlotOk(Step(s, t, a), i)
  {
    StepIsLocal(s, t, a);
    var s' := Step(s, t, a);
    var pc := s.threads[t];
    CountUpdate(s.threads, t, s'.threads[t], Owner(i));
    CountUpdate(s.threads, t, s'.threads[t], Releasing(i));
    assert SlotOk(s, i);
    if a.Advance? && pc.slot < SLOTS {
      if Owns(pc) {
        OwnerIsAlone(s, t);
      }
      assert SlotOk(s, pc.slot);
      AdvanceMovesSlot(s, t, a.spurious);
    }
  }

  lemma StepKeepsThread(s: State, t: nat, a: Action, u: nat)
    requires Inv(s) && Enabled(s, t, a) && u < |s.threads|
    ensures ThreadOk(s, t)
    ensures ThreadOk(Step(s, t, a), u)
  {
    assert ThreadOk(s, t);
    if u != t {
      StepKeepsOther(s, t, a, u);
    } else if a.Advance? {
      AdvanceKeepsOwn(s, t, a.spurious);
    }
  }

  lemma AdvanceKeepsOwn(s: State, t: nat, spurious: bool)
    requires Shape(s) && t < |s.threads| && ThreadOk(s, t)
    ensures ThreadOk(Advanced(s, t, spurious), t)
  {
    if Registering(s.threads[t]) {
      RegisterKeepsOwn(s, t, spurious);
    }
  }

  predicate Registering(pc: Pc) {
    pc.Claim? || pc.AddLive? || pc.WriteKey? || pc.WriteOps? || pc.WriteUserptr? || pc.Publish?
  }

  lemma RegisterKeepsOwn(s: State, t: nat, spurious: bool)
    requires Shape(s) && t < |s.threads| && ThreadOk(s, t) && Registering(s.threads[t])
    ensures ThreadOk(Advanced(s, t, spurious), t)
  {
  }

  lemma StepKeepsOther(s: State, t: nat, a: Action, u: nat)
    requires Inv(s) && Enabled(s, t, a) && u < |s.threads| && u != t
    ensures ThreadOk(s, t)
    ensures ThreadOk(Step(s, t, a), u)
  {
    StepIsLocal(s, t, a);
    assert ThreadOk(s, u);
    if Owns(s.threads[u]) {
      OwnerIsAlone(s, u);
    }
  }

  lemma StepKeepsCounter(s: State, t: nat, a: Action)
    requires Inv(s) && Enabled(s, t, a)
    ensures ThreadOk(s, t)
    ensures CounterOk(Step(s, t, a))
  {
    StepIsLocal(s, t, a);
    var s' := Step(s, t, a);
    var pc := s.threads[t];
    if a.Advance? && pc.slot < SLOTS {
      if Owns(pc) {
        OwnerIsAlone(s, t);
      }
      assert SlotOk(s, pc.slot);
      AdvanceBalance(s, t, a.spurious);
      BalanceKeepsCounter(s, s', t, pc.slot);
    } else {
      CountUpdate(s.threads, t, s'.threads[t], AnyOwner);
      CountUpdate(s.threads, t, s'.threads[t], Uncounted);
      CountUpdate(s.threads, t, s'.threads[t], Undiscounted);
      assert s'.slots == s.slots;
    }
  }

  lemma BalanceKeepsCounter(s: State, s': State, t: nat, i: nat)
    requires Shape(s) && Shape(s') && CounterOk(s) && t < |s.threads| == |s'.threads| && i < SLOTS
    requires s'.threads == s.threads[t := s'.threads[t]]
    requires forall j :: 0 <= j < SLOTS && s'.slots[j] != s.slots[j] ==> j == i
    requires Balanced(s, s', t, i)
    ensures CounterOk(s')
  {
    MovedCounts(s, s', t, i);
    CounterFits(s');
  }

  lemma MovedCounts(s: State, s': State, t: nat, i: nat)
    requires Shape(s) && Shape(s') && t < |s.threads| == |s'.threads| && i < SLOTS
    requires s'.threads == s.threads[t := s'.threads[t]]
    requires forall j :: 0 <= j < SLOTS && s'.slots[j] != s.slots[j] ==> j == i
    ensures NonFree(s'.slots) == NonFree(s.slots) + Gain(s, s', i)
    ensures Live(s'.slots) == Live(s.slots) + Bit(s'.slots[i].refcount > 0) - Bit(s.slots[i].refcount > 0)
    ensures Count(s'.threads, AnyOwner) ==
            Count(s.threads, AnyOwner) - Bit(Owns(s.threads[t])) + Bit(Owns(s'.threads[t]))
    ensures Due(s') == Due(s) + DueGain(s, s', t, i)
  {
    CountUpdate(s.threads, t, s'.threads[t], AnyOwner);
    CountUpdate(s.threads, t, s'.threads[t], Uncounted);
    CountUpdate(s.threads, t, s'.threads[t], Undiscounted);
    SlotUpdate(s.slots, i, s'.slots[i]);
    assert s'.slots == s.slots[i := s'.slots[i]];
  }

  /** The counter's true value always fits an unsigned int, so its arithmetic never wraps. */
  lemma CounterFits(s: State)
    requires Shape(s)
    requires NonFree(s.slots) == Live(s.slots) + Count(s.threads, AnyOwner)
    ensures 0 <= Due(s) < UINT_MOD
  {
    CountBounds(s.threads, Undiscounted);
    SlotBounds(s.slots);
  }

  lemma StepKeeps(s: State, t: nat, a: Action)
    requires Inv(s) && Enabled(s, t, a)
    ensures ThreadOk(s, t)
    ensures Inv(Step(s, t, a))
  {
    StepIsLocal(s, t, a);
    forall i | 0 <= i < SLOTS
      ensures SlotOk(Step(s, t, a), i)
    {
      StepKeepsSlot(s, t, a, i);
    }
    forall u | 0 <= u < |s.threads|
      ensures ThreadOk(Step(s, t, a), u)
    {
      StepKeepsThread(s, t, a, u);
    }
    StepKeepsCounter(s, t, a);
  }

  lemma InitialHolds(s: State)
    requires Initial(s)
    ensures Inv(s)
  {
    forall r: Role ensures Count(s.threads, r) == 0 {
      CountBounds(s.threads, r);
    }
    AllFree(s.slots);
  }

  lemma {:induction false} AllFree(slots: seq<Slot>)
    requires forall i :: 0 <= i < |slots| ==> slots[i].refcount == 0
    ensures Live(slots) == NonFree(slots) == 0
  {
    if slots != [] {
      AllFree(slots[..|slots| - 1]);
    }
  }

  // ---------------------------------------------------------------- whole runs, whatever the callers do

  datatype Event = Event(thread: nat, action: Action)

  ghost predicate Follows(s: State, ev: Event, s': State) {
    && Shape(s) && Enabled(s, ev.thread, ev.action) && PcOk(s.threads[ev.thread])
    && s' == Step(s, ev.thread, ev.action)
  }

  /** Event k leads from tr[k] to tr[k + 1]. */
  ghost predicate StepAt(tr: seq<State>, evs: seq<Event>, k: int) {
    0 <= k < |evs| && k + 1 < |tr| && Follows(tr[k], evs[k], tr[k + 1])
  }

  /** tr[k + 1] is tr[k] after event k: any interleaving, from any initial table. */
  ghost predicate IsRun(tr: seq<State>, evs: seq<Event>) {
    && |tr| == |evs| + 1 && Initial(tr[0])
    && (forall k :: 0 <= k < |evs| ==> StepAt(tr, evs, k))
  }

  lemma {:induction false} RunKeeps(tr: seq<State>, evs: seq<Event>, k: nat)
    requires IsRun(tr, evs) && k < |tr|
    ensures Inv(tr[k])
  {
    if k == 0 {
      InitialHolds(tr[0]);
    } else {
      RunKeeps(tr, evs, k - 1);
      assert StepAt(tr, evs, k - 1);
      StepKeeps(tr[k - 1], evs[k - 1].thread, evs[k - 1].action);
    }
  }

  /** Every enabled event can happen next: the model never gets stuck on its own side conditions. */
  lemma RunExtends(tr: seq<State>, evs: seq<Event>, ev: Event)
    requires IsRun(tr, evs) && Enabled(tr[|evs|], ev.thread, ev.action)
    ensures exists s' :: IsRun(tr + [s'], evs + [ev])
  {
    var s := tr[|evs|];
    RunKeeps(tr, evs, |evs|);
    assert ThreadOk(s, ev.thread);
    var s' := Step(s, ev.thread, ev.action);
    var (tr', evs') := (tr + [s'], evs + [ev]);
    forall k | 0 <= k < |evs'|
      ensures StepAt(tr', evs', k)
    {
      if k < |evs| {
        assert StepAt(tr, evs, k);
      } else {
        assert Follows(s, ev, s');
      }
    }
    assert IsRun(tr', evs');
  }

  /** A slot is transient exactly while one thread, and no other, owns it. */
  lemma TransientHasOneOwner(tr: seq<State>, evs: seq<Event>, k: nat, i: nat)
    requires IsRun(tr, evs) && k < |tr| && i < SLOTS
    ensures Shape(tr[k])
    ensures tr[k].slots[i].refcount == -1 <==> exists t :: 0 <= t < |tr[k].threads| && Plays(tr[k].threads[t], Owner(i))
    ensures forall t, u :: 0 <= t < u < |tr[k].threads| ==>
              !(Plays(tr[k].threads[t], Owner(i)) && Plays(tr[k].threads[u], Owner(i)))
  {
    RunKeeps(tr, evs, k);
    assert SlotOk(tr[k], i);
    CountBounds(tr[k].threads, Owner(i));
    forall t | 0 <= t < |tr[k].threads| && Plays(tr[k].threads[t], Owner(i))
      ensures forall u :: 0 <= u < |tr[k].threads| && u != t ==> !Plays(tr[k].threads[u], Owner(i))
    {
      OwnerIsAlone(tr[k], t);
    }
  }

  /** While a slot is not live only its owner's publication makes it so, and nothing pins it before. */
  lemma StepWhileNotLive(s: State, t: nat, a: Action, i: nat)
    requires Inv(s) && Enabled(s, t, a) && i < SLOTS
    ensures ThreadOk(s, t) && Shape(Step(s, t, a))
    ensures var s' := Step(s, t, a);
      && s'.slots[i].published >= s.slots[i].published
      && (s'.slots[i].published > s.slots[i].published ==> s.threads[t].Publish? && s.threads[t].slot == i)
      && (s.slots[i].refcount <= 0 && s'.slots[i].published == s.slots[i].published ==>
            s'.slots[i].refcount <= 0 && s'.slots[i].pins == s.slots[i].pins)
  {
    StepIsLocal(s, t, a);
    if Owns(s.threads[t]) {
      OwnerIsAlone(s, t);
    }
  }

  lemma {:induction false} NoPinBeforePublish(tr: seq<State>, evs: seq<Event>, j: nat, k: nat, i: nat)
    requires IsRun(tr, evs) && j <= k < |tr| && i < SLOTS
    ensures Shape(tr[j]) && Shape(tr[k])
    ensures tr[j].slots[i].published <= tr[k].slots[i].published
    ensures tr[j].slots[i].refcount <= 0 && tr[k].slots[i].published == tr[j].slots[i].published ==>
              tr[k].slots[i].refcount <= 0 && tr[k].slots[i].pins == tr[j].slots[i].pins
    decreases k - j
  {
    if j < k {
      NoPinBeforePublish(tr, evs, j, k - 1, i);
      NotLiveOneStep(tr, evs, k - 1, i);
    } else {
      RunKeeps(tr, evs, k);
    }
  }

  lemma NotLiveOneStep(tr: seq<State>, evs: seq<Event>, k: nat, i: nat)
    requires IsRun(tr, evs) && k < |evs| && i < SLOTS
    ensures Shape(tr[k]) && Shape(tr[k + 1])
    ensures tr[k].slots[i].published <= tr[k + 1].slots[i].published
    ensures tr[k].slots[i].refcount <= 0 && tr[k + 1].slots[i].published == tr[k].slots[i].published ==>
              tr[k + 1].slots[i].refcount <= 0 && tr[k + 1].slots[i].pins == tr[k].slots[i].pins
  {
    RunKeeps(tr, evs, k);
    assert StepAt(tr, evs, k);
    StepWhileNotLive(tr[k], evs[k].thread, evs[k].action, i);
  }

  /** An owner keeps its slot until it takes a step itself. */
  lemma {:induction false} OwnerKeepsSlot(tr: seq<State>, evs: seq<Event>, j: nat, k: nat, t: nat)
    requires IsRun(tr, evs) && j <= k < |tr| && t < |tr[j].threads| && Owns(tr[j].threads[t])
    requires forall m :: j <= m < k ==> evs[m].thread != t
    ensures |tr[k].threads| == |tr[j].threads| && tr[k].threads[t] == tr[j].threads[t]
    ensures tr[k].threads[t].slot < |tr[k].slots| && tr[k].slots[tr[k].threads[t].slot].refcount == -1
    decreases k - j
  {
    if j < k {
      OwnerKeepsSlot(tr, evs, j, k - 1, t);
      OthersWait(tr, evs, k - 1, t);
    }
    RunKeeps(tr, evs, k);
    OwnerIsAlone(tr[k], t);
  }

  lemma OthersWait(tr: seq<State>, evs: seq<Event>, k: nat, t: nat)
    requires IsRun(tr, evs) && k < |evs| && t < |tr[k].threads| && evs[k].thread != t
    ensures |tr[k + 1].threads| == |tr[k].threads| && tr[k + 1].threads[t] == tr[k].threads[t]
  {
    RunKeeps(tr, evs, k);
    assert StepAt(tr, evs, k);
    StepIsLocal(tr[k], evs[k].thread, evs[k].action);
  }

  lemma ReleasesTrail(s: State, i: nat)
    requires Inv(s) && i < SLOTS
    ensures s.slots[i].released <= s.slots[i].published <= s.slots[i].released + 1
  {
    assert SlotOk(s, i);
    CountBounds(s.threads, Owner(i));
  }

  /** Between two registrations of a slot its release callback runs at most once. */
  lemma ReleasedOncePerRegistration(tr: seq<State>, evs: seq<Event>, j: nat, k: nat, i: nat)
    requires IsRun(tr, evs) && j <= k < |tr| && i < SLOTS
    ensures Shape(tr[j]) && Shape(tr[k])
    ensures tr[k].slots[i].released - tr[j].slots[i].released <= tr[k].slots[i].published - tr[j].slots[i].published + 1
  {
    RunKeeps(tr, evs, j);
    RunKeeps(tr, evs, k);
    ReleasesTrail(tr[j], i);
    ReleasesTrail(tr[k], i);
  }

  /** The counter is exact up to registrars and cleaners in flight, and zero only if nothing is published. */
  lemma CounterNeverLies(tr: seq<State>, evs: seq<Event>, k: nat)
    requires IsRun(tr, evs) && k < |tr|
    ensures Shape(tr[k]) && tr[k].live == Due(tr[k]) && 0 <= tr[k].live < UINT_MOD
    ensures tr[k].live >= Live(tr[k].slots) + Count(tr[k].threads, Undiscounted)
    ensures tr[k].live == 0 ==> forall i :: 0 <= i < SLOTS ==> tr[k].slots[i].refcount <= 0
  {
    RunKeeps(tr, evs, k);
    CounterFits(tr[k]);
    CountBounds(tr[k].threads, Undiscounted);
    SlotBounds(tr[k].slots);
  }

  lemma CounterNeverUnderflows(tr: seq<State>, evs: seq<Event>, k: nat)
    requires IsRun(tr, evs) && k < |evs|
    requires evs[k].thread < |tr[k].threads| && evs[k].action.Advance? && tr[k].threads[evs[k].thread].Discount?
    ensures tr[k].live >= 1 && tr[k + 1].live == tr[k].live - 1
  {
    CounterNeverLies(tr, evs, k);
    CountBounds(tr[k].threads, Undiscounted);
    assert Plays(tr[k].threads[evs[k].thread], Undiscounted);
    assert StepAt(tr, evs, k);
  }

  /** What a registrar publishes is the whole record it was given, never a mixture. */
  lemma PublishedWhole(tr: seq<State>, evs: seq<Event>, k: nat)
    requires IsRun(tr, evs) && k < |evs|
    requires evs[k].thread < |tr[k].threads| && evs[k].action.Advance? && tr[k].threads[evs[k].thread].Publish?
    ensures var pc := tr[k].threads[evs[k].thread];
      pc.slot < |tr[k + 1].slots| && tr[k + 1].slots[pc.slot].payload == pc.w && tr[k + 1].slots[pc.slot].refcount == 1
  {
    RunKeeps(tr, evs, k);
    assert StepAt(tr, evs, k);
    assert ThreadOk(tr[k], evs[k].thread);
  }

  // ---------------------------------------------------------------- disciplined runs

  /** Sum of the references to slot i over all threads. */
  function Total(held: seq<seq<int>>, i: nat): int
    requires forall t :: 0 <= t < |held| ==> i < |held[t]|
  {
    if held == [] then 0 else Total(held[..|held| - 1], i) + held[|held| - 1][i]
  }

  lemma {:induction false} TotalUpdate(held: seq<seq<int>>, t: nat, row: seq<int>, i: nat)
    requires forall u :: 0 <= u < |held| ==> i < |held[u]|
    requires t < |held| && i < |row|
    ensures Total(held[t := row], i) == Total(held, i) - held[t][i] + row[i]
  {
    var n := |held| - 1;
    if t == n {
      assert held[t := row][..n] == held[..n];
    } else {
      assert held[t := row][..n] == held[..n][t := row];
      TotalUpdate(held[..n], t, row, i);
    }
  }

  lemma {:induction false} TotalBounds(held: seq<seq<int>>, i: nat)
    requires forall t :: 0 <= t < |held| ==> i < |held[t]| && held[t][i] >= 0
    ensures Total(held, i) >= 0
    ensures forall t :: 0 <= t < |held| ==> held[t][i] <= Total(held, i)
    ensures (forall t :: 0 <= t < |held| ==> held[t][i] == 0) ==> Total(held, i) == 0
  {
    if held != [] {
      TotalBounds(held[..|held| - 1], i);
      assert forall t :: 0 <= t < |held| - 1 ==> held[..|held| - 1][t] == held[t];
    }
  }

  /** A caller unpins, or hands on, only a reference it has. */
  predicate Disciplined(s: State, ev: Event)
    requires Enabled(s, ev.thread, ev.action)
  {
    match ev.action
    case BeginUnpin(i) => i < |s.held[ev.thread]| && s.held[ev.thread][i] >= 1
    case Hand(_, i) => i < |s.held[ev.thread]| && s.held[ev.thread][i] >= 1
    case _ => true
  }

  predicate Using(pc: Pc) {
    pc.Compare? || pc.UnpinLoad? || pc.UnpinCas?
  }

  function References(e: Slot): nat { if e.refcount > 0 then e.refcount else 0 }

  ghost predicate HeldOk(s: State)
    requires Shape(s)
  {
    && (forall i :: 0 <= i < SLOTS ==> Total(s.held, i) == References(s.slots[i]))
    && (forall t, i :: 0 <= t < |s.held| && 0 <= i < SLOTS ==> s.held[t][i] >= 0)
    && (forall t :: 0 <= t < |s.threads| && Using(s.threads[t]) ==>
          s.threads[t].slot < SLOTS && s.held[t][s.threads[t].slot] >= 1)
  }

  /** Thread t's references to slot i change by what the slot's count of references changes by. */
  predicate HeldMoves(s: State, s': State, t: nat, i: nat)
    requires Shape(s) && Shape(s') && t < |s.held| == |s'.held| && i < SLOTS
  {
    && s'.held == s.held[t := s'.held[t]]
    && s'.held[t] == s.held[t][i := s'.held[t][i]]
    && s'.held[t][i] - s.held[t][i] == References(s'.slots[i]) - References(s.slots[i])
    && (s'.held[t][i] < s.held[t][i] ==> s.held[t][i] >= 1 && s'.held[t][i] == s.held[t][i] - 1)
    && (Using(s'.threads[t]) ==> s'.threads[t].slot == i && s'.held[t][i] >= 1)
  }

  /** What a thread in a call knows of the slot it works on. */
  ghost predicate OnSlot(s: State, t: nat) {
    && Shape(s) && t < |s.threads| && PcOk(s.threads[t]) && !s.threads[t].Idle?
    && s.threads[t].slot < SLOTS && s.slots[s.threads[t].slot].refcount >= -1
    && (Owns(s.threads[t]) ==> s.slots[s.threads[t].slot].refcount == -1)
    && (Using(s.threads[t]) ==> s.held[t][s.threads[t].slot] >= 1)
    && s.held[t][s.threads[t].slot] >= 0
  }

  /** The steps that make or drop references. */
  predicate Counts(pc: Pc) { pc.PinCas? || pc.UnpinCas? || pc.Publish? }

  lemma CountMovesHeld(s: State, t: nat, spurious: bool)
    requires OnSlot(s, t) && Counts(s.threads[t])
    ensures Shape(Advanced(s, t, spurious))
    ensures HeldMoves(s, Advanced(s, t, spurious), t, s.threads[t].slot)
  {
    AdvanceKeepsRows(s, t, spurious);
  }

  lemma AdvanceMovesHeld(s: State, t: nat, spurious: bool)
    requires OnSlot(s, t)
    ensures Shape(Advanced(s, t, spurious))
    ensures HeldMoves(s, Advanced(s, t, spurious), t, s.threads[t].slot)
  {
    if Counts(s.threads[t]) {
      CountMovesHeld(s, t, spurious);
    } else {
      assert Advanced(s, t, spurious).held == s.held;
    }
  }

  lemma HeldMovesKeeps(s: State, s': State, t: nat, i: nat)
    requires Shape(s) && Shape(s') && HeldOk(s) && t < |s.held| == |s'.held| && i < SLOTS
    requires s'.threads == s.threads[t := s'.threads[t]]
    requires forall j :: 0 <= j < SLOTS && s'.slots[j] != s.slots[j] ==> j == i
    requires HeldMoves(s, s', t, i)
    ensures HeldOk(s')
  {
    forall j | 0 <= j < SLOTS
      ensures Total(s'.held, j) == References(s'.slots[j])
    {
      TotalUpdate(s.held, t, s'.held[t], j);
    }
  }

  lemma HandKeepsHeld(s: State, t: nat, to: nat, i: nat)
    requires Inv(s) && HeldOk(s) && Enabled(s, t, Hand(to, i)) && s.held[t][i] >= 1
    ensures HeldOk(Step(s, t, Hand(to, i)))
  {
    var less := AddHeld(s, t, i, -1);
    var s' := AddHeld(less, to, i, 1);
    forall j | 0 <= j < SLOTS
      ensures Total(s'.held, j) == Total(s.held, j)
    {
      TotalUpdate(s.held, t, less.held[t], j);
      TotalUpdate(less.held, to, s'.held[to], j);
    }
  }

  lemma StepKeepsHeld(s: State, ev: Event)
    requires Inv(s) && HeldOk(s) && Enabled(s, ev.thread, ev.action) && Disciplined(s, ev)
    ensures ThreadOk(s, ev.thread) && Shape(Step(s, ev.thread, ev.action))
    ensures HeldOk(Step(s, ev.thread, ev.action))
  {
    var t := ev.thread;
    var pc := s.threads[t];
    StepIsLocal(s, t, ev.action);
    if ev.action.Advance? && pc.slot < SLOTS {
      if Owns(pc) {
        OwnerIsAlone(s, t);
      }
      assert SlotOk(s, pc.slot);
      AdvanceMovesHeld(s, t, ev.action.spurious);
      HeldMovesKeeps(s, Step(s, t, ev.action), t, pc.slot);
    } else if ev.action.Hand? {
      HandKeepsHeld(s, t, ev.action.to, ev.action.i);
    }
  }

  ghost predicate IsDisciplinedRun(tr: seq<State>, evs: seq<Event>) {
    IsRun(tr, evs) && forall k {:trigger evs[k]} :: 0 <= k < |evs| ==> StepAt(tr, evs, k) && Disciplined(tr[k], evs[k])
  }

  lemma {:induction false} DisciplinedRunKeeps(tr: seq<State>, evs: seq<Event>, k: nat)
    requires IsDisciplinedRun(tr, evs) && k < |tr|
    ensures Inv(tr[k]) && HeldOk(tr[k])
  {
    RunKeeps(tr, evs, k);
    if k == 0 {
      forall i | 0 <= i < SLOTS
        ensures Total(tr[0].held, i) == 0
      {
        TotalBounds(tr[0].held, i);
      }
    } else {
      DisciplinedRunKeeps(tr, evs, k - 1);
      assert StepAt(tr, evs, k - 1);
      StepKeepsHeld(tr[k - 1], evs[k - 1]);
    }
  }

  /** A positive refcount is the number of references held; at zero or below nobody holds one. */
  lemma RefcountCountsReferences(tr: seq<State>, evs: seq<Event>, k: nat, i: nat)
    requires IsDisciplinedRun(tr, evs) && k < |tr| && i < SLOTS
    ensures Shape(tr[k])
    ensures tr[k].slots[i].refcount > 0 ==> Total(tr[k].held, i) == tr[k].slots[i].refcount
    ensures (exists t :: 0 <= t < |tr[k].held| && tr[k].held[t][i] >= 1) <==> tr[k].slots[i].refcount > 0
  {
    DisciplinedRunKeeps(tr, evs, k);
    TotalBounds(tr[k].held, i);
  }

  /** While anyone holds a reference, no thread is registering or cleaning up the slot. */
  lemma NoCleanupWhileHeld(tr: seq<State>, evs: seq<Event>, k: nat, i: nat, t: nat)
    requires IsDisciplinedRun(tr, evs) && k < |tr| && i < SLOTS
    requires Shape(tr[k]) && t < |tr[k].held| && tr[k].held[t][i] >= 1
    ensures forall u :: 0 <= u < |tr[k].threads| ==> !Plays(tr[k].threads[u], Owner(i))
  {
    RefcountCountsReferences(tr, evs, k, i);
    TransientHasOneOwner(tr, evs, k, i);
  }

  lemma PayloadNeedsOwner(s: State, t: nat, a: Action, i: nat)
    requires Inv(s) && Enabled(s, t, a) && i < SLOTS && s.slots[i].refcount > 0
    ensures ThreadOk(s, t) && Shape(Step(s, t, a))
    ensures Step(s, t, a).slots[i].payload == s.slots[i].payload
    ensures Step(s, t, a).slots[i].published == s.slots[i].published
  {
    StepIsLocal(s, t, a);
    if Owns(s.threads[t]) {
      OwnerIsAlone(s, t);
    }
  }

  /** Thread t holds a reference to slot i in every state from j to k. */
  ghost predicate HoldsThrough(tr: seq<State>, j: nat, k: nat, t: nat, i: nat) {
    i < SLOTS && forall m :: 0 <= m < |tr| && j <= m <= k ==> Shape(tr[m]) && t < |tr[m].held| && tr[m].held[t][i] >= 1
  }

  /** Whoever holds a reference sees one and the same record for as long as it holds it. */
  lemma {:induction false} PayloadStableWhileHeld(tr: seq<State>, evs: seq<Event>, j: nat, k: nat, t: nat, i: nat)
    requires IsDisciplinedRun(tr, evs) && j <= k < |tr| && HoldsThrough(tr, j, k, t, i)
    ensures tr[k].slots[i].payload == tr[j].slots[i].payload
    ensures tr[k].slots[i].published == tr[j].slots[i].published
    decreases k - j
  {
    if j < k {
      PayloadStableWhileHeld(tr, evs, j, k - 1, t, i);
      RefcountCountsReferences(tr, evs, k - 1, i);
      PayloadStableOneStep(tr, evs, k - 1, i);
    }
  }

  lemma PayloadStableOneStep(tr: seq<State>, evs: seq<Event>, k: nat, i: nat)
    requires IsRun(tr, evs) && k < |evs| && i < SLOTS && i < |tr[k].slots| && tr[k].slots[i].refcount > 0
    ensures i < |tr[k + 1].slots|
    ensures tr[k + 1].slots[i].payload == tr[k].slots[i].payload
    ensures tr[k + 1].slots[i].published == tr[k].slots[i].published
  {
    RunKeeps(tr, evs, k);
    assert StepAt(tr, evs, k);
    PayloadNeedsOwner(tr[k], evs[k].thread, evs[k].action, i);
  }

  /** The entry a key lookup returns has that key, and keeps its record until the caller drops it. */
  lemma LookupResultIsStable(tr: seq<State>, evs: seq<Event>, j: nat, k: nat, t: nat)
    requires IsDisciplinedRun(tr, evs) && j < k < |tr|
    requires t == evs[j].thread && t < |tr[j].threads| && evs[j].action.Advance?
    requires tr[j].threads[t].Compare? && t < |tr[j + 1].threads| && tr[j + 1].threads[t].Idle?
    requires HoldsThrough(tr, j + 1, k, t, tr[j].threads[t].slot)
    ensures var pc := tr[j].threads[t];
      && tr[k].slots[pc.slot].payload.key == pc.key
      && tr[k].slots[pc.slot].payload == tr[j + 1].slots[pc.slot].payload
      && tr[k].slots[pc.slot].refcount > 0
  {
    var i := tr[j].threads[t].slot;
    assert StepAt(tr, evs, j);
    assert Shape(tr[k]) && Shape(tr[j + 1]);
    PayloadStableWhileHeld(tr, evs, j + 1, k, t, i);
    RefcountCountsReferences(tr, evs, k, i);
  }
}
