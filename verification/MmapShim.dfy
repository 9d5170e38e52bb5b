/**
  MAP_FIXED_NOREPLACE and MAP_LOCKED on a kernel that knows neither. Other threads map and unmap
  between the kernel calls, but none of them maps by force over pages that this call holds.
*/
module MmapShim {

  const PAGE := 4096

  /** What the probe maps: private, anonymous and inaccessible. */
  const PROBE := -1

  const EPERM := 1
  const EBADF := 9
  const ENOMEM := 12
  const EEXIST := 17
  const ENODEV := 19
  const EINVAL := 22
  const EOPNOTSUPP := 95

  datatype Result = Mapped(at: int) | Failed(errno: int)

  datatype Flags = Flags(fixed: bool, noreplace: bool, locked: bool)

  /** The descriptor: one the kernel can map, a wrap with or without such a one behind it, or none. */
  datatype Target = Usable | Backed | Handlerless | Closed

  /** A call to the kernel, and what it gave. */
  datatype Call =
    | Asked(addr: int, len: nat, flags: Flags, target: Target, tag: int, result: Result)
    | Locking(at: int, len: nat, granted: bool)

  predicate Overlaps(addr: int, len: nat, p: int) {
    p * PAGE < addr + len && addr < (p + 1) * PAGE
  }

  /** The pages that len bytes at addr touch. */
  function Pages(addr: int, len: nat): set<int> {
    set p | addr / PAGE <= p < (addr + len + PAGE - 1) / PAGE && Overlaps(addr, len, p)
  }

  predicate Aligned(addr: int) { addr % PAGE == 0 }

  /**
    pages says what is mapped where. others is what would be mapped had this call never been made:
    only other threads change it. ours are the pages this call mapped, lost those it took from others.
  */
  datatype Space = Space(pages: map<int, int>, others: map<int, int>, ours: set<int>, lost: set<int>)

  ghost predicate Ok(s: Space) {
    && s.lost <= s.others.Keys && s.ours !! (s.others.Keys - s.lost)
    && s.pages.Keys == s.ours + (s.others.Keys - s.lost)
    && (forall p :: p in s.others && p !in s.lost ==> s.pages[p] == s.others[p])
  }

  /** As if the call had not been made. */
  ghost predicate Untouched(s: Space) {
    s.ours == {} && s.lost == {} && s.pages == s.others
  }

  function All(range: set<int>, tag: int): map<int, int> { map p | p in range :: tag }

  /** A mapping put over a range by force. */
  function Over(s: Space, range: set<int>, tag: int): Space {
    Space(s.pages + All(range, tag), s.others, s.ours + range, s.lost + range * s.others.Keys)
  }

  function Without(s: Space, range: set<int>): Space {
    s.(pages := s.pages - range, ours := s.ours - range)
  }

  /** Other threads unmap pages of theirs and map where there was room. */
  function Elsewhere(s: Space, removed: set<int>, added: map<int, int>): Space {
    s.(pages := (s.pages - removed) + added,
       others := (s.others - removed) + added,
       lost := s.lost - removed - added.Keys)
  }

  lemma OverKeeps(s: Space, range: set<int>, tag: int)
    requires Ok(s)
    ensures Ok(Over(s, range, tag))
    ensures range !! s.others.Keys ==> Over(s, range, tag).lost == s.lost
  {
  }

  lemma WithoutKeeps(s: Space, range: set<int>)
    requires Ok(s) && range <= s.ours
    ensures Ok(Without(s, range))
  {
  }

  lemma ElsewhereKeeps(s: Space, removed: set<int>, added: map<int, int>)
    requires Ok(s) && removed !! s.ours && added.Keys !! s.pages.Keys
    ensures Ok(Elsewhere(s, removed, added))
  {
  }

  lemma NothingOursIsUntouched(s: Space)
    requires Ok(s) && s.ours == {} && s.lost == {}
    ensures Untouched(s)
  {
    assert s.pages.Keys == s.others.Keys;
    assert forall p :: p in s.pages ==> s.pages[p] == s.others[p];
  }

  // ---------------------------------------------------------------- what the calls amount to

  /** The mapping proper, without the flags the kernel does not know, and the lock that was asked for. */
  ghost predicate Placed(addr: int, len: nat, flags: Flags, tag: int, calls: seq<Call>, r: Result) {
    && calls != [] && calls[0].Asked?
    && var m := calls[0].result;
       && calls[0] == Asked(addr, len, Flags(flags.fixed || flags.noreplace, false, false), Usable, tag, m)
       && if m.Failed? || !flags.locked then |calls| == 1 && r == m
          else |calls| == 2 && calls[1].Locking? && calls[1].at == m.at && calls[1].len == len
               && r == if calls[1].granted then m else Failed(ENOMEM)
  }

  /** The emulation of MAP_FIXED_NOREPLACE, if it was asked for, and then the mapping. */
  ghost predicate Emulated(addr: int, len: nat, flags: Flags, tag: int, calls: seq<Call>, r: Result) {
    if !flags.noreplace then Placed(addr, len, flags, tag, calls, r)
    else if addr == 0 then calls == [] && r == Failed(EPERM)
    else if !Aligned(addr) then calls == [] && r == Failed(EINVAL)
    else
      && calls != [] && calls[0].Asked?
      && var probe := calls[0].result;
         && calls[0] == Asked(addr, len, Flags(false, false, false), Usable, PROBE, probe)
         && if probe.Failed? then |calls| == 1 && r == probe
            else if probe.at != addr then |calls| == 1 && r == Failed(EEXIST)
            else Placed(addr, len, flags, tag, calls[1..], r)
  }

  /** What follows a first failure: the end, or the emulation of the flags that may have caused it. */
  ghost predicate Pursued(addr: int, len: nat, flags: Flags, tag: int, errno: int, calls: seq<Call>, r: Result) {
    if (errno == EINVAL || errno == EOPNOTSUPP) && (flags.noreplace || flags.locked)
    then Emulated(addr, len, flags, tag, calls, r)
    else calls == [] && r == Failed(errno)
  }

  /** The calls of one mmap, and the result they lead to. */
  ghost predicate Follows(addr: int, len: nat, flags: Flags, target: Target, passthru: bool, tag: int,
                          calls: seq<Call>, r: Result) {
    && calls != [] && calls[0].Asked?
    && var first := calls[0].result;
       && calls[0] == Asked(addr, len, flags, target, tag, first)
       && if first.Mapped? || passthru then |calls| == 1 && r == first
          else if first.errno != EBADF then Pursued(addr, len, flags, tag, first.errno, calls[1..], r)
          else if !target.Backed? then |calls| == 1 && r == Failed(if target.Handlerless? then ENODEV else EBADF)
          else
            && |calls| >= 2 && calls[1].Asked?
            && var second := calls[1].result;
               && calls[1] == Asked(addr, len, flags, Usable, tag, second)
               && if second.Mapped? then |calls| == 2 && r == second
                  else Pursued(addr, len, flags, tag, second.errno, calls[2..], r)
  }

  /** The call succeeded, a probe at the address it was tried at. */
  predicate Granted(c: Call) {
    if c.Locking? then c.granted else c.result.Mapped? && (c.tag == PROBE ==> c.result.at == c.addr)
  }

  /** If the kernel refuses the flags and grants all that follows, the application gets its mapping. */
  lemma RefusalIsCured(addr: int, len: nat, flags: Flags, target: Target, tag: int, calls: seq<Call>, r: Result)
    requires Follows(addr, len, flags, target, false, tag, calls, r) && (flags.noreplace || flags.locked)
    requires calls[0].result == Failed(EINVAL) || calls[0].result == Failed(EOPNOTSUPP)
    requires flags.noreplace ==> addr != 0 && Aligned(addr)
    requires forall k :: 1 <= k < |calls| ==> Granted(calls[k])
    ensures r.Mapped? && |calls| > 1
    ensures flags.noreplace || flags.fixed ==> r == calls[if flags.noreplace then 2 else 1].result
  {
    assert forall k :: 0 <= k < |calls[1..]| ==> calls[1..][k] == calls[k + 1];
    if flags.noreplace {
      assert forall k :: 0 <= k < |calls[1..][1..]| ==> calls[1..][1..][k] == calls[k + 2];
    }
  }

  class Process {
    var s: Space
    /** No other thread maps or unmaps during the call. */
    const alone: bool
    /** The pages locked in memory. */
    var locked: set<int>
    /** What the kernel has been asked for, unmapping aside. */
    var calls: seq<Call>

    constructor (space: Space, quiet: bool)
      ensures s == space && alone == quiet && locked == {} && calls == []
    {
      s, alone, locked, calls := space, quiet, {}, [];
    }

    /** Anything the other threads do between two kernel calls of ours. */
    method OtherThreads()
      requires Ok(s)
      modifies this`s, this`locked
      ensures Ok(s) && s.ours == old(s.ours) && s.lost <= old(s.lost)
      ensures forall p :: p in s.ours ==> s.pages[p] == old(s.pages[p]) && (p in locked <==> p in old(locked))
      ensures alone ==> s == old(s)
    {
      if alone {
        return;
      }
      var theirs: set<int> := *;
      locked := locked * s.ours + (theirs - s.ours);
      var removed: set<int> := *;
      var added: map<int, int> := *;
      removed, added := removed - s.ours, added - s.pages.Keys;
      ElsewhereKeeps(s, removed, added);
      s := Elsewhere(s, removed, added);
    }

    /** A mapping without MAP_FIXED: wherever the kernel finds room, the hint or not. */
    method PlaceAnywhere(len: nat, tag: int) returns (r: Result)
      requires Ok(s)
      modifies this`s
      ensures Ok(s) && s.lost == old(s.lost) && s.others == old(s.others)
      ensures r.Failed? ==> s == old(s)
      ensures r.Mapped? ==>
                Aligned(r.at) && Pages(r.at, len) !! old(s.pages).Keys && s == Over(old(s), Pages(r.at, len), tag)
    {
      var at: int := *;
      var errno: int := *;
      OverKeeps(s, Pages(at, len), tag);
      if Aligned(at) && Pages(at, len) !! s.pages.Keys {
        assert Over(s, Pages(at, len), tag).lost == s.lost;
        s := Over(s, Pages(at, len), tag);
        return Mapped(at);
      }
      return Failed(errno);
    }

    /** A mapping with MAP_FIXED: there, or not at all. */
    method PlaceFixed(addr: int, len: nat, tag: int) returns (r: Result)
      requires Ok(s)
      modifies this`s
      ensures Ok(s) && s.others == old(s.others)
      ensures r.Failed? ==> s == old(s)
      ensures r.Mapped? ==> r.at == addr && s == Over(old(s), Pages(addr, len), tag)
    {
      var done: bool := *;
      var errno: int := *;
      if !done || !Aligned(addr) {
        return Failed(errno);
      }
      OverKeeps(s, Pages(addr, len), tag);
      s := Over(s, Pages(addr, len), tag);
      return Mapped(addr);
    }

    /** mmap of a descriptor the kernel can map, or of none, without the flags it does not know. */
    method MapPlain(addr: int, len: nat, fixed: bool, tag: int) returns (r: Result)
      requires Ok(s)
      modifies this`s, this`calls
      ensures Ok(s) && s.others == old(s.others)
      ensures r.Failed? ==> s == old(s)
      ensures r.Mapped? ==> s == Over(old(s), Pages(r.at, len), tag)
      ensures r.Mapped? && fixed ==> r.at == addr
      ensures r.Mapped? && !fixed ==> Aligned(r.at) && Pages(r.at, len) !! old(s.pages).Keys && s.lost == old(s.lost)
      ensures calls == old(calls) + [Asked(addr, len, Flags(fixed, false, false), Usable, tag, r)]
    {
      if fixed {
        r := PlaceFixed(addr, len, tag);
      } else {
        r := PlaceAnywhere(len, tag);
      }
      calls := calls + [Asked(addr, len, Flags(fixed, false, false), Usable, tag, r)];
    }

    method Unmap(addr: int, len: nat)
      requires Ok(s) && Pages(addr, len) <= s.ours
      modifies this`s
      ensures Ok(s) && s == Without(old(s), Pages(addr, len))
    {
      WithoutKeeps(s, Pages(addr, len));
      s := Without(s, Pages(addr, len));
    }
  
    /** The call as the kernel first sees it: it may honour every flag, or refuse. */
    method Native(addr: int, len: nat, flags: Flags, target: Target, tag: int) returns (r: Result)
      requires Ok(s)
      modifies this
      ensures Ok(s) && ((flags.fixed && !flags.noreplace) || s.lost == old(s.lost))
      ensures r.Failed? ==> s == old(s)
      ensures r.Mapped? ==> s == Over(old(s), Pages(r.at, len), tag)
      ensures r.Mapped? && flags.noreplace ==> r.at == addr && Pages(addr, len) !! old(s.pages).Keys
      ensures r.Mapped? && flags.locked ==> Pages(r.at, len) <= locked
      ensures r == Failed(EBADF) <==> !target.Usable?
      ensures calls == old(calls) + [Asked(addr, len, flags, target, tag, r)]
    {
      r := Honour(addr, len, flags, target, tag);
      calls := calls + [Asked(addr, len, flags, target, tag, r)];
    }

    method Honour(addr: int, len: nat, flags: Flags, target: Target, tag: int) returns (r: Result)
      requires Ok(s)
      modifies this`s, this`locked
      ensures Ok(s) && ((flags.fixed && !flags.noreplace) || s.lost == old(s.lost))
      ensures r.Failed? ==> s == old(s)
      ensures r.Mapped? ==> s == Over(old(s), Pages(r.at, len), tag)
      ensures r.Mapped? && flags.noreplace ==> r.at == addr && Pages(addr, len) !! old(s.pages).Keys
      ensures r.Mapped? && flags.locked ==> Pages(r.at, len) <= locked
      ensures r == Failed(EBADF) <==> !target.Usable?
    {
      if !target.Usable? {
        return Failed(EBADF);
      }
      var refused: bool := *;
      r := Failed(EINVAL);
      if !refused && flags.noreplace && Pages(addr, len) !! s.pages.Keys {
        r := PlaceFixed(addr, len, tag);
      } else if !refused && flags.fixed && !flags.noreplace {
        r := PlaceFixed(addr, len, tag);
      } else if !refused && !flags.fixed && !flags.noreplace {
        r := PlaceAnywhere(len, tag);
      }
      if r.Mapped? {
        locked := if flags.locked then locked + Pages(r.at, len) else locked;
        return;
      }
      var errno: int :| errno != EBADF;
      return Failed(errno);
    }

    /** A wrap is mapped through what stands behind it. */
    method SynthFallback(addr: int, len: nat, flags: Flags, target: Target, tag: int)
      returns (r: Result, target': Target)
      requires Ok(s)
      modifies this
      ensures Ok(s) && ((flags.fixed && !flags.noreplace) || s.lost == old(s.lost))
      ensures r.Failed? ==> s == old(s)
      ensures r.Mapped? ==> s == Over(old(s), Pages(r.at, len), tag)
      ensures r.Mapped? && flags.noreplace ==> r.at == addr && Pages(addr, len) !! old(s.pages).Keys
      ensures r.Mapped? && flags.locked ==> Pages(r.at, len) <= locked
      ensures target.Handlerless? ==> r == Failed(ENODEV)
      ensures target.Closed? || target.Usable? ==> r == Failed(EBADF)
      ensures calls == if target.Backed? then old(calls) + [Asked(addr, len, flags, Usable, tag, r)] else old(calls)
    {
      target' := target;
      match target
      case Backed =>
        target' := Usable;
        r := Native(addr, len, flags, Usable, tag);
      case Handlerless => r := Failed(ENODEV);
      case _ => r := Failed(EBADF);
    }

    /** Takes the range with a plain hinted mapping: got there, it was free, and it stays ours. */
    method Reserve(addr: int, len: nat) returns (r: Result)
      requires Ok(s) && s.ours == {} && s.lost == {}
      modifies this
      ensures Ok(s) && s.lost == {}
      ensures r.Failed? ==> s.ours == {}
      ensures r.Mapped? ==> r.at == addr && s.ours == Pages(addr, len)
      ensures addr == 0 ==> r == Failed(EPERM) && calls == old(calls)
      ensures addr != 0 && !Aligned(addr) ==> r == Failed(EINVAL) && calls == old(calls)
      ensures addr != 0 && Aligned(addr) ==>
                && |calls| == |old(calls)| + 1 && calls[|old(calls)|].Asked?
                && var probe := calls[|old(calls)|].result;
                   && calls == old(calls) + [Asked(addr, len, Flags(false, false, false), Usable, PROBE, probe)]
                   && r == if probe.Mapped? && probe.at != addr then Failed(EEXIST) else probe
    {
      if addr == 0 {
        return Failed(EPERM);
      }
      if !Aligned(addr) {
        return Failed(EINVAL);
      }
      r := MapPlain(addr, len, false, PROBE);
      OtherThreads();
      if r.Mapped? && r.at != addr {
        Unmap(r.at, len);
        r := Failed(EEXIST);
      }
    }

    /** The mapping proper, over our own reservation if there is one. */
    method MapAgain(addr: int, len: nat, flags: Flags, reserved: bool, tag: int) returns (r: Result)
      requires Ok(s) && s.lost == {} && s.ours == (if reserved then Pages(addr, len) else {})
      modifies this
      ensures Ok(s)
      ensures r.Failed? ==> s.ours == {} && s.lost == {}
      ensures r.Mapped? ==> s.ours == Pages(r.at, len) && forall p :: p in Pages(r.at, len) ==> s.pages[p] == tag
      ensures r.Mapped? && (reserved || flags.fixed) ==> r.at == addr
      ensures r.Mapped? && (reserved || !flags.fixed) ==> s.lost == {}
      ensures r.Mapped? && !reserved && flags.fixed ==> s.lost == Pages(addr, len) * s.others.Keys
      ensures alone ==> s.others == old(s.others)
      ensures calls == old(calls) + [Asked(addr, len, Flags(reserved || flags.fixed, false, false), Usable, tag, r)]
    {
      assert reserved ==> Pages(addr, len) !! s.others.Keys;
      OverKeeps(s, Pages(addr, len), tag);
      r := MapPlain(addr, len, reserved || flags.fixed, tag);
      if r.Failed? && reserved {
        OtherThreads();
        Unmap(addr, len);
      }
    }

    /** mlock may fail; then the mapping goes. */
    method LockOrUndo(at: int, len: nat) returns (r: Result)
      requires Ok(s) && s.ours == Pages(at, len)
      modifies this
      ensures Ok(s) && s.lost <= old(s.lost)
      ensures r == Mapped(at) || r == Failed(ENOMEM)
      ensures r.Mapped? ==> s.ours == old(s.ours) && forall p :: p in s.ours ==> s.pages[p] == old(s.pages[p])
      ensures r.Failed? ==> s.ours == {}
      ensures r.Mapped? ==> Pages(at, len) <= locked
      ensures alone ==> s.lost == old(s.lost) && s.others == old(s.others)
      ensures calls == old(calls) + [Locking(at, len, r.Mapped?)]
    {
      OtherThreads();
      var granted: bool := *;
      calls := calls + [Locking(at, len, granted)];
      if granted {
        locked := locked + Pages(at, len);
        return Mapped(at);
      }
      Unmap(at, len);
      return Failed(ENOMEM);
    }
  
    /** Refusals that a stripped flag may cure. */
    static predicate Curable(errno: int, flags: Flags) {
      (errno == EINVAL || errno == EOPNOTSUPP) && (flags.noreplace || flags.locked)
    }

    /** One call, and a second one through what stands behind a wrap. */
    static ghost predicate FirstCalls(addr: int, len: nat, flags: Flags, target: Target, passthru: bool, tag: int,
                                      before: seq<Call>, calls: seq<Call>, r: Result) {
      && before <= calls
      && var new_calls := calls[|before|..];
         && new_calls != [] && new_calls[0].Asked?
         && var first := new_calls[0].result;
            && new_calls[0] == Asked(addr, len, flags, target, tag, first)
            && if first.Mapped? || passthru || first.errno != EBADF then |new_calls| == 1 && r == first
               else if !target.Backed? then
                 |new_calls| == 1 && r == Failed(if target.Handlerless? then ENODEV else EBADF)
               else new_calls == [new_calls[0], Asked(addr, len, flags, Usable, tag, r)]
    }

    /** The first attempts, with the flags as given. */
    method Attempt(addr: int, len: nat, flags: Flags, target: Target, passthru: bool, tag: int)
      returns (r: Result, target': Target)
      requires Ok(s) && s.ours == {} && s.lost == {}
      modifies this
      ensures Ok(s) && (r.Failed? || !flags.fixed || flags.noreplace ==> s.lost == {})
      ensures r.Failed? ==> s.ours == {}
      ensures r.Mapped? ==> s.ours == Pages(r.at, len) && forall p :: p in Pages(r.at, len) ==> s.pages[p] == tag
      ensures r.Mapped? && flags.noreplace ==> r.at == addr
      ensures r.Mapped? && flags.locked ==> Pages(r.at, len) <= locked
      ensures r.Failed? && alone ==> s == old(s)
      ensures FirstCalls(addr, len, flags, target, passthru, tag, old(calls), calls, r)
    {
      target' := target;
      r := Native(addr, len, flags, target, tag);
      if r.Failed? && !passthru && r.errno == EBADF {
        OtherThreads();
        r, target' := SynthFallback(addr, len, flags, target, tag);
      }
    }

    /**
      mmap as the application sees it. A failure leaves nothing of the call. What it replaced by force is lost
      when mlock then fails: with no thread interfering, the space is as before if and only if the mapping was
      not undone, or was put where nothing was.
    */
    method Mmap(addr: int, len: nat, flags: Flags, target: Target, passthru: bool, tag: int)
      returns (r: Result, ghost undone: bool)
      requires Untouched(s)
      modifies this
      ensures Ok(s) && (undone ==> r == Failed(ENOMEM) && flags.locked)
      ensures r.Failed? ==> s.ours == {} && (Untouched(s) <==> s.lost == {})
      ensures r.Failed? && !(flags.fixed && !flags.noreplace && undone) ==> Untouched(s)
      ensures undone && s.lost != {} ==> s.lost <= Pages(addr, len)
      ensures r.Failed? && alone && flags.fixed && !flags.noreplace ==>
                (Untouched(s) <==> !undone || Pages(addr, len) !! old(s.pages).Keys)
      ensures r.Mapped? ==> s.ours == Pages(r.at, len) && forall p :: p in Pages(r.at, len) ==> s.pages[p] == tag
      ensures r.Mapped? && flags.noreplace ==> r.at == addr
      ensures r.Mapped? && (flags.noreplace || !flags.fixed) ==> s.ours !! s.others.Keys
      ensures r.Mapped? && flags.locked ==> Pages(r.at, len) <= locked
      ensures old(calls) <= calls && Follows(addr, len, flags, target, passthru, tag, calls[|old(calls)|..], r)
      ensures undone <==> |calls| > 0 && calls[|calls| - 1].Locking? && !calls[|calls| - 1].granted
    {
      var target';
      undone := false;
      r, target' := Attempt(addr, len, flags, target, passthru, tag);
      if r.Mapped? {
        return;
      }
      NothingOursIsUntouched(s);
      if passthru || !Curable(r.errno, flags) {
        return;
      }
      ghost var (mid, errno) := (calls, r.errno);
      OtherThreads();
      r, undone := Emulate(addr, len, flags, tag);
      FollowedUp(addr, len, flags, target, tag, old(calls), mid, calls, errno, r);
    }

    static lemma FollowedUp(addr: int, len: nat, flags: Flags, target: Target, tag: int,
                            before: seq<Call>, mid: seq<Call>, calls: seq<Call>, errno: int, r: Result)
      requires FirstCalls(addr, len, flags, target, false, tag, before, mid, Failed(errno)) && Curable(errno, flags)
      requires mid <= calls && Emulated(addr, len, flags, tag, calls[|mid|..], r)
      ensures before <= calls && Follows(addr, len, flags, target, false, tag, calls[|before|..], r)
    {
      var first, rest := mid[|before|..], calls[|mid|..];
      assert calls[|before|..] == first + rest;
      assert (first + rest)[|first|..] == rest;
      assert first[0] == (first + rest)[0];
      assert |first| == 2 ==> first[1] == (first + rest)[1];
    }

    static lemma AfterTheFirst(before: seq<Call>, mid: seq<Call>, calls: seq<Call>)
      requires before <= mid <= calls && |mid| == |before| + 1
      ensures |calls[|before|..]| > 0 && calls[|before|..][0] == mid[|before|]
      ensures calls[|before|..][1..] == calls[|mid|..]
    {
      assert calls[|before|] == mid[|before|];
    }

    /** The second attempt, with the flags that may have been refused taken out and emulated. */
    method Emulate(addr: int, len: nat, flags: Flags, tag: int) returns (r: Result, ghost undone: bool)
      requires Ok(s) && s.ours == {} && s.lost == {} && (flags.noreplace || flags.locked)
      modifies this
      ensures Ok(s) && (undone ==> r == Failed(ENOMEM) && flags.locked)
      ensures r.Failed? ==> s.ours == {} && (Untouched(s) <==> s.lost == {})
      ensures r.Failed? && !(flags.fixed && !flags.noreplace && undone) ==> Untouched(s)
      ensures undone && s.lost != {} ==> s.lost <= Pages(addr, len)
      ensures r.Failed? && alone && flags.fixed && !flags.noreplace ==>
                (Untouched(s) <==> !undone || Pages(addr, len) !! old(s.others).Keys)
      ensures r.Mapped? ==> s.ours == Pages(r.at, len) && forall p :: p in Pages(r.at, len) ==> s.pages[p] == tag
      ensures r.Mapped? && flags.noreplace ==> r.at == addr
      ensures r.Mapped? && (flags.noreplace || !flags.fixed) ==> s.ours !! s.others.Keys
      ensures r.Mapped? && flags.locked ==> Pages(r.at, len) <= locked
      ensures old(calls) <= calls && Emulated(addr, len, flags, tag, calls[|old(calls)|..], r)
      ensures undone <==> |calls| > |old(calls)| && calls[|calls| - 1].Locking? && !calls[|calls| - 1].granted
    {
      undone := false;
      ghost var before := calls;
      if flags.noreplace {
        r := Reserve(addr, len);
        if r.Failed? {
          NothingOursIsUntouched(s);
          return;
        }
      }
      ghost var mid := calls;
      OtherThreads();
      r := MapAgain(addr, len, flags, flags.noreplace, tag);
      if r.Mapped? && flags.locked {
        r := LockOrUndo(r.at, len);
        undone := r.Failed?;
      }
      if r.Failed? && s.lost == {} {
        NothingOursIsUntouched(s);
      }
      assert Placed(addr, len, flags, tag, calls[|mid|..], r);
      if flags.noreplace {
        AfterTheFirst(before, mid, calls);
      }
    }
  }
}
