/**
  poll over synthetic descriptors. An O_PATH descriptor polled for an ordinary event always reports
  something: that is the canary. When it fires, or when an entry asks for no ordinary event, the
  array is translated in place, the kernel is asked again, and the caller's numbers are put back.
*/
module PollShim {
  import opened Translation

  datatype Flag = In | Pri | Out | Err | Hup | Nval | RdNorm | RdBand | WrNorm | WrBand | Msg | Remove | RdHup

  datatype PollFd = PollFd(fd: int, events: set<Flag>, revents: set<Flag>)

  datatype Result = Count(n: nat) | Fail(errno: int)

  datatype Swap = Swap(index: nat, synth: int)

  /** One kernel call: what it was asked, whether it might time out, and what it gave. */
  datatype Call = Call(asked: seq<PollFd>, mayExpire: bool, result: Result, answered: seq<PollFd>)

  // ---------------------------------------------------------------- specification

  /** The events whose absence hides an O_PATH descriptor. */
  predicate Standard(events: set<Flag>) {
    In in events || Out in events || RdNorm in events || WrNorm in events
  }

  /** How many of the first n entries have a backing. */
  function Translatable(w: World, fds: seq<PollFd>, n: nat): (r: nat)
    requires n <= |fds|
    ensures r <= n
  {
    if n == 0 then 0 else Translatable(w, fds, n - 1) + if Translate(w, fds[n - 1].fd) >= 0 then 1 else 0
  }

  /** Entry i is swapped: it has a backing and is among the first 64 such entries. */
  predicate Swapped(w: World, fds: seq<PollFd>, i: nat)
    requires i < |fds|
  {
    Translate(w, fds[i].fd) >= 0 && Translatable(w, fds, i) < MAX_SWAPS
  }

  /** The numbers the kernel is to see, given the entries that decide about swapping. */
  function Shown(w: World, user: seq<PollFd>, now: seq<PollFd>): (r: seq<PollFd>)
    requires |user| == |now|
    ensures |r| == |now|
    ensures forall i :: 0 <= i < |r| ==>
              r[i] == now[i].(fd := if Swapped(w, user, i) then Translate(w, user[i].fd) else user[i].fd)
  {
    seq(|now|, i requires 0 <= i < |now| =>
          now[i].(fd := if Swapped(w, user, i) then Translate(w, user[i].fd) else user[i].fd))
  }

  /** Same descriptors and same requested events, entry by entry. */
  predicate SameQuery(a: seq<PollFd>, b: seq<PollFd>) {
    |a| == |b| && forall i :: 0 <= i < |a| ==> a[i].fd == b[i].fd && a[i].events == b[i].events
  }

  function ReadyCount(fds: seq<PollFd>): nat {
    if fds == [] then 0 else ReadyCount(fds[..|fds| - 1]) + if fds[|fds| - 1].revents != {} then 1 else 0
  }

  /**
    What the kernel may answer. Negative descriptors are ignored, an O_PATH descriptor with an ordinary
    event always reports something, the count is that of the entries with something to report, and it
    is zero only if the call may time out.
  */
  ghost predicate Legal(w: World, before: seq<PollFd>, mayExpire: bool, r: Result, after: seq<PollFd>) {
    && SameQuery(before, after)
    && (r.Count? ==>
          && r.n == ReadyCount(after) && (r.n == 0 ==> mayExpire)
          && (forall i :: 0 <= i < |after| && after[i].fd < 0 ==> after[i].revents == {})
          && (forall i ::
                0 <= i < |after| && after[i].fd >= 0 && after[i].fd in w.opath && Standard(after[i].events) ==>
                after[i].revents != {}))
  }

  /** The caller's array holds a legal answer of the kernel to the translated question. */
  ghost predicate Answers(w: World, user: seq<PollFd>, mayExpire: bool, r: Result, now: seq<PollFd>) {
    SameQuery(user, now) && Legal(w, Shown(w, user, user), mayExpire, r, Shown(w, user, now))
  }

  /** The result is that of the last kernel call, which was about the translated array, and so is the array. */
  ghost predicate FromLast(w: World, user: seq<PollFd>, calls: seq<Call>, r: Result, now: seq<PollFd>) {
    && calls != [] && |now| == |user|
    && var last := calls[|calls| - 1];
       && last.result == r && SameQuery(last.asked, Shown(w, user, user)) && last.answered == Shown(w, user, now)
  }

  /** The last call was about the caller's own array. */
  ghost predicate IsLast(calls: seq<Call>, user: seq<PollFd>, r: Result, now: seq<PollFd>) {
    && calls != []
    && var last := calls[|calls| - 1]; last.result == r && SameQuery(last.asked, user) && last.answered == now
  }

  // ---------------------------------------------------------------- about the specification

  lemma {:induction false} NothingReady(fds: seq<PollFd>, i: nat)
    requires ReadyCount(fds) == 0 && i < |fds|
    ensures fds[i].revents == {}
  {
    var n := |fds| - 1;
    if i < n {
      NothingReady(fds[..n], i);
    }
  }

  lemma {:induction false} FewAreAllSwapped(w: World, fds: seq<PollFd>, i: nat)
    requires Translatable(w, fds, |fds|) <= MAX_SWAPS && i < |fds| && Translate(w, fds[i].fd) >= 0
    ensures Swapped(w, fds, i)
  {
    TranslatableGrows(w, fds, i + 1, |fds|);
  }

  lemma {:induction false} TranslatableGrows(w: World, fds: seq<PollFd>, i: nat, n: nat)
    requires i <= n <= |fds|
    ensures Translatable(w, fds, i) <= Translatable(w, fds, n)
  {
    if i < n {
      TranslatableGrows(w, fds, i, n - 1);
    }
  }

  /** With no backing anywhere, what the kernel is shown is what the caller wrote. */
  lemma NothingToTranslate(w: World, user: seq<PollFd>, now: seq<PollFd>)
    requires SameQuery(user, now)
    requires forall i :: 0 <= i < |user| ==> Translate(w, user[i].fd) < 0
    ensures Shown(w, user, now) == now
  {
  }

  lemma PlainAnswer(w: World, user: seq<PollFd>, mayExpire: bool, r: Result, now: seq<PollFd>)
    requires Legal(w, user, mayExpire, r, now)
    requires forall i :: 0 <= i < |user| ==> Translate(w, user[i].fd) < 0
    ensures Answers(w, user, mayExpire, r, now)
    ensures forall calls :: IsLast(calls, user, r, now) ==> FromLast(w, user, calls, r, now)
  {
    NothingToTranslate(w, user, user);
    NothingToTranslate(w, user, now);
  }

  // ---------------------------------------------------------------- the kernel

  /** Any legal answer; an error says nothing about revents. */
  method KernelPoll(w: World, fds: array<PollFd>, mayExpire: bool, ghost before: seq<Call>)
    returns (r: Result, ghost calls: seq<Call>)
    modifies fds
    ensures Legal(w, old(fds[..]), mayExpire, r, fds[..])
    ensures calls == before + [Call(old(fds[..]), mayExpire, r, fds[..])]
  {
    r := Answer(w, fds, mayExpire);
    calls := before + [Call(old(fds[..]), mayExpire, r, fds[..])];
  }

  method Answer(w: World, fds: array<PollFd>, mayExpire: bool) returns (r: Result)
    modifies fds
    ensures Legal(w, old(fds[..]), mayExpire, r, fds[..])
  {
    ghost var before := fds[..];
    var n := 0;
    for i := 0 to fds.Length
      invariant SameQuery(before, fds[..])
      invariant n == ReadyCount(fds[..i])
      invariant forall k :: 0 <= k < i && fds[k].fd < 0 ==> fds[k].revents == {}
      invariant forall k :: 0 <= k < i && fds[k].fd >= 0 && fds[k].fd in w.opath && Standard(fds[k].events) ==>
                  fds[k].revents != {}
    {
      var reported: set<Flag> := *;
      if fds[i].fd < 0 {
        reported := {};
      } else if fds[i].fd in w.opath && Standard(fds[i].events) && reported == {} {
        reported := {Nval};
      }
      ghost var was := fds[..i];
      fds[i] := fds[i].(revents := reported);
      assert fds[..i] == was;
      assert fds[..i + 1][..i] == was;
      n := n + if reported != {} then 1 else 0;
    }
    assert fds[..fds.Length] == fds[..];
    var fails: bool := *;
    if fails || (n == 0 && !mayExpire) {
      var errno: int := *;
      r := Fail(errno);
    } else {
      r := Count(n);
    }
  }

  // ---------------------------------------------------------------- poll_swap_in, poll_swap_out

  /** The swaps list the swapped entries below n, each with the caller's number. */
  ghost predicate Lists(w: World, user: seq<PollFd>, swaps: seq<Swap>, n: nat)
    requires n <= |user|
  {
    && (forall j :: 0 <= j < |swaps| ==> swaps[j].index < n && swaps[j].synth == user[swaps[j].index].fd)
    && (forall i :: 0 <= i < n && Swapped(w, user, i) ==> exists j :: 0 <= j < |swaps| && swaps[j].index == i)
    && |swaps| == if Translatable(w, user, n) <= MAX_SWAPS then Translatable(w, user, n) else MAX_SWAPS
  }

  lemma ListsMore(w: World, user: seq<PollFd>, swaps: seq<Swap>, n: nat)
    requires n < |user| && Lists(w, user, swaps, n)
    ensures Lists(w, user, if Swapped(w, user, n) then swaps + [Swap(n, user[n].fd)] else swaps, n + 1)
  {
    var more := if Swapped(w, user, n) then swaps + [Swap(n, user[n].fd)] else swaps;
    forall i | 0 <= i < n + 1 && Swapped(w, user, i)
      ensures exists j :: 0 <= j < |more| && more[j].index == i
    {
      if i == n {
        assert more[|swaps|].index == n;
      } else {
        var j :| 0 <= j < |swaps| && swaps[j].index == i;
        assert more[j].index == i;
      }
    }
  }

  /** Entries below n are as the kernel is to see them, the others as the caller wrote them. */
  ghost predicate ShownTo(w: World, user: seq<PollFd>, fds: seq<PollFd>, n: nat) {
    |fds| == |user| && forall i :: 0 <= i < |user| ==> fds[i] == if i < n then Shown(w, user, user)[i] else user[i]
  }

  lemma ShownMore(w: World, user: seq<PollFd>, fds: seq<PollFd>, fds': seq<PollFd>, i: nat)
    requires ShownTo(w, user, fds, i) && i < |user| && |fds'| == |fds|
    requires fds' == fds[i := user[i].(fd := if Swapped(w, user, i) then Translate(w, user[i].fd) else user[i].fd)]
    ensures ShownTo(w, user, fds', i + 1)
  {
  }

  method SwapIn(w: World, fds: array<PollFd>) returns (swaps: seq<Swap>)
    modifies fds
    ensures fds[..] == Shown(w, old(fds[..]), old(fds[..])) && Lists(w, old(fds[..]), swaps, fds.Length)
  {
    ghost var user := fds[..];
    swaps := [];
    for i := 0 to fds.Length
      invariant ShownTo(w, user, fds[..], i)
      invariant Lists(w, user, swaps, i)
    {
      ghost var before := fds[..];
      var backing := Translate(w, fds[i].fd);
      ListsMore(w, user, swaps, i);
      assert fds[i] == user[i];
      if backing >= 0 && |swaps| < MAX_SWAPS {
        swaps := swaps + [Swap(i, fds[i].fd)];
        fds[i] := fds[i].(fd := backing);
      }
      ShownMore(w, user, before, fds[..], i);
    }
  }

  method SwapOut(ghost w: World, ghost user: seq<PollFd>, fds: array<PollFd>, swaps: seq<Swap>)
    requires |user| == fds.Length && Lists(w, user, swaps, |user|)
    requires SameQuery(Shown(w, user, user), fds[..])
    modifies fds
    ensures SameQuery(user, fds[..]) && Shown(w, user, fds[..]) == old(fds[..])
  {
    ghost var before := fds[..];
    for j := 0 to |swaps|
      invariant forall i :: 0 <= i < |user| ==> fds[i] == before[i] || fds[i] == before[i].(fd := user[i].fd)
      invariant forall k :: 0 <= k < j ==> fds[swaps[k].index].fd == swaps[k].synth
    {
      fds[swaps[j].index] := fds[swaps[j].index].(fd := swaps[j].synth);
    }
    forall i | 0 <= i < |user|
      ensures fds[i] == before[i].(fd := user[i].fd)
    {
      if Swapped(w, user, i) {
        var j :| 0 <= j < |swaps| && swaps[j].index == i;
        assert fds[swaps[j].index].fd == swaps[j].synth;
      }
    }
  }

  // ---------------------------------------------------------------- the two tests

  method CanaryFired(w: World, fds: array<PollFd>) returns (fired: bool)
    ensures fired <==> exists i :: 0 <= i < fds.Length && fds[i].revents != {} && Translate(w, fds[i].fd) >= 0
  {
    for i := 0 to fds.Length
      invariant forall k :: 0 <= k < i ==> fds[k].revents == {} || Translate(w, fds[k].fd) < 0
    {
      if fds[i].revents != {} && Translate(w, fds[i].fd) >= 0 {
        return true;
      }
    }
    return false;
  }

  method NeedsProactiveSwap(fds: array<PollFd>) returns (needs: bool)
    ensures needs <==> exists i :: 0 <= i < fds.Length && fds[i].fd >= 0 && !Standard(fds[i].events)
  {
    for i := 0 to fds.Length
      invariant forall k :: 0 <= k < i ==> fds[k].fd < 0 || Standard(fds[k].events)
    {
      if fds[i].fd >= 0 && !Standard(fds[i].events) {
        return true;
      }
    }
    return false;
  }

  /** An answer in which no canary fired was given to an array with nothing to translate. */
  lemma SilenceMeansPlain(w: World, user: seq<PollFd>, mayExpire: bool, r: Result, now: seq<PollFd>)
    requires WorldOk(w) && Legal(w, user, mayExpire, r, now) && r.Count?
    requires forall i :: 0 <= i < |user| ==> user[i].fd < 0 || Standard(user[i].events)
    requires forall f :: f in w.opath ==> f >= 0
    requires forall i :: 0 <= i < |now| && now[i].revents != {} ==> Translate(w, now[i].fd) < 0
    ensures forall i :: 0 <= i < |user| ==> Translate(w, user[i].fd) < 0
  {
  }

  lemma ZeroIsSilent(w: World, user: seq<PollFd>, mayExpire: bool, r: Result, now: seq<PollFd>)
    requires Legal(w, user, mayExpire, r, now) && r == Count(0)
    ensures forall i :: 0 <= i < |now| ==> now[i].revents == {}
  {
    forall i | 0 <= i < |now|
      ensures now[i].revents == {}
    {
      NothingReady(now, i);
    }
  }

  // ---------------------------------------------------------------- dispatch

  /** Asks the kernel about the translated array; the answer lands on the caller's. */
  method AskTranslated(w: World, fds: array<PollFd>, mayExpire: bool, ghost before: seq<Call>)
    returns (r: Result, ghost calls: seq<Call>)
    modifies fds
    ensures Answers(w, old(fds[..]), mayExpire, r, fds[..])
    ensures FromLast(w, old(fds[..]), calls, r, fds[..]) && |calls| == |before| + 1 && calls[..|before|] == before
    ensures calls[|before|].mayExpire == mayExpire
  {
    ghost var user := fds[..];
    var swaps := SwapIn(w, fds);
    r, calls := KernelPoll(w, fds, mayExpire, before);
    SwapOut(w, user, fds, swaps);
  }

  /** The retry after a canary; with nothing to swap it gives the fallback. */
  method CanaryRetry(w: World, fds: array<PollFd>, fallback: Result, mayExpire: bool, ghost before: seq<Call>)
    returns (r: Result, ghost calls: seq<Call>)
    modifies fds
    ensures Translatable(w, old(fds[..]), fds.Length) > 0 ==>
              && Answers(w, old(fds[..]), mayExpire, r, fds[..]) && FromLast(w, old(fds[..]), calls, r, fds[..])
              && |calls| == |before| + 1 && calls[..|before|] == before && calls[|before|].mayExpire == mayExpire
    ensures Translatable(w, old(fds[..]), fds.Length) == 0 ==>
              r == fallback && fds[..] == old(fds[..]) && calls == before
  {
    ghost var user := fds[..];
    var swaps := SwapIn(w, fds);
    if |swaps| == 0 {
      NoneTranslatable(w, user);
      NothingToTranslate(w, user, user);
      return fallback, before;
    }
    r, calls := KernelPoll(w, fds, mayExpire, before);
    SwapOut(w, user, fds, swaps);
  }

  lemma NoneTranslatable(w: World, fds: seq<PollFd>)
    ensures Translatable(w, fds, |fds|) == 0 <==> forall i :: 0 <= i < |fds| ==> Translate(w, fds[i].fd) < 0
  {
    NoneTranslatableBelow(w, fds, |fds|);
  }

  lemma {:induction false} NoneTranslatableBelow(w: World, fds: seq<PollFd>, n: nat)
    requires n <= |fds|
    ensures Translatable(w, fds, n) == 0 <==> forall i :: 0 <= i < n ==> Translate(w, fds[i].fd) < 0
  {
    if n > 0 {
      NoneTranslatableBelow(w, fds, n - 1);
    }
  }

  lemma {:induction false} SameQueryTranslates(w: World, a: seq<PollFd>, b: seq<PollFd>, n: nat)
    requires SameQuery(a, b) && n <= |a|
    ensures Translatable(w, a, n) == Translatable(w, b, n)
  {
    if n > 0 {
      SameQueryTranslates(w, a, b, n - 1);
    }
  }

  /** Only the query matters to what is shown, not what an earlier call reported. */
  lemma SameQueryShows(w: World, a: seq<PollFd>, b: seq<PollFd>, now: seq<PollFd>)
    requires SameQuery(a, b) && |now| == |a|
    ensures Shown(w, a, now) == Shown(w, b, now)
  {
    forall i | 0 <= i < |a|
      ensures Swapped(w, a, i) == Swapped(w, b, i)
    {
      SameQueryTranslates(w, a, b, i);
    }
  }

  lemma AnswersSameQuery(w: World, a: seq<PollFd>, b: seq<PollFd>, mayExpire: bool, r: Result, now: seq<PollFd>)
    requires SameQuery(a, b) && Answers(w, b, mayExpire, r, now)
    ensures Answers(w, a, mayExpire, r, now)
    ensures forall calls :: FromLast(w, b, calls, r, now) ==> FromLast(w, a, calls, r, now)
  {
    SameQueryShows(w, a, b, now);
    SameQueryShows(w, a, b, b);
  }

  /** Between the canary and the retry nothing changes, so there is something to swap. */
  lemma FiredMeansSwappable(w: World, fds: seq<PollFd>)
    requires exists i :: 0 <= i < |fds| && fds[i].revents != {} && Translate(w, fds[i].fd) >= 0
    ensures Translatable(w, fds, |fds|) > 0
  {
    NoneTranslatable(w, fds);
  }

  /** A positive count is the answer if no canary fired, and is asked for again if one did. */
  method CheckCanary(w: World, ghost user: seq<PollFd>, fds: array<PollFd>, count: Result, mayExpire: bool,
                     ghost before: seq<Call>)
    returns (r: Result, ghost calls: seq<Call>)
    requires IsLast(before, user, count, fds[..])
    requires WorldOk(w) && Legal(w, user, true, count, fds[..]) && count.Count? && count.n > 0
    requires forall f :: f in w.opath ==> f >= 0
    requires forall i :: 0 <= i < |user| ==> user[i].fd < 0 || Standard(user[i].events)
    modifies fds
    ensures Answers(w, user, mayExpire, r, fds[..]) && FromLast(w, user, calls, r, fds[..])
    ensures before <= calls && |calls| <= |before| + 1 && (calls == before || calls[|before|].mayExpire == mayExpire)
  {
    var fired := CanaryFired(w, fds);
    ghost var asked := fds[..];
    if !fired {
      SilenceMeansPlain(w, user, true, count, asked);
      PlainAnswer(w, user, mayExpire, count, asked);
      return count, before;
    }
    FiredMeansSwappable(w, asked);
    r, calls := CanaryRetry(w, fds, count, mayExpire, before);
    AnswersSameQuery(w, user, asked, mayExpire, r, fds[..]);
  }

  /** The probe found nothing, so there is nothing to translate: the kernel is asked to wait. */
  method WaitAgain(w: World, ghost user: seq<PollFd>, fds: array<PollFd>, mayExpire: bool, ghost before: seq<Call>)
    returns (r: Result, ghost calls: seq<Call>)
    requires WorldOk(w) && Legal(w, user, true, Count(0), fds[..])
    requires forall f :: f in w.opath ==> f >= 0
    requires forall i :: 0 <= i < |user| ==> user[i].fd < 0 || Standard(user[i].events)
    modifies fds
    ensures Legal(w, user, true, r, fds[..]) && Answers(w, user, mayExpire, r, fds[..])
    ensures FromLast(w, user, calls, r, fds[..]) && IsLast(calls, user, r, fds[..])
    ensures |calls| == |before| + 1 && calls[..|before|] == before && calls[|before|].mayExpire == mayExpire
  {
    ghost var probed := fds[..];
    ZeroIsSilent(w, user, true, Count(0), probed);
    SilenceMeansPlain(w, user, true, Count(0), probed);
    r, calls := KernelPoll(w, fds, mayExpire, before);
    PlainAnswer(w, user, mayExpire, r, fds[..]);
  }

  /**
    What poll asked of the kernel: with nothing to translate, once as it was; else first without waiting, and
    then, unless that failed or was the answer, as the caller wanted to wait.
  */
  ghost predicate AskedAs(user: seq<PollFd>, probing: bool, mayExpire: bool, calls: seq<Call>) {
    && calls != [] && calls[0].asked == user && calls[0].mayExpire == (probing || mayExpire)
    && (forall k :: 0 < k < |calls| ==> probing && calls[k].mayExpire == mayExpire)
  }

  /**
    poll as the application sees it: a legal answer to the translated question, on its own array. It is
    the answer of the last kernel call, unless the first one failed, whose error it then is.
  */
  method Dispatch(w: World, active: bool, passthru: bool, fds: array<PollFd>, mayExpire: bool)
    returns (r: Result, ghost calls: seq<Call>)
    requires WorldOk(w) && (forall f :: f in w.opath ==> f >= 0) && (!active ==> w.synth == map[])
    modifies fds
    ensures passthru ==> Legal(w, old(fds[..]), mayExpire, r, fds[..])
    ensures !passthru ==> Answers(w, old(fds[..]), mayExpire, r, fds[..])
    ensures AskedAs(old(fds[..]), active && !passthru, mayExpire, calls) && r == calls[|calls| - 1].result
    ensures passthru ==> |calls| == 1 && calls[0].answered == fds[..]
    ensures !passthru ==> FromLast(w, old(fds[..]), calls, r, fds[..]) || (|calls| == 1 && r.Fail?)
  {
    ghost var user := fds[..];
    if passthru || !active {
      r, calls := KernelPoll(w, fds, mayExpire, []);
      if !passthru {
        PlainAnswer(w, user, mayExpire, r, fds[..]);
      }
      return;
    }
    r, calls := KernelPoll(w, fds, true, []);
    ghost var (probed, first) := (fds[..], calls);
    if r.Fail? {
      return;
    }
    var proactive := NeedsProactiveSwap(fds);
    if proactive {
      r, calls := AskTranslated(w, fds, mayExpire, calls);
      AnswersSameQuery(w, user, probed, mayExpire, r, fds[..]);
    } else {
      assert forall i :: 0 <= i < |user| ==> user[i].fd == probed[i].fd && user[i].events == probed[i].events;
      r, calls := WaitOrCheck(w, user, fds, r, mayExpire, calls);
    }
    assert calls[0] == first[0];
  }

  /** The first call succeeded, and every entry asks for an ordinary event, so that a canary shows. */
  method WaitOrCheck(w: World, ghost user: seq<PollFd>, fds: array<PollFd>, count: Result, mayExpire: bool,
                     ghost before: seq<Call>)
    returns (r: Result, ghost calls: seq<Call>)
    requires WorldOk(w) && Legal(w, user, true, count, fds[..]) && count.Count? && IsLast(before, user, count, fds[..])
    requires forall f :: f in w.opath ==> f >= 0
    requires forall i :: 0 <= i < |user| ==> user[i].fd < 0 || Standard(user[i].events)
    modifies fds
    ensures Answers(w, user, mayExpire, r, fds[..]) && FromLast(w, user, calls, r, fds[..])
    ensures before <= calls && forall k :: |before| <= k < |calls| ==> calls[k].mayExpire == mayExpire
  {
    r, calls := count, before;
    if r == Count(0) {
      r, calls := WaitAgain(w, user, fds, mayExpire, calls);
      if r.Fail? || r == Count(0) {
        return;
      }
    }
    r, calls := CheckCanary(w, user, fds, r, mayExpire, calls);
  }

  /** Up to 64 entries, every synthetic one whose owner offers another descriptor is shown as that one, and no other. */
  lemma FullyShown(w: World, user: seq<PollFd>, i: nat)
    requires Translatable(w, user, |user|) <= MAX_SWAPS && i < |user|
    ensures var fd := user[i].fd;
      Shown(w, user, user)[i].fd == if fd in w.synth && w.synth[fd] >= 0 then w.synth[fd] else fd
  {
    if Translate(w, user[i].fd) >= 0 {
      FewAreAllSwapped(w, user, i);
    }
  }
}
