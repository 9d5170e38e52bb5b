/**
  select over synthetic descriptors: substitute each watched synthetic descriptor by its backing,
  call the kernel, and unwind its answer onto the caller's sets. Sets are sets of numbers; a set
  the caller leaves out is an empty one.
*/
module SelectShim {
  import opened Translation

  const FD_SETSIZE := 1024
  const EPERM := 1

  /** A set triple (read, write, except), as a value. */
  type Sets = s: seq<set<int>> | |s| == 3 witness [{}, {}, {}]

  datatype Swap = Swap(synth: int, backing: int, watched: seq<bool>, present: seq<bool>)

  datatype Result = Ready(n: int) | Fail(errno: int)

  /** One kernel call: what it was asked, and what it gave. */
  datatype Call = Call(nfds: int, asked: Sets, result: Result, out: Sets)

  // ---------------------------------------------------------------- specification

  predicate Watched(user: Sets, fd: int) {
    fd in user[0] || fd in user[1] || fd in user[2]
  }

  /** A watched descriptor whose backing fits the caller's fd_set. */
  predicate Swappable(w: World, user: Sets, fd: int) {
    Watched(user, fd) && 0 <= Translate(w, fd) < FD_SETSIZE
  }

  /** The descriptors below n that get swapped, in order: the first 64 swappable ones. */
  function Chosen(w: World, user: Sets, n: nat): seq<int> {
    if n == 0 then []
    else
      var r := Chosen(w, user, n - 1);
      if Swappable(w, user, n - 1) && |r| < MAX_SWAPS then r + [n - 1] else r
  }

  lemma {:induction false} ChosenMeans(w: World, user: Sets, n: nat)
    ensures |Chosen(w, user, n)| <= MAX_SWAPS
    ensures forall i :: 0 <= i < |Chosen(w, user, n)| ==>
              0 <= Chosen(w, user, n)[i] < n && Swappable(w, user, Chosen(w, user, n)[i])
    ensures forall i, j :: 0 <= i < j < |Chosen(w, user, n)| ==> Chosen(w, user, n)[i] < Chosen(w, user, n)[j]
  {
    if n > 0 {
      ChosenMeans(w, user, n - 1);
    }
  }

  /** How far the scan goes: the caller's nfds, clipped to the width of an fd_set. */
  function Scanned(nfds: int): nat {
    if nfds <= 0 then 0 else if nfds < FD_SETSIZE then nfds else FD_SETSIZE
  }

  /** The backings of the chosen descriptors in s. */
  function Inserted(w: World, s: set<int>, chosen: seq<int>): set<int> {
    set f | f in s && f in chosen :: Translate(w, f)
  }

  /** The set the kernel is given: each chosen descriptor gives way to its backing. */
  function Substituted(w: World, s: set<int>, chosen: seq<int>): set<int> {
    (set f | f in s && f !in chosen) + Inserted(w, s, chosen)
  }

  /** What a caller's descriptor stands for during the call. */
  function Via(w: World, chosen: seq<int>, fd: int): int {
    if fd in chosen then Translate(w, fd) else fd
  }

  /** The ideal answer: the caller's descriptors whose stand-in the kernel reported. */
  function Ideal(w: World, s: set<int>, chosen: seq<int>, out: set<int>): set<int> {
    set f | f in s && Via(w, chosen, f) in out
  }

  /** The record made for the i-th swap. */
  ghost predicate IsSwap(w: World, user: Sets, chosen: seq<int>, i: nat, r: Swap)
    requires i < |chosen|
  {
    && r.synth == chosen[i] && r.backing == Translate(w, chosen[i]) && |r.watched| == 3 && |r.present| == 3
    && (forall d :: 0 <= d < 3 ==> r.watched[d] == (chosen[i] in user[d]))
    && (forall d :: 0 <= d < 3 ==> r.present[d] == (Translate(w, chosen[i]) in Substituted(w, user[d], chosen[..i])))
  }

  function Total(s: Sets): nat { |s[0]| + |s[1]| + |s[2]| }

  function Below(s: set<int>, n: int): set<int> { set f | f in s && 0 <= f < n }

  // ---------------------------------------------------------------- about the specification

  lemma SubstituteOne(w: World, s: set<int>, chosen: seq<int>, fd: int)
    requires WorldOk(w) && fd !in chosen && Translate(w, fd) >= 0
    requires forall c :: c in chosen ==> Translate(w, c) >= 0
    ensures Substituted(w, s, chosen + [fd]) ==
            if fd in s then Substituted(w, s, chosen) - {fd} + {Translate(w, fd)} else Substituted(w, s, chosen)
  {
  }

  /** Nothing is chosen when no synthetic descriptor is watched. */
  lemma {:induction false} NothingChosen(w: World, user: Sets, n: nat)
    requires forall f :: 0 <= f < n && Watched(user, f) ==> f !in w.synth
    ensures Chosen(w, user, n) == []
  {
    if n > 0 {
      NothingChosen(w, user, n - 1);
    }
  }

  /** What the kernel reports is, after unwinding, at least as many bits. */
  lemma {:induction false} ImageIsSmaller(w: World, chosen: seq<int>, dom: set<int>, image: set<int>)
    requires forall v :: v in image ==> exists f :: f in dom && Via(w, chosen, f) == v
    ensures |image| <= |dom|
    decreases dom
  {
    if image != {} {
      assert (forall v :: v !in image) ==> image == {};
      var v :| v in image;
      var f :| f in dom && Via(w, chosen, f) == v;
      forall u | u in image - {v}
        ensures exists g :: g in dom - {f} && Via(w, chosen, g) == u
      {
        var g :| g in dom && Via(w, chosen, g) == u;
        assert g in dom - {f};
      }
      ImageIsSmaller(w, chosen, dom - {f}, image - {v});
    }
  }

  lemma IdealCoversKernel(w: World, s: set<int>, chosen: seq<int>, out: set<int>)
    requires out <= Substituted(w, s, chosen)
    ensures |out| <= |Ideal(w, s, chosen, out)|
  {
    forall v | v in out
      ensures exists f :: f in Ideal(w, s, chosen, out) && Via(w, chosen, f) == v
    {
      if v in s && v !in chosen {
        assert v in Ideal(w, s, chosen, out) && Via(w, chosen, v) == v;
      } else {
        var f :| f in s && f in chosen && Translate(w, f) == v;
        assert f in Ideal(w, s, chosen, out) && Via(w, chosen, f) == v;
      }
    }
    ImageIsSmaller(w, chosen, Ideal(w, s, chosen, out), out);
  }

  /** Unwinding the sets exactly as they went in gives back the caller's sets. */
  lemma IdealOfAll(w: World, s: set<int>, chosen: seq<int>)
    ensures Ideal(w, s, chosen, Substituted(w, s, chosen)) == s
  {
  }

  // ---------------------------------------------------------------- sel_swap_in

  /** Substitutes one descriptor in all three sets and records what was there. */
  method SwapOne(sets: array<set<int>>, fd: int, backing: int) returns (r: Swap)
    requires sets.Length == 3
    modifies sets
    ensures r.synth == fd && r.backing == backing && |r.watched| == 3 && |r.present| == 3
    ensures forall d :: 0 <= d < 3 ==> r.watched[d] == (fd in old(sets[d])) && r.present[d] == (backing in old(sets[d]))
    ensures forall d :: 0 <= d < 3 ==>
              sets[d] == if fd in old(sets[d]) then old(sets[d]) - {fd} + {backing} else old(sets[d])
  {
    var watched, present := [], [];
    for d := 0 to 3
      invariant |watched| == |present| == d
      invariant forall k :: 0 <= k < d ==> watched[k] == (fd in old(sets[k])) && present[k] == (backing in old(sets[k]))
      invariant forall k :: 0 <= k < d ==>
                  sets[k] == if fd in old(sets[k]) then old(sets[k]) - {fd} + {backing} else old(sets[k])
      invariant forall k :: d <= k < 3 ==> sets[k] == old(sets[k])
    {
      watched, present := watched + [fd in sets[d]], present + [backing in sets[d]];
      if watched[d] {
        sets[d] := sets[d] - {fd} + {backing};
      }
    }
    r := Swap(fd, backing, watched, present);
  }

  /** The caller's sets after the swaps of chosen. */
  ghost predicate Holds(w: World, sets: seq<set<int>>, user: Sets, chosen: seq<int>) {
    |sets| == 3 && forall d :: 0 <= d < 3 ==> sets[d] == Substituted(w, user[d], chosen)
  }

  ghost predicate Recorded(w: World, user: Sets, chosen: seq<int>, swaps: seq<Swap>) {
    |swaps| == |chosen| && forall i :: 0 <= i < |swaps| ==> IsSwap(w, user, chosen, i, swaps[i])
  }

  /** nfds covers the caller's range and every backing. */
  predicate Covers(w: World, chosen: seq<int>, nfds: int, wider: int) {
    && wider >= nfds && (forall i :: 0 <= i < |chosen| ==> Translate(w, chosen[i]) < wider)
    && (wider == nfds || exists i :: 0 <= i < |chosen| && wider == Translate(w, chosen[i]) + 1)
  }

  lemma Untouched(w: World, user: Sets, chosen: seq<int>, sets: seq<set<int>>, fd: int)
    requires WorldOk(w) && Holds(w, sets, user, chosen) && fd !in chosen
    requires forall c :: c in chosen ==> Translate(w, c) >= 0
    requires Translate(w, fd) >= 0
    ensures forall d :: 0 <= d < 3 ==> (fd in sets[d] <==> fd in user[d])
  {
  }

  lemma RecordedMore(w: World, user: Sets, chosen: seq<int>, swaps: seq<Swap>, fd: int, r: Swap)
    requires Recorded(w, user, chosen, swaps) && IsSwap(w, user, chosen + [fd], |chosen|, r)
    ensures Recorded(w, user, chosen + [fd], swaps + [r])
  {
    forall i | 0 <= i < |chosen|
      ensures IsSwap(w, user, chosen + [fd], i, (swaps + [r])[i])
    {
      assert IsSwap(w, user, chosen, i, swaps[i]);
      assert (chosen + [fd])[..i] == chosen[..i];
    }
  }

  lemma SwapExtends(w: World, user: Sets, chosen: seq<int>, swaps: seq<Swap>, before: seq<set<int>>,
                    after: seq<set<int>>, fd: int, r: Swap)
    requires WorldOk(w) && Holds(w, before, user, chosen) && Recorded(w, user, chosen, swaps) && |after| == 3
    requires fd !in chosen && Translate(w, fd) >= 0 && forall c :: c in chosen ==> Translate(w, c) >= 0
    requires r.synth == fd && r.backing == Translate(w, fd) && |r.watched| == 3 && |r.present| == 3
    requires forall d :: 0 <= d < 3 ==>
               r.watched[d] == (fd in before[d]) && r.present[d] == (Translate(w, fd) in before[d])
    requires forall d :: 0 <= d < 3 ==>
               after[d] == if fd in before[d] then before[d] - {fd} + {Translate(w, fd)} else before[d]
    ensures Holds(w, after, user, chosen + [fd]) && Recorded(w, user, chosen + [fd], swaps + [r])
  {
    Untouched(w, user, chosen, before, fd);
    forall d | 0 <= d < 3
      ensures after[d] == Substituted(w, user[d], chosen + [fd])
    {
      SubstituteOne(w, user[d], chosen, fd);
    }
    assert (chosen + [fd])[..|chosen|] == chosen;
    RecordedMore(w, user, chosen, swaps, fd, r);
  }

  lemma CoversMore(w: World, chosen: seq<int>, fd: int, nfds: int, wider: int)
    requires Covers(w, chosen, nfds, wider)
    ensures Covers(w, chosen + [fd], nfds, if Translate(w, fd) + 1 > wider then Translate(w, fd) + 1 else wider)
  {
    var more := chosen + [fd];
    assert more[|chosen|] == fd;
    assert forall i :: 0 <= i < |chosen| ==> more[i] == chosen[i];
    assert forall i :: 0 <= i < |more| ==> more[i] == fd || (i < |chosen| && more[i] == chosen[i]);
  }

  /** The state of the scan when the descriptors below fd have been looked at. */
  ghost predicate ScannedTo(w: World, user: Sets, nfds: int, fd: nat, sets: seq<set<int>>, swaps: seq<Swap>,
                            wider: int) {
    var chosen := Chosen(w, user, fd);
    Holds(w, sets, user, chosen) && Recorded(w, user, chosen, swaps) && Covers(w, chosen, nfds, wider)
  }

  lemma ScanBegins(w: World, user: Sets, nfds: int)
    ensures ScannedTo(w, user, nfds, 0, user, [], nfds)
  {
  }

  /** Looking at the sets as they are now tells what the caller watches. */
  lemma ScanSees(w: World, user: Sets, nfds: int, fd: nat, sets: Sets, swaps: seq<Swap>, wider: int)
    requires WorldOk(w) && ScannedTo(w, user, nfds, fd, sets, swaps, wider)
    ensures Swappable(w, user, fd) <==> Swappable(w, sets, fd)
  {
    ChosenMeans(w, user, fd);
  }

  lemma ScanSwaps(w: World, user: Sets, nfds: int, fd: nat, before: seq<set<int>>, swaps: seq<Swap>, wider: int,
                  after: seq<set<int>>, r: Swap)
    requires WorldOk(w) && ScannedTo(w, user, nfds, fd, before, swaps, wider) && |after| == 3 && |before| == 3
    requires Swappable(w, user, fd) && |swaps| < MAX_SWAPS
    requires r.synth == fd && r.backing == Translate(w, fd) && |r.watched| == 3 && |r.present| == 3
    requires forall d :: 0 <= d < 3 ==>
               r.watched[d] == (fd in before[d]) && r.present[d] == (Translate(w, fd) in before[d])
    requires forall d :: 0 <= d < 3 ==>
               after[d] == if fd in before[d] then before[d] - {fd} + {Translate(w, fd)} else before[d]
    ensures ScannedTo(w, user, nfds, fd + 1, after, swaps + [r],
                      if Translate(w, fd) + 1 > wider then Translate(w, fd) + 1 else wider)
  {
    ChosenMeans(w, user, fd);
    var chosen := Chosen(w, user, fd);
    SwapExtends(w, user, chosen, swaps, before, after, fd, r);
    CoversMore(w, chosen, fd, nfds, wider);
  }

  lemma ScanSkips(w: World, user: Sets, nfds: int, fd: nat, sets: seq<set<int>>, swaps: seq<Swap>, wider: int)
    requires ScannedTo(w, user, nfds, fd, sets, swaps, wider)
    requires !(Swappable(w, user, fd) && |swaps| < MAX_SWAPS)
    ensures ScannedTo(w, user, nfds, fd + 1, sets, swaps, wider)
  {
  }

  /** Looks at one descriptor of the scan. */
  method SwapAt(w: World, ghost user: Sets, ghost nfds: int, fd: nat, sets: array<set<int>>, swaps: seq<Swap>,
                wider: int)
    returns (swaps': seq<Swap>, wider': int)
    requires WorldOk(w) && sets.Length == 3 && ScannedTo(w, user, nfds, fd, sets[..], swaps, wider)
    modifies sets
    ensures ScannedTo(w, user, nfds, fd + 1, sets[..], swaps', wider')
  {
    ghost var before := sets[..];
    var backing := Translate(w, fd);
    ScanSees(w, user, nfds, fd, before, swaps, wider);
    if (fd in sets[0] || fd in sets[1] || fd in sets[2]) && 0 <= backing < FD_SETSIZE && |swaps| < MAX_SWAPS {
      assert Swappable(w, before, fd);
      var r := SwapOne(sets, fd, backing);
      ScanSwaps(w, user, nfds, fd, before, swaps, wider, sets[..], r);
      swaps', wider' := swaps + [r], if backing + 1 > wider then backing + 1 else wider;
    } else {
      assert !Swappable(w, before, fd) || |swaps| >= MAX_SWAPS;
      ScanSkips(w, user, nfds, fd, before, swaps, wider);
      swaps', wider' := swaps, wider;
    }
  }

  /** Scans the descriptors below limit in ascending order and swaps in place. */
  method SwapBelow(w: World, ghost user: Sets, nfds: int, limit: nat, sets: array<set<int>>)
    returns (swaps: seq<Swap>, wider: int)
    requires WorldOk(w) && sets.Length == 3 && user == sets[..]
    modifies sets
    ensures ScannedTo(w, user, nfds, limit, sets[..], swaps, wider)
  {
    swaps, wider := [], nfds;
    ScanBegins(w, user, nfds);
    ghost var now: seq<set<int>> := user;
    for fd := 0 to limit
      invariant now == sets[..] && ScannedTo(w, user, nfds, fd, now, swaps, wider)
    {
      swaps, wider := SwapAt(w, user, nfds, fd, sets, swaps, wider);
      now := sets[..];
    }
  }

  method SwapIn(w: World, nfds: int, sets: array<set<int>>) returns (swaps: seq<Swap>, wider: int)
    requires WorldOk(w) && sets.Length == 3
    modifies sets
    ensures ScannedTo(w, old(sets[..]), nfds, Scanned(nfds), sets[..], swaps, wider)
  {
    swaps, wider := SwapBelow(w, sets[..], nfds, Scanned(nfds), sets);
  }

  // ---------------------------------------------------------------- sel_unwind

  /** The kernel's answer with the readiness of each backing copied onto the given chosen descriptors. */
  function Mirrored(w: World, s: set<int>, chosen: seq<int>, out: set<int>): set<int> {
    out + set f | f in s && f in chosen && Translate(w, f) in out
  }

  ghost predicate ChosenOk(w: World, chosen: seq<int>) {
    && (forall c :: c in chosen ==> Translate(w, c) >= 0)
    && (forall i, j :: 0 <= i < j < |chosen| ==> chosen[i] != chosen[j])
  }

  lemma ChosenIsOk(w: World, user: Sets, n: nat)
    ensures ChosenOk(w, Chosen(w, user, n))
  {
    ChosenMeans(w, user, n);
  }

  lemma MirrorStep(w: World, s: set<int>, chosen: seq<int>, out: set<int>, i: nat)
    requires WorldOk(w) && ChosenOk(w, chosen) && i < |chosen|
    ensures var m := Mirrored(w, s, chosen[..i], out);
      Mirrored(w, s, chosen[..i + 1], out) ==
      if chosen[i] in s && Translate(w, chosen[i]) in m then m + {chosen[i]} else m
  {
  }

  lemma ClearStep(w: World, s: set<int>, chosen: seq<int>, m: set<int>, i: nat)
    requires WorldOk(w) && ChosenOk(w, chosen) && i < |chosen|
    ensures var b := Translate(w, chosen[i]);
      var now := m - (Inserted(w, s, chosen[..i]) - s);
      m - (Inserted(w, s, chosen[..i + 1]) - s) ==
      if chosen[i] in s && b !in Substituted(w, s, chosen[..i]) then now - {b} else now
  {
    var b := Translate(w, chosen[i]);
    assert chosen[..i + 1] == chosen[..i] + [chosen[i]];
    assert forall c :: c in chosen[..i] ==> c in chosen;
    assert b !in chosen[..i];
    InsertedMore(w, s, chosen[..i], chosen[i]);
  }

  lemma InsertedMore(w: World, s: set<int>, cs: seq<int>, c: int)
    ensures Inserted(w, s, cs + [c]) == Inserted(w, s, cs) + if c in s then {Translate(w, c)} else {}
  {
  }

  /** After both passes the set is the ideal answer. */
  lemma UnwoundIsIdeal(w: World, s: set<int>, chosen: seq<int>, out: set<int>)
    requires WorldOk(w) && ChosenOk(w, chosen) && out <= Substituted(w, s, chosen)
    ensures Mirrored(w, s, chosen, out) - (Inserted(w, s, chosen) - s) == Ideal(w, s, chosen, out)
  {
  }

  /** Pass 1 for one swap. */
  method MirrorOne(sets: array<set<int>>, r: Swap)
    requires sets.Length == 3 && |r.watched| == 3
    modifies sets
    ensures forall d :: 0 <= d < 3 ==>
              sets[d] == if r.watched[d] && r.backing in old(sets[d]) then old(sets[d]) + {r.synth} else old(sets[d])
  {
    for d := 0 to 3
      invariant forall k :: 0 <= k < d ==>
                  sets[k] ==
                  if r.watched[k] && r.backing in old(sets[k]) then old(sets[k]) + {r.synth} else old(sets[k])
      invariant forall k :: d <= k < 3 ==> sets[k] == old(sets[k])
    {
      if r.watched[d] && r.backing in sets[d] {
        sets[d] := sets[d] + {r.synth};
      }
    }
  }

  /** Pass 2 for one swap. */
  method ClearOne(sets: array<set<int>>, r: Swap)
    requires sets.Length == 3 && |r.watched| == 3 && |r.present| == 3
    modifies sets
    ensures forall d :: 0 <= d < 3 ==>
              sets[d] == if r.watched[d] && !r.present[d] then old(sets[d]) - {r.backing} else old(sets[d])
  {
    for d := 0 to 3
      invariant forall k :: 0 <= k < d ==>
                  sets[k] == if r.watched[k] && !r.present[k] then old(sets[k]) - {r.backing} else old(sets[k])
      invariant forall k :: d <= k < 3 ==> sets[k] == old(sets[k])
    {
      if r.watched[d] && !r.present[d] {
        sets[d] := sets[d] - {r.backing};
      }
    }
  }

  ghost predicate MirroredTo(w: World, user: Sets, chosen: seq<int>, out: Sets, i: nat, sets: seq<set<int>>)
    requires i <= |chosen|
  {
    |sets| == 3 && forall d :: 0 <= d < 3 ==> sets[d] == Mirrored(w, user[d], chosen[..i], out[d])
  }

  ghost predicate ClearedTo(w: World, user: Sets, chosen: seq<int>, out: Sets, i: nat, sets: seq<set<int>>)
    requires i <= |chosen|
  {
    |sets| == 3 && forall d :: 0 <= d < 3 ==>
      sets[d] == Mirrored(w, user[d], chosen, out[d]) - (Inserted(w, user[d], chosen[..i]) - user[d])
  }

  method Mirror(ghost w: World, ghost user: Sets, ghost chosen: seq<int>, sets: array<set<int>>, swaps: seq<Swap>)
    requires WorldOk(w) && ChosenOk(w, chosen) && Recorded(w, user, chosen, swaps) && sets.Length == 3
    modifies sets
    ensures MirroredTo(w, user, chosen, old(sets[..]), |chosen|, sets[..])
  {
    ghost var out: Sets := sets[..];
    for i := 0 to |swaps|
      invariant MirroredTo(w, user, chosen, out, i, sets[..])
    {
      assert IsSwap(w, user, chosen, i, swaps[i]);
      ghost var before := sets[..];
      MirrorOne(sets, swaps[i]);
      forall d | 0 <= d < 3
        ensures sets[d] == Mirrored(w, user[d], chosen[..i + 1], out[d])
      {
        assert before[d] == Mirrored(w, user[d], chosen[..i], out[d]);
        MirrorStep(w, user[d], chosen, out[d], i);
      }
    }
  }

  method Clear(ghost w: World, ghost user: Sets, ghost chosen: seq<int>, ghost out: Sets, sets: array<set<int>>,
               swaps: seq<Swap>)
    requires WorldOk(w) && ChosenOk(w, chosen) && Recorded(w, user, chosen, swaps) && sets.Length == 3
    requires ClearedTo(w, user, chosen, out, 0, sets[..])
    modifies sets
    ensures ClearedTo(w, user, chosen, out, |chosen|, sets[..])
  {
    for i := 0 to |swaps|
      invariant ClearedTo(w, user, chosen, out, i, sets[..])
    {
      assert IsSwap(w, user, chosen, i, swaps[i]);
      ghost var before := sets[..];
      ClearOne(sets, swaps[i]);
      forall d | 0 <= d < 3
        ensures sets[d] == Mirrored(w, user[d], chosen, out[d]) - (Inserted(w, user[d], chosen[..i + 1]) - user[d])
      {
        assert before[d] == Mirrored(w, user[d], chosen, out[d]) - (Inserted(w, user[d], chosen[..i]) - user[d]);
        ClearStep(w, user[d], chosen, Mirrored(w, user[d], chosen, out[d]), i);
      }
    }
  }

  /** The two passes turn any kernel answer into the ideal one. */
  method Unwind(ghost w: World, ghost user: Sets, ghost chosen: seq<int>, sets: array<set<int>>, swaps: seq<Swap>)
    requires WorldOk(w) && ChosenOk(w, chosen) && Recorded(w, user, chosen, swaps) && sets.Length == 3
    requires forall d :: 0 <= d < 3 ==> sets[d] <= Substituted(w, user[d], chosen)
    modifies sets
    ensures forall d :: 0 <= d < 3 ==> sets[d] == Ideal(w, user[d], chosen, old(sets[d]))
  {
    ghost var out: Sets := sets[..];
    Mirror(w, user, chosen, sets, swaps);
    assert chosen[..|chosen|] == chosen;
    Clear(w, user, chosen, out, sets, swaps);
    forall d | 0 <= d < 3
      ensures sets[d] == Ideal(w, user[d], chosen, out[d])
    {
      UnwoundIsIdeal(w, user[d], chosen, out[d]);
    }
  }

  // ---------------------------------------------------------------- sel_recount

  function Bit(s: set<int>, fd: int): nat { if fd in s then 1 else 0 }

  lemma BelowStep(s: set<int>, fd: nat)
    ensures |Below(s, fd + 1)| == |Below(s, fd)| + Bit(s, fd)
  {
    assert Below(s, fd + 1) == if fd in s then Below(s, fd) + {fd} else Below(s, fd);
  }

  function TotalBelow(s: Sets, n: int): nat {
    |Below(s[0], n)| + |Below(s[1], n)| + |Below(s[2], n)|
  }

  /** Counts the bits it may look at. */
  method Recount(nfds: int, sets: array<set<int>>) returns (n: int)
    requires sets.Length == 3
    ensures n == TotalBelow(sets[..], Scanned(nfds))
  {
    n := 0;
    var limit := Scanned(nfds);
    for fd := 0 to limit
      invariant n == TotalBelow(sets[..], fd)
    {
      ghost var was := n;
      for d := 0 to 3
        invariant n == was + (if d > 0 then Bit(sets[0], fd) else 0) + (if d > 1 then Bit(sets[1], fd) else 0)
                           + (if d > 2 then Bit(sets[2], fd) else 0)
      {
        if fd in sets[d] {
          n := n + 1;
        }
      }
      BelowStep(sets[0], fd);
      BelowStep(sets[1], fd);
      BelowStep(sets[2], fd);
    }
  }

  ghost predicate InRange(s: set<int>, nfds: int) {
    forall f :: f in s ==> 0 <= f < nfds
  }

  /** The bits the shim cannot read are the same before and after unwinding. */
  lemma HighBitsSurvive(w: World, user: Sets, d: nat, out: set<int>, nfds: int, wider: int)
    requires WorldOk(w) && d < 3 && InRange(user[d], nfds) && Covers(w, Chosen(w, user, Scanned(nfds)), nfds, wider)
    requires out <= Substituted(w, user[d], Chosen(w, user, Scanned(nfds)))
    ensures var ideal := Ideal(w, user[d], Chosen(w, user, Scanned(nfds)), out);
      out - Below(out, Scanned(wider)) == ideal - Below(ideal, Scanned(nfds))
  {
    ChosenMeans(w, user, Scanned(nfds));
  }

  lemma CountOfParts(s: set<int>, n: int)
    ensures |s| == |Below(s, n)| + |s - Below(s, n)|
  {
  }

  /** The corrected count is the number of bits in the caller's three sets, and not below the kernel's. */
  lemma RecountIsExact(w: World, user: Sets, outs: Sets, ideal: Sets, nfds: int, wider: int)
    requires WorldOk(w) && Covers(w, Chosen(w, user, Scanned(nfds)), nfds, wider)
    requires forall d :: 0 <= d < 3 ==> InRange(user[d], nfds)
    requires forall d :: 0 <= d < 3 ==> outs[d] <= Substituted(w, user[d], Chosen(w, user, Scanned(nfds)))
    requires forall d :: 0 <= d < 3 ==> ideal[d] == Ideal(w, user[d], Chosen(w, user, Scanned(nfds)), outs[d])
    ensures Total(outs) - TotalBelow(outs, Scanned(wider)) + TotalBelow(ideal, Scanned(nfds)) == Total(ideal)
    ensures Total(ideal) >= Total(outs)
  {
    forall d | 0 <= d < 3
      ensures |outs[d]| - |Below(outs[d], Scanned(wider))| == |ideal[d]| - |Below(ideal[d], Scanned(nfds))|
      ensures |ideal[d]| >= |outs[d]|
    {
      HighBitsSurvive(w, user, d, outs[d], nfds, wider);
      CountOfParts(outs[d], Scanned(wider));
      CountOfParts(ideal[d], Scanned(nfds));
      IdealCoversKernel(w, user[d], Chosen(w, user, Scanned(nfds)), outs[d]);
    }
  }

  // ---------------------------------------------------------------- sel_dispatch

  /** Some descriptor the kernel is shown is an O_PATH one. */
  predicate ShowsPath(w: World, sets: Sets) {
    !(sets[0] !! w.opath) || !(sets[1] !! w.opath) || !(sets[2] !! w.opath)
  }

  /** Any answer of the kernel: EPERM exactly when shown an O_PATH descriptor; errors leave the sets alone. */
  method KernelSelect(w: World, nfds: int, sets: array<set<int>>, ghost before: seq<Call>)
    returns (r: Result, ghost calls: seq<Call>)
    requires sets.Length == 3 && forall d :: 0 <= d < 3 ==> InRange(sets[d], nfds)
    modifies sets
    ensures r == Fail(EPERM) <==> ShowsPath(w, old(sets[..]))
    ensures r.Fail? ==> sets[..] == old(sets[..])
    ensures r.Ready? ==> r.n == Total(sets[..]) && forall d :: 0 <= d < 3 ==> sets[d] <= old(sets[d])
    ensures calls == before + [Call(nfds, old(sets[..]), r, sets[..])]
  {
    r := Answer(w, sets);
    calls := before + [Call(nfds, old(sets[..]), r, sets[..])];
  }

  method Answer(w: World, sets: array<set<int>>) returns (r: Result)
    requires sets.Length == 3
    modifies sets
    ensures r == Fail(EPERM) <==> ShowsPath(w, old(sets[..]))
    ensures r.Fail? ==> sets[..] == old(sets[..])
    ensures r.Ready? ==> r.n == Total(sets[..]) && forall d :: 0 <= d < 3 ==> sets[d] <= old(sets[d])
  {
    var fails: bool := *;
    if ShowsPath(w, sets[..]) {
      return Fail(EPERM);
    } else if fails {
      var errno :| errno != EPERM;
      return Fail(errno);
    }
    var r0, r1, r2 :| r0 <= sets[0] && r1 <= sets[1] && r2 <= sets[2];
    sets[0], sets[1], sets[2] := r0, r1, r2;
    r := Ready(|r0| + |r1| + |r2|);
  }

  function SubstitutedAll(w: World, user: Sets, chosen: seq<int>): Sets {
    [Substituted(w, user[0], chosen), Substituted(w, user[1], chosen), Substituted(w, user[2], chosen)]
  }

  /** A legal outcome of an ideal select in which every chosen descriptor is its backing. */
  ghost predicate IdealOutcome(w: World, user: Sets, chosen: seq<int>, out: Sets, r: Result, sets: Sets) {
    && (r == Fail(EPERM) <==> ShowsPath(w, SubstitutedAll(w, user, chosen)))
    && (r.Fail? ==> sets == user)
    && (r.Ready? ==>
          && r.n == Total(sets) && r.n >= Total(out)
          && (forall d :: 0 <= d < 3 ==> out[d] <= Substituted(w, user[d], chosen))
          && (forall d :: 0 <= d < 3 ==> sets[d] == Ideal(w, user[d], chosen, out[d])))
  }

  /** out is what the last kernel call gave for the substituted sets, and an error is its error. */
  ghost predicate FromLast(w: World, user: Sets, chosen: seq<int>, calls: seq<Call>, r: Result, out: Sets) {
    && calls != []
    && var last := calls[|calls| - 1];
       && last.asked == SubstitutedAll(w, user, chosen) && last.out == out
       && (r.Fail? || last.result.Fail? ==> r == last.result)
  }

  lemma PlainOutcome(w: World, user: Sets, r: Result, sets: Sets)
    requires r == Fail(EPERM) <==> ShowsPath(w, user)
    requires r.Fail? ==> sets == user
    requires r.Ready? ==> r.n == Total(sets) && forall d :: 0 <= d < 3 ==> sets[d] <= user[d]
    ensures IdealOutcome(w, user, [], sets, r, sets)
  {
  }

  lemma PathFreeChoosesNone(w: World, user: Sets, n: nat)
    requires WorldOk(w) && !ShowsPath(w, user)
    ensures Chosen(w, user, n) == []
  {
    NothingChosen(w, user, n);
  }

  lemma SubstitutedInRange(w: World, user: Sets, chosen: seq<int>, nfds: int, wider: int, d: nat)
    requires d < 3 && InRange(user[d], nfds) && Covers(w, chosen, nfds, wider) && ChosenOk(w, chosen)
    ensures InRange(Substituted(w, user[d], chosen), wider)
  {
  }

  /** The retry on the substituted sets, the unwinding and the corrected count. */
  method Retry(w: World, ghost user: Sets, nfds: int, wider: int, sets: array<set<int>>, swaps: seq<Swap>,
               ghost before: seq<Call>)
    returns (r: Result, ghost out: Sets, ghost calls: seq<Call>)
    requires WorldOk(w) && sets.Length == 3 && forall d :: 0 <= d < 3 ==> InRange(user[d], nfds)
    requires ScannedTo(w, user, nfds, Scanned(nfds), sets[..], swaps, wider)
    modifies sets
    ensures IdealOutcome(w, user, Chosen(w, user, Scanned(nfds)), out, r, sets[..])
    ensures |calls| == |before| + 1 && calls[..|before|] == before
    ensures FromLast(w, user, Chosen(w, user, Scanned(nfds)), calls, r, out)
    ensures Covers(w, Chosen(w, user, Scanned(nfds)), nfds, calls[|before|].nfds)
  {
    ghost var chosen := Chosen(w, user, Scanned(nfds));
    ChosenIsOk(w, user, Scanned(nfds));
    forall d | 0 <= d < 3
      ensures InRange(sets[d], wider)
    {
      assert sets[..][d] == Substituted(w, user[d], chosen);
      SubstitutedInRange(w, user, chosen, nfds, wider, d);
    }
    assert sets[..] == SubstitutedAll(w, user, chosen);
    var answer;
    answer, calls := KernelSelect(w, wider, sets, before);
    out := sets[..];
    r := Settle(w, user, chosen, nfds, wider, sets, swaps, answer, out);
  }

  /** Unwinds the kernel's answer and corrects its count. */
  method Settle(ghost w: World, ghost user: Sets, ghost chosen: seq<int>, nfds: int, wider: int, sets: array<set<int>>,
                swaps: seq<Swap>, answer: Result, ghost out: Sets) returns (r: Result)
    requires WorldOk(w) && sets.Length == 3 && (forall d :: 0 <= d < 3 ==> InRange(user[d], nfds)) && out == sets[..]
    requires chosen == Chosen(w, user, Scanned(nfds)) && Recorded(w, user, chosen, swaps)
    requires Covers(w, chosen, nfds, wider)
    requires answer == Fail(EPERM) <==> ShowsPath(w, SubstitutedAll(w, user, chosen))
    requires answer.Fail? ==> out == SubstitutedAll(w, user, chosen)
    requires answer.Ready? ==> answer.n == Total(out)
    requires forall d :: 0 <= d < 3 ==> out[d] <= Substituted(w, user[d], chosen)
    modifies sets
    ensures IdealOutcome(w, user, chosen, out, r, sets[..])
    ensures r.Fail? || answer.Fail? ==> r == answer
  {
    r := answer;
    ChosenIsOk(w, user, Scanned(nfds));
    if r.Ready? && r.n > 0 {
      var low := Recount(wider, sets);
      Unwind(w, user, chosen, sets, swaps);
      var now := Recount(nfds, sets);
      RecountIsExact(w, user, out, sets[..], nfds, wider);
      r := Ready(r.n - low + now);
    } else {
      Unwind(w, user, chosen, sets, swaps);
      UnwindsQuietly(w, user, chosen, out, r, sets[..]);
    }
  }

  /** An error, or an empty answer, unwinds to the caller's own sets or to empty ones. */
  lemma UnwindsQuietly(w: World, user: Sets, chosen: seq<int>, out: Sets, r: Result, sets: Sets)
    requires r == Fail(EPERM) <==> ShowsPath(w, SubstitutedAll(w, user, chosen))
    requires r.Fail? ==> out == SubstitutedAll(w, user, chosen)
    requires r.Ready? ==> r.n == Total(out) <= 0
    requires forall d :: 0 <= d < 3 ==> out[d] <= Substituted(w, user[d], chosen)
    requires forall d :: 0 <= d < 3 ==> sets[d] == Ideal(w, user[d], chosen, out[d])
    ensures IdealOutcome(w, user, chosen, out, r, sets)
  {
    if r.Fail? {
      IdealOfAll(w, user[0], chosen);
      IdealOfAll(w, user[1], chosen);
      IdealOfAll(w, user[2], chosen);
      assert sets == user;
    } else {
      assert forall d :: 0 <= d < 3 ==> out[d] == {};
      assert forall d :: 0 <= d < 3 ==> sets[d] == {};
    }
  }

  /** The application's own sets, as they are. */
  method PlainSelect(w: World, nfds: int, sets: array<set<int>>)
    returns (r: Result, ghost out: Sets, ghost calls: seq<Call>)
    requires sets.Length == 3 && forall d :: 0 <= d < 3 ==> InRange(sets[d], nfds)
    modifies sets
    ensures IdealOutcome(w, old(sets[..]), [], out, r, sets[..])
    ensures FromLast(w, old(sets[..]), [], calls, r, out)
    ensures r == Fail(EPERM) <==> ShowsPath(w, old(sets[..]))
    ensures calls == [Call(nfds, old(sets[..]), r, sets[..])] && (r.Fail? ==> sets[..] == old(sets[..]))
  {
    ghost var user: Sets := sets[..];
    r, calls := KernelSelect(w, nfds, sets, []);
    out := sets[..];
    PlainOutcome(w, user, r, sets[..]);
    NothingSubstituted(w, user);
  }

  /**
    select as the application sees it: an ideal select, on whatever was substituted. The first kernel call is
    about the caller's sets; only an EPERM from it leads to another.
  */
  method Dispatch(w: World, passthru: bool, nfds: int, sets: array<set<int>>)
    returns (r: Result, ghost out: Sets, ghost calls: seq<Call>)
    requires WorldOk(w) && sets.Length == 3 && forall d :: 0 <= d < 3 ==> InRange(sets[d], nfds)
    modifies sets
    ensures var chosen := if passthru then [] else Chosen(w, old(sets[..]), Scanned(nfds));
      IdealOutcome(w, old(sets[..]), chosen, out, r, sets[..]) && FromLast(w, old(sets[..]), chosen, calls, r, out)
    ensures calls[0].asked == old(sets[..]) && calls[0].nfds == nfds && |calls| <= 2
    ensures |calls| == 2 ==> calls[0].result == Fail(EPERM) && !passthru
    ensures |calls| == 2 ==> Covers(w, Chosen(w, old(sets[..]), Scanned(nfds)), nfds, calls[1].nfds)
  {
    ghost var user: Sets := sets[..];
    r, out, calls := PlainSelect(w, nfds, sets);
    if r != Fail(EPERM) {
      PathFreeChoosesNone(w, user, Scanned(nfds));
      return;
    }
    if passthru {
      return;
    }
    var swaps, wider := SwapIn(w, nfds, sets);
    if |swaps| == 0 {
      NothingSwapped(w, user, nfds, sets[..], swaps, wider);
      return;
    }
    r, out, calls := Retry(w, user, nfds, wider, sets, swaps, calls);
  }

  lemma NothingSubstituted(w: World, user: Sets)
    ensures SubstitutedAll(w, user, []) == user
  {
    forall d | 0 <= d < 3
      ensures Substituted(w, user[d], []) == user[d]
    {
    }
  }

  lemma NothingSwapped(w: World, user: Sets, nfds: int, sets: seq<set<int>>, swaps: seq<Swap>, wider: int)
    requires ScannedTo(w, user, nfds, Scanned(nfds), sets, swaps, wider) && |swaps| == 0
    ensures Chosen(w, user, Scanned(nfds)) == [] && sets == user
  {
    forall d | 0 <= d < 3
      ensures Substituted(w, user[d], []) == user[d]
    {
    }
  }

  // ---------------------------------------------------------------- when the answer is the full one

  function Swappables(w: World, user: Sets, n: nat): nat {
    if n == 0 then 0 else Swappables(w, user, n - 1) + if Swappable(w, user, n - 1) then 1 else 0
  }

  lemma {:induction false} FewAreAllChosen(w: World, user: Sets, n: nat)
    requires Swappables(w, user, n) <= MAX_SWAPS
    ensures |Chosen(w, user, n)| == Swappables(w, user, n)
    ensures forall f :: 0 <= f < n && Swappable(w, user, f) ==> f in Chosen(w, user, n)
  {
    if n > 0 {
      FewAreAllChosen(w, user, n - 1);
    }
  }

  /** At most 64 synthetic descriptors, each with a usable backing in range, never cost the caller an EPERM. */
  lemma FullyTranslated(w: World, user: Sets, nfds: int)
    requires WorldOk(w) && (forall d :: 0 <= d < 3 ==> InRange(user[d], nfds))
    requires Swappables(w, user, Scanned(nfds)) <= MAX_SWAPS
    requires forall f :: f in w.opath && Watched(user, f) ==>
               f < FD_SETSIZE && f in w.synth && 0 <= w.synth[f] < FD_SETSIZE && w.synth[f] !in w.opath
    ensures forall d, f :: 0 <= d < 3 && f in user[d] && f in w.synth ==>
              w.synth[f] in SubstitutedAll(w, user, Chosen(w, user, Scanned(nfds)))[d]
    ensures !ShowsPath(w, SubstitutedAll(w, user, Chosen(w, user, Scanned(nfds))))
  {
    ChosenMeans(w, user, Scanned(nfds));
    var chosen := Chosen(w, user, Scanned(nfds));
    FewAreAllChosen(w, user, Scanned(nfds));
    forall d, v | 0 <= d < 3 && v in Substituted(w, user[d], chosen)
      ensures v !in w.opath
    {
      if v in user[d] && v !in chosen {
        assert Watched(user, v) && 0 <= v < nfds;
      } else {
        var f :| f in user[d] && f in chosen && Translate(w, f) == v;
        assert Watched(user, f) && f in w.synth;
      }
    }
    var all := SubstitutedAll(w, user, chosen);
    assert forall d :: 0 <= d < 3 ==> all[d] !! w.opath;
  }
}
