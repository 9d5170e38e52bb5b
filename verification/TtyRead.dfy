/**
  read on a terminal wrap. In raw mode the VMIN/VTIME rules of noncanonical input processing are
  emulated with poll and read on the real terminal. The kernel's results are arbitrary; the log
  keeps them in order.
*/
module TtyRead {

  type Byte = b: int | 0 <= b < 256 witness 0

  /** One kernel call and what it gave. */
  datatype Event =
    | Polled(timeout: int, result: int)
    | Got(chunk: seq<Byte>)
    | EndOfInput
    | ReadFailed

  /** The bytes of a log, in order. */
  function Bytes(log: seq<Event>): seq<Byte> {
    if log == [] then []
    else Bytes(log[..|log| - 1]) + if log[|log| - 1].Got? then log[|log| - 1].chunk else []
  }

  lemma BytesAppend(log: seq<Event>, e: Event)
    ensures Bytes(log + [e]) == Bytes(log) + if e.Got? then e.chunk else []
  {
    assert (log + [e])[..|log|] == log;
  }

  function Min(a: int, b: int): int { if a < b then a else b }

  /** A call that ended the wait for more input. */
  predicate Stops(e: Event) {
    (e.Polled? && e.result <= 0) || e.EndOfInput? || e.ReadFailed?
  }

  /** What a call returned. */
  function Returned(e: Event): int {
    match e
    case Polled(_, r) => r
    case Got(chunk) => |chunk|
    case EndOfInput => 0
    case ReadFailed => -1
  }

  /** How long a poll waits: for the first byte, and between bytes. */
  function FirstTimeout(vmin: Byte, vtime: Byte): int { if vmin > 0 then -1 else vtime * 100 }

  function NextTimeout(vtime: Byte): int { if vtime > 0 then vtime * 100 else -1 }

  /** A poll comes first and after every chunk; a read comes after every poll. */
  predicate PollIsNext(calls: seq<Event>) {
    calls == [] || !calls[|calls| - 1].Polled?
  }

  /**
    e may be the next call: more bytes are wanted, it is e's turn, and a poll has the right timeout
    and respects it.
  */
  predicate MayFollow(calls: seq<Event>, e: Event, vmin: Byte, vtime: Byte, want: int) {
    && |Bytes(calls)| < want
    && (e.Polled? <==> PollIsNext(calls))
    && (e.Polled? ==> e.timeout == if calls == [] then FirstTimeout(vmin, vtime) else NextTimeout(vtime))
    && (e.Polled? && e.timeout < 0 ==> e.result != 0)
  }

  /** Calls that were each due, and none of which ended the read. */
  predicate Going(calls: seq<Event>, vmin: Byte, vtime: Byte, want: int) {
    calls == [] ||
    (var n := |calls| - 1;
     Going(calls[..n], vmin, vtime, want) && MayFollow(calls[..n], calls[n], vmin, vtime, want) && !Stops(calls[n]))
  }

  /** All the calls of one read: the last ended it, or brought enough. */
  predicate Ended(calls: seq<Event>, vmin: Byte, vtime: Byte, want: int) {
    && calls != []
    && var n := |calls| - 1;
       && Going(calls[..n], vmin, vtime, want) && MayFollow(calls[..n], calls[n], vmin, vtime, want)
       && (|Bytes(calls)| < want ==> Stops(calls[n]))
  }

  /** One more call, which either ends the read or lets it go on. */
  lemma Extend(calls: seq<Event>, e: Event, vmin: Byte, vtime: Byte, want: int)
    requires Going(calls, vmin, vtime, want) && MayFollow(calls, e, vmin, vtime, want)
    ensures if Stops(e) then Ended(calls + [e], vmin, vtime, want) else Going(calls + [e], vmin, vtime, want)
    ensures Bytes(calls + [e]) == Bytes(calls) + if e.Got? then e.chunk else []
  {
    BytesAppend(calls, e);
    assert (calls + [e])[..|calls|] == calls;
  }

  /** The first call, a poll. */
  lemma Begin(e: Event, vmin: Byte, vtime: Byte, want: int)
    requires e.Polled? && e.timeout == FirstTimeout(vmin, vtime) && (e.timeout < 0 ==> e.result != 0) && want > 0
    ensures if Stops(e) then Ended([e], vmin, vtime, want) else Going([e], vmin, vtime, want)
    ensures Bytes([e]) == []
  {
    assert Bytes([]) == [] && Going([], vmin, vtime, want) && MayFollow([], e, vmin, vtime, want);
    Extend([], e, vmin, vtime, want);
    assert [] + [e] == [e];
  }

  /** The read that follows the first poll. */
  lemma Chunk(poll: Event, e: Event, vmin: Byte, vtime: Byte, want: int)
    requires poll.Polled? && Going([poll], vmin, vtime, want) && Bytes([poll]) == [] && !e.Polled? && want > 0
    ensures if Stops(e) then Ended([poll, e], vmin, vtime, want) else Going([poll, e], vmin, vtime, want)
    ensures Bytes([poll, e]) == if e.Got? then e.chunk else []
  {
    assert MayFollow([poll], e, vmin, vtime, want);
    Extend([poll], e, vmin, vtime, want);
    assert [poll] + [e] == [poll, e];
  }

  lemma EnoughEnds(calls: seq<Event>, vmin: Byte, vtime: Byte, want: int)
    requires calls != [] && Going(calls, vmin, vtime, want) && |Bytes(calls)| >= want
    ensures Ended(calls, vmin, vtime, want)
  {
  }

  /** poll for input: a negative timeout waits for ever, so it never expires. */
  method Poll(timeout: int, ghost calls: seq<Event>) returns (r: int, ghost calls': seq<Event>)
    ensures -1 <= r <= 1 && (timeout < 0 ==> r != 0)
    ensures calls' == calls + [Polled(timeout, r)]
  {
    r :| -1 <= r <= 1 && (timeout < 0 ==> r != 0);
    calls' := calls + [Polled(timeout, r)];
  }

  /** read up to count bytes into the buffer at offset at. */
  method Read(buf: array<Byte>, at: nat, count: nat, ghost calls: seq<Event>) returns (n: int, ghost calls': seq<Event>)
    requires at + count <= buf.Length
    modifies buf
    ensures -1 <= n <= count
    ensures calls' == calls + [if n > 0 then Got(buf[at..at + n]) else if n == 0 then EndOfInput else ReadFailed]
    ensures buf[..at] == old(buf[..at]) && forall k :: at + n <= k < buf.Length && at <= k ==> buf[k] == old(buf[k])
  {
    n :| -1 <= n <= count;
    if n > 0 {
      for k := 0 to n
        modifies buf
        invariant forall j :: 0 <= j < buf.Length && !(at <= j < at + k) ==> buf[j] == old(buf[j])
      {
        buf[at + k] := *;
      }
    }
    calls' := calls + [if n > 0 then Got(buf[at..at + n]) else if n == 0 then EndOfInput else ReadFailed];
  }

  /** Waits for input and reads it: one round of the loop. A result of 0 or less ends the read. */
  method Round(buf: array<Byte>, count: nat, vmin: Byte, vtime: Byte, total: nat, timeout: int,
               ghost before: seq<Event>)
    returns (n: int, ghost calls: seq<Event>)
    requires total < count <= buf.Length && total < Min(vmin, count) && Bytes(before) == buf[..total]
    requires before != [] && Going(before, vmin, vtime, Min(vmin, count)) && PollIsNext(before)
    requires timeout == NextTimeout(vtime)
    modifies buf
    ensures n <= count - total && calls != []
    ensures n <= 0 ==> Ended(calls, vmin, vtime, Min(vmin, count)) && Bytes(calls) == buf[..total]
    ensures n > 0 ==>
              Going(calls, vmin, vtime, Min(vmin, count)) && PollIsNext(calls) && Bytes(calls) == buf[..total + n]
    ensures forall k :: total <= k < buf.Length && total + n <= k ==> buf[k] == old(buf[k])
  {
    ghost var data := buf[..total];
    n, calls := Poll(timeout, before);
    Extend(before, Polled(timeout, n), vmin, vtime, Min(vmin, count));
    if n <= 0 {
      return;
    }
    ghost var polled := calls;
    n, calls := Read(buf, total, count - total, calls);
    Extend(polled, calls[|polled|], vmin, vtime, Min(vmin, count));
    assert n > 0 ==> buf[..total + n] == data + buf[total..total + n];
  }

  /** The loop that collects VMIN bytes after a first, short chunk. */
  method ReadMore(buf: array<Byte>, count: nat, vmin: Byte, vtime: Byte, first: nat, ghost before: seq<Event>)
    returns (total: nat, ghost calls: seq<Event>)
    requires count <= buf.Length && 0 < first < Min(vmin, count)
    requires before != [] && Going(before, vmin, vtime, Min(vmin, count)) && PollIsNext(before)
    requires Bytes(before) == buf[..first]
    modifies buf
    ensures first <= total <= count && Ended(calls, vmin, vtime, Min(vmin, count)) && Bytes(calls) == buf[..total]
    ensures forall k :: total <= k < buf.Length ==> buf[k] == old(buf[k])
  {
    total, calls := first, before;
    var timeout := NextTimeout(vtime);
    while total < vmin && total < count
      invariant first <= total <= count && calls != [] && PollIsNext(calls)
      invariant Going(calls, vmin, vtime, Min(vmin, count)) && Bytes(calls) == buf[..total]
      invariant forall k :: total <= k < buf.Length ==> buf[k] == old(buf[k])
      decreases Min(vmin, count) - total
    {
      var n;
      n, calls := Round(buf, count, vmin, vtime, total, timeout, calls);
      if n <= 0 {
        return;
      }
      total := total + n;
    }
    EnoughEnds(calls, vmin, vtime, Min(vmin, count));
  }

  /** The first wait and the first chunk. */
  method FirstChunk(buf: array<Byte>, count: nat, vmin: Byte, vtime: Byte, ghost want: int)
    returns (r: int, ghost calls: seq<Event>)
    requires 0 < count <= buf.Length && want > 0
    modifies buf
    ensures -1 <= r <= count && 1 <= |calls| <= 2
    ensures r <= 0 ==> Ended(calls, vmin, vtime, want) && Bytes(calls) == [] && Returned(calls[|calls| - 1]) == r
    ensures r > 0 ==> Going(calls, vmin, vtime, want) && PollIsNext(calls) && Bytes(calls) == buf[..r]
    ensures forall k :: 0 <= k < buf.Length && r <= k ==> buf[k] == old(buf[k])
  {
    r, calls := Poll(FirstTimeout(vmin, vtime), []);
    ghost var poll := Polled(FirstTimeout(vmin, vtime), r);
    assert calls == [poll];
    Begin(poll, vmin, vtime, want);
    if r <= 0 {
      return;
    }
    r, calls := Read(buf, 0, count, calls);
    assert r > 0 ==> buf[0..r] == buf[..r];
    assert calls == [poll, calls[1]];
    Chunk(poll, calls[1], vmin, vtime, want);
  }

  /** A raw read: the first chunk, and the rest when VMIN asks for more. */
  method ReadRaw(buf: array<Byte>, count: nat, vmin: Byte, vtime: Byte) returns (r: int, ghost calls: seq<Event>)
    requires 0 < count <= buf.Length
    modifies buf
    ensures -1 <= r <= count
    ensures Ended(calls, vmin, vtime, if vmin == 0 then 1 else Min(vmin, count))
    ensures Bytes(calls) == buf[..if r < 0 then 0 else r]
    ensures r <= 0 ==> |calls| <= 2 && Returned(calls[|calls| - 1]) == r
    ensures vmin == 0 ==> |calls| <= 2
    ensures forall k :: 0 <= k < buf.Length && r <= k ==> buf[k] == old(buf[k])
  {
    ghost var want := if vmin == 0 then 1 else Min(vmin, count);
    r, calls := FirstChunk(buf, count, vmin, vtime, want);
    if r <= 0 {
      return;
    }
    if vmin == 0 || r >= vmin || r >= count {
      EnoughEnds(calls, vmin, vtime, want);
      return;
    }
    r, calls := ReadMore(buf, count, vmin, vtime, r, calls);
  }

  class Terminal {
    var canon: bool
    var nonblock: bool
    var vmin: Byte
    var vtime: Byte

    /** read on the wrap. In canonical or nonblocking mode the kernel does it all. */
    method ReadWrap(buf: array<Byte>, count: nat, passthru: bool) returns (r: int, ghost calls: seq<Event>)
      requires count <= buf.Length
      modifies buf
      ensures -1 <= r <= count
      ensures Bytes(calls) == buf[..if r < 0 then 0 else r]
      ensures forall k :: 0 <= k < buf.Length && r <= k ==> buf[k] == old(buf[k])
      ensures passthru || canon || nonblock ==> |calls| == 1 && !calls[0].Polled?
      ensures passthru || canon || nonblock ==> Returned(calls[0]) == r
      ensures !(passthru || canon || nonblock) && count == 0 ==> r == 0 && calls == []
      ensures r <= 0 && calls != [] ==> Returned(calls[|calls| - 1]) == r
      ensures !(passthru || canon || nonblock) && count > 0 ==>
                Ended(calls, vmin, vtime, if vmin == 0 then 1 else Min(vmin, count))
    {
      if passthru || canon || nonblock {
        r, calls := Read(buf, 0, count, []);
        assert calls == [] + [calls[0]];
        BytesAppend([], calls[0]);
        assert r > 0 ==> buf[0..r] == buf[..r];
        return;
      }
      if count == 0 {
        return 0, [];
      }
      r, calls := ReadRaw(buf, count, vmin, vtime);
    }
  }

  // ---------------------------------------------------------------- what the calls of a raw read mean

  lemma {:induction false} GoingNeverStops(calls: seq<Event>, vmin: Byte, vtime: Byte, want: int, k: nat)
    requires Going(calls, vmin, vtime, want) && k < |calls|
    ensures !Stops(calls[k]) && |Bytes(calls[..k])| < want
    ensures calls[k].Polled? ==> calls[k].timeout == if k == 0 then FirstTimeout(vmin, vtime) else NextTimeout(vtime)
  {
    var n := |calls| - 1;
    if k < n {
      GoingNeverStops(calls[..n], vmin, vtime, want, k);
      assert calls[..n][..k] == calls[..k];
    }
  }

  /** A short positive result comes only after a timeout, an error or end of input; without VTIME, not a timeout. */
  lemma ShortReadHasCause(calls: seq<Event>, vmin: Byte, vtime: Byte, count: nat)
    requires vmin > 0 && count > 0 && Ended(calls, vmin, vtime, Min(vmin, count))
    requires |Bytes(calls)| < Min(vmin, count)
    ensures Stops(calls[|calls| - 1])
    ensures vtime == 0 ==> calls[|calls| - 1].Polled? ==> calls[|calls| - 1].result < 0
  {
  }

  /**
    No call is made once enough bytes are there. The first poll waits for ever if VMIN is positive, and else
    for VTIME tenths of a second; every later one waits for VTIME tenths, or for ever if VTIME is zero.
  */
  lemma CallsAreNeeded(calls: seq<Event>, vmin: Byte, vtime: Byte, want: int, k: nat)
    requires Ended(calls, vmin, vtime, want) && k < |calls|
    ensures |Bytes(calls[..k])| < want
    ensures k < |calls| - 1 ==> !Stops(calls[k])
    ensures calls[k].Polled? && k == 0 ==> calls[k].timeout == if vmin > 0 then -1 else vtime * 100
    ensures calls[k].Polled? && k > 0 ==> calls[k].timeout == if vtime > 0 then vtime * 100 else -1
    ensures calls[k].Polled? <==> k % 2 == 0
  {
    var n := |calls| - 1;
    PollsAndReadsAlternate(calls[..n], vmin, vtime, want, n);
    if k < n {
      GoingNeverStops(calls[..n], vmin, vtime, want, k);
      PollsAndReadsAlternate(calls[..n], vmin, vtime, want, k);
      assert calls[..n][..k] == calls[..k];
    }
  }

  /** Calls alternate: polls at even places, reads at odd ones. */
  lemma {:induction false} PollsAndReadsAlternate(calls: seq<Event>, vmin: Byte, vtime: Byte, want: int, k: nat)
    requires Going(calls, vmin, vtime, want) && k <= |calls|
    ensures PollIsNext(calls[..k]) <==> k % 2 == 0
    ensures k < |calls| ==> (calls[k].Polled? <==> k % 2 == 0)
  {
    var n := |calls| - 1;
    if 0 <= k <= n {
      if k < n {
        PollsAndReadsAlternate(calls[..n], vmin, vtime, want, k);
        assert calls[..n][..k] == calls[..k];
      } else {
        PollsAndReadsAlternate(calls[..n], vmin, vtime, want, n);
        assert calls[..n][..n] == calls[..n];
      }
    } else if k > 0 {
      PollsAndReadsAlternate(calls[..n], vmin, vtime, want, n);
      assert calls[..n][..n] == calls[..n] && calls[..k] == calls;
    }
  }
}
