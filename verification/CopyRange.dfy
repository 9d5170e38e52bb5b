/**
  copy_file_range by pread and pwrite in chunks, for kernels that lack it. Reads may be short,
  writes may be short but not empty, and either may fail.
*/
module CopyRange {

  const CHUNK: nat := 4096

  type Byte = b: int | 0 <= b < 256 witness 0

  /** A caller's offset pointer: absent, or the value it points to. */
  datatype Offset = Null | At(value: int)

  function Min(a: int, b: int): int { if a < b then a else b }

  /** d with one byte written at offset k; a write past the end fills the gap with zeros. */
  function Put(d: seq<Byte>, k: nat, v: Byte): (r: seq<Byte>)
    ensures |r| == if k < |d| then |d| else k + 1
  {
    if k < |d| then d[k := v] else d + seq(k - |d|, _ => 0) + [v]
  }

  /** d with b written at offset o, byte after byte. */
  function Splice(d: seq<Byte>, o: nat, b: seq<Byte>): seq<Byte> {
    if b == [] then d
    else Put(Splice(d, o, b[..|b| - 1]), o + |b| - 1, b[|b| - 1])
  }

  /** The written range holds b, every other byte is what it was, and a gap is zeros. */
  lemma {:induction false} SpliceMeans(d: seq<Byte>, o: nat, b: seq<Byte>)
    ensures |Splice(d, o, b)| == if b == [] || |d| > o + |b| then |d| else o + |b|
    ensures forall k :: 0 <= k < |Splice(d, o, b)| ==>
              Splice(d, o, b)[k] == if o <= k < o + |b| then b[k - o] else if k < |d| then d[k] else 0
  {
    if b != [] {
      SpliceMeans(d, o, b[..|b| - 1]);
    }
  }

  /** Two writes, one where the other ended, are one write. */
  lemma {:induction false} SpliceTwice(d: seq<Byte>, o: nat, a: seq<Byte>, b: seq<Byte>)
    ensures Splice(Splice(d, o, a), o + |a|, b) == Splice(d, o, a + b)
  {
    if b == [] {
      assert a + b == a;
    } else {
      SpliceTwice(d, o, a, b[..|b| - 1]);
      assert (a + b)[..|a + b| - 1] == a + b[..|b| - 1];
    }
  }

  /** How many bytes there are to copy from offset o of a file of the given size, when len are asked for. */
  function Available(size: nat, o: int, len: nat): nat {
    if o < 0 || o >= size then 0 else Min(len, size - o)
  }

  class File {
    var data: seq<Byte>
    /** -1 for a file that cannot seek. */
    var cursor: int
    /** How many reads and writes have failed, and how much each other read gave. */
    var faults: nat
    var got: seq<nat>

    constructor (bytes: seq<Byte>, at: int)
      ensures data == bytes && cursor == at && faults == 0 && got == []
    {
      data, cursor, faults, got := bytes, at, 0, [];
    }

    /** Reads up to count bytes at off; nothing only at the end of the file. */
    method PRead(count: nat, off: int) returns (ok: bool, bytes: seq<Byte>)
      requires count > 0
      modifies this`faults, this`got
      ensures off < 0 ==> !ok
      ensures faults == old(faults) + if ok then 0 else 1
      ensures got == if ok then old(got) + [|bytes|] else old(got)
      ensures ok ==> |bytes| <= count && (bytes == [] <==> off >= |data|)
      ensures ok && bytes != [] ==> off + |bytes| <= |data| && bytes == data[off..off + |bytes|]
    {
      ok := *;
      bytes := [];
      if off < 0 {
        ok := false;
      } else if ok && off < |data| {
        var most := Min(count, |data| - off);
        var n :| 1 <= n <= most;
        bytes := data[off..off + n];
      }
      if ok {
        got := got + [|bytes|];
      } else {
        faults := faults + 1;
      }
    }

    /** Writes some of the bytes at off, at least one unless it fails. */
    method PWrite(bytes: seq<Byte>, off: int) returns (w: int)
      requires bytes != []
      modifies this`data, this`faults
      ensures w == -1 || 1 <= w <= |bytes|
      ensures faults == old(faults) + if w == -1 then 1 else 0
      ensures off < 0 ==> w == -1
      ensures w == -1 ==> data == old(data)
      ensures w > 0 ==> off >= 0 && data == Splice(old(data), off, bytes[..w])
    {
      var fails: bool := *;
      if off < 0 || fails {
        faults := faults + 1;
        return -1;
      }
      w :| 1 <= w <= |bytes|;
      data := Splice(data, off, bytes[..w]);
    }
  }

  /** now is was with n bytes written at off, n bytes being the first of bytes. */
  ghost predicate Wrote(was: seq<Byte>, now: seq<Byte>, off: int, bytes: seq<Byte>, n: nat) {
    n <= |bytes| && if n == 0 then now == was else off >= 0 && now == Splice(was, off, bytes[..n])
  }

  lemma WroteMore(was: seq<Byte>, mid: seq<Byte>, now: seq<Byte>, off: int, bytes: seq<Byte>, n: nat, w: nat)
    requires Wrote(was, mid, off, bytes, n) && 1 <= w <= |bytes| - n && off + n >= 0 && (n == 0 || off >= 0)
    requires now == Splice(mid, off + n, bytes[n..][..w])
    ensures Wrote(was, now, off, bytes, n + w)
  {
    assert bytes[..n] + bytes[n..][..w] == bytes[..n + w];
    if n > 0 {
      SpliceTwice(was, off, bytes[..n], bytes[n..][..w]);
    } else {
      assert bytes[n..][..w] == bytes[..w];
    }
  }

  /** The inner loop: writes a whole chunk, in as many pieces as it takes. */
  method WriteAll(output: File, bytes: seq<Byte>, off: int) returns (ok: bool, ghost written: nat)
    modifies output`data, output`faults
    ensures Wrote(old(output.data), output.data, off, bytes, written)
    ensures if ok then written == |bytes| else written < |bytes|
    ensures ok <==> output.faults == old(output.faults)
    ensures output.faults >= old(output.faults)
  {
    var done := 0;
    while done < |bytes|
      invariant 0 <= done && Wrote(old(output.data), output.data, off, bytes, done)
      invariant output.faults == old(output.faults)
    {
      ghost var mid := output.data;
      var w := output.PWrite(bytes[done..], off + done);
      if w < 0 {
        return false, done;
      }
      WroteMore(old(output.data), mid, output.data, off, bytes, done, w);
      done := done + w;
    }
    return true, done;
  }

  // ---------------------------------------------------------------- the copy

  /** n bytes of the source have reached the destination, and nothing else has changed there. */
  ghost predicate Copied(source: seq<Byte>, from: int, was: seq<Byte>, now: seq<Byte>, to: int, n: nat) {
    if n == 0 then now == was
    else from >= 0 && to >= 0 && from + n <= |source| && now == Splice(was, to, source[from..from + n])
  }

  lemma CopiedMore(source: seq<Byte>, from: int, was: seq<Byte>, mid: seq<Byte>, now: seq<Byte>, to: int,
                   total: nat, chunk: seq<Byte>, written: nat)
    requires Copied(source, from, was, mid, to, total) && from + total >= 0 && (total == 0 || from >= 0)
    requires from + total + |chunk| <= |source| && chunk == source[from + total..from + total + |chunk|]
    requires Wrote(mid, now, to + total, chunk, written)
    ensures Copied(source, from, was, now, to, total + written)
  {
    if total > 0 && written > 0 {
      SpliceTwice(was, to, source[from..from + total], chunk[..written]);
      assert source[from..from + total] + chunk[..written] == source[from..from + total + written];
    } else if written > 0 {
      assert chunk[..written] == source[from..from + written];
    }
  }

  function Sum(chunks: seq<nat>): nat {
    if chunks == [] then 0 else Sum(chunks[..|chunks| - 1]) + chunks[|chunks| - 1]
  }

  lemma SumAppend(chunks: seq<nat>, n: nat)
    ensures Sum(chunks + [n]) == Sum(chunks) + n
  {
    assert (chunks + [n])[..|chunks|] == chunks;
  }

  /** What was read since `was` amounts to total bytes. */
  ghost predicate ReadsAddUp(was: seq<nat>, now: seq<nat>, total: nat) {
    was <= now && Sum(now[|was|..]) == total
  }

  lemma ReadsAddMore(was: seq<nat>, mid: seq<nat>, total: nat, n: nat)
    requires ReadsAddUp(was, mid, total)
    ensures ReadsAddUp(was, mid + [n], total + n)
  {
    assert (mid + [n])[|was|..] == mid[|was|..] + [n];
    SumAppend(mid[|was|..], n);
  }

  /** One more chunk is read: it counts, and stays within what there is to copy. */
  lemma NextChunk(was: seq<nat>, mid: seq<nat>, total: nat, n: nat, size: nat, from: int, len: nat)
    requires ReadsAddUp(was, mid, total) && total + n <= len && 0 <= from + total
    requires total <= Available(size, from, len) && if n == 0 then from + total >= size else from + total + n <= size
    ensures ReadsAddUp(was, mid + [n], total + n) && |was| < |mid + [n]| && (mid + [n])[|mid|] == n
    ensures total + n <= Available(size, from, len) && from >= 0
    ensures n == 0 ==> total == Available(size, from, len)
  {
    ReadsAddMore(was, mid, total, n);
  }

  /**
    How a copy ends: without a fault it is complete; a failed pread leaves all that was read copied; a failed
    pwrite leaves a part of the last chunk copied, which does not count.
  */
  ghost predicate EndsForCause(ok: bool, total: nat, extra: nat, inFaults: nat, inFaults': nat,
                               outFaults: nat, outFaults': nat, was: seq<nat>, now: seq<nat>) {
    && (ok <==> inFaults' == inFaults && outFaults' == outFaults)
    && (outFaults' == outFaults ==> extra == 0 && ReadsAddUp(was, now, total))
    && (outFaults' != outFaults ==>
          |was| < |now| && extra < now[|now| - 1] && ReadsAddUp(was, now, total + now[|now| - 1]))
  }

  /** One round: reads a chunk, nothing at the end of the file, and writes all of it. */
  method CopyChunk(input: File, output: File, from: int, to: int, len: nat, total: nat,
                   ghost dest: seq<Byte>, ghost was: seq<nat>)
    returns (ok: bool, n: nat, ghost extra: nat)
    requires input != output && total < len && total <= Available(|input.data|, from, len)
    requires Copied(input.data, from, dest, output.data, to, total) && ReadsAddUp(was, input.got, total)
    modifies output`data, output`faults, input`faults, input`got
    ensures Copied(input.data, from, dest, output.data, to, total + if ok then n else extra)
    ensures !ok ==> EndsForCause(false, total, extra, old(input.faults), input.faults,
                                 old(output.faults), output.faults, was, input.got)
    ensures ok ==> input.faults == old(input.faults) && output.faults == old(output.faults) && from >= 0
    ensures ok ==> ReadsAddUp(was, input.got, total + n) && total + n <= Available(|input.data|, from, len)
    ensures ok && n == 0 ==> total == Available(|input.data|, from, len)
  {
    n, extra := 0, 0;
    ghost var chunks := input.got;
    var chunk;
    ok, chunk := input.PRead(Min(CHUNK, len - total), from + total);
    if ok {
      NextChunk(was, chunks, total, |chunk|, |input.data|, from, len);
      n := |chunk|;
      ok, extra := WriteAll(output, chunk, to + total);
      if n > 0 {
        CopiedMore(input.data, from, dest, old(output.data), output.data, to, total, chunk, extra);
      }
    }
  }

  /** The loop, with the offsets in variables. Only an error of pread or pwrite ends it early. */
  method CopyLoop(input: File, output: File, from: int, to: int, len: nat)
    returns (ok: bool, total: nat, ghost extra: nat)
    requires input != output
    modifies output`data, output`faults, input`faults, input`got
    ensures Copied(input.data, from, old(output.data), output.data, to, total + extra) && total <= len
    ensures EndsForCause(ok, total, extra, old(input.faults), input.faults, old(output.faults), output.faults,
                         old(input.got), input.got)
    ensures ok ==> extra == 0 && total == Available(|input.data|, from, len) && (len > 0 ==> from >= 0)
  {
    ok, total, extra := true, 0, 0;
    while total < len
      invariant ok && input.faults == old(input.faults) && output.faults == old(output.faults) && extra == 0
      invariant ReadsAddUp(old(input.got), input.got, total)
      invariant total <= len && total <= Available(|input.data|, from, len) && (total > 0 ==> from >= 0)
      invariant Copied(input.data, from, old(output.data), output.data, to, total)
    {
      var n;
      ok, n, extra := CopyChunk(input, output, from, to, len, total, old(output.data), old(input.got));
      if !ok {
        return;
      }
      extra := 0;
      if n == 0 {
        break;
      }
      total := total + n;
    }
  }

  /** Where an offset starts: the caller's, or the file's cursor. */
  function Origin(o: Offset, cursor: int): int { if o.Null? then cursor else o.value }

  function Advanced(o: Offset, n: int): Offset { if o.Null? then Null else At(o.value + n) }

  /** What a run without errors leaves: the whole range, the offsets and only the cursors that were asked for. */
  ghost predicate Complete(source: seq<Byte>, inCursor: int, inCursor': int, offIn: Offset, offIn': Offset,
                           was: seq<Byte>, now: seq<Byte>, outCursor: int, outCursor': int,
                           offOut: Offset, offOut': Offset,
                           len: nat, r: int) {
    var (from, to) := (Origin(offIn, inCursor), Origin(offOut, outCursor));
    && (len > 0 ==> from >= 0) && r == Available(|source|, from, len)
    && Copied(source, from, was, now, to, r)
    && offIn' == Advanced(offIn, r) && offOut' == Advanced(offOut, r)
    && inCursor' == (if offIn.Null? then inCursor + r else inCursor)
    && outCursor' == (if offOut.Null? then outCursor + r else outCursor)
  }

  /** The fallback. It reports the bytes copied, or -1 if an error came before any. */
  method CopyFileRange(input: File, offIn: Offset, output: File, offOut: Offset, len: nat)
    returns (r: int, offIn': Offset, offOut': Offset, ghost ok: bool, ghost extra: nat)
    requires input != output
    modifies input`cursor, input`faults, input`got, output
    ensures input.data == old(input.data)
    ensures Origin(offIn, old(input.cursor)) == -1 || Origin(offOut, old(output.cursor)) == -1 ==> r == -1 && !ok
    ensures ok <==> && Origin(offIn, old(input.cursor)) != -1 && Origin(offOut, old(output.cursor)) != -1
                    && input.faults == old(input.faults) && output.faults == old(output.faults)
    ensures Origin(offIn, old(input.cursor)) != -1 && Origin(offOut, old(output.cursor)) != -1 ==>
              EndsForCause(ok, if r < 0 then 0 else r, extra, old(input.faults), input.faults,
                           old(output.faults), output.faults, old(input.got), input.got)
    ensures ok ==> Complete(input.data, old(input.cursor), input.cursor, offIn, offIn',
                            old(output.data), output.data, old(output.cursor), output.cursor, offOut, offOut', len, r)
    ensures !ok ==> && (r == -1 || 0 < r <= len)
                    && Copied(input.data, Origin(offIn, old(input.cursor)), old(output.data), output.data,
                              Origin(offOut, old(output.cursor)), (if r < 0 then 0 else r) + extra)
                    && offIn' == Advanced(offIn, if r < 0 then 0 else r)
                    && offOut' == Advanced(offOut, if r < 0 then 0 else r)
                    && input.cursor == old(input.cursor) && output.cursor == old(output.cursor)
  {
    var from, to := Origin(offIn, input.cursor), Origin(offOut, output.cursor);
    offIn', offOut' := offIn, offOut;
    if from == -1 || to == -1 {
      return -1, offIn, offOut, false, 0;
    }
    var total;
    var done;
    done, total, extra := CopyLoop(input, output, from, to, len);
    ok := done;
    offIn', offOut' := Advanced(offIn, total), Advanced(offOut, total);
    if !done {
      r := if total > 0 then total else -1;
      return;
    }
    if offIn.Null? {
      input.cursor := from + total;
    }
    if offOut.Null? {
      output.cursor := to + total;
    }
    r := total;
  }
}
