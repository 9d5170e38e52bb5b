/**
  What becomes of a pin that a dispatch holds while other threads close the entry's descriptors.
  post_close does not record that it has dropped the producer's reference, so the next one drops
  another in its name.
*/
module DispatchPins {
  import opened DescriptorView
  import opened KernelState
  import opened SynthState
  import opened SynthLemmas
  import opened SynthEffects
  import opened SynthTable

  /** Entry i is this process's, has c references, and every decision about it is to release it. */
  ghost predicate Condemned(s: State, i: int, c: int) {
    && Inv(s) && Live(s, i) && s.table[i].refcount == c
    && s.table[i].installer == s.self && ShouldRelease(s, i)
  }

  lemma CondemnedUnderPin(s: State, i: int, c: int)
    requires Condemned(s, i, c)
    ensures Condemned(Recounted(s, i, c + 1), i, c + 1)
  {
    RecountKeeps(s, i, c + 1);
    RecountNumbers(s, i, c + 1);
  }

  /** One close or sweep that comes to the entry: pin it if it is live, and post_close it. */
  method PostCloseOnce(lib: Library, i: int, ghost c: int)
    requires Condemned(lib.S(), i, c)
    modifies lib
    ensures c > 1 ==> Condemned(lib.S(), i, c - 1)
    ensures c == 1 ==> Inv(lib.S()) && 0 <= i < |lib.table| && lib.table[i].refcount == 0
  {
    ghost var s := lib.S();
    var pinned := lib.Pin(i);
    assert lib.S() == Recounted(s, i, c + 1);
    CondemnedUnderPin(s, i, c);
    lib.PostClose(i, {});
  }

  /**
    So many times, on an entry that had c references at first: the producer's and the c - 1 pins of
    dispatches that have not returned. A pin keeps the entry, as it should, if and only if fewer
    decisions to release are made than there are references. One decision is always safe; with one
    dispatch in flight the second releases the entry under it.
  */
  method PostCloseTimes(lib: Library, i: int, times: nat)
    requires 0 <= i < |lib.table| && Condemned(lib.S(), i, lib.table[i].refcount)
    modifies lib
    ensures Inv(lib.S()) && 0 <= i < |lib.table|
    ensures lib.table[i].refcount ==
            if times < old(lib.table)[i].refcount then old(lib.table)[i].refcount - times else 0
    ensures Live(lib.S(), i) <==> times < old(lib.table)[i].refcount
  {
    ghost var c := lib.table[i].refcount;
    var m := 0;
    while m < times && lib.table[i].refcount > 0
      invariant 0 <= m <= times && Inv(lib.S()) && 0 <= i < |lib.table|
      invariant m < c ==> Condemned(lib.S(), i, c - m)
      invariant m >= c ==> m == c && lib.table[i].refcount == 0
    {
      PostCloseOnce(lib, i, c - m);
      m := m + 1;
    }
  }
}
