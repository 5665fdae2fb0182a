/** The pool of NUM_BUFFERS mixing slots that OGCAUD_OpenDevice carves out of
    one `memalign`ed block: slot `i` starts at `rawbuf + i * size`. Addresses
    are plain naturals. */
module BufferPool {

  /** The alignment open asks of `memalign`. */
  const MemAlign: nat := 64

  /** The `mixbufs` array filled by the loop at the end of open. */
  function SlotLayout(base: nat, size: nat, n: nat): (slots: seq<nat>)
    ensures |slots| == n
    ensures forall i :: 0 <= i < n ==> slots[i] == base + i * size
  {
    seq(n, i => base + i * size)
  }

  /** Address `a` lies inside slot `i`. */
  predicate InSlot(slots: seq<nat>, size: nat, i: nat, a: nat)
    requires i < |slots|
  {
    slots[i] <= a < slots[i] + size
  }

  /** Address `a` lies inside the whole allocation of `n * size` bytes. */
  predicate InAllocation(base: nat, size: nat, n: nat, a: nat) {
    base <= a < base + n * size
  }

  lemma MulMonotone(a: nat, b: nat, size: nat)
    requires a <= b
    ensures a * size <= b * size
  {
  }

  /** Every slot lies inside the allocation. */
  lemma SlotsInsideAllocation(base: nat, size: nat, n: nat, i: nat, a: nat)
    requires i < n
    requires InSlot(SlotLayout(base, size, n), size, i, a)
    ensures InAllocation(base, size, n, a)
  {
    MulMonotone(i + 1, n, size);
    assert (i + 1) * size == i * size + size;
  }

  /** Two different slots share no address. */
  lemma SlotsDisjoint(base: nat, size: nat, n: nat, i: nat, j: nat, a: nat)
    requires i < n && j < n && i != j
    ensures !(InSlot(SlotLayout(base, size, n), size, i, a) && InSlot(SlotLayout(base, size, n), size, j, a))
  {
    var slots := SlotLayout(base, size, n);
    if i < j {
      MulMonotone(i + 1, j, size);
      assert (i + 1) * size == i * size + size;
      assert slots[i] + size <= slots[j];
    } else {
      MulMonotone(j + 1, i, size);
      assert (j + 1) * size == j * size + size;
      assert slots[j] + size <= slots[i];
    }
  }

  /** Every address of the allocation lies in slot `(a - base) / size`; with
      SlotsDisjoint this slot is the only one, so the slots tile the block. */
  lemma SlotsCoverAllocation(base: nat, size: nat, n: nat, a: nat) returns (i: nat)
    requires InAllocation(base, size, n, a)
    ensures i < n
    ensures InSlot(SlotLayout(base, size, n), size, i, a)
  {
    assert n * 0 == 0;
    assert size > 0;
    var off := a - base;
    i := off / size;
    assert i * size <= off < i * size + size;
    if i >= n {
      MulMonotone(n, i, size);
      assert false;
    }
  }

  /** With a 64-aligned base (what `memalign(64, ...)` returns) and a slot
      size that is a multiple of 64, every slot starts on a 64-byte boundary,
      as the ASND mixer needs. */
  lemma SlotsAligned(base: nat, size: nat, n: nat, i: nat)
    requires base % MemAlign == 0 && size % MemAlign == 0
    requires i < n
    ensures SlotLayout(base, size, n)[i] % MemAlign == 0
  {
    var k := size / 64;
    assert size == 64 * k;
    var m := i * k;
    assert i * size == 64 * m;
  }
}
