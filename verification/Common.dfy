/** Shared vocabulary: optional values, bytes, and arithmetic of ring positions. */
module Common {
  datatype Option<+T> = None | Some(value: T)

  type byte = b: int | 0 <= b < 256

  type pos = n: int | n > 0 witness 1
}

/** What the page rings of both directions share (ccci/ccci_lib.c). */
module CcbHeader {
  const PAGE_STATUS_WRITE_DONE: nat := 0x22222222
  const TAIL_MAGIC_AFTER: nat := 0x1100FFEE
  const EINVAL: int := -22
}

/** A ring of `total` slots addressed by an ever growing sequence number. */
module RingIndex {

  /** The slot reached from slot 0 by `k` advances with wrap-around. */
  function Slot(k: nat, total: nat): (r: nat)
    requires total > 0
    ensures r < total
  {
    if k == 0 then 0
    else
      var before := Slot(k - 1, total);
      if before + 1 >= total then 0 else before + 1
  }

  /** Two sequence numbers less than one lap apart: their slots differ by their distance,
      taken around the ring. */
  lemma {:induction false} SlotGap(i: nat, j: nat, total: nat)
    requires total > 0 && i <= j < i + total
    ensures Slot(j, total) ==
            if Slot(i, total) + (j - i) < total then Slot(i, total) + (j - i)
            else Slot(i, total) + (j - i) - total
  {
    if i < j {
      SlotGap(i, j - 1, total);
    }
  }
}
