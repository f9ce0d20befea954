/** The downlink page ring of a CCB buffer (ccci/ccci_lib.c): the modem fills pages, the
    application processor borrows the oldest unread page, then hands it back.  `Downlink`
    is the protocol on sequence numbers; `DownlinkRing` is the shared header and memory. */
module CcbDownlink {
  import opened Common
  import opened CcbHeader
  import opened RingIndex

  const EAGAIN: int := -11
  const EFAULT: int := -14

  // ---------- The protocol on sequence numbers ----------

  datatype Page = Page(status: nat, length: nat)

  /** `sent` is everything the modem ever published; pages below `got` were lent to the reader
      (or flushed) and those below `freed` were handed back. */
  datatype Downlink = Downlink(total: pos, sent: seq<Page>, got: nat, freed: nat)

  datatype Step =
    | ModemSend(page: Page)
    | ReadGet
    | ReadDone
    | ReadFlush

  ghost predicate Inv(d: Downlink) {
    d.total >= 2 && d.freed <= d.got <= |d.sent| < d.freed + d.total
  }

  function Held(d: Downlink): int {
    d.got - d.freed
  }

  predicate CanGet(d: Downlink) {
    d.got < |d.sent| && d.sent[d.got].status == PAGE_STATUS_WRITE_DONE
  }

  predicate CanSend(d: Downlink) {
    |d.sent| - d.freed < d.total - 1
  }

  function Apply(d: Downlink, s: Step): Downlink {
    match s
    case ModemSend(page) => if CanSend(d) then d.(sent := d.sent + [page]) else d
    case ReadGet => if CanGet(d) then d.(got := d.got + 1) else d
    case ReadDone => if Held(d) == 1 then d.(freed := d.freed + 1) else d
    case ReadFlush => d.(got := |d.sent|, freed := |d.sent|)
  }

  function Run(d: Downlink, steps: seq<Step>): Downlink
    decreases |steps|
  {
    if steps == [] then d else Run(Apply(d, steps[0]), steps[1..])
  }

  /** The sequence numbers lent to the reader over a run, in order. */
  function Lent(d: Downlink, steps: seq<Step>): seq<nat>
    decreases |steps|
  {
    if steps == [] then []
    else (if steps[0].ReadGet? && CanGet(d) then [d.got] else []) + Lent(Apply(d, steps[0]), steps[1..])
  }

  /** Free, read and write keep their order in every run. */
  lemma {:induction false} RunKeepsOrder(d: Downlink, steps: seq<Step>)
    requires Inv(d)
    ensures Inv(Run(d, steps))
    ensures d.sent <= Run(d, steps).sent && d.got <= Run(d, steps).got
    decreases |steps|
  {
    if steps == [] {
    } else {
      RunKeepsOrder(Apply(d, steps[0]), steps[1..]);
    }
  }

  predicate Increasing(s: seq<nat>, lo: nat, hi: nat) {
    && (forall k :: 0 <= k < |s| ==> lo <= s[k] < hi)
    && (forall j, k :: 0 <= j < k < |s| ==> s[j] < s[k])
  }

  predicate Consecutive(s: seq<nat>, lo: nat, hi: nat) {
    |s| == hi - lo && forall k :: 0 <= k < |s| ==> s[k] == lo + k
  }

  lemma IncreasingCons(x: nat, s: seq<nat>, hi: nat)
    requires Increasing(s, x + 1, hi) && x < hi
    ensures Increasing([x] + s, x, hi)
  {
    var l := [x] + s;
    assert forall k :: 0 < k < |l| ==> l[k] == s[k - 1];
  }

  lemma ConsecutiveCons(x: nat, s: seq<nat>, hi: nat)
    requires Consecutive(s, x + 1, hi)
    ensures Consecutive([x] + s, x, hi)
  {
    var l := [x] + s;
    assert forall k :: 0 < k < |l| ==> l[k] == s[k - 1];
  }

  lemma LentFirst(d: Downlink, steps: seq<Step>)
    requires steps != []
    ensures Lent(d, steps) ==
              if steps[0].ReadGet? && CanGet(d) then [d.got] + Lent(Apply(d, steps[0]), steps[1..])
              else Lent(Apply(d, steps[0]), steps[1..])
  {
  }

  /** No page is lent twice or out of order in any run. */
  lemma {:induction false} LentInOrder(d: Downlink, steps: seq<Step>)
    requires Inv(d)
    ensures Increasing(Lent(d, steps), d.got, Run(d, steps).got)
    decreases |steps|
  {
    if steps == [] {
    } else {
      var w, rest := Apply(d, steps[0]), steps[1..];
      LentInOrder(w, rest);
      RunKeepsOrder(w, rest);
      LentFirst(d, steps);
      hide Lent;
      if steps[0].ReadGet? && CanGet(d) {
        IncreasingCons(d.got, Lent(w, rest), Run(w, rest).got);
      } else {
        assert d.got <= w.got;
      }
    }
  }

  /** Unless the ring is flushed no page is skipped either. */
  lemma {:induction false} LentWithoutGaps(d: Downlink, steps: seq<Step>)
    requires Inv(d) && ReadFlush !in steps
    ensures Consecutive(Lent(d, steps), d.got, Run(d, steps).got)
    decreases |steps|
  {
    if steps == [] {
    } else {
      var w, rest := Apply(d, steps[0]), steps[1..];
      LentWithoutGaps(w, rest);
      LentFirst(d, steps);
      hide Lent;
      if steps[0].ReadGet? && CanGet(d) {
        ConsecutiveCons(d.got, Lent(w, rest), Run(w, rest).got);
      }
    }
  }

  /** Once two pages are held no `read_done` frees anything, whatever happens short of a flush. */
  lemma {:induction false} TwoHeldIsStuck(d: Downlink, steps: seq<Step>)
    requires Inv(d) && Held(d) >= 2 && ReadFlush !in steps
    ensures Held(Run(d, steps)) >= 2 && Run(d, steps).freed == d.freed
    decreases |steps|
  {
    if steps == [] {
    } else {
      TwoHeldIsStuck(Apply(d, steps[0]), steps[1..]);
    }
  }

  /** Two pages sent, and both got. */
  const TWO_SENT_TWO_GOT: seq<Step> :=
    [ModemSend(Page(PAGE_STATUS_WRITE_DONE, 1)), ModemSend(Page(PAGE_STATUS_WRITE_DONE, 1)), ReadGet, ReadGet]

  lemma TwoGot(total: pos)
    requires total >= 3
    ensures Held(Run(Downlink(total, [], 0, 0), TWO_SENT_TWO_GOT)) == 2
  {
    var steps, page := TWO_SENT_TWO_GOT, Page(PAGE_STATUS_WRITE_DONE, 1);
    var d := Downlink(total, [], 0, 0);
    var d1 := Apply(d, steps[0]);
    var d2 := Apply(d1, steps[1]);
    assert d2.sent == [page, page];
    var d3 := Apply(d2, steps[2]);
    var d4 := Apply(d3, steps[3]);
    assert Held(d4) == 2;
    assert steps[1..][1..] == steps[2..] && steps[2..][1..] == steps[3..] && steps[3..][1..] == [];
    assert Run(d3, steps[3..]) == d4;
    assert Run(d2, steps[2..]) == d4;
    assert Run(d1, steps[1..]) == d4;
  }

  /** A reader can come to hold two pages, and so get stuck, exactly on rings of three pages or more. */
  lemma StuckExactlyFromThreePages(total: pos)
    requires total >= 2
    ensures (exists steps :: Held(Run(Downlink(total, [], 0, 0), steps)) >= 2) <==> total >= 3
  {
    if total >= 3 {
      TwoGot(total);
    } else {
      forall steps ensures Held(Run(Downlink(total, [], 0, 0), steps)) < 2 {
        RunKeepsOrder(Downlink(total, [], 0, 0), steps);
        RunKeepsTotal(Downlink(total, [], 0, 0), steps);
      }
    }
  }

  lemma {:induction false} RunKeepsTotal(d: Downlink, steps: seq<Step>)
    ensures Run(d, steps).total == d.total
    decreases |steps|
  {
    if steps == [] {
    } else {
      RunKeepsTotal(Apply(d, steps[0]), steps[1..]);
    }
  }

  // ---------- What is lent, freed and dropped ----------

  function Times(s: Step, n: nat): seq<Step> {
    if n == 0 then [] else [s] + Times(s, n - 1)
  }

  /** The modem finds room for exactly as many pages as are missing to one less than the total. */
  lemma {:induction false} SendsFillTheRing(d: Downlink, page: Page, n: nat)
    requires Inv(d)
    ensures var r := Run(d, Times(ModemSend(page), n));
            && r == d.(sent := r.sent) && d.sent <= r.sent
            && (forall k :: |d.sent| <= k < |r.sent| ==> r.sent[k] == page)
            && |r.sent| == if |d.sent| - d.freed + n <= d.total - 1 then |d.sent| + n else d.freed + d.total - 1
    decreases n
  {
    if n > 0 {
      assert Times(ModemSend(page), n)[1..] == Times(ModemSend(page), n - 1);
      SendsFillTheRing(Apply(d, ModemSend(page)), page, n - 1);
    }
  }

  function GetsAndDones(n: nat): seq<Step> {
    if n == 0 then [] else [ReadGet, ReadDone] + GetsAndDones(n - 1)
  }

  /** A reader that holds nothing can take all unread pages up to the first that is not written, one
      after the other, and give them back; at that page it stops. */
  lemma {:induction false} ReaderCatchesUp(d: Downlink, n: nat, written: nat)
    requires Inv(d) && d.got == d.freed <= written <= |d.sent|
    requires forall k :: d.got <= k < written ==> d.sent[k].status == PAGE_STATUS_WRITE_DONE
    requires written < |d.sent| ==> d.sent[written].status != PAGE_STATUS_WRITE_DONE
    ensures var r := Run(d, GetsAndDones(n));
            && r == d.(got := r.got, freed := r.got)
            && r.got == if d.got + n <= written then d.got + n else written
    decreases n
  {
    if n > 0 {
      var steps := GetsAndDones(n);
      var d1 := Apply(d, ReadGet);
      var d2 := Apply(d1, ReadDone);
      assert steps[1..] == [ReadDone] + GetsAndDones(n - 1) && steps[1..][1..] == GetsAndDones(n - 1);
      assert Run(d, steps) == Run(d1, steps[1..]) == Run(d2, GetsAndDones(n - 1));
      ReaderCatchesUp(d2, n - 1, written);
    }
  }

  /** Behind a flush nothing is unread or held, and nothing is lent before the modem sends again. */
  lemma {:induction false} FlushDropsEverything(d: Downlink, n: nat)
    requires Inv(d)
    ensures var r := Run(d, [ReadFlush]);
            && r.sent == d.sent && |r.sent| == r.got == r.freed
            && Run(r, Times(ReadGet, n)) == r && Lent(r, Times(ReadGet, n)) == []
    decreases n
  {
    var r := Apply(d, ReadFlush);
    assert [ReadFlush][1..] == [] && Run(d, [ReadFlush]) == r;
    if n > 0 {
      assert Times(ReadGet, n)[1..] == Times(ReadGet, n - 1);
      FlushDropsEverything(d, n - 1);
    }
  }

  /** A reader that gets only while holding nothing and is done only after a successful get. */
  predicate Alternates(d: Downlink, steps: seq<Step>, holding: bool)
    decreases |steps|
  {
    steps == [] ||
    match steps[0]
    case ModemSend(_) => Alternates(Apply(d, steps[0]), steps[1..], holding)
    case ReadGet => !holding && Alternates(Apply(d, ReadGet), steps[1..], CanGet(d))
    case ReadDone => holding && Alternates(Apply(d, ReadDone), steps[1..], false)
    case ReadFlush => Alternates(Apply(d, ReadFlush), steps[1..], false)
  }

  /** Such a reader never gets an index error from `read_done`. */
  lemma {:induction false} AlternatingReaderNeverFails(d: Downlink, steps: seq<Step>, holding: bool, k: nat)
    requires Inv(d) && Held(d) == (if holding then 1 else 0)
    requires Alternates(d, steps, holding)
    requires k < |steps| && steps[k] == ReadDone
    ensures Held(Run(d, steps[..k])) == 1
    decreases |steps|
  {
    if k == 0 {
    } else {
      var next := match steps[0]
        case ModemSend(_) => holding
        case ReadGet => CanGet(d)
        case ReadDone => false
        case ReadFlush => false;
      assert steps[..k][1..] == steps[1..][..k - 1];
      AlternatingReaderNeverFails(Apply(d, steps[0]), steps[1..], next, k - 1);
    }
  }

  // ---------- The shared ring ----------

  class DownlinkRing {
    var guardBandE: nat
    var freeIndex: nat
    var readIndex: nat
    var writeIndex: nat
    const total: nat
    const status: array<nat>
    const validLength: array<nat>

    ghost var d: Downlink

    ghost predicate Holds(k: nat)
      reads this, status, validLength
      requires total > 0 && k < |d.sent| && status.Length == total && validLength.Length == total
    {
      d.sent[k] == Page(status[Slot(k, total)], validLength[Slot(k, total)])
    }

    ghost predicate Valid()
      reads this, status, validLength
    {
      && Inv(d) && d.total == total
      && status.Length == total && validLength.Length == total && status != validLength
      && freeIndex == Slot(d.freed, total)
      && readIndex == Slot(d.got, total)
      && writeIndex == Slot(|d.sent|, total)
      && forall k :: d.freed <= k < |d.sent| ==> Holds(k)
    }

    constructor (pages: nat, oldStatus: array<nat>, oldLength: array<nat>)
      requires pages >= 2
      requires oldStatus.Length == pages && oldLength.Length == pages && oldStatus != oldLength
      ensures Valid() && d == Downlink(pages, [], 0, 0)
      ensures total == pages && status == oldStatus && validLength == oldLength
    {
      guardBandE := TAIL_MAGIC_AFTER;
      freeIndex, readIndex, writeIndex := 0, 0, 0;
      total, status, validLength := pages, oldStatus, oldLength;
      d := Downlink(pages, [], 0, 0);
    }

    /** Number of unread pages. */
    function Available(): (n: int)
      requires Valid()
      reads this, status, validLength
      ensures n == |d.sent| - d.got
    {
      SlotGap(d.got, |d.sent|, total);
      var available := writeIndex - readIndex;
      if available < 0 then available + total else available
    }

    /** Lends the page at the read index: its slot and valid length. */
    method ReadGet() returns (ret: int, slot: nat, length: nat)
      requires Valid()
      modifies this`readIndex, this`d
      ensures Valid()
      ensures d == if guardBandE == TAIL_MAGIC_AFTER then Apply(old(d), Step.ReadGet) else old(d)
      ensures ret == if guardBandE != TAIL_MAGIC_AFTER then EINVAL
                     else if old(d).got < |old(d).sent|
                             && old(d).sent[old(d).got].status == PAGE_STATUS_WRITE_DONE then 0
                     else if old(d).got < |old(d).sent| then EFAULT else EAGAIN
      ensures d == if ret == 0 then old(d).(got := old(d).got + 1) else old(d)
      ensures ret == 0 ==> slot == Slot(old(d).got, total) && length == old(d).sent[old(d).got].length
    {
      slot, length := 0, 0;
      if guardBandE != TAIL_MAGIC_AFTER {
        return EINVAL, slot, length;
      }
      var available := Available();
      if available != 0 {
        assert Holds(d.got);
        if status[readIndex] != PAGE_STATUS_WRITE_DONE {
          return EFAULT, slot, length;
        }
        slot, length := readIndex, validLength[readIndex];
        readIndex := if readIndex + 1 >= total then 0 else readIndex + 1;
      } else {
        return EAGAIN, slot, length;
      }
      d := Apply(d, Step.ReadGet);
      forall k | d.freed <= k < |d.sent| ensures Holds(k) {
        assert old(Holds(k));
      }
      ret := 0;
    }

    /** Hands the lent page back: it succeeds exactly when one page is held. */
    method ReadDone() returns (ret: int)
      requires Valid()
      modifies this`freeIndex, this`d
      ensures Valid()
      ensures d == if guardBandE == TAIL_MAGIC_AFTER then Apply(old(d), Step.ReadDone) else old(d)
      ensures ret == if guardBandE != TAIL_MAGIC_AFTER then EINVAL
                     else if old(d).got - old(d).freed == 1 then 0 else EFAULT
      ensures d == if ret == 0 then old(d).(freed := old(d).freed + 1) else old(d)
    {
      if guardBandE != TAIL_MAGIC_AFTER {
        return EINVAL;
      }
      SlotGap(d.freed, d.got, total);
      var freeIndexToBe := freeIndex + 1;
      if freeIndexToBe >= total {
        freeIndexToBe := 0;
      }
      if readIndex != freeIndexToBe {
        return EFAULT;
      }
      freeIndex := freeIndexToBe;
      d := Apply(d, Step.ReadDone);
      forall k | d.freed <= k < |d.sent| ensures Holds(k) {
        assert old(Holds(k));
      }
      ret := 0;
    }

    /** Drops everything unread; registering does the same. */
    method ReadFlush()
      requires Valid()
      modifies this`readIndex, this`freeIndex, this`d
      ensures Valid() && d == Apply(old(d), Step.ReadFlush)
      ensures d.sent == old(d).sent && d.got == d.freed == |d.sent|
    {
      readIndex := writeIndex;
      freeIndex := readIndex;
      d := Apply(d, Step.ReadFlush);
    }

    /** The modem's side: it fills the page at the write index while one is free. */
    method ModemSend(page: Page)
      requires Valid()
      modifies this`writeIndex, this`d, status, validLength
      ensures Valid() && d == Apply(old(d), Step.ModemSend(page))
      ensures d.sent == old(d).sent + if |old(d).sent| - old(d).freed < total - 1 then [page] else []
    {
      ghost var n := |d.sent|;
      var next := if writeIndex + 1 >= total then 0 else writeIndex + 1;
      SlotGap(d.freed, n, total);
      if next != freeIndex {
        status[writeIndex] := page.status;
        validLength[writeIndex] := page.length;
        writeIndex := next;
        d := Apply(d, Step.ModemSend(page));
        forall k | d.freed <= k < |d.sent| ensures Holds(k) {
          if k < n {
            assert old(Holds(k));
            SlotGap(k, n, total);
          }
        }
      }
    }
  }
}
