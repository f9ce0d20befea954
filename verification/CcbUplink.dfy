/** The uplink page ring of a CCB buffer (ccci/ccci_lib.c).

    The application processor allocates pages, completes them in any order and publishes
    them; the modem consumes published pages and frees them.  `Uplink` is the protocol seen
    as a log of allocations, without slots or wrap-around; `UplinkRing` is the shared header
    and page memory the C code updates in place. */
module CcbUplink {
  import opened Common
  import opened CcbHeader
  import opened RingIndex

  // ---------- The protocol as a log of allocations ----------

  /** One allocation: the page handed out and, once completed, the length written. */
  datatype Ticket = Ticket(page: nat, length: Option<nat>)

  /** What the modem takes from the ring: a page and the number of valid bytes in it. */
  datatype Delivery = Delivery(page: nat, length: nat)

  /** `log` holds every allocation still standing; tickets below `read` were taken by the
      modem and those below `freed` were given back. */
  datatype Uplink = Uplink(total: pos, log: seq<Ticket>, read: nat, freed: nat)

  datatype Step =
    | Alloc
    | Done(page: nat, length: nat)
    | ModemRead
    | ModemFree
    | Reregister

  /** The first position from `k` on whose ticket is not completed. */
  function FirstOpen(log: seq<Ticket>, k: nat): (n: nat)
    requires k <= |log|
    ensures k <= n <= |log|
    ensures forall i :: k <= i < n ==> log[i].length.Some?
    ensures n < |log| ==> log[n].length.None?
    decreases |log| - k
  {
    if k < |log| && log[k].length.Some? then FirstOpen(log, k + 1) else k
  }

  /** Length of the longest completed prefix of the allocation log. */
  function Published(log: seq<Ticket>): (n: nat)
    ensures n <= |log|
    ensures forall k :: 0 <= k < n ==> log[k].length.Some?
    ensures n < |log| ==> log[n].length.None?
  {
    FirstOpen(log, 0)
  }

  predicate Pending(log: seq<Ticket>, k: nat, page: nat) {
    k < |log| && log[k].page == page && log[k].length.None?
  }

  /** An unfinished allocation of `page` among the first `n`, if there is one. */
  function FindPending(log: seq<Ticket>, page: nat, n: nat): (r: Option<nat>)
    requires n <= |log|
    ensures r.Some? ==> r.value < n && Pending(log, r.value, page)
    ensures r.None? ==> forall k :: 0 <= k < n ==> !Pending(log, k, page)
  {
    if n == 0 then None
    else if Pending(log, n - 1, page) then Some(n - 1)
    else FindPending(log, page, n - 1)
  }

  function Init(total: pos): Uplink {
    Uplink(total, [], 0, 0)
  }

  predicate HasRoom(u: Uplink) {
    |u.log| - u.freed < u.total - 1
  }

  function AfterAlloc(u: Uplink): Uplink {
    if HasRoom(u) then u.(log := u.log + [Ticket(Slot(|u.log|, u.total), None)]) else u
  }

  function AfterDone(u: Uplink, page: nat, length: nat): Uplink {
    var k := FindPending(u.log, page, |u.log|);
    if k.None? then u else u.(log := u.log[k.value := Ticket(page, Some(length))])
  }

  function Apply(u: Uplink, s: Step): Uplink {
    match s
    case Alloc => AfterAlloc(u)
    case Done(page, length) => AfterDone(u, page, length)
    case ModemRead => if u.read < Published(u.log) then u.(read := u.read + 1) else u
    case ModemFree => if u.freed < u.read then u.(freed := u.freed + 1) else u
    case Reregister => u.(log := u.log[..Published(u.log)])
  }

  function Run(u: Uplink, steps: seq<Step>): Uplink
    decreases |steps|
  {
    if steps == [] then u else Run(Apply(u, steps[0]), steps[1..])
  }

  /** Fewer than `total` pages are outstanding and the three cursors keep their order. */
  ghost predicate Inv(u: Uplink) {
    && u.total >= 2
    && u.freed <= u.read <= Published(u.log)
    && |u.log| < u.freed + u.total
    && forall k {:trigger u.log[k]} :: 0 <= k < |u.log| ==> u.log[k].page == Slot(k, u.total)
  }

  lemma PublishedIsLongest(log: seq<Ticket>, n: nat)
    requires n <= |log| && forall k :: 0 <= k < n ==> log[k].length.Some?
    ensures n <= Published(log)
    ensures n < |log| && log[n].length.None? ==> n == Published(log)
  {
  }

  /** Appending, completing and truncating leave every published ticket as it was. */
  lemma PublishedIsStable(u: Uplink, s: Step)
    requires Inv(u)
    ensures Published(u.log) <= Published(Apply(u, s).log)
    ensures Apply(u, s).log[..Published(u.log)] == u.log[..Published(u.log)]
  {
    PublishedIsLongest(Apply(u, s).log, Published(u.log));
  }

  lemma StepKeepsInv(u: Uplink, s: Step)
    requires Inv(u)
    ensures Inv(Apply(u, s))
  {
    PublishedIsStable(u, s);
  }

  /** The finished tickets at the front of the log, as the modem would receive them. */
  function Deliveries(log: seq<Ticket>, n: nat): (r: seq<Delivery>)
    requires n <= Published(log)
    ensures |r| == n
    ensures forall k :: 0 <= k < n ==> r[k] == Delivery(log[k].page, log[k].length.value)
  {
    if n == 0 then [] else Deliveries(log, n - 1) + [Delivery(log[n - 1].page, log[n - 1].length.value)]
  }

  /** What the modem receives in one step. */
  function SeenIn(u: Uplink, s: Step): seq<Delivery> {
    if s.ModemRead? && u.read < Published(u.log)
    then [Delivery(u.log[u.read].page, u.log[u.read].length.value)] else []
  }

  /** What the modem receives over a run, in the order it receives it. */
  function Seen(u: Uplink, steps: seq<Step>): seq<Delivery>
    decreases |steps|
  {
    if steps == [] then [] else SeenIn(u, steps[0]) + Seen(Apply(u, steps[0]), steps[1..])
  }

  lemma SeenInOneStep(u: Uplink, s: Step)
    requires Inv(u)
    ensures Inv(Apply(u, s))
    ensures Deliveries(u.log, u.read) + SeenIn(u, s) == Deliveries(Apply(u, s).log, Apply(u, s).read)
  {
    StepKeepsInv(u, s);
    PublishedIsStable(u, s);
    if s.ModemRead? {
      assert Apply(u, s).log == u.log;
    } else {
      DeliveriesAgree(u.log, Apply(u, s).log, u.read, Published(u.log));
    }
  }

  lemma DeliveriesAgree(log: seq<Ticket>, later: seq<Ticket>, n: nat, p: nat)
    requires n <= p <= Published(log) && p <= Published(later) && later[..p] == log[..p]
    ensures Deliveries(later, n) == Deliveries(log, n)
  {
    assert forall k :: 0 <= k < n ==> later[k] == later[..p][k] == log[k];
  }

  lemma {:induction false} SeenFrom(u: Uplink, steps: seq<Step>)
    requires Inv(u)
    ensures Inv(Run(u, steps))
    ensures Deliveries(u.log, u.read) + Seen(u, steps) == Deliveries(Run(u, steps).log, Run(u, steps).read)
    decreases |steps|
  {
    hide Apply, SeenIn;
    if steps == [] {
    } else {
      var w, rest := Apply(u, steps[0]), steps[1..];
      SeenInOneStep(u, steps[0]);
      SeenFrom(w, rest);
      var before, now, later := Deliveries(u.log, u.read), SeenIn(u, steps[0]), Seen(w, rest);
      assert before + (now + later) == (before + now) + later;
    }
  }

  /** Over every interleaving of allocations, completions in any order, modem reads and frees
      and re-registrations, what the modem received is the start of the allocation log: each
      page once, in allocation order, with the length it was completed with. */
  lemma ModemSeesAllocationOrder(total: nat, steps: seq<Step>)
    requires total >= 2
    ensures var v := Run(Init(total), steps);
            && Inv(v)
            && Seen(Init(total), steps) == Deliveries(v.log, v.read)
            && forall k :: 0 <= k < v.read ==> Seen(Init(total), steps)[k].page == Slot(k, total)
  {
    SeenFrom(Init(total), steps);
    assert Deliveries([], 0) + Seen(Init(total), steps) == Seen(Init(total), steps);
    RunKeepsTotal(Init(total), steps);
  }

  lemma RunKeepsTotal(u: Uplink, steps: seq<Step>)
    ensures Run(u, steps).total == u.total
    decreases |steps|
  {
  }

  /** A page that is granted is none of those allocated, published or read but not yet freed. */
  lemma {:induction false} GrantIsExclusive(u: Uplink, k: nat)
    requires Inv(u) && u.freed <= k < |u.log| < u.freed + u.total - 1
    ensures |Apply(u, Alloc).log| == |u.log| + 1 && Apply(u, Alloc).log[|u.log|].page != u.log[k].page
  {
    SlotGap(k, |u.log|, u.total);
  }

  /** At most one allocation of a page is unfinished, so completing it is unambiguous. */
  lemma PendingIsUnique(u: Uplink, page: nat, j: nat, k: nat)
    requires Inv(u) && Pending(u.log, j, page) && Pending(u.log, k, page)
    ensures j == k
  {
    if j < k {
      SlotGap(j, k, u.total);
    } else if k < j {
      SlotGap(k, j, u.total);
    }
  }

  /** A grant publishes nothing. */
  lemma GrantPublishesNothing(u: Uplink)
    requires Inv(u)
    ensures Inv(AfterAlloc(u)) && Published(AfterAlloc(u).log) == Published(u.log)
  {
    StepKeepsInv(u, Alloc);
    PublishedIsStable(u, Alloc);
    PublishedIsLongest(AfterAlloc(u).log, Published(u.log));
  }

  /** Completing a page fills in its one pending ticket and nothing else. */
  lemma DoneEffect(u: Uplink, page: nat, length: nat)
    requires Inv(u)
    ensures var w := AfterDone(u, page, length);
            && Inv(w) && |w.log| == |u.log| && w.read == u.read && w.freed == u.freed && w.total == u.total
            && forall k :: 0 <= k < |u.log| ==>
                 w.log[k] == if Pending(u.log, k, page) then Ticket(page, Some(length)) else u.log[k]
  {
    StepKeepsInv(u, Done(page, length));
    forall j, k | Pending(u.log, j, page) && Pending(u.log, k, page) ensures j == k {
      PendingIsUnique(u, page, j, k);
    }
  }

  function Times(s: Step, n: nat): seq<Step> {
    if n == 0 then [] else [s] + Times(s, n - 1)
  }

  /** Exactly as many further pages are granted as are missing to one less than the total; the modem
      has no part in it. */
  lemma {:induction false} GrantsFillTheRing(u: Uplink, n: nat)
    requires Inv(u)
    ensures var r := Run(u, Times(Alloc, n));
            && u.log <= r.log && r.read == u.read && r.freed == u.freed
            && |r.log| == if |u.log| - u.freed + n <= u.total - 1 then |u.log| + n else u.freed + u.total - 1
    decreases n
  {
    if n > 0 {
      StepKeepsInv(u, Alloc);
      assert Times(Alloc, n)[1..] == Times(Alloc, n - 1);
      GrantsFillTheRing(Apply(u, Alloc), n - 1);
    }
  }

  /** The modem can take every published page, and no other. */
  lemma {:induction false} ModemTakesThePublished(u: Uplink, n: nat)
    requires Inv(u)
    ensures var r := Run(u, Times(ModemRead, n));
            && r == u.(read := r.read)
            && r.read == if u.read + n <= Published(u.log) then u.read + n else Published(u.log)
    decreases n
  {
    if n > 0 {
      StepKeepsInv(u, ModemRead);
      assert Times(ModemRead, n)[1..] == Times(ModemRead, n - 1);
      ModemTakesThePublished(Apply(u, ModemRead), n - 1);
    }
  }

  /** It can free every page it has taken, and no other; each makes room for one grant. */
  lemma {:induction false} ModemFreesTheTaken(u: Uplink, n: nat)
    requires Inv(u)
    ensures var r := Run(u, Times(ModemFree, n));
            r == u.(freed := r.freed) && r.freed == if u.freed + n <= u.read then u.freed + n else u.read
    decreases n
  {
    if n > 0 {
      StepKeepsInv(u, ModemFree);
      assert Times(ModemFree, n)[1..] == Times(ModemFree, n - 1);
      ModemFreesTheTaken(Apply(u, ModemFree), n - 1);
    }
  }

  /** Registering again leaves exactly the published pages. */
  lemma ReregisterKeepsThePublished(u: Uplink)
    requires Inv(u)
    ensures Apply(u, Reregister) == u.(log := u.log[..Published(u.log)])
    ensures Published(Apply(u, Reregister).log) == |Apply(u, Reregister).log| == Published(u.log)
  {
    PublishedIsStable(u, Reregister);
  }

  // ---------- The shared ring ----------

  const PAGE_STATUS_ALLOC: nat := 0x11111111
  const HEADER_MAGIC_AFTER: nat := 0xDDBBCCAA
  const PAGE_HEADER_BYTES: nat := 8

  class UplinkRing {
    // buffer_header
    var guardBand: nat
    var guardBandE: nat
    var allocateIndex: nat
    var freeIndex: nat
    var readIndex: nat
    var writeIndex: nat
    const pageSize: nat
    // the pages: one page_header per slot, at base + pageSize * slot
    const base: nat
    const total: nat
    const status: array<nat>
    const validLength: array<nat>

    ghost var u: Uplink

    /** The page memory agrees with a ticket. */
    ghost predicate Holds(t: Ticket)
      reads status, validLength
    {
      && t.page < status.Length && t.page < validLength.Length
      && match t.length
         case None => status[t.page] == PAGE_STATUS_ALLOC
         case Some(n) => status[t.page] == PAGE_STATUS_WRITE_DONE && validLength[t.page] == n
    }

    /** Everything but the write index, which lags while completed pages are being published. */
    ghost predicate Agrees()
      reads this, status, validLength
    {
      && Inv(u) && u.total == total
      && pageSize > PAGE_HEADER_BYTES
      && status.Length == total && validLength.Length == total && status != validLength
      && allocateIndex == Slot(|u.log|, total)
      && readIndex == Slot(u.read, total)
      && freeIndex == Slot(u.freed, total)
      && forall k :: u.freed <= k < |u.log| ==> Holds(u.log[k])
    }

    ghost predicate Valid()
      reads this, status, validLength
    {
      Agrees() && writeIndex == Slot(Published(u.log), total)
    }

    predicate Ready()
      reads this
    {
      guardBand == HEADER_MAGIC_AFTER && guardBandE == TAIL_MAGIC_AFTER
    }

    /** Address of the data part of a page. */
    function PageBuffer(slot: nat): nat {
      base + pageSize * slot + PAGE_HEADER_BYTES
    }

    lemma PageBufferInjective(i: nat, j: nat)
      requires pageSize > 0 && PageBuffer(i) == PageBuffer(j)
      ensures i == j
    {
      assert pageSize * (i - j) == pageSize * i - pageSize * j;
    }

    /** The slot whose data part starts at `address`. */
    ghost function SlotOf(address: nat): Option<nat> {
      if exists i: nat :: i < total && PageBuffer(i) == address
      then var i: nat :| i < total && PageBuffer(i) == address; Some(i) else None
    }

    /** A freshly initialised header; the page memory holds whatever was there before. */
    constructor (pages: nat, size: nat, address: nat, oldStatus: array<nat>, oldLength: array<nat>)
      requires pages >= 2 && size > PAGE_HEADER_BYTES
      requires oldStatus.Length == pages && oldLength.Length == pages && oldStatus != oldLength
      ensures Valid() && u == Init(pages) && fresh(this)
      ensures total == pages && pageSize == size && base == address && status == oldStatus && validLength == oldLength
      ensures !Ready()
    {
      guardBand, guardBandE := 0, TAIL_MAGIC_AFTER;
      allocateIndex, freeIndex, readIndex, writeIndex := 0, 0, 0, 0;
      pageSize, base, total := size, address, pages;
      status, validLength := oldStatus, oldLength;
      u := Init(pages);
    }

    /** The three-case count of free pages. */
    function Available(): (n: int)
      requires Valid()
      reads this, status, validLength
      ensures n == total - 1 - (|u.log| - u.freed)
    {
      SlotGap(u.freed, |u.log|, total);
      if allocateIndex == freeIndex then total - 1
      else if allocateIndex > freeIndex then total - allocateIndex + freeIndex - 1
      else freeIndex - allocateIndex - 1
    }

    method WriteAlloc() returns (page: Option<nat>)
      requires Valid()
      modifies this`allocateIndex, this`u, status
      ensures Valid()
      ensures page.Some? <==> guardBand == HEADER_MAGIC_AFTER && guardBandE == TAIL_MAGIC_AFTER
                              && |old(u).log| - old(u).freed < total - 1
      ensures page.Some? ==> page.value == base + pageSize * Slot(|old(u).log|, total) + PAGE_HEADER_BYTES
      ensures u == if page.Some? then old(u).(log := old(u).log + [Ticket(Slot(|old(u).log|, total), None)])
                   else old(u)
      ensures status[..] == if page.Some? then old(status[..])[Slot(|old(u).log|, total) := PAGE_STATUS_ALLOC]
                            else old(status[..])
    {
      if guardBand != HEADER_MAGIC_AFTER || guardBandE != TAIL_MAGIC_AFTER {
        return None;
      }
      var available := Available();
      page := None;
      if available != 0 {
        page := Some(PageBuffer(allocateIndex));
        status[allocateIndex] := PAGE_STATUS_ALLOC;
        if allocateIndex + 1 >= total {
          allocateIndex := 0;
        } else {
          allocateIndex := allocateIndex + 1;
        }
        GrantPublishesNothing(u);
        u := AfterAlloc(u);
        forall k | u.freed <= k < |u.log| ensures Holds(u.log[k]) {
          if k < |u.log| - 1 {
            assert u.log[k] == old(u.log[k]) && old(Holds(u.log[k]));
            GrantIsExclusive(old(u), k);
          }
        }
        assert Inv(u);
      }
    }

    /** The pages a completion is accepted for. */
    ghost predicate Accepts(address: nat, length: nat)
      reads this, status
      requires status.Length == total
    {
      && Ready() && length <= pageSize
      && SlotOf(address).Some? && status[SlotOf(address).value] == PAGE_STATUS_ALLOC
    }

    /** These are the allocated pages whose data part begins there, when both sides are ready. */
    lemma AcceptedPages(address: nat, length: nat)
      requires Valid()
      ensures Accepts(address, length) <==>
                && guardBand == HEADER_MAGIC_AFTER && guardBandE == TAIL_MAGIC_AFTER && length <= pageSize
                && exists i :: 0 <= i < total && status[i] == PAGE_STATUS_ALLOC
                               && base + pageSize * i + PAGE_HEADER_BYTES == address
    {
      if i :| 0 <= i < total && status[i] == PAGE_STATUS_ALLOC
              && base + pageSize * i + PAGE_HEADER_BYTES == address
      {
        assert PageBuffer(i) == address;
        PageBufferInjective(i, SlotOf(address).value);
      }
    }

    /** Completes the page at `address` and publishes every page the write index can now pass. */
    method WriteDone(address: nat, length: nat, notify: int) returns (ret: int)
      requires Valid()
      modifies this`writeIndex, this`u, status, validLength
      ensures Valid()
      ensures ret == if old(Accepts(address, length)) then notify else EINVAL
      ensures u == if old(Accepts(address, length)) then AfterDone(old(u), SlotOf(address).value, length) else old(u)
      ensures status[..] == if old(Accepts(address, length))
                            then old(status[..])[SlotOf(address).value := PAGE_STATUS_WRITE_DONE] else old(status[..])
      ensures validLength[..] == if old(Accepts(address, length))
                                 then old(validLength[..])[SlotOf(address).value := length] else old(validLength[..])
      ensures writeIndex == allocateIndex || status[writeIndex] == PAGE_STATUS_ALLOC
    {
      ret := EINVAL;
      if guardBand == HEADER_MAGIC_AFTER && guardBandE == TAIL_MAGIC_AFTER && length <= pageSize {
        var i := FindSlot(address);
        if i < total && status[i] == PAGE_STATUS_ALLOC {
          Complete(i, length);
          Publish(Published(old(u.log)));
          ret := notify;
        }
      }
      PublicationIsUpToDate();
    }

    /** Marks a page finished in the page memory and in the log. */
    method Complete(slot: nat, length: nat)
      requires Valid() && slot < total && status[slot] == PAGE_STATUS_ALLOC
      modifies this`u, status, validLength
      ensures Agrees() && u == AfterDone(old(u), slot, length)
      ensures status[..] == old(status[..])[slot := PAGE_STATUS_WRITE_DONE]
      ensures validLength[..] == old(validLength[..])[slot := length]
      ensures Published(old(u.log)) <= Published(u.log)
    {
      PublishedIsStable(u, Done(slot, length));
      DoneEffect(u, slot, length);
      assert forall k :: u.freed <= k < |u.log| ==> old(Holds(u.log[k]));
      status[slot] := PAGE_STATUS_WRITE_DONE;
      validLength[slot] := length;
      u := AfterDone(u, slot, length);
    }

    /** A ring whose pages are all published, or whose next page to publish is unfinished. */
    lemma PublicationIsUpToDate()
      requires Valid()
      ensures writeIndex == allocateIndex || status[writeIndex] == PAGE_STATUS_ALLOC
    {
      var p := Published(u.log);
      assert p < |u.log| ==> Holds(u.log[p]);
    }

    method FindSlot(address: nat) returns (i: nat)
      requires pageSize > 0
      ensures if SlotOf(address).Some? then i == SlotOf(address).value else i == total
    {
      i := 0;
      while i < total && PageBuffer(i) != address
        invariant i <= total
        invariant forall j :: 0 <= j < i ==> PageBuffer(j) != address
      {
        i := i + 1;
      }
      if i < total {
        PageBufferInjective(i, SlotOf(address).value);
      }
    }

    method Publish(ghost from: nat)
      requires Agrees() && u.freed <= from <= Published(u.log) && writeIndex == Slot(from, total)
      modifies this`writeIndex
      ensures Valid()
    {
      ghost var p := from;
      var i := writeIndex;
      while i != allocateIndex
        invariant from <= p <= Published(u.log)
        invariant Agrees() && i == writeIndex == Slot(p, total)
        invariant p == |u.log| ==> i == allocateIndex
        decreases |u.log| - p
      {
        assert Holds(u.log[p]);
        if status[i] == PAGE_STATUS_WRITE_DONE {
          if writeIndex + 1 >= total { writeIndex := 0; } else { writeIndex := writeIndex + 1; }
        } else {
          break;
        }
        i := i + 1;
        if i >= total { i := 0; }
        p := p + 1;
      }
      SlotGap(p, |u.log|, total);
    }

    /** Registering again makes the allocate index fall back on the write index. */
    method Reregister()
      requires Valid()
      modifies this`allocateIndex, this`guardBandE, this`u
      ensures Valid() && u == Apply(old(u), Step.Reregister)
      ensures allocateIndex == writeIndex && guardBandE == TAIL_MAGIC_AFTER
    {
      allocateIndex := writeIndex;
      guardBandE := TAIL_MAGIC_AFTER;
      PublishedIsStable(u, Step.Reregister);
      StepKeepsInv(u, Step.Reregister);
      assert forall k :: u.freed <= k < Published(u.log) ==> old(Holds(u.log[k]));
      u := Apply(u, Step.Reregister);
    }

    /** The modem has come up: it marks the header. */
    method ModemReady()
      requires Valid()
      modifies this`guardBand
      ensures Valid() && u == old(u) && guardBand == HEADER_MAGIC_AFTER
    {
      guardBand := HEADER_MAGIC_AFTER;
    }

    /** The modem's side: it moves only its own two indices, and only up to the next one. */
    method ModemTake() returns (d: seq<Delivery>)
      requires Valid()
      modifies this`readIndex, this`u
      ensures Valid() && u == Apply(old(u), ModemRead) && d == SeenIn(old(u), ModemRead)
    {
      d := [];
      SlotGap(u.read, Published(u.log), total);
      if readIndex != writeIndex {
        assert Holds(u.log[u.read]);
        d := [Delivery(readIndex, validLength[readIndex])];
        readIndex := if readIndex + 1 >= total then 0 else readIndex + 1;
      }
      u := Apply(u, ModemRead);
    }

    method ModemGiveBack()
      requires Valid()
      modifies this`freeIndex, this`u
      ensures Valid() && u == Apply(old(u), ModemFree)
    {
      hide Published, FindPending;
      SlotGap(u.freed, u.read, total);
      if freeIndex != readIndex {
        freeIndex := if freeIndex + 1 >= total then 0 else freeIndex + 1;
      }
      assert forall k :: u.freed <= k < |u.log| ==> old(Holds(u.log[k]));
      u := Apply(u, ModemFree);
    }
  }
}
