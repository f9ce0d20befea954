/** The message rings of the NFC tasks (nfc/mtk_nfc_sys.c): three rings of 128 message pointers,
    each under its own mutex and condition variable, behave as three bounded queues. */
module NfcRing {
  import opened Common

  const MSG_RING_SIZE := 128
  const RINGS := 3

  /** A message pointer that is not null. */
  type Msg = nat

  /** `Socket` is the peer process; messages to it do not go through a ring. */
  datatype Task = Main | Service | AospHal | Socket | OtherTask(id: int)

  function RingOf(task: Task): (r: Option<nat>)
    ensures r.Some? ==> r.value < RINGS
  {
    match task
    case Main => Some(0)
    case Service => Some(1)
    case AospHal => Some(2)
    case Socket => None
    case OtherTask(_) => None
  }

  /** Three tasks have a ring, each its own, and no other task has one. */
  lemma OneRingEach(a: Task, b: Task)
    ensures RingOf(a).Some? <==> a in {Main, Service, AospHal}
    ensures RingOf(a).Some? && RingOf(a) == RingOf(b) ==> a == b
  {
  }

  // ---------- Three bounded queues ----------

  /** What waits in each ring, and all messages a ring ever accepted and ever gave out. */
  datatype Queues = Queues(waiting: seq<seq<Msg>>, accepted: seq<seq<Msg>>, received: seq<seq<Msg>>)
  {
    predicate Shaped() { |waiting| == |accepted| == |received| == RINGS }
  }

  /** One critical section of some thread: it puts a message into a ring or takes one out. */
  datatype Step = Put(ring: nat, msg: Msg) | Take(ring: nat)

  function Apply(q: Queues, s: Step): (r: Queues)
    requires q.Shaped()
    ensures r.Shaped()
  {
    match s
    case Put(ring, msg) =>
      if ring < RINGS && |q.waiting[ring]| < MSG_RING_SIZE then
        q.(waiting := q.waiting[ring := q.waiting[ring] + [msg]],
           accepted := q.accepted[ring := q.accepted[ring] + [msg]])
      else q
    case Take(ring) =>
      if ring < RINGS && q.waiting[ring] != [] then
        q.(waiting := q.waiting[ring := q.waiting[ring][1..]],
           received := q.received[ring := q.received[ring] + [q.waiting[ring][0]]])
      else q
  }

  function Run(q: Queues, steps: seq<Step>): (r: Queues)
    requires q.Shaped()
    ensures r.Shaped()
    decreases |steps|
  {
    if steps == [] then q else Apply(Run(q, steps[..|steps| - 1]), steps[|steps| - 1])
  }

  const EMPTY := Queues([[], [], []], [[], [], []], [[], [], []])

  predicate Conserved(q: Queues, ring: nat)
    requires q.Shaped() && ring < RINGS
  {
    q.received[ring] + q.waiting[ring] == q.accepted[ring] && |q.waiting[ring]| <= MSG_RING_SIZE
  }

  lemma StepConserves(q: Queues, s: Step, ring: nat)
    requires q.Shaped() && ring < RINGS && Conserved(q, ring)
    ensures Conserved(Apply(q, s), ring)
  {
    var r := Apply(q, s);
    if s == Take(ring) && q.waiting[ring] != [] {
      assert q.waiting[ring] == [q.waiting[ring][0]] + q.waiting[ring][1..];
    } else if s.Put? && s.ring == ring {
      assert q.received[ring] + (q.waiting[ring] + [s.msg]) == q.received[ring] + q.waiting[ring] + [s.msg];
    }
  }

  /** For every interleaving of senders and receivers: what a ring gave out, followed by what it
      still holds, is what it accepted.  Nothing is lost, doubled or reordered. */
  lemma {:induction false} RingIsQueue(steps: seq<Step>, ring: nat)
    requires ring < RINGS
    ensures Conserved(Run(EMPTY, steps), ring)
    decreases |steps|
  {
    if steps == [] {
    } else {
      RingIsQueue(steps[..|steps| - 1], ring);
      StepConserves(Run(EMPTY, steps[..|steps| - 1]), steps[|steps| - 1], ring);
    }
  }

  lemma RunSnoc(q: Queues, steps: seq<Step>, s: Step)
    requires q.Shaped()
    ensures Run(q, steps + [s]) == Apply(Run(q, steps), s)
  {
    assert (steps + [s])[..|steps|] == steps;
  }

  function Puts(ring: nat, msgs: seq<Msg>): seq<Step> {
    if msgs == [] then [] else Puts(ring, msgs[..|msgs| - 1]) + [Put(ring, msgs[|msgs| - 1])]
  }

  function Takes(ring: nat, n: nat): seq<Step> {
    if n == 0 then [] else Takes(ring, n - 1) + [Take(ring)]
  }

  /** Into an empty ring go the first 128 messages, whatever is in the others. */
  lemma {:induction false} RingFills(q: Queues, ring: nat, msgs: seq<Msg>)
    requires q.Shaped() && ring < RINGS && q.waiting[ring] == []
    ensures var r := Run(q, Puts(ring, msgs));
            && r.waiting[ring] == (if |msgs| <= 128 then msgs else msgs[..128])
            && r.accepted[ring] == q.accepted[ring] + r.waiting[ring] && r.received == q.received
  {
    if msgs == [] {
      assert q.accepted[ring] + [] == q.accepted[ring];
    } else {
      var front, last := msgs[..|msgs| - 1], msgs[|msgs| - 1];
      RingFills(q, ring, front);
      RunSnoc(q, Puts(ring, front), Put(ring, last));
      assert msgs == front + [last];
      var before := Run(q, Puts(ring, front)).waiting[ring];
      assert q.accepted[ring] + (before + [last]) == q.accepted[ring] + before + [last];
      assert |msgs| > 129 ==> front[..128] == msgs[..128];
    }
  }

  /** Out of a ring come all its messages, oldest first. */
  lemma {:induction false} RingDrains(q: Queues, ring: nat, n: nat)
    requires q.Shaped() && ring < RINGS && n <= |q.waiting[ring]|
    ensures var r := Run(q, Takes(ring, n));
            && r.received[ring] == q.received[ring] + q.waiting[ring][..n]
            && r.waiting[ring] == q.waiting[ring][n..] && r.accepted == q.accepted
  {
    hide Run, Apply;
    var w := q.waiting[ring];
    if n == 0 {
      RunNothing(q);
      assert w[..0] == [] && w[0..] == w && q.received[ring] + [] == q.received[ring];
    } else {
      RingDrains(q, ring, n - 1);
      RunSnoc(q, Takes(ring, n - 1), Take(ring));
      TakenOldest(Run(q, Takes(ring, n - 1)), ring);
      OneMoreOf(q.received[ring], w, n - 1);
    }
  }

  lemma RunNothing(q: Queues)
    requires q.Shaped()
    ensures Run(q, []) == q
  {
  }

  lemma TakenOldest(q: Queues, ring: nat)
    requires q.Shaped() && ring < RINGS && q.waiting[ring] != []
    ensures var r := Apply(q, Take(ring));
            && r.received[ring] == q.received[ring] + [q.waiting[ring][0]]
            && r.waiting[ring] == q.waiting[ring][1..] && r.accepted == q.accepted
  {
  }

  lemma OneMoreOf<T>(before: seq<T>, w: seq<T>, n: nat)
    requires n < |w|
    ensures (before + w[..n]) + [w[n..][0]] == before + w[..n + 1] && w[n..][1..] == w[n + 1..]
  {
  }

  /** The steps on one ring. */
  function Only(ring: nat, steps: seq<Step>): seq<Step> {
    if steps == [] then []
    else Only(ring, steps[..|steps| - 1]) + if steps[|steps| - 1].ring == ring then [steps[|steps| - 1]] else []
  }

  predicate SameRing(a: Queues, b: Queues, ring: nat)
    requires a.Shaped() && b.Shaped() && ring < RINGS
  {
    a.waiting[ring] == b.waiting[ring] && a.accepted[ring] == b.accepted[ring] && a.received[ring] == b.received[ring]
  }

  /** A ring is in the state it would be in if the other rings were never used. */
  lemma {:induction false} RingsDoNotInterfere(q: Queues, steps: seq<Step>, ring: nat)
    requires q.Shaped() && ring < RINGS
    ensures SameRing(Run(q, steps), Run(q, Only(ring, steps)), ring)
    decreases |steps|
  {
    if steps == [] {
    } else {
      var before, s := steps[..|steps| - 1], steps[|steps| - 1];
      RingsDoNotInterfere(q, before, ring);
      if s.ring == ring {
        RunSnoc(q, Only(ring, before), s);
      } else {
        assert Only(ring, steps) == Only(ring, before);
      }
    }
  }

  // ---------- One ring ----------

  /** The slot `i` places behind `from`. */
  function Wrap(from: nat, i: nat): nat {
    if from + i < MSG_RING_SIZE then from + i else from + i - MSG_RING_SIZE
  }

  class MsgRing {
    const buffer: array<Option<Msg>>
    var nextWrite: nat
    var nextRead: nat
    var cnt: int
    ghost var queue: seq<Msg>

    /** `cnt` is the wrapped distance of the pointers and the slots between them hold the queue. */
    ghost predicate Valid()
      reads this, buffer
    {
      && buffer.Length == MSG_RING_SIZE
      && nextWrite < MSG_RING_SIZE && nextRead < MSG_RING_SIZE
      && cnt == |queue| <= MSG_RING_SIZE
      && nextWrite == Wrap(nextRead, |queue|)
      && forall i :: 0 <= i < |queue| ==> buffer[Wrap(nextRead, i)] == Some(queue[i])
    }

    constructor ()
      ensures Valid() && fresh(buffer) && queue == []
    {
      buffer := new Option<Msg>[MSG_RING_SIZE](i => None);
      nextWrite, nextRead, cnt, queue := 0, 0, 0, [];
    }

    method PutMsg(msg: Msg) returns (ok: bool)
      requires Valid()
      modifies this, buffer
      ensures Valid() && ok == (|old(queue)| < MSG_RING_SIZE)
      ensures queue == if ok then old(queue) + [msg] else old(queue)
    {
      if cnt == MSG_RING_SIZE {
        return false;
      }
      buffer[nextWrite] := Some(msg);
      nextWrite := nextWrite + 1;
      if nextWrite > MSG_RING_SIZE - 1 {
        nextWrite := 0;
      }
      cnt := cnt + 1;
      queue := queue + [msg];
      ok := true;
    }

    /** The slot read is never null when there is a message. */
    method TakeMsg() returns (msg: Option<Msg>)
      requires Valid()
      modifies this
      ensures Valid()
      ensures old(queue) == [] ==> msg == None && queue == []
      ensures old(queue) != [] ==> msg == Some(old(queue)[0]) && queue == old(queue)[1..]
    {
      if cnt <= 0 {
        return None;
      }
      assert buffer[Wrap(nextRead, 0)] == Some(queue[0]);
      if buffer[nextRead] == None {
        return None;
      }
      msg := buffer[nextRead];
      nextRead := nextRead + 1;
      if nextRead > MSG_RING_SIZE - 1 {
        nextRead := 0;
      }
      cnt := cnt - 1;
      queue := queue[1..];
      forall i | 0 <= i < |queue| ensures buffer[Wrap(nextRead, i)] == Some(queue[i]) {
        assert buffer[Wrap(old(nextRead), i + 1)] == Some(old(queue)[i + 1]);
      }
    }
  }

  // ---------- The three rings ----------

  datatype Received = Success(msg: Msg) | Error

  class NfcMessages {
    const main: MsgRing
    const service: MsgRing
    const aospHal: MsgRing
    ghost var accepted: seq<seq<Msg>>
    ghost var received: seq<seq<Msg>>

    ghost predicate Valid()
      reads this, main, service, aospHal, main.buffer, service.buffer, aospHal.buffer
    {
      && main != service && main != aospHal && service != aospHal
      && main.buffer != service.buffer && main.buffer != aospHal.buffer && service.buffer != aospHal.buffer
      && main.Valid() && service.Valid() && aospHal.Valid()
      && |accepted| == |received| == RINGS
    }

    ghost function View(): (q: Queues)
      reads this, main, service, aospHal
    {
      Queues([main.queue, service.queue, aospHal.queue], accepted, received)
    }

    /** Empties all rings. */
    constructor ()
      ensures Valid() && View() == EMPTY
      ensures fresh(main) && fresh(service) && fresh(aospHal)
      ensures fresh(main.buffer) && fresh(service.buffer) && fresh(aospHal.buffer)
    {
      main := new MsgRing();
      service := new MsgRing();
      aospHal := new MsgRing();
      accepted, received := [[], [], []], [[], [], []];
    }

    function RingAt(i: nat): MsgRing
      requires i < RINGS
    {
      if i == 0 then main else if i == 1 then service else aospHal
    }

    method PutInto(i: nat, msg: Msg) returns (ok: bool)
      requires Valid() && i < RINGS
      modifies this, main, service, aospHal, main.buffer, service.buffer, aospHal.buffer
      ensures Valid() && View() == Apply(old(View()), Put(i, msg))
      ensures ok == (|old(View()).waiting[i]| < MSG_RING_SIZE)
    {
      var ring := RingAt(i);
      ok := ring.PutMsg(msg);
      if ok {
        accepted := accepted[i := accepted[i] + [msg]];
      }
    }

    method TakeFrom(i: nat) returns (msg: Option<Msg>)
      requires Valid() && i < RINGS
      modifies this, main, service, aospHal
      ensures Valid() && View() == Apply(old(View()), Take(i))
      ensures msg == if old(View()).waiting[i] == [] then None else Some(old(View()).waiting[i][0])
    {
      var ring := RingAt(i);
      msg := ring.TakeMsg();
      if msg.Some? {
        received := received[i := received[i] + [msg.value]];
      }
    }

    /** `signalled` is the outcome of waking a receiver.  When it fails, the sender is told of an
        error although its message stays in the ring.  A message to the socket is written there
        and counts as sent, whatever becomes of the write. */
    method Send(task: Task, msg: Option<Msg>, signalled: bool) returns (ok: bool)
      requires Valid()
      modifies this, main, service, aospHal, main.buffer, service.buffer, aospHal.buffer
      ensures Valid()
      ensures msg == None || RingOf(task) == None ==> ok == (msg.Some? && task == Socket) && View() == old(View())
      ensures msg.Some? && RingOf(task).Some? ==>
                && View() == Apply(old(View()), Put(RingOf(task).value, msg.value))
                && ok == (signalled && |old(View()).waiting[RingOf(task).value]| < MSG_RING_SIZE)
    {
      if msg == None || RingOf(task) == None {
        return msg.Some? && task == Socket;
      }
      var accepted := PutInto(RingOf(task).value, msg.value);
      ok := accepted && signalled;
    }

    /** Takes the oldest message of a ring.  On an empty ring the receiver waits, and other threads run
        (`meanwhile`); when it wakes up the ring may still or again be empty.  `fromSocket` is
        what reading the socket brings. */
    method Recv(task: Task, meanwhile: seq<Step>, waitOk: bool, fromSocket: Received)
      returns (r: Received, ghost waited: bool)
      requires Valid()
      modifies this, main, service, aospHal, main.buffer, service.buffer, aospHal.buffer
      ensures Valid()
      ensures RingOf(task) == None ==> r == (if task == Socket then fromSocket else Error) && View() == old(View())
      ensures RingOf(task).Some? ==>
                var i := RingOf(task).value;
                var atWork := if waited then Run(old(View()), meanwhile) else old(View());
                && waited == (old(View()).waiting[i] == [])
                && (waited && !waitOk ==> r == Error && View() == atWork)
                && (!waited || waitOk ==>
                      && View() == Apply(atWork, Take(i))
                      && r == if atWork.waiting[i] == [] then Error else Success(atWork.waiting[i][0]))
    {
      waited := false;
      if RingOf(task) == None {
        return if task == Socket then fromSocket else Error, waited;
      }
      var i := RingOf(task).value;
      if RingAt(i).cnt <= 0 {
        waited := true;
        OtherThreadsRun(meanwhile);
        if !waitOk {
          return Error, waited;
        }
      }
      var msg := TakeFrom(i);
      r := if msg.Some? then Success(msg.value) else Error;
    }

    method OtherThreadsRun(steps: seq<Step>)
      requires Valid()
      modifies this, main, service, aospHal, main.buffer, service.buffer, aospHal.buffer
      ensures Valid() && View() == Run(old(View()), steps)
    {
      for n := 0 to |steps|
        invariant Valid() && View() == Run(old(View()), steps[..n])
      {
        assert steps[..n + 1] == steps[..n] + [steps[n]];
        RunSnoc(old(View()), steps[..n], steps[n]);
        if steps[n].ring < RINGS {
          match steps[n] {
            case Put(ring, msg) => var _ := PutInto(ring, msg);
            case Take(ring) => var _ := TakeFrom(ring);
          }
        }
      }
      assert steps[..|steps|] == steps;
    }
  }
}
