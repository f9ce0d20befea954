/** Framing of sensor-hub messages (sensorhub/shf_communicator.cpp).

    A frame is ESC BOM size 0 payload sum16 ESC EOM, cut into fragments of at most 48 bytes
    without any byte stuffing, and put together again by a three-state receiver. */
module ShfCommunicator {
  import opened Common

  const ESC: byte := 0xAA
  const BOM: byte := 0xF0
  const EOM: byte := 0x0F
  const FRAGMENT_BYTES: nat := 48
  const RECEIVE_BUFFER_BYTES: nat := 96
  const SEND_BUFFER_BYTES: nat := 128
  const MAX_PAYLOAD: nat := 88

  // ---------- Checksum ----------

  function Sum(s: seq<byte>): nat {
    if s == [] then 0 else Sum(s[..|s| - 1]) + s[|s| - 1]
  }

  function Checksum(s: seq<byte>): nat {
    Sum(s) % 0x1_0000
  }

  function Le16(v: nat): seq<byte> {
    [v % 0x100, v / 0x100 % 0x100]
  }

  function FromLe16(low: byte, high: byte): nat {
    low + 0x100 * high
  }

  lemma SumWraps(sum: nat, b: byte)
    ensures (sum % 0x1_0000 + b) % 0x1_0000 == (sum + b) % 0x1_0000
  {
  }

  method ChecksumGet(data: seq<byte>) returns (chksum: nat)
    ensures chksum == Checksum(data)
  {
    chksum := 0;
    for i := 0 to |data|
      invariant chksum == Checksum(data[..i])
    {
      assert data[..i + 1][..i] == data[..i];
      SumWraps(Sum(data[..i]), data[i]);
      chksum := (chksum + data[i]) % 0x1_0000;
    }
    assert data[..|data|] == data;
  }

  lemma {:induction false} SumConcat(a: seq<byte>, b: seq<byte>)
    ensures Sum(a + b) == Sum(a) + Sum(b)
  {
    if b == [] {
      assert a + b == a;
    } else {
      SumConcat(a, b[..|b| - 1]);
      assert (a + b)[..|a + b| - 1] == a + b[..|b| - 1];
    }
  }

  lemma {:induction false} SumBound(s: seq<byte>)
    ensures Sum(s) <= 255 * |s|
    ensures forall i :: 0 <= i < |s| ==> s[i] <= Sum(s)
  {
    if s == [] {
    } else {
      SumBound(s[..|s| - 1]);
    }
  }

  lemma {:induction false} SumUpdate(s: seq<byte>, i: nat, b: byte)
    requires i < |s|
    ensures Sum(s[i := b]) == Sum(s) - s[i] + b
  {
    var n := |s| - 1;
    if i == n {
      assert s[i := b][..n] == s[..n];
    } else {
      SumUpdate(s[..n], i, b);
      assert s[i := b][..n] == s[..n][i := b];
    }
  }

  // ---------- Sender ----------

  /** The checksummed part: both size bytes and the payload. */
  function Body(payload: seq<byte>): seq<byte>
    requires |payload| + 8 <= SEND_BUFFER_BYTES
  {
    [|payload| + 2, 0] + payload
  }

  function Frame(payload: seq<byte>): seq<byte>
    requires |payload| + 8 <= SEND_BUFFER_BYTES
  {
    [ESC, BOM] + Body(payload) + Le16(Checksum(Body(payload))) + [ESC, EOM]
  }

  /** The frame in pieces of 48 bytes, the last one possibly shorter. */
  function Fragments(frame: seq<byte>): seq<seq<byte>> {
    if |frame| <= FRAGMENT_BYTES then if frame == [] then [] else [frame]
    else [frame[..FRAGMENT_BYTES]] + Fragments(frame[FRAGMENT_BYTES..])
  }

  /** Lays the frame out at the start of the shared send buffer. */
  method BuildFrame(buffer: array<byte>, data: seq<byte>)
    requires buffer.Length == SEND_BUFFER_BYTES && |data| + 8 <= SEND_BUFFER_BYTES
    modifies buffer
    ensures buffer[..|data| + 8] == Frame(data)
  {
    var total := |data| + 8;
    buffer[0], buffer[1], buffer[2], buffer[3] := ESC, BOM, total - 6, 0;
    forall i | 0 <= i < |data| {
      buffer[i + 4] := data[i];
    }
    assert buffer[..total - 4] == [ESC, BOM] + Body(data);
    assert buffer[2..total - 4] == buffer[..total - 4][2..];
    var chksum := ChecksumGet(buffer[2..total - 4]);
    ghost var front := buffer[..total - 4];
    buffer[total - 4], buffer[total - 3] := chksum % 0x100, chksum / 0x100 % 0x100;
    buffer[total - 2], buffer[total - 1] := ESC, EOM;
    assert buffer[..total - 4] == front;
    assert buffer[..total] == front + Le16(chksum) + [ESC, EOM];
  }

  /** Sends a message through a handler that fails on its call number `failing` and succeeds on
      every other call: the fragments of the frame go out in order up to the failed one. */
  method ProtocolSend(buffer: array<byte>, data: seq<byte>, failing: nat) returns (ok: bool, sent: seq<seq<byte>>)
    requires buffer.Length == SEND_BUFFER_BYTES && |data| + 8 <= SEND_BUFFER_BYTES
    modifies buffer
    ensures var all := Fragments(Frame(data));
            && ok == (failing >= |all|)
            && sent == if ok then all else all[..failing + 1]
  {
    BuildFrame(buffer, data);
    ok, sent := SendFragments(buffer[..|data| + 8], failing);
  }

  lemma FirstFragment(frame: seq<byte>, start: nat, length: nat)
    requires start < |frame|
    requires length == if |frame| - start >= FRAGMENT_BYTES then FRAGMENT_BYTES else |frame| - start
    ensures Fragments(frame[start..]) == [frame[start..start + length]] + Fragments(frame[start + length..])
  {
    assert frame[start..][..length] == frame[start..start + length];
    assert frame[start..][length..] == frame[start + length..];
    assert start + length == |frame| ==> frame[start..start + length] == frame[start..];
  }

  method SendFragments(frame: seq<byte>, failing: nat) returns (ok: bool, sent: seq<seq<byte>>)
    ensures ok == (failing >= |Fragments(frame)|)
    ensures sent == if ok then Fragments(frame) else Fragments(frame)[..failing + 1]
  {
    var total := |frame|;
    var count := if total % FRAGMENT_BYTES == 0 then total / FRAGMENT_BYTES else total / FRAGMENT_BYTES + 1;
    var index := 0;
    sent := [];
    while index < count
      invariant index <= count && index <= failing && |sent| == index
      invariant index == count <==> FRAGMENT_BYTES * index >= total
      invariant Fragments(frame) == sent + Fragments(frame[if index == count then total else FRAGMENT_BYTES * index..])
    {
      var start := FRAGMENT_BYTES * index;
      var length := if total - start >= FRAGMENT_BYTES then FRAGMENT_BYTES else total % FRAGMENT_BYTES;
      FirstFragment(frame, start, length);
      ghost var after := Fragments(frame[start + length..]);
      sent := sent + [frame[start..start + length]];
      assert Fragments(frame) == sent + after;
      if index == failing {
        assert sent == Fragments(frame)[..failing + 1];
        return false, sent;
      }
      index := index + 1;
    }
    assert frame[total..] == [] && Fragments(frame) == sent;
    ok := true;
  }

  // ---------- Receiver ----------

  datatype State = Idle | Started | Completed

  /** `data` is what the buffer holds up to the fill offset. */
  datatype Receiver = Receiver(data: seq<byte>, claim: byte, state: State)

  predicate IsHeader(fragment: seq<byte>) {
    && |fragment| >= 3 && fragment[0] == ESC && fragment[1] == BOM
    && 5 <= fragment[2] <= RECEIVE_BUFFER_BYTES
  }

  /** All claimed bytes are there, the tail is in place and the sum is right. */
  predicate Intact(data: seq<byte>, claim: byte) {
    && |data| == claim + 6
    && data[|data| - 2] == ESC && data[|data| - 1] == EOM
    && FromLe16(data[2 + claim], data[3 + claim]) == Checksum(data[2..2 + claim])
  }

  /** What the code keeps true between calls: a message being collected starts with the header
      that named its size, and would have been handed on had it checked out. */
  predicate Plausible(r: Receiver) {
    && !r.state.Completed?
    && (r.state.Started? ==> IsHeader(r.data) && r.claim == r.data[2] && !Intact(r.data, r.claim))
  }

  const START := Receiver([], 0, Idle)

  function Deliver(r: Receiver): (out: (Receiver, seq<seq<byte>>))
    requires r.state.Started? ==> IsHeader(r.data) && r.claim == r.data[2]
    ensures !r.state.Completed? ==> Plausible(out.0)
  {
    if r.state.Started? && Intact(r.data, r.claim)
    then (r.(state := Idle), [r.data[4..2 + r.claim]])
    else (r, [])
  }

  function Receive(r: Receiver, fragment: seq<byte>): (out: (Receiver, seq<seq<byte>>))
    requires Plausible(r)
    ensures Plausible(out.0)
  {
    if IsHeader(fragment) then
      Deliver(Receiver(fragment, fragment[2], Started))
    else if r.data != [] && |r.data| + |fragment| <= r.claim + 6 then
      if r.state.Started? then Deliver(r.(data := r.data + fragment)) else (r, [])
    else
      Deliver(r)
  }

  /** A run of the receiver: the state it ends in and the payloads handed on, in order. */
  function Feed(r: Receiver, fragments: seq<seq<byte>>): (out: (Receiver, seq<seq<byte>>))
    requires Plausible(r)
    ensures Plausible(out.0)
    decreases |fragments|
  {
    if fragments == [] then (r, [])
    else
      var (mid, first) := Receive(r, fragments[0]);
      var (end, rest) := Feed(mid, fragments[1..]);
      (end, first + rest)
  }

  predicate SecondIsHeader(f: seq<byte>) {
    |f| > FRAGMENT_BYTES && IsHeader(f[FRAGMENT_BYTES..])
  }

  /** The frames the receiver can follow: the second fragment must not look like a header. */
  predicate Followed(payload: seq<byte>)
    requires |payload| <= MAX_PAYLOAD
  {
    !SecondIsHeader(Frame(payload))
  }

  /** What the receiver relies on in a frame. */
  predicate Shape(f: seq<byte>) {
    var n := |f|;
    && 11 <= n <= RECEIVE_BUFFER_BYTES
    && f[0] == ESC && f[1] == BOM && f[2] == n - 6
    && f[n - 2] == ESC && f[n - 1] == EOM
    && FromLe16(f[n - 4], f[n - 3]) == Sum(f[2..n - 4]) < 0x1_0000
  }

  lemma FrameHasShape(payload: seq<byte>)
    requires 3 <= |payload| <= MAX_PAYLOAD
    ensures Shape(Frame(payload)) && Frame(payload)[4..|payload| + 4] == payload
  {
    hide Sum, FromLe16;
    var f, n, body := Frame(payload), |payload| + 8, Body(payload);
    SumBound(body);
    Le16Value(Sum(body));
    assert f[..2] == [ESC, BOM] && f[2..n - 4] == body;
    assert f[2] == f[2..n - 4][0] && f[4..n - 4] == f[2..n - 4][2..];
    assert body[2..] == payload;
    assert f[n - 4..] == Le16(Checksum(body)) + [ESC, EOM];
    assert f[n - 4] == f[n - 4..][0] && f[n - 3] == f[n - 4..][1];
    assert f[n - 2] == f[n - 4..][2] && f[n - 1] == f[n - 4..][3];
  }

  /** Every byte of a frame: escape, size, payload, sum of size and payload, escape. */
  lemma FrameLayout(payload: seq<byte>)
    requires |payload| <= MAX_PAYLOAD
    ensures var f, n := Frame(payload), |payload|;
            && |f| == n + 8 && f[0] == 0xAA && f[1] == 0xF0 && f[2] == n + 2 && f[3] == 0
            && f[4..n + 4] == payload && f[n + 4] as int + 256 * f[n + 5] as int == Sum([n + 2, 0] + payload)
            && f[n + 6] == 0xAA && f[n + 7] == 0x0F
  {
    var f, n, body := Frame(payload), |payload|, Body(payload);
    SumBound(body);
    Le16Value(Sum(body));
    hide Sum, Le16;
    Le16Bytes(Checksum(body));
    assert f[2..n + 4] == body && f[4..n + 4] == body[2..] == payload;
    assert f[2] == f[2..n + 4][0] && f[3] == f[2..n + 4][1];
    var tail := f[n + 4..];
    assert tail == Le16(Checksum(body)) + [ESC, EOM];
    assert f[n + 4] == tail[0] && f[n + 5] == tail[1] && f[n + 6] == tail[2] && f[n + 7] == tail[3];
  }

  lemma Le16Bytes(v: nat)
    ensures |Le16(v)| == 2
  {
  }

  /** The frames that are lost, byte by byte. */
  lemma NotFollowedExactlyIf(payload: seq<byte>)
    requires |payload| <= MAX_PAYLOAD
    ensures var f := Frame(payload);
            !Followed(payload) <==>
              |f| >= 51 && f[48] == 0xAA && f[49] == 0xF0 && 5 <= f[50] <= 96
  {
    hide Sum;
    var f := Frame(payload);
    if |f| > 48 {
      var g := f[48..];
      assert forall i :: 0 <= i < |g| ==> g[i] == f[48 + i];
    }
  }

  lemma Le16Value(v: nat)
    requires v < 0x1_0000
    ensures FromLe16(Le16(v)[0], Le16(v)[1]) == v == v % 0x1_0000
  {
  }

  lemma FeedOne(r: Receiver, a: seq<byte>)
    requires Plausible(r)
    ensures Feed(r, [a]) == Receive(r, a)
  {
    var mid := Receive(r, a).0;
    assert [a][1..] == [] && Receive(r, a).1 + [] == Receive(r, a).1;
  }

  /** A frame of two fragments: what the receiver makes of them. */
  lemma FeedTwo(r: Receiver, a: seq<byte>, b: seq<byte>)
    requires Plausible(r)
    requires IsHeader(a) && |a| < a[2] + 6
    ensures Feed(r, [a, b]) == Receive(Receiver(a, a[2], Started), b)
  {
    var mid := Receiver(a, a[2], Started);
    assert Receive(r, a) == (mid, []);
    FeedOne(mid, b);
    assert [a, b][1..] == [b];
    assert [] + Feed(mid, [b]).1 == Feed(mid, [b]).1;
  }

  lemma FragmentsOfTwo(f: seq<byte>)
    requires FRAGMENT_BYTES < |f| <= 2 * FRAGMENT_BYTES
    ensures Fragments(f) == [f[..FRAGMENT_BYTES], f[FRAGMENT_BYTES..]]
  {
  }

  /** `h` is the frame `f` with at most one byte of its payload replaced. */
  predicate OneByteOff(f: seq<byte>, h: seq<byte>, j: nat) {
    4 <= j < |f| - 4 && |h| == |f| && forall k :: 0 <= k < |f| && k != j ==> h[k] == f[k]
  }

  /** The checksummed bytes that stay in the first fragment weigh more than any one altered
      byte of the second can add, once the second starts with ESC BOM. */
  lemma CutOutweighs(f: seq<byte>, h: seq<byte>, j: nat)
    requires Shape(f) && OneByteOff(f, h, j) && |f| > 54 && h[48] == ESC && h[49] == BOM
    ensures Sum(h[50..|f| - 4]) < Sum(f[2..|f| - 4])
  {
    var n := |f|;
    var cut, kept := f[2..50], f[50..n - 4];
    assert f[2..n - 4] == cut + kept;
    SumConcat(cut, kept);
    SumBound(cut);
    assert cut[0] == f[2];
    if j < 50 {
      assert h[50..n - 4] == kept;
    } else {
      assert h[50..n - 4] == kept[j - 50 := h[j]];
      SumUpdate(kept, j - 50, h[j]);
      assert cut[47] == BOM && cut[..47][46] == ESC;
      SumBound(cut[..47]);
    }
  }

  /** The second fragment taken for a message of its own never checks out. */
  lemma TailIsNoMessage(f: seq<byte>, h: seq<byte>, j: nat)
    requires Shape(f) && OneByteOff(f, h, j)
    requires |f| > FRAGMENT_BYTES && IsHeader(h[FRAGMENT_BYTES..])
    ensures var g := h[FRAGMENT_BYTES..]; !Intact(g, g[2])
  {
    var g, n := h[FRAGMENT_BYTES..], |f|;
    if |g| == g[2] + 6 {
      CutOutweighs(f, h, j);
      SumBound(h[50..n - 4]);
      assert g[2..2 + g[2]] == h[50..n - 4];
    }
  }

  /** Feeding a frame with at most one altered payload byte comes down to checking it whole. */
  lemma FeedWhole(r: Receiver, f: seq<byte>, h: seq<byte>, j: nat)
    requires Plausible(r) && Shape(f) && OneByteOff(f, h, j)
    ensures var whole := Deliver(Receiver(h, h[2], Started));
            if SecondIsHeader(h) then Feed(r, Fragments(h)).1 == [] else Feed(r, Fragments(h)) == whole
  {
    assert IsHeader(h) && h[2] == |h| - 6;
    if |h| <= FRAGMENT_BYTES {
      FeedOne(r, h);
    } else {
      FragmentsOfTwo(h);
      var a, g := h[..FRAGMENT_BYTES], h[FRAGMENT_BYTES..];
      FeedTwo(r, a, g);
      if IsHeader(g) {
        TailIsNoMessage(f, h, j);
      } else {
        assert a + g == h;
      }
    }
  }

  /** From whatever state earlier lost or damaged fragments left, the fragments of a frame of at
      most 96 bytes deliver its payload exactly once if its second fragment does not look like a
      header, and deliver nothing otherwise: never any other bytes. */
  lemma ExactPayloadOrNothing(r: Receiver, payload: seq<byte>)
    requires Plausible(r)
    requires 3 <= |payload| <= MAX_PAYLOAD
    ensures Feed(r, Fragments(Frame(payload))).1 == if Followed(payload) then [payload] else []
    ensures Followed(payload) ==> Feed(r, Fragments(Frame(payload))).0.state == Idle
  {
    FrameHasShape(payload);
    ShapeDelivers(r, Frame(payload));
  }

  lemma ShapeDelivers(r: Receiver, f: seq<byte>)
    requires Plausible(r) && Shape(f)
    ensures Feed(r, Fragments(f)).1 == if SecondIsHeader(f) then [] else [f[4..|f| - 4]]
    ensures !SecondIsHeader(f) ==> Feed(r, Fragments(f)).0.state == Idle
  {
    hide Feed, Fragments, Shape, SecondIsHeader, Plausible, Deliver, IsHeader, OneByteOff;
    ShapeIsWhole(f);
    FeedWhole(r, f, f, 4);
  }

  /** An unaltered frame, checked whole, hands on its payload. */
  lemma ShapeIsWhole(f: seq<byte>)
    requires Shape(f)
    ensures OneByteOff(f, f, 4) && IsHeader(f)
    ensures Deliver(Receiver(f, f[2], Started)) == (Receiver(f, f[2], Idle), [f[4..|f| - 4]])
  {
    hide Sum, FromLe16, Intact;
    ShapeIsIntact(f);
  }

  lemma ShapeIsIntact(f: seq<byte>)
    requires Shape(f)
    ensures Intact(f, f[2])
  {
    hide Sum;
    var end := 2 + f[2];
    assert end == |f| - 4 && f[2..end] == f[2..|f| - 4];
  }

  /** One altered payload byte is always noticed, from any state, even when the alteration makes
      the second fragment look like a header. */
  lemma SingleByteDamageIsCaught(r: Receiver, payload: seq<byte>, i: nat, b: byte)
    requires Plausible(r)
    requires 3 <= |payload| <= MAX_PAYLOAD && i < |payload| && b != payload[i]
    ensures Feed(r, Fragments(Frame(payload)[4 + i := b])).1 == []
  {
    FrameHasShape(payload);
    var f := Frame(payload);
    assert f[4..|payload| + 4][i] == f[4 + i];
    DamagedShapeIsDropped(r, f, f[4 + i := b], 4 + i);
  }

  lemma DamagedShapeIsDropped(r: Receiver, f: seq<byte>, h: seq<byte>, j: nat)
    requires Plausible(r) && Shape(f) && OneByteOff(f, h, j) && h[j] != f[j]
    ensures Feed(r, Fragments(h)).1 == []
  {
    var n := |f|;
    var body := f[2..n - 4];
    assert h[2..n - 4] == body[j - 2 := h[j]];
    SumUpdate(body, j - 2, h[j]);
    SumBound(h[2..n - 4]);
    assert !Intact(h, h[2]);
    FeedWhole(r, f, h, j);
  }

  /** The missing escape is real: a sendable payload that is never received. */
  lemma SomePayloadIsLost(r: Receiver)
    requires Plausible(r)
    ensures var payload := seq(44, _ => 0) + [ESC, BOM, 5];
            3 <= |payload| <= MAX_PAYLOAD && Feed(r, Fragments(Frame(payload))).1 == []
  {
    var zeros := seq(44, _ => 0 as byte);
    var payload := zeros + [ESC, BOM, 5];
    assert Frame(payload)[FRAGMENT_BYTES..] == [ESC, BOM, 5] + Le16(Checksum(Body(payload))) + [ESC, EOM];
    ExactPayloadOrNothing(r, payload);
  }

  // ---------- Whole sessions ----------

  lemma {:induction false} FeedConcat(r: Receiver, a: seq<seq<byte>>, b: seq<seq<byte>>)
    requires Plausible(r)
    ensures Feed(r, a + b) == (Feed(Feed(r, a).0, b).0, Feed(r, a).1 + Feed(Feed(r, a).0, b).1)
    decreases |a|
  {
    if a == [] {
      assert a + b == b && Feed(r, a).1 + Feed(r, b).1 == Feed(r, b).1;
    } else {
      assert (a + b)[0] == a[0] && (a + b)[1..] == a[1..] + b;
      var (mid, first) := Receive(r, a[0]);
      FeedConcat(mid, a[1..], b);
      var x, y := Feed(mid, a[1..]).1, Feed(Feed(mid, a[1..]).0, b).1;
      assert first + (x + y) == (first + x) + y;
    }
  }

  predicate Sendable(payloads: seq<seq<byte>>) {
    forall k :: 0 <= k < |payloads| ==> 3 <= |payloads[k]| <= MAX_PAYLOAD
  }

  function Traffic(payloads: seq<seq<byte>>): seq<seq<byte>>
    requires Sendable(payloads)
  {
    if payloads == [] then [] else Fragments(Frame(payloads[0])) + Traffic(payloads[1..])
  }

  function AllFollowed(payloads: seq<seq<byte>>): seq<seq<byte>>
    requires Sendable(payloads)
  {
    if payloads == [] then []
    else (if Followed(payloads[0]) then [payloads[0]] else []) + AllFollowed(payloads[1..])
  }

  /** After any garbage, a session of frames delivers exactly its followed payloads, in order. */
  lemma {:induction false} SessionDelivers(r: Receiver, garbage: seq<seq<byte>>, payloads: seq<seq<byte>>)
    requires Plausible(r) && Sendable(payloads)
    ensures Feed(r, garbage + Traffic(payloads)).1 == Feed(r, garbage).1 + AllFollowed(payloads)
    decreases |payloads|
  {
    FeedConcat(r, garbage, Traffic(payloads));
    var mid := Feed(r, garbage).0;
    if payloads == [] {
    } else {
      var first := Fragments(Frame(payloads[0]));
      ExactPayloadOrNothing(mid, payloads[0]);
      SessionDelivers(mid, first, payloads[1..]);
    }
  }

  /** `d` is a frame around `p` whose upper size byte may be anything: the receiver sums that
      byte but never compares it. */
  predicate Frames(d: seq<byte>, p: seq<byte>) {
    && |d| == |p| + 8 && |p| + 2 < 0x100
    && d == [ESC, BOM, |p| + 2, d[3]] + p + Le16(Checksum([|p| + 2, d[3]] + p)) + [ESC, EOM]
  }

  lemma Le16Inverse(low: byte, high: byte)
    ensures Le16(FromLe16(low, high)) == [low, high]
  {
  }

  lemma IntactIsFramed(d: seq<byte>)
    requires IsHeader(d) && Intact(d, d[2])
    ensures Frames(d, d[4..2 + d[2]])
  {
    var c, p := d[2], d[4..2 + d[2]];
    Le16Inverse(d[2 + c], d[3 + c]);
    assert [c, d[3]] + p == d[2..2 + c];
    assert d == d[..4] + p + d[2 + c..4 + c] + d[4 + c..];
    assert d[..4] == [ESC, BOM, c, d[3]];
    assert d[2 + c..4 + c] == [d[2 + c], d[3 + c]];
    assert d[4 + c..] == [ESC, EOM];
  }

  /** Soundness for arbitrary traffic: a call hands on at most one payload, and then the bytes
      collected up to and including this very fragment are a frame around it. */
  lemma DeliveredWasFramed(r: Receiver, fragment: seq<byte>)
    requires Plausible(r) && Receive(r, fragment).1 != []
    ensures var (after, payloads) := Receive(r, fragment);
            && after.data == (if IsHeader(fragment) then fragment else r.data + fragment)
            && |payloads| == 1 && Frames(after.data, payloads[0])
            && after.state == Idle
  {
    IntactIsFramed(Receive(r, fragment).0.data);
  }

  /** Without a header nothing follows a delivery: no payload is handed on twice. */
  lemma {:induction false} IdleIgnoresStrays(r: Receiver, fragments: seq<seq<byte>>)
    requires r.state == Idle && forall k :: 0 <= k < |fragments| ==> !IsHeader(fragments[k])
    ensures Feed(r, fragments) == (r, [])
    decreases |fragments|
  {
    if fragments == [] {
    } else {
      IdleIgnoresStrays(r, fragments[1..]);
      var (mid, first) := Receive(r, fragments[0]);
      assert mid == r && first == [] && first + [] == first;
    }
  }

  // ---------- The receive buffer ----------

  /** The one thing the code leaves to its peer: an append stays inside the 96-byte buffer. */
  predicate Fits(r: Receiver, fragment: seq<byte>) {
    !IsHeader(fragment) && r.data != [] && |r.data| + |fragment| <= r.claim + 6 && r.state.Started? ==>
      |r.data| + |fragment| <= RECEIVE_BUFFER_BYTES
  }

  predicate AllFit(r: Receiver, fragments: seq<seq<byte>>)
    requires Plausible(r)
    decreases |fragments|
  {
    fragments == [] || (Fits(r, fragments[0]) && AllFit(Receive(r, fragments[0]).0, fragments[1..]))
  }

  /** Sessions of frames of at most 96 bytes never leave the buffer, whatever their payloads. */
  lemma {:induction false} TrafficFits(r: Receiver, payloads: seq<seq<byte>>)
    requires Plausible(r) && Sendable(payloads)
    ensures AllFit(r, Traffic(payloads))
    decreases |payloads|
  {
    if payloads == [] {
    } else {
      var f, rest := Frame(payloads[0]), Traffic(payloads[1..]);
      FrameHasShape(payloads[0]);
      if |f| <= FRAGMENT_BYTES {
        assert Traffic(payloads)[0] == f && Traffic(payloads)[1..] == rest;
        TrafficFits(Receive(r, f).0, payloads[1..]);
      } else {
        FragmentsOfTwo(f);
        var a, g := f[..FRAGMENT_BYTES], f[FRAGMENT_BYTES..];
        var mid := Receive(r, a).0;
        var t := Traffic(payloads);
        assert t == [a, g] + rest && t[1..][0] == g && t[1..][1..] == rest;
        TrafficFits(Receive(mid, g).0, payloads[1..]);
      }
    }
  }

  class ProtocolBuffer {
    const buffer: array<byte>
    var offset: nat
    var claim: byte
    var state: State

    ghost predicate Valid()
      reads this, buffer
    {
      buffer.Length == RECEIVE_BUFFER_BYTES && offset <= buffer.Length && Plausible(View())
    }

    ghost function View(): Receiver
      reads this, buffer
      requires offset <= buffer.Length
    {
      Receiver(buffer[..offset], claim, state)
    }

    constructor (storage: array<byte>)
      requires storage.Length == RECEIVE_BUFFER_BYTES
      ensures Valid() && buffer == storage && View() == START
    {
      buffer, offset, claim, state := storage, 0, 0, Idle;
    }

    /** Processes one transfer of at most 48 bytes.  `handled` lists the payloads the message
        handler was called with. */
    method ReceiveMessage(fragment: seq<byte>) returns (handled: seq<seq<byte>>)
      requires Valid() && |fragment| <= FRAGMENT_BYTES && Fits(View(), fragment)
      modifies this, buffer
      ensures Valid()
      ensures (View(), handled) == Receive(old(View()), fragment)
    {
      var size := |fragment|;
      if size >= 3 && fragment[0] == ESC && fragment[1] == BOM
         && fragment[2] >= 5 && fragment[2] <= buffer.Length
      {
        if state == Completed {
          return [];
        }
        state := Started;
        claim := fragment[2];
        Copy(0, fragment);
        assert View() == Receiver(fragment, fragment[2], Started);
      } else if offset != 0 && offset + size <= claim + 6 {
        if state != Started {
          return [];
        }
        Copy(offset, fragment);
      }
      handled := HandOn();
    }

    /** Copies a fragment to position `at` and moves the fill offset behind it. */
    method Copy(at: nat, fragment: seq<byte>)
      requires at <= offset <= buffer.Length == RECEIVE_BUFFER_BYTES && at + |fragment| <= buffer.Length
      modifies this`offset, buffer
      ensures offset <= buffer.Length && buffer[..offset] == old(buffer[..at]) + fragment
    {
      forall i | 0 <= i < |fragment| {
        buffer[at + i] := fragment[i];
      }
      offset := at + |fragment|;
    }

    /** Hands on a message that is complete and checks out. */
    method HandOn() returns (handled: seq<seq<byte>>)
      requires offset <= buffer.Length == RECEIVE_BUFFER_BYTES
      requires state.Started? ==> IsHeader(View().data) && claim == View().data[2]
      modifies this`state
      ensures (View(), handled) == Deliver(old(View()))
    {
      handled := [];
      ghost var data := buffer[..offset];
      if state == Started && offset != 0 && offset == claim + 6 {
        if buffer[offset - 2] == ESC && buffer[offset - 1] == EOM {
          var chksum := FromLe16(buffer[2 + claim], buffer[3 + claim]);
          assert data[..2 + claim] == buffer[..2 + claim];
          assert buffer[2..2 + claim] == buffer[..2 + claim][2..] == data[2..2 + claim];
          var computed := ChecksumGet(buffer[2..2 + claim]);
          if chksum == computed {
            state := Completed;
            assert buffer[..offset] == data;
            assert buffer[4..2 + claim] == buffer[..offset][4..2 + claim];
            handled := [buffer[4..2 + claim]];
            state := Idle;
          }
        }
      }
    }
  }
}
