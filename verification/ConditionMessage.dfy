/** The condition messages to the sensor hub (sensorhub/shf_hal.cpp): the leading items and the
    leading actions of a condition, each list behind its length. */
module ConditionMessage {
  import opened Common
  import ShfCommunicator

  const ITEMS := 4
  const ACTIONS := 4
  /** An item in memory: an 8-byte value, two indices, an operation, a combination and padding. */
  const ITEM_BYTES := 16
  const OP := 10

  datatype Condition = Condition(item: seq<seq<byte>>, action: seq<byte>)

  predicate GoodItems(items: seq<seq<byte>>) {
    forall i :: 0 <= i < |items| ==> |items[i]| == ITEM_BYTES
  }

  predicate Good(c: Condition) {
    |c.item| == ITEMS && |c.action| == ACTIONS && GoodItems(c.item)
  }

  /** The items before the first one without operation, and the actions before the first zero. */
  function LeadingItems(items: seq<seq<byte>>): (r: seq<seq<byte>>)
    requires GoodItems(items)
    ensures |r| <= |items| && r == items[..|r|] && GoodItems(r)
    ensures forall i :: 0 <= i < |r| ==> r[i][OP] != 0
    ensures |r| < |items| ==> items[|r|][OP] == 0
  {
    if items == [] || items[0][OP] == 0 then [] else
      var rest := LeadingItems(items[1..]);
      [items[0]] + rest
  }

  function LeadingActions(actions: seq<byte>): (r: seq<byte>)
    ensures |r| <= |actions| && r == actions[..|r|]
    ensures forall i :: 0 <= i < |r| ==> r[i] != 0
    ensures |r| < |actions| ==> actions[|r|] == 0
  {
    if actions == [] || actions[0] == 0 then [] else [actions[0]] + LeadingActions(actions[1..])
  }

  function Flat(items: seq<seq<byte>>): (r: seq<byte>)
    requires GoodItems(items)
    ensures |r| == ITEM_BYTES * |items|
  {
    if items == [] then [] else Flat(items[..|items| - 1]) + items[|items| - 1]
  }

  /** The message body of a condition. */
  function Wrapped(c: Condition): seq<byte>
    requires Good(c)
  {
    var items, actions := LeadingItems(c.item), LeadingActions(c.action);
    [|items|] + Flat(items) + [|actions|] + actions
  }

  lemma {:induction false} FlatAt(items: seq<seq<byte>>, i: nat, j: nat)
    requires GoodItems(items) && i < |items| && j < 16
    ensures Flat(items)[16 * i + j] == items[i][j]
  {
    var n := |items| - 1;
    if i < n {
      FlatAt(items[..n], i, j);
    }
  }

  /** Where everything is in the body: the number of items, their bytes, the number of actions and
      these.  An item without operation, in its byte 10, ends the items; a zero ends the actions. */
  lemma BodyLayout(c: Condition)
    requires Good(c)
    ensures var s, n, m := Wrapped(c), |LeadingItems(c.item)|, |LeadingActions(c.action)|;
            && |s| == 2 + 16 * n + m && s[0] == n && s[1 + 16 * n] == m && n <= |c.item| && m <= |c.action|
            && (forall i, j :: 0 <= i < n && 0 <= j < 16 ==> s[1 + (16 * i + j)] == c.item[i][j])
            && (forall i :: 0 <= i < m ==> s[2 + 16 * n + i] == c.action[i])
            && (forall i :: 0 <= i < n ==> c.item[i][10] != 0) && (n < |c.item| ==> c.item[n][10] == 0)
            && (forall i :: 0 <= i < m ==> c.action[i] != 0) && (m < |c.action| ==> c.action[m] == 0)
  {
    hide Flat;
    var items, actions := LeadingItems(c.item), LeadingActions(c.action);
    var s, flat := Wrapped(c), Flat(items);
    forall i, j | 0 <= i < |items| && 0 <= j < 16 ensures s[1 + (16 * i + j)] == c.item[i][j] {
      FlatAt(items, i, j);
      assert s[1 + (16 * i + j)] == flat[16 * i + j];
    }
    assert s[2 + 16 * |items|..] == actions;
  }

  // ---------- What the other side reads ----------

  function Chunks(s: seq<byte>, n: nat): (r: seq<seq<byte>>)
    requires |s| == ITEM_BYTES * n
    decreases n
  {
    if n == 0 then [] else Chunks(s[..ITEM_BYTES * (n - 1)], n - 1) + [s[ITEM_BYTES * (n - 1)..]]
  }

  /** Both lists, read by their lengths. */
  function Unwrap(s: seq<byte>): Option<(seq<seq<byte>>, seq<byte>)> {
    if s == [] || |s| < 2 + ITEM_BYTES * s[0] as int then None
    else
      var n: nat := s[0];
      var at := 1 + ITEM_BYTES * n;
      if |s| != at + 1 + s[at] as int then None else Some((Chunks(s[1..at], n), s[at + 1..]))
  }

  lemma {:induction false} ChunksOfFlat(items: seq<seq<byte>>)
    requires GoodItems(items)
    ensures Chunks(Flat(items), |items|) == items
  {
    if items == [] {
    } else {
      var n := |items| - 1;
      ChunksOfFlat(items[..n]);
      assert Flat(items)[..ITEM_BYTES * n] == Flat(items[..n]);
      assert Flat(items)[ITEM_BYTES * n..] == items[n];
    }
  }

  /** The other side reads back exactly the items before the first without operation and the
      actions before the first zero. */
  lemma UnwrapOfWrapped(c: Condition)
    requires Good(c)
    ensures Unwrap(Wrapped(c)) == Some((LeadingItems(c.item), LeadingActions(c.action)))
  {
    var items, actions := LeadingItems(c.item), LeadingActions(c.action);
    var s, at := Wrapped(c), 1 + ITEM_BYTES * |items|;
    assert s[0] == |items| && s[at] == |actions|;
    assert s[1..at] == Flat(items) && s[at + 1..] == actions;
    ChunksOfFlat(items);
  }

  /** Adding or updating a condition: the message always fits a frame, and from whatever state a
      receiver of the same protocol is in it gets the leading items and actions whole, or nothing
      if the second fragment looks like a header. */
  lemma ConditionArrivesWhole(r: ShfCommunicator.Receiver, c: Condition, header: seq<byte>)
    requires ShfCommunicator.Plausible(r) && Good(c) && 2 <= |header| <= 3
    ensures 3 <= |header + Wrapped(c)| <= ShfCommunicator.MAX_PAYLOAD
    ensures var message := header + Wrapped(c);
            var handled := ShfCommunicator.Feed(r, ShfCommunicator.Fragments(ShfCommunicator.Frame(message))).1;
            if ShfCommunicator.Followed(message) then
              && |handled| == 1 && |header| <= |handled[0]| && handled[0][..|header|] == header
              && Unwrap(handled[0][|header|..]) == Some((LeadingItems(c.item), LeadingActions(c.action)))
            else handled == []
  {
    var message := header + Wrapped(c);
    ShfCommunicator.ExactPayloadOrNothing(r, message);
    UnwrapOfWrapped(c);
    assert message[..|header|] == header && message[|header|..] == Wrapped(c);
  }

  // ---------- The method ----------

  lemma {:induction false} ItemsCounted(items: seq<seq<byte>>, n: nat)
    requires GoodItems(items) && n <= |items|
    requires (forall i :: 0 <= i < n ==> items[i][OP] != 0) && (n < |items| ==> items[n][OP] == 0)
    ensures |LeadingItems(items)| == n
  {
    if n > 0 {
      ItemsCounted(items[1..], n - 1);
    }
  }

  lemma {:induction false} ActionsCounted(actions: seq<byte>, n: nat)
    requires n <= |actions|
    requires (forall i :: 0 <= i < n ==> actions[i] != 0) && (n < |actions| ==> actions[n] == 0)
    ensures |LeadingActions(actions)| == n
  {
    if n > 0 {
      ActionsCounted(actions[1..], n - 1);
    }
  }

  /** Writes the body from `at` on and returns its size. */
  method WrapCondition(c: Condition, buffer: array<byte>, at: nat) returns (total: nat)
    requires Good(c) && at + 2 + ITEM_BYTES * ITEMS + ACTIONS <= buffer.Length
    modifies buffer
    ensures at + total <= buffer.Length && buffer[at..at + total] == Wrapped(c)
    ensures buffer[..at] == old(buffer[..at]) && buffer[at + total..] == old(buffer[at + total..])
  {
    var itemCount := CountItems(c);
    var actionCount := CountActions(c);
    var items := c.item[..itemCount];
    var itemSize := ITEM_BYTES * itemCount;
    total := itemSize + actionCount + 2;
    var body := [itemCount as byte] + Flat(items) + [actionCount as byte] + c.action[..actionCount];
    for i := 0 to total
      invariant buffer[at..at + i] == body[..i]
      invariant buffer[..at] == old(buffer[..at]) && buffer[at + i..] == old(buffer[at + i..])
    {
      buffer[at + i] := body[i];
    }
  }

  method CountItems(c: Condition) returns (n: nat)
    requires Good(c)
    ensures n == |LeadingItems(c.item)|
  {
    n := 0;
    while n < ITEMS && c.item[n][OP] != 0
      invariant n <= ITEMS && forall i :: 0 <= i < n ==> c.item[i][OP] != 0
    {
      n := n + 1;
    }
    ItemsCounted(c.item, n);
  }

  method CountActions(c: Condition) returns (n: nat)
    requires Good(c)
    ensures n == |LeadingActions(c.action)|
  {
    n := 0;
    while n < ACTIONS && c.action[n] != 0
      invariant n <= ACTIONS && forall i :: 0 <= i < n ==> c.action[i] != 0
    {
      n := n + 1;
    }
    ActionsCounted(c.action, n);
  }
}
