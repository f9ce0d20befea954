/** Parsing the file control parameters of a CDMA card (c2kril/c2k-ril/csim_fcp_parser.c, format of
    section 11.1.1.4 of ETSI TS 102 221): searching lists of tag-length-value entries, and the
    status of the PINs. */
module FcpTlv {
  import opened Common

  const FCP_PIN_DO: byte := 0xC6
  const PIN_PS_DO: byte := 0x90
  const PIN_USAGE_QUALIFIER: byte := 0x95
  const PIN_KEY_REF: byte := 0x83

  // ---------- Lists of entries ----------

  datatype Tlv = Tlv(tag: byte, value: seq<byte>)

  /** The length of a value has one byte. */
  predicate Sized(list: seq<Tlv>) {
    forall i :: 0 <= i < |list| ==> |list[i].value| < 256
  }

  function Entry(e: Tlv): (r: seq<byte>)
    requires |e.value| < 256
    ensures |r| == |e.value| + 2
  {
    [e.tag, |e.value|] + e.value
  }

  function Bytes(list: seq<Tlv>): seq<byte>
    requires Sized(list)
  {
    if list == [] then [] else Entry(list[0]) + Bytes(list[1..])
  }

  /** The value of the first entry with the tag. */
  function First(list: seq<Tlv>, tag: byte): Option<seq<byte>> {
    if list == [] then None else if list[0].tag == tag then Some(list[0].value) else First(list[1..], tag)
  }

  lemma {:induction false} FirstIsFirst(list: seq<Tlv>, tag: byte)
    ensures match First(list, tag)
            case None => forall i :: 0 <= i < |list| ==> list[i].tag != tag
            case Some(value) =>
              exists i :: 0 <= i < |list| && list[i] == Tlv(tag, value)
                          && forall j :: 0 <= j < i ==> list[j].tag != tag
  {
    if list != [] && list[0].tag != tag {
      FirstIsFirst(list[1..], tag);
      assert forall i :: 0 < i < |list| ==> list[i] == list[1..][i - 1];
    } else if list != [] {
      assert list[0] == Tlv(tag, list[0].value);
    }
  }

  /** The front of a list to be searched. */
  lemma FirstAtFront(list: seq<Tlv>, tag: byte)
    ensures list == [] ==> First(list, tag) == None
    ensures list != [] && list[0].tag == tag ==> First(list, tag) == Some(list[0].value)
    ensures list != [] && list[0].tag != tag ==> First(list, tag) == First(list[1..], tag)
  {
  }

  // ---------- The two searches ----------

  /** The size of an entry as the template search computes it: length + 2 in one byte, which wraps
      around. */
  function SteppedSize(length: byte): nat {
    if length as int + 2 < 256 then length as int + 2 else length as int + 2 - 256
  }

  /** What the template search skips must be shorter than 254 bytes. */
  predicate Skippable(list: seq<Tlv>, tag: byte) {
    list == [] || list[0].tag == tag || (|list[0].value| <= 253 && Skippable(list[1..], tag))
  }

  /** A search: at an entry with so many bytes left, at the value found, without result, or reading
      outside the buffer. */
  datatype Search = Looking(at: nat, len: nat) | Found(at: nat, length: byte) | Missing | Outside

  /** One turn of the loop of the template search. */
  function NextTurn(data: seq<byte>, tag: byte, s: Search): Search {
    match s
    case Looking(at, len) =>
      if len == 0 then Missing
      else if at + 1 >= |data| then Outside
      else if data[at] == tag then Found(at + 2, data[at + 1])
      else
        var size := SteppedSize(data[at + 1]);
        Looking(at + size, if len <= size then 0 else len - size)
    case _ => s
  }

  function Turns(data: seq<byte>, tag: byte, s: Search, n: nat): Search {
    if n == 0 then s else NextTurn(data, tag, Turns(data, tag, s, n - 1))
  }

  lemma {:induction false} TurnsFirst(data: seq<byte>, tag: byte, s: Search, n: nat)
    ensures Turns(data, tag, s, n + 1) == Turns(data, tag, NextTurn(data, tag, s), n)
  {
    if n > 0 {
      TurnsFirst(data, tag, s, n - 1);
    }
  }

  lemma TurnsNext(data: seq<byte>, tag: byte, s: Search, n: nat)
    ensures Turns(data, tag, s, 0) == s
    ensures Turns(data, tag, s, n + 1) == NextTurn(data, tag, Turns(data, tag, s, n))
  {
  }

  /** A search that has ended stays as it is. */
  lemma {:induction false} EndedStays(data: seq<byte>, tag: byte, s: Search, n: nat, m: nat)
    requires n <= m && !Turns(data, tag, s, n).Looking?
    ensures Turns(data, tag, s, m) == Turns(data, tag, s, n)
  {
    if n < m {
      EndedStays(data, tag, s, n, m - 1);
    }
  }

  /** From `at` on there are `len` bytes that are the entries of `list`. */
  ghost predicate Holds(data: seq<byte>, at: nat, len: nat, list: seq<Tlv>) {
    Sized(list) && at + len <= |data| && data[at..at + len] == Bytes(list)
  }

  predicate HasValue(data: seq<byte>, at: nat, value: seq<byte>) {
    at + |value| <= |data| && data[at..at + |value|] == value
  }

  lemma ValueAt(data: seq<byte>, at: nat, value: seq<byte>, i: nat)
    requires HasValue(data, at, value) && i < |value|
    ensures at + i < |data| && data[at + i] == value[i]
  {
    assert data[at..at + |value|][i] == data[at + i];
  }

  lemma Inside(data: seq<byte>, at: nat, len: nat, i: nat, j: nat)
    requires at + len <= |data| && i <= j <= len
    ensures data[at..at + len][i..j] == data[at + i..at + j]
  {
    var a, b := data[at..at + len][i..j], data[at + i..at + j];
    forall k | 0 <= k < j - i ensures a[k] == b[k] {
      assert data[at..at + len][i + k] == data[at + (i + k)];
    }
    assert a == b;
  }

  /** One entry at the front of the bytes left. */
  lemma FrontEntry(data: seq<byte>, at: nat, len: nat, list: seq<Tlv>)
    requires list != [] && Holds(data, at, len, list)
    ensures Sized(list) && len >= |list[0].value| + 2 && at + len <= |data|
    ensures data[at] == list[0].tag && data[at + 1] == |list[0].value|
    ensures HasValue(data, at + 2, list[0].value)
    ensures Holds(data, at + |list[0].value| + 2, len - |list[0].value| - 2, list[1..])
  {
    var s, n := data[at..at + len], |list[0].value| + 2;
    assert s == Entry(list[0]) + Bytes(list[1..]);
    assert s[0] == list[0].tag && s[1] == |list[0].value|;
    assert |s| == len >= n;
    assert s[2..n] == Entry(list[0])[2..] == list[0].value;
    assert s[n..] == Bytes(list[1..]);
    Inside(data, at, len, 2, n);
    Inside(data, at, len, n, len);
    assert s[n..len] == s[n..];
  }

  /** Without bytes there are no entries, and the other way round. */
  lemma NothingLeft(data: seq<byte>, at: nat, len: nat, list: seq<Tlv>)
    requires Holds(data, at, len, list)
    ensures len == 0 <==> list == []
    ensures at + len <= |data|
  {
  }

  /** A turn at an entry of another tag.  It steps over the entry exactly if the value has at most 253
      bytes; with 254 it stays where it is, with 255 it goes on inside the entry. */
  lemma TurnAtEntry(data: seq<byte>, at: nat, len: nat, list: seq<Tlv>, tag: byte)
    requires list != [] && Holds(data, at, len, list) && list[0].tag != tag
    ensures var size := |list[0].value| + 2;
            var next := NextTurn(data, tag, Looking(at, len));
            && len >= size
            && (next == Looking(at + size, len - size) <==> |list[0].value| <= 253)
            && (|list[0].value| == 254 ==> next == Looking(at, len))
            && (|list[0].value| == 255 ==> next == Looking(at + 1, len - 1))
  {
    FrontEntry(data, at, len, list);
  }

  /** Where the value of the first entry with the tag begins, in a list that begins at `at`. */
  function PlaceOf(at: nat, list: seq<Tlv>, tag: byte): nat
    requires Sized(list) && First(list, tag).Some?
    decreases |list|
  {
    if list[0].tag == tag then at + 2 else PlaceOf(at + |Entry(list[0])|, list[1..], tag)
  }

  /** Turns to the end of the search. */
  function TurnsNeeded(list: seq<Tlv>, tag: byte): nat {
    if list == [] || list[0].tag == tag then 1 else 1 + TurnsNeeded(list[1..], tag)
  }

  /** The search ended as it should: at the first entry with the tag, if there is one. */
  ghost predicate Right(data: seq<byte>, at: nat, list: seq<Tlv>, tag: byte, end: Search)
    requires Sized(list)
  {
    match First(list, tag)
    case None => end == Missing
    case Some(value) =>
      && |value| < 256 && end == Found(PlaceOf(at, list, tag), |value|)
      && HasValue(data, PlaceOf(at, list, tag), value)
  }

  lemma RightNow(data: seq<byte>, at: nat, len: nat, list: seq<Tlv>, tag: byte)
    requires Holds(data, at, len, list) && (list == [] || list[0].tag == tag)
    ensures Right(data, at, list, tag, NextTurn(data, tag, Looking(at, len)))
  {
    hide Holds, HasValue;
    NothingLeft(data, at, len, list);
    if list != [] {
      FrontEntry(data, at, len, list);
    }
  }

  lemma RightLater(data: seq<byte>, at: nat, list: seq<Tlv>, tag: byte, end: Search)
    requires list != [] && Sized(list) && list[0].tag != tag
    requires Right(data, at + |list[0].value| + 2, list[1..], tag, end)
    ensures Right(data, at, list, tag, end)
  {
    hide HasValue;
  }

  /** If all skipped values are short enough, the search finds the first entry with the tag. */
  lemma {:induction false} SearchFindsFirst(data: seq<byte>, at: nat, len: nat, list: seq<Tlv>, tag: byte)
    requires Holds(data, at, len, list) && Skippable(list, tag)
    ensures Right(data, at, list, tag, Turns(data, tag, Looking(at, len), TurnsNeeded(list, tag)))
    decreases |list|
  {
    hide Holds, Right, NextTurn;
    var s := Looking(at, len);
    TurnsFirst(data, tag, s, TurnsNeeded(list, tag) - 1);
    if list == [] || list[0].tag == tag {
      RightNow(data, at, len, list, tag);
    } else {
      var size := |list[0].value| + 2;
      FrontEntry(data, at, len, list);
      TurnAtEntry(data, at, len, list, tag);
      SearchFindsFirst(data, at + size, len - size, list[1..], tag);
      RightLater(data, at, list, tag, Turns(data, tag, s, TurnsNeeded(list, tag)));
    }
  }

  /** The search gets stuck at entry i. */
  predicate StuckAt(list: seq<Tlv>, tag: byte, i: nat) {
    && i < |list| && list[i].tag != tag && |list[i].value| == 254
    && forall j :: 0 <= j < i ==> list[j].tag != tag && |list[j].value| <= 253
  }

  /** Bytes of the first entries. */
  function Offset(list: seq<Tlv>, i: nat): nat
    requires i <= |list|
  {
    if i == 0 then 0 else Offset(list, i - 1) + |list[i - 1].value| + 2
  }

  /** A search that looks at entry i of a list with `len` bytes that begins at `at`. */
  function Before(at: nat, len: nat, list: seq<Tlv>, i: nat): Search
    requires i <= |list|
  {
    Looking(at + Offset(list, i), if Offset(list, i) <= len then len - Offset(list, i) else 0)
  }

  /** Behind the first entries are the others. */
  lemma {:induction false} HoldsFrom(data: seq<byte>, at: nat, len: nat, list: seq<Tlv>, i: nat)
    requires Holds(data, at, len, list) && i <= |list|
    ensures Offset(list, i) <= len && Holds(data, at + Offset(list, i), len - Offset(list, i), list[i..])
  {
    if i == 0 {
      assert list[0..] == list;
    } else {
      HoldsFrom(data, at, len, list, i - 1);
      hide Holds;
      FrontEntry(data, at + Offset(list, i - 1), len - Offset(list, i - 1), list[i - 1..]);
      assert list[i - 1..][1..] == list[i..] && list[i - 1..][0] == list[i - 1];
    }
  }

  /** A turn at entry k, of another tag: it reaches the next entry, or stays where it is. */
  lemma TurnAtIndex(data: seq<byte>, at: nat, len: nat, list: seq<Tlv>, tag: byte, k: nat)
    requires Holds(data, at, len, list) && k < |list| && list[k].tag != tag
    ensures |list[k].value| <= 253 ==> NextTurn(data, tag, Before(at, len, list, k)) == Before(at, len, list, k + 1)
    ensures |list[k].value| == 254 ==> NextTurn(data, tag, Before(at, len, list, k)) == Before(at, len, list, k)
  {
    HoldsFrom(data, at, len, list, k);
    HoldsFrom(data, at, len, list, k + 1);
    hide Holds, NextTurn;
    assert list[k..][0] == list[k];
    TurnAtEntry(data, at + Offset(list, k), len - Offset(list, k), list[k..], tag);
  }

  lemma StuckTurn(data: seq<byte>, at: nat, len: nat, list: seq<Tlv>, tag: byte, i: nat, k: nat)
    requires Holds(data, at, len, list) && StuckAt(list, tag, i) && k <= i
    ensures i < |list|
    ensures k < i ==> NextTurn(data, tag, Before(at, len, list, k)) == Before(at, len, list, k + 1)
    ensures k == i ==> NextTurn(data, tag, Before(at, len, list, k)) == Before(at, len, list, k)
  {
    hide NextTurn, Holds, Before;
    TurnAtIndex(data, at, len, list, tag, k);
  }

  /** From a skipped value of 254 bytes the search never gets away, however many turns it takes: up to
      there it takes one turn for each entry. */
  lemma {:induction false} StuckForEver(data: seq<byte>, at: nat, len: nat, list: seq<Tlv>, tag: byte, i: nat, n: nat)
    requires Holds(data, at, len, list) && StuckAt(list, tag, i)
    ensures n <= i ==> Turns(data, tag, Looking(at, len), n) == Before(at, len, list, n)
    ensures n >= i ==> Turns(data, tag, Looking(at, len), n) == Before(at, len, list, i)
  {
    if n == 0 {
    } else {
      StuckForEver(data, at, len, list, tag, i, n - 1);
      StuckTurn(data, at, len, list, tag, i, if n <= i then n - 1 else i);
      hide Turns, NextTurn, Holds, Before, StuckAt;
      TurnsNext(data, tag, Looking(at, len), n - 1);
    }
  }

  lemma {:induction false} UnskippableSticks(list: seq<Tlv>, tag: byte) returns (i: nat)
    requires !Skippable(list, tag) && forall j :: 0 <= j < |list| ==> |list[j].value| <= 254
    ensures StuckAt(list, tag, i)
  {
    if |list[0].value| == 254 {
      i := 0;
    } else {
      var k := UnskippableSticks(list[1..], tag);
      i := k + 1;
      forall j | 0 <= j < i ensures list[j].tag != tag && |list[j].value| <= 253 {
        assert j > 0 ==> list[j] == list[1..][j - 1];
      }
    }
  }

  /** For values of up to 254 bytes the search ends if and only if no value of 254 bytes is skipped. */
  lemma SearchEndsExactlyIfSkippable(data: seq<byte>, at: nat, len: nat, list: seq<Tlv>, tag: byte)
    requires Holds(data, at, len, list) && forall j :: 0 <= j < |list| ==> |list[j].value| <= 254
    ensures (exists n: nat :: !Turns(data, tag, Looking(at, len), n).Looking?) <==> Skippable(list, tag)
  {
    if Skippable(list, tag) {
      SearchFindsFirst(data, at, len, list, tag);
      assert !Turns(data, tag, Looking(at, len), TurnsNeeded(list, tag)).Looking?;
    } else {
      var i := UnskippableSticks(list, tag);
      forall n: nat ensures Turns(data, tag, Looking(at, len), n).Looking? {
        StuckForEver(data, at, len, list, tag, i, n);
      }
    }
  }

  lemma BytesOfOne(e: Tlv)
    requires |e.value| < 256
    ensures Bytes([e]) == Entry(e)
  {
    assert [e][1..] == [] && Entry(e) + [] == Entry(e);
  }

  /** A search that sticks, although the entry it is for comes next. */
  lemma SomeSearchSticks(n: nat)
    ensures var list := [Tlv(PIN_KEY_REF, seq(254, _ => 0 as byte)), Tlv(FCP_PIN_DO, [])];
            && Sized(list) && First(list, FCP_PIN_DO) == Some([])
            && Turns(Bytes(list), FCP_PIN_DO, Looking(0, 258), n) == Looking(0, 258)
  {
    var list := [Tlv(PIN_KEY_REF, seq(254, _ => 0 as byte)), Tlv(FCP_PIN_DO, [])];
    BytesOfOne(list[1]);
    assert list[1..] == [list[1]];
    assert Bytes(list) == Entry(list[0]) + Entry(list[1]);
    assert First(list, FCP_PIN_DO) == First([list[1]], FCP_PIN_DO);
    hide Bytes, Holds, Turns, First;
    StuckForEver(Bytes(list), 0, 258, list, FCP_PIN_DO, 0, n);
  }

  /** A skipped value of 255 bytes is searched itself, from its length on: what is found may be in it. */
  lemma SomeValueIsWrong(skipped: byte, tag: byte, value: seq<byte>)
    requires skipped != tag && tag != 255 && |value| == 255 && value[0] == 0 && value[1] == tag
    ensures var list := [Tlv(skipped, value)];
            && First(list, tag) == None
            && Turns(Bytes(list), tag, Looking(0, 257), 3) == Found(5, value[2])
  {
    var list := [Tlv(skipped, value)];
    var data := Bytes(list);
    BytesOfOne(list[0]);
    hide Bytes;
    var s := Looking(0, 257);
    TurnsNext(data, tag, s, 0);
    TurnsNext(data, tag, s, 1);
    TurnsNext(data, tag, s, 2);
    assert data[0] == skipped && data[1] == 255 && data[2] == 0 && data[3] == tag && data[4] == value[2];
    hide Turns;
    assert NextTurn(data, tag, s) == Looking(1, 256);
    assert NextTurn(data, tag, Looking(1, 256)) == Looking(3, 254);
  }

  /** The body of the loop of the template search: the value is found, or where the next turn is. */
  method TemplateTurn(data: array<byte>, tag: byte, out: nat, len: nat) returns (next: Search)
    requires len > 0 && out + 1 < data.Length
    ensures next == NextTurn(data[..], tag, Looking(out, len)) && (next.Found? || next.Looking?)
  {
    var tagLen := SteppedSize(data[out + 1]);
    if data[out] == tag {
      return Found(out + 2, data[out + 1]);
    }
    var left := len;
    if len <= tagLen {
      left := 0;
    } else {
      left := left - tagLen;
    }
    next := Looking(out + tagLen, left);
  }

  /** Searches a template; gives the place and length of the value.  A search that ends inside the
      buffer, after whatever number of turns, ends where its turns do. */
  method FcpTlvSearchTags(data: array<byte>, start: nat, size: nat, tag: byte, ghost turns: nat)
    returns (at: Option<nat>, length: byte)
    requires var end := Turns(data[..], tag, Looking(start, size), turns); end.Found? || end.Missing?
    ensures Turns(data[..], tag, Looking(start, size), turns) == if at.Some? then Found(at.value, length) else Missing
    ensures at.None? ==> length == 0
  {
    var out: nat, len: nat := start, size;
    ghost var n, s := 0, Looking(start, size);
    TurnsNext(data[..], tag, s, 0);
    hide Turns;
    while len > 0
      invariant n <= turns && Turns(data[..], tag, s, n) == Looking(out, len)
      decreases turns - n
    {
      TurnsNext(data[..], tag, s, n);
      n := n + 1;
      if Turns(data[..], tag, s, n) == Outside {
        EndedStays(data[..], tag, s, n, turns);
      }
      var next := TemplateTurn(data, tag, out, len);
      if next.Found? {
        EndedStays(data[..], tag, s, n, turns);
        return Some(next.at), next.length;
      }
      out, len := next.at, next.len;
    }
    TurnsNext(data[..], tag, s, n);
    EndedStays(data[..], tag, s, n + 1, turns);
    at, length := None, 0;
  }

  /** Searches the proprietary information; here every length is stepped over. */
  method PropInfoTlvSearchTag(data: array<byte>, start: nat, size: nat, tag: byte, ghost list: seq<Tlv>)
    returns (at: Option<nat>, length: byte)
    requires Holds(data[..], start, size, list)
    ensures at.None? <==> First(list, tag).None?
    ensures at.None? ==> length == 0
    ensures at.Some? ==>
              && First(list, tag).Some? && length == |First(list, tag).value|
              && HasValue(data[..], at.value, First(list, tag).value)
  {
    var out: nat, len: nat := start, size;
    ghost var bytes, rest := data[..], list;
    hide Holds, HasValue, First;
    while len > 0
      invariant data[..] == bytes && Holds(bytes, out, len, rest) && out + len == start + size
      invariant First(list, tag) == First(rest, tag)
      decreases |rest|
    {
      NothingLeft(bytes, out, len, rest);
      FrontEntry(bytes, out, len, rest);
      FirstAtFront(rest, tag);
      if data[out] == tag {
        return Some(out + 2), data[out + 1];
      }
      var step := data[out + 1] as int + 2;
      len := len - step;
      out := out + step;
      rest := rest[1..];
    }
    NothingLeft(bytes, out, len, rest);
    FirstAtFront(rest, tag);
    at, length := None, 0;
  }

  // ---------- PIN status ----------

  /** The flag of a key reference, as the number of its bit in the 32-bit flag words. */
  function FlagOf(keyRef: byte): (r: Option<nat>)
    ensures r.Some? ==> r.value < 32
  {
    if 0x01 <= keyRef <= 0x08 then Some(2 * (keyRef as int - 0x01))
    else if 0x81 <= keyRef <= 0x88 then Some(2 * (keyRef as int - 0x81) + 1)
    else if 0x0A <= keyRef <= 0x0E then Some(16 + (keyRef as int - 0x0A))
    else if 0x8A <= keyRef <= 0x8E then Some(21 + (keyRef as int - 0x8A))
    else if keyRef == 0x11 then Some(31)
    else None
  }

  lemma FlagsAreDistinct(a: byte, b: byte)
    requires FlagOf(a).Some? && FlagOf(a) == FlagOf(b)
    ensures a == b
  {
  }

  /** The flags in the order of the key references of both kinds for applications 1 to 8, of the
      administrative ones 1 to 5 and 6 to 10, and of the universal one. */
  lemma FlagTable(i: nat)
    ensures i < 8 ==> FlagOf(0x01 + i) == Some(2 * i) && FlagOf(0x81 + i) == Some(2 * i + 1)
    ensures i < 5 ==> FlagOf(0x0A + i) == Some(16 + i) && FlagOf(0x8A + i) == Some(21 + i)
    ensures FlagOf(0x11) == Some(31)
    ensures i < 256 ==>
              (FlagOf(i) == None <==>
                 i == 0 || i == 9 || 0x0F <= i <= 0x10 || 0x12 <= i <= 0x80 || i == 0x89 || i >= 0x8F)
  {
  }

  const MASKS: seq<nat> := [0x80, 0x40, 0x20, 0x10, 0x08, 0x04, 0x02, 0x01]

  /** Bit k of a byte, the most significant first. */
  predicate Bit(b: byte, k: nat)
    requires k < 8
  {
    b as int / MASKS[k] % 2 == 1
  }

  /** The first bit is set from 128 on; shifting a byte to the left moves every bit one place to the front. */
  lemma BitsFromTheTop(b: byte, k: nat)
    requires k < 7
    ensures Bit(b, 0) <==> b >= 128
    ensures Bit(b, k + 1) <==> Bit(if b < 128 then 2 * b else 2 * b - 256, k)
  {
    if b < 128 {
      Doubling(2 * b, b, k);
    } else {
      Doubling(2 * b - 256, b - 128, k);
      TopBit(b, k);
    }
  }

  /** Without the first bit the others stay. */
  lemma TopBit(b: byte, k: nat)
    requires k < 7 && b >= 128
    ensures Bit(b, k + 1) <==> Bit(b - 128, k + 1)
  {
    var n, m := b as int, MASKS[k + 1];
    assert n / m == (n - 128) / m + 128 / m;
  }

  lemma Doubling(d: byte, b: byte, k: nat)
    requires k < 7 && d as int == 2 * b as int
    ensures Bit(d, k) <==> Bit(b, k + 1)
  {
    var n, m := b as int, MASKS[k + 1];
    assert MASKS[k] == 2 * m;
    assert 2 * n / (2 * m) == n / m;
  }

  /** The two flag words as sets of bit numbers. */
  datatype Pins = Pins(present: set<nat>, enabled: set<nat>)

  datatype Outcome = Filled(pins: Pins) | Absent | Aborted

  /** The flags after one more key reference, the one number `count`. */
  function Flag(pins: Pins, keyRef: byte, on: bool): Pins {
    if FlagOf(keyRef).None? then pins
    else
      var bit := {FlagOf(keyRef).value};
      Pins(pins.present + bit, if on then pins.enabled + bit else pins.enabled)
  }

  /** The status bit of key reference number `count`; unknown ones are not looked up. */
  predicate On(keyRef: byte, ps: seq<byte>, count: nat)
    requires FlagOf(keyRef).Some? ==> count / 8 < |ps|
  {
    FlagOf(keyRef).Some? && Bit(ps[count / 8], count % 8)
  }

  /** Going through the entries of a PIN status template: unknown tags abort, and so does a key
      reference that is shorter than the status bytes its number asks for. */
  function Scan(list: seq<Tlv>, ps: seq<byte>, count: nat, pins: Pins): Outcome
    requires Readable(list, ps, count)
  {
    if list == [] then Filled(pins)
    else if list[0].tag == PIN_PS_DO then Scan(list[1..], list[0].value, count, pins)
    else if list[0].tag == PIN_USAGE_QUALIFIER then Scan(list[1..], ps, count, pins)
    else if list[0].tag == PIN_KEY_REF && count / 8 < |list[0].value| then
      var keyRef := list[0].value[0];
      Scan(list[1..], ps, count + 1, Flag(pins, keyRef, On(keyRef, ps, count)))
    else Aborted
  }

  /** Whenever the status of a known key reference is looked up, its byte is there. */
  predicate Readable(list: seq<Tlv>, ps: seq<byte>, count: nat) {
    list == [] ||
    (if list[0].tag == PIN_PS_DO then Readable(list[1..], list[0].value, count)
     else if list[0].tag == PIN_USAGE_QUALIFIER then Readable(list[1..], ps, count)
     else if list[0].tag == PIN_KEY_REF && count / 8 < |list[0].value| then
       (FlagOf(list[0].value[0]).Some? ==> count / 8 < |ps|) && Readable(list[1..], ps, count + 1)
     else true)
  }

  /** The key references in a list, in order. */
  function KeyRefs(list: seq<Tlv>): seq<byte>
    requires forall i :: 0 <= i < |list| && list[i].tag == PIN_KEY_REF ==> |list[i].value| == 1
  {
    if list == [] then []
    else (if list[0].tag == PIN_KEY_REF then [list[0].value[0]] else []) + KeyRefs(list[1..])
  }

  /** Entries as the standard has them behind the status bytes. */
  predicate Standard(list: seq<Tlv>) {
    forall i :: 0 <= i < |list| ==>
      list[i].tag == 0x95 || (list[i].tag == 0x83 && |list[i].value| == 1)
  }

  /** The flags of some key references, the first being number `count`. */
  function Flags(refs: seq<byte>, status: byte, count: nat, pins: Pins): Pins
    requires count + |refs| <= 8
    decreases |refs|
  {
    if refs == [] then pins
    else Flags(refs[1..], status, count + 1, Flag(pins, refs[0], Bit(status, count)))
  }

  lemma FirstStatusByte(keyRef: byte, ps: seq<byte>, count: nat, pins: Pins)
    requires ps != [] && count < 8
    ensures Flag(pins, keyRef, On(keyRef, ps, count)) == Flag(pins, keyRef, Bit(ps[0], count))
  {
    hide Bit;
  }

  lemma {:induction false} ScanStandard(list: seq<Tlv>, ps: seq<byte>, count: nat, pins: Pins)
    requires Standard(list) && ps != [] && count <= 8
    ensures Readable(list, ps, count)
    ensures count + |KeyRefs(list)| <= 8 ==>
              Scan(list, ps, count, pins) == Filled(Flags(KeyRefs(list), ps[0], count, pins))
    ensures count + |KeyRefs(list)| > 8 ==> Scan(list, ps, count, pins) == Aborted
  {
    hide Flag, Bit, FlagOf, On;
    if list == [] {
    } else {
      assert forall i :: 0 < i < |list| ==> list[i] == list[1..][i - 1];
      if list[0].tag == PIN_USAGE_QUALIFIER {
        assert KeyRefs(list) == KeyRefs(list[1..]);
        ScanStandard(list[1..], ps, count, pins);
      } else {
        var keyRef := list[0].value[0];
        assert KeyRefs(list)[0] == keyRef && KeyRefs(list)[1..] == KeyRefs(list[1..]);
        if count < 8 {
          FirstStatusByte(keyRef, ps, count, pins);
          ScanStandard(list[1..], ps, count + 1, Flag(pins, keyRef, Bit(ps[0], count)));
        }
      }
    }
  }

  predicate Unique(refs: seq<byte>) {
    forall i, j :: 0 <= i < j < |refs| ==> refs[i] != refs[j]
  }

  lemma {:induction false} FlagsKeep(refs: seq<byte>, status: byte, count: nat, pins: Pins, bit: nat)
    requires count + |refs| <= 8
    requires forall i :: 0 <= i < |refs| ==> FlagOf(refs[i]) != Some(bit)
    ensures var r := Flags(refs, status, count, pins);
            (bit in r.present <==> bit in pins.present) && (bit in r.enabled <==> bit in pins.enabled)
    decreases |refs|
  {
    if refs == [] {
    } else {
      assert forall i :: 0 < i < |refs| ==> refs[i] == refs[1..][i - 1];
      FlagsKeep(refs[1..], status, count + 1, Flag(pins, refs[0], Bit(status, count)), bit);
    }
  }

  lemma {:induction false} FlagsOfNth(refs: seq<byte>, status: byte, count: nat, pins: Pins, k: nat)
    requires count + |refs| <= 8 && Unique(refs) && k < |refs| && FlagOf(refs[k]).Some?
    requires FlagOf(refs[k]).value !in pins.enabled
    ensures var r := Flags(refs, status, count, pins);
            FlagOf(refs[k]).value in r.present && (FlagOf(refs[k]).value in r.enabled <==> Bit(status, count + k))
    decreases |refs|
  {
    var bit := FlagOf(refs[k]).value;
    var pins' := Flag(pins, refs[0], Bit(status, count));
    assert forall i :: 0 < i < |refs| ==> refs[i] == refs[1..][i - 1];
    if k == 0 {
      forall i | 0 <= i < |refs[1..]| ensures FlagOf(refs[1..][i]) != Some(bit) {
        if FlagOf(refs[i + 1]) == Some(bit) {
          FlagsAreDistinct(refs[0], refs[i + 1]);
        }
      }
      FlagsKeep(refs[1..], status, count + 1, pins', bit);
    } else {
      if FlagOf(refs[0]) == Some(bit) {
        FlagsAreDistinct(refs[0], refs[k]);
      }
      FlagsOfNth(refs[1..], status, count + 1, pins', k - 1);
    }
  }

  /** With cleared flags, the PIN of the k-th of at most eight key references is enabled exactly if
      bit k of the status byte is set, and no other PIN is present or enabled. */
  lemma EnabledIsStatusBit(list: seq<Tlv>, ps: seq<byte>)
    requires Standard(list) && ps != [] && |KeyRefs(list)| <= 8 && Unique(KeyRefs(list))
    ensures Readable([Tlv(0x90, ps)] + list, [], 0)
    ensures var refs := KeyRefs(list);
            var r := Scan([Tlv(0x90, ps)] + list, [], 0, Pins({}, {}));
            && r.Filled?
            && (forall k :: 0 <= k < |refs| && FlagOf(refs[k]).Some? ==>
                  && FlagOf(refs[k]).value in r.pins.present
                  && (FlagOf(refs[k]).value in r.pins.enabled <==> Bit(ps[0], k)))
            && (forall bit: nat :: (bit in r.pins.present || bit in r.pins.enabled) ==>
                  exists k :: 0 <= k < |refs| && FlagOf(refs[k]) == Some(bit))
  {
    var whole, refs, none := [Tlv(0x90, ps)] + list, KeyRefs(list), Pins({}, {});
    assert whole[1..] == list;
    ScanStandard(list, ps, 0, none);
    forall k | 0 <= k < |refs| && FlagOf(refs[k]).Some?
      ensures FlagOf(refs[k]).value in Flags(refs, ps[0], 0, none).present
      ensures FlagOf(refs[k]).value in Flags(refs, ps[0], 0, none).enabled <==> Bit(ps[0], k)
    {
      FlagsOfNth(refs, ps[0], 0, none, k);
    }
    forall bit: nat | forall k :: 0 <= k < |refs| ==> FlagOf(refs[k]) != Some(bit)
      ensures bit !in Flags(refs, ps[0], 0, none).present && bit !in Flags(refs, ps[0], 0, none).enabled
    {
      FlagsKeep(refs, ps[0], 0, none, bit);
    }
  }

  /** A ninth key reference aborts the query. */
  lemma NineKeyRefsAbort(list: seq<Tlv>, ps: seq<byte>)
    requires Standard(list) && ps != [] && |KeyRefs(list)| > 8
    ensures Readable([Tlv(PIN_PS_DO, ps)] + list, [], 0)
    ensures Scan([Tlv(PIN_PS_DO, ps)] + list, [], 0, Pins({}, {})) == Aborted
  {
    assert ([Tlv(PIN_PS_DO, ps)] + list)[1..] == list;
    ScanStandard(list, ps, 0, Pins({}, {}));
  }

  /** One turn over the entries. */
  lemma ScanNext(list: seq<Tlv>, ps: seq<byte>, count: nat, pins: Pins)
    requires list != [] && Readable(list, ps, count)
    ensures list[0].tag == PIN_PS_DO ==>
              && Readable(list[1..], list[0].value, count)
              && Scan(list, ps, count, pins) == Scan(list[1..], list[0].value, count, pins)
    ensures list[0].tag == PIN_USAGE_QUALIFIER ==>
              Readable(list[1..], ps, count) && Scan(list, ps, count, pins) == Scan(list[1..], ps, count, pins)
    ensures list[0].tag == PIN_KEY_REF && count / 8 >= |list[0].value| ==> Scan(list, ps, count, pins) == Aborted
    ensures list[0].tag == PIN_KEY_REF && count / 8 < |list[0].value| ==>
              var keyRef := list[0].value[0];
              && (FlagOf(keyRef).Some? ==> count / 8 < |ps|) && Readable(list[1..], ps, count + 1)
              && Scan(list, ps, count, pins)
                   == Scan(list[1..], ps, count + 1, Flag(pins, keyRef, On(keyRef, ps, count)))
    ensures list[0].tag !in {PIN_PS_DO, PIN_USAGE_QUALIFIER, PIN_KEY_REF} ==> Scan(list, ps, count, pins) == Aborted
  {
    hide Flag, On, FlagOf;
  }

  /** A list whose skipped values are short enough, with such a PIN status, can be queried. */
  lemma TemplateIsQueried(data: seq<byte>, start: nat, size: nat, list: seq<Tlv>, entries: seq<Tlv>)
    requires Holds(data, start, size, list) && Skippable(list, 0xC6)
    requires First(list, FCP_PIN_DO).Some? ==> Sized(entries) && Bytes(entries) == First(list, FCP_PIN_DO).value
    ensures var end := Turns(data, FCP_PIN_DO, Looking(start, size), TurnsNeeded(list, FCP_PIN_DO));
            match First(list, FCP_PIN_DO)
            case None => end == Missing
            case Some(_) => end.Found? && Holds(data, end.at, end.length as nat, entries)
  {
    SearchFindsFirst(data, start, size, list, FCP_PIN_DO);
  }

  /** Where a scan stands: the bytes and status bytes at the cursors, and what is still to come. */
  ghost predicate Standing(data: seq<byte>, tag: nat, len: nat, rest: seq<Tlv>, pinPsDo: nat, ps: seq<byte>,
                           count: nat, pins: Pins, whole: Outcome) {
    && Holds(data, tag, len, rest) && HasValue(data, pinPsDo, ps)
    && Readable(rest, ps, count) && whole == Scan(rest, ps, count, pins)
  }

  lemma StandingAtEntry(data: seq<byte>, tag: nat, len: nat, rest: seq<Tlv>, pinPsDo: nat, ps: seq<byte>, count: nat,
                        pins: Pins, whole: Outcome)
    requires len > 0 && Standing(data, tag, len, rest, pinPsDo, ps, count, pins, whole)
    ensures rest != [] && len >= |rest[0].value| + 2 && tag + 1 < |data|
    ensures data[tag] == rest[0].tag && data[tag + 1] == |rest[0].value| && HasValue(data, tag + 2, rest[0].value)
    ensures Holds(data, tag + |rest[0].value| + 2, len - |rest[0].value| - 2, rest[1..])
    ensures HasValue(data, pinPsDo, ps) && Readable(rest, ps, count) && whole == Scan(rest, ps, count, pins)
  {
    hide HasValue, Readable, Scan;
    NothingLeft(data, tag, len, rest);
    FrontEntry(data, tag, len, rest);
  }

  lemma StandingFurther(data: seq<byte>, tag: nat, len: nat, rest: seq<Tlv>, pinPsDo: nat, ps: seq<byte>, count: nat,
                        pins: Pins, whole: Outcome)
    requires Holds(data, tag, len, rest) && HasValue(data, pinPsDo, ps)
    requires Readable(rest, ps, count) && whole == Scan(rest, ps, count, pins)
    ensures Standing(data, tag, len, rest, pinPsDo, ps, count, pins, whole)
  {
    hide Holds, HasValue, Readable, Scan;
  }

  lemma NoValue(data: seq<byte>)
    ensures HasValue(data, 0, [])
  {
  }

  lemma AllScanned(data: seq<byte>, tag: nat, rest: seq<Tlv>, pinPsDo: nat, ps: seq<byte>, count: nat, pins: Pins,
                   whole: Outcome)
    requires Standing(data, tag, 0, rest, pinPsDo, ps, count, pins, whole)
    ensures whole == Filled(pins)
  {
    NothingLeft(data, tag, 0, rest);
  }

  class PinStatus {
    var pinFlag: set<nat>
    var enabledPinFlag: set<nat>

    constructor ()
      ensures pinFlag == enabledPinFlag == {}
    {
      pinFlag, enabledPinFlag := {}, {};
    }

    /** Fills in the flags from a template in which the search ends, with `entries` as PIN status.
        Bits that were set before stay set. */
    method PinStatusDoQuery(data: array<byte>, start: nat, size: nat, ghost turns: nat, ghost entries: seq<Tlv>)
      returns (found: bool, aborted: bool)
      requires var end := Turns(data[..], FCP_PIN_DO, Looking(start, size), turns);
               (end.Found? && Holds(data[..], end.at, end.length as nat, entries) && Readable(entries, [], 0))
               || end.Missing?
      modifies this
      ensures found == Turns(data[..], FCP_PIN_DO, Looking(start, size), turns).Found?
      ensures !found ==> !aborted && pinFlag == {} && enabledPinFlag == old(enabledPinFlag)
      ensures found ==>
                var r := Scan(entries, [], 0, Pins(old(pinFlag), old(enabledPinFlag)));
                aborted == r.Aborted? && (!aborted ==> r == Filled(Pins(pinFlag, enabledPinFlag)))
    {
      var out, valueLen := FcpTlvSearchTags(data, start, size, FCP_PIN_DO, turns);
      if out == None {
        pinFlag := {};
        return false, false;
      }
      aborted := ScanEntries(data, out.value, valueLen, entries);
      found := true;
    }

    method ScanEntries(data: array<byte>, start: nat, size: nat, ghost entries: seq<Tlv>) returns (aborted: bool)
      requires Holds(data[..], start, size, entries)
      requires Readable(entries, [], 0)
      modifies this
      ensures var r := Scan(entries, [], 0, Pins(old(pinFlag), old(enabledPinFlag)));
              aborted == r.Aborted? && (!aborted ==> r == Filled(Pins(pinFlag, enabledPinFlag)))
    {
      var tag: nat, valueLen: nat, count: nat, pinPsDo: nat := start, size, 0, 0;
      ghost var bytes, rest, ps: seq<byte> := data[..], entries, [];
      ghost var whole := Scan(entries, [], 0, Pins(pinFlag, enabledPinFlag));
      hide Standing, Scan, Holds, HasValue, Readable, Sized, Bytes;
      NoValue(bytes);
      StandingFurther(bytes, tag, valueLen, rest, pinPsDo, ps, count, Pins(pinFlag, enabledPinFlag), whole);
      while valueLen > 0
        invariant data[..] == bytes
        invariant Standing(bytes, tag, valueLen, rest, pinPsDo, ps, count, Pins(pinFlag, enabledPinFlag), whole)
        decreases |rest|
      {
        var ok, length;
        ok, length, pinPsDo, count, ps := ScanEntry(data, tag, valueLen, pinPsDo, count, rest, ps, whole);
        if !ok {
          return true;
        }
        valueLen := valueLen - length;
        tag := tag + length;
        rest := rest[1..];
      }
      AllScanned(bytes, tag, rest, pinPsDo, ps, count, Pins(pinFlag, enabledPinFlag), whole);
      aborted := false;
    }

    /** One turn of the loop, at the entry at `tag`: the bytes it takes, and the new cursors. */
    method ScanEntry(data: array<byte>, tag: nat, valueLen: nat, pinPsDo: nat, count: nat, ghost rest: seq<Tlv>,
                     ghost ps: seq<byte>, ghost whole: Outcome)
      returns (ok: bool, length: nat, nextPsDo: nat, nextCount: nat, ghost nextPs: seq<byte>)
      requires Standing(data[..], tag, valueLen, rest, pinPsDo, ps, count, Pins(pinFlag, enabledPinFlag), whole)
      requires valueLen > 0
      modifies this
      ensures rest != [] && length <= valueLen
      ensures !ok ==> whole == Aborted
      ensures ok ==> Standing(data[..], tag + length, valueLen - length, rest[1..], nextPsDo, nextPs, nextCount,
                              Pins(pinFlag, enabledPinFlag), whole)
    {
      hide Scan, Readable, Holds, HasValue, Standing, Sized, Bytes, Flag, On, FlagOf;
      StandingAtEntry(data[..], tag, valueLen, rest, pinPsDo, ps, count, Pins(pinFlag, enabledPinFlag), whole);
      length := data[tag + 1] as int + 2;
      ok, nextPsDo, nextCount, nextPs := TakeEntry(data, tag, pinPsDo, count, rest, ps);
      if ok {
        StandingFurther(data[..], tag + length, valueLen - length, rest[1..], nextPsDo, nextPs, nextCount,
                        Pins(pinFlag, enabledPinFlag), whole);
      }
    }

    /** The cases for the tag of an entry. */
    method TakeEntry(data: array<byte>, tag: nat, pinPsDo: nat, count: nat, ghost rest: seq<Tlv>, ghost ps: seq<byte>)
      returns (ok: bool, nextPsDo: nat, nextCount: nat, ghost nextPs: seq<byte>)
      requires rest != [] && Readable(rest, ps, count) && HasValue(data[..], pinPsDo, ps)
      requires tag + 1 < data.Length && data[tag] == rest[0].tag && data[tag + 1] == |rest[0].value|
      requires HasValue(data[..], tag + 2, rest[0].value)
      modifies this
      ensures var was := Scan(rest, ps, count, Pins(old(pinFlag), old(enabledPinFlag)));
              && (!ok ==> was == Aborted)
              && (ok ==> Readable(rest[1..], nextPs, nextCount) && HasValue(data[..], nextPsDo, nextPs)
                         && was == Scan(rest[1..], nextPs, nextCount, Pins(pinFlag, enabledPinFlag)))
    {
      ScanNext(rest, ps, count, Pins(pinFlag, enabledPinFlag));
      hide Scan, Readable, Flag, Bit, HasValue, FlagOf, On;
      ok, nextPsDo, nextCount, nextPs := true, pinPsDo, count, ps;
      if data[tag] == PIN_PS_DO {
        nextPsDo, nextPs := tag + 2, rest[0].value;
      } else if data[tag] == PIN_USAGE_QUALIFIER {
      } else if data[tag] == PIN_KEY_REF {
        if count / 8 >= data[tag + 1] {
          ok := false;
          return;
        }
        ValueAt(data[..], tag + 2, rest[0].value, 0);
        KeyRef(data, data[tag + 2], pinPsDo, count, ps);
        nextCount := count + 1;
      } else {
        ok := false;
      }
    }

    /** Sets the flag of a key reference, and its enabled flag if its status bit is set. */
    method KeyRef(data: array<byte>, keyRef: byte, pinPsDo: nat, count: nat, ghost ps: seq<byte>)
      requires HasValue(data[..], pinPsDo, ps) && (FlagOf(keyRef).Some? ==> count / 8 < |ps|)
      modifies this
      ensures Pins(pinFlag, enabledPinFlag)
                == Flag(Pins(old(pinFlag), old(enabledPinFlag)), keyRef, On(keyRef, ps, count))
    {
      if FlagOf(keyRef).Some? {
        ValueAt(data[..], pinPsDo, ps, count / 8);
        pinFlag := pinFlag + {FlagOf(keyRef).value};
        if data[pinPsDo + count / 8] as int / MASKS[count % 8] % 2 == 1 {
          enabledPinFlag := enabledPinFlag + {FlagOf(keyRef).value};
        }
      }
    }
  }
}
