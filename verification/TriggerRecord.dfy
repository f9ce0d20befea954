/** The trigger records the sensor hub sends (sensorhub/shf_hal.cpp).  Their numbers are
    little-endian (sensorhub/shf_types.cpp). */
module TriggerRecord {
  import opened Common
  import Shf = ShfCommunicator

  const TRIGGER_SLOT_CID := 2
  const TRIGGER_SLOT_AID1 := 3
  const TRIGGER_SLOT_RESULT := 7
  const TRIGGER_SLOT_SIZE := 8
  const TRIGGER_SLOT_RESERVED := 9
  const ACTIONS := 4
  const MAX_ENTRIES := 8
  const UINT32: byte := 1
  const UINT64: byte := 2

  // ---------- Little-endian numbers ----------

  function Pow256(n: nat): (r: nat)
    ensures r > 0
  {
    if n == 0 then 1 else 256 * Pow256(n - 1)
  }

  function Save(v: nat, n: nat): (r: seq<byte>)
    ensures |r| == n
  {
    if n == 0 then [] else [v % 256] + Save(v / 256, n - 1)
  }

  function Convert(s: seq<byte>): nat {
    if s == [] then 0 else s[0] + 256 * Convert(s[1..])
  }

  lemma {:induction false} ConvertOfSave(v: nat, n: nat)
    requires v < Pow256(n)
    ensures Convert(Save(v, n)) == v
  {
    if n == 0 {
    } else {
      ConvertOfSave(v / 256, n - 1);
      assert Save(v, n)[1..] == Save(v / 256, n - 1);
    }
  }

  lemma {:induction false} SaveOfConvert(s: seq<byte>)
    ensures Convert(s) < Pow256(|s|) && Save(Convert(s), |s|) == s
  {
    if s == [] {
    } else {
      SaveOfConvert(s[1..]);
      assert (s[0] + 256 * Convert(s[1..])) / 256 == Convert(s[1..]);
    }
  }

  /** A byte in its place. */
  function Placed(b: byte, scale: nat): nat {
    scale * b
  }

  method ConvertUint8ToUint32(buf: array<byte>, at: nat) returns (v: nat)
    requires at + 4 <= buf.Length
    ensures v == Convert(buf[at..at + 4])
  {
    v := buf[at] + Placed(buf[at + 1], 0x100) + Placed(buf[at + 2], 0x1_0000) + Placed(buf[at + 3], 0x100_0000);
    ConvertFour(buf[at..at + 4]);
  }

  method ConvertUint8ToUint64(buf: array<byte>, at: nat) returns (v: nat)
    requires at + 8 <= buf.Length
    ensures v == Convert(buf[at..at + 8])
  {
    v := buf[at] + Placed(buf[at + 1], 0x100) + Placed(buf[at + 2], 0x1_0000) + Placed(buf[at + 3], 0x100_0000)
         + Placed(buf[at + 4], 0x1_0000_0000) + Placed(buf[at + 5], 0x100_0000_0000)
         + Placed(buf[at + 6], 0x1_0000_0000_0000) + Placed(buf[at + 7], 0x100_0000_0000_0000);
    var s := buf[at..at + 8];
    ConvertFour(s[..4]);
    ConvertFour(s[4..]);
    ConvertConcat(s[..4], s[4..]);
    assert s == s[..4] + s[4..];
  }

  lemma ConvertFour(s: seq<byte>)
    requires |s| == 4
    ensures Convert(s) == s[0] + Placed(s[1], 0x100) + Placed(s[2], 0x1_0000) + Placed(s[3], 0x100_0000)
  {
    assert s[1..][1..] == s[2..] && s[2..][1..] == s[3..] && s[3..][1..] == [];
    assert Convert(s[3..]) == s[3];
    assert Convert(s[2..]) == s[2] + Placed(s[3], 256);
  }

  lemma ConvertConcat(a: seq<byte>, b: seq<byte>)
    requires |a| == 4
    ensures Convert(a + b) == Convert(a) + 0x1_0000_0000 * Convert(b)
  {
    var s := a + b;
    assert s[1..][1..] == s[2..] && s[2..][1..] == s[3..] && s[3..][1..] == b;
    assert Convert(s[3..]) == s[3] + 256 * Convert(b);
    assert Convert(s[2..]) == s[2] + 256 * Convert(s[3..]);
    assert Convert(s[1..]) == s[1] + 256 * Convert(s[2..]);
    ConvertFour(a);
  }

  /** Four bytes are a number, the lowest first; eight are two of them, the lower first. */
  lemma NumbersOfBytes(s: seq<byte>)
    ensures |s| == 4 ==>
              Convert(s) == s[0] as int + 0x100 * s[1] as int + 0x1_0000 * s[2] as int + 0x100_0000 * s[3] as int
    ensures |s| == 8 ==> Convert(s) == Convert(s[..4]) + 0x1_0000_0000 * Convert(s[4..])
  {
    if |s| == 4 {
      ConvertFour(s);
    } else if |s| == 8 {
      assert s == s[..4] + s[4..];
      ConvertConcat(s[..4], s[4..]);
    }
  }

  // ---------- Trigger records ----------

  /** A data entry: an index, a type, and a current and a last value of that type. */
  datatype Entry = Entry(index: byte, kind: byte, value: nat, last: nat)

  const NO_ENTRY := Entry(0, 0, 0, 0)

  datatype Trigger = Trigger(cid: byte, aid: seq<byte>, data: seq<Entry>)

  /** Bytes of one value of a type; entries of unknown type have none. */
  function Width(kind: byte): nat {
    if kind == UINT32 then 4 else if kind == UINT64 then 8 else 0
  }

  predicate GoodEntry(e: Entry) {
    e.value < Pow256(Width(e.kind)) && e.last < Pow256(Width(e.kind))
  }

  predicate GoodTrigger(t: Trigger) {
    |t.aid| == ACTIONS && |t.data| <= MAX_ENTRIES && forall i :: 0 <= i < |t.data| ==> GoodEntry(t.data[i])
  }

  function EncodeEntry(e: Entry): seq<byte> {
    [e.index, e.kind] + Save(e.value, Width(e.kind)) + Save(e.last, Width(e.kind))
  }

  function EncodeEntries(es: seq<Entry>): seq<byte> {
    if es == [] then [] else EncodeEntry(es[0]) + EncodeEntries(es[1..])
  }

  /** The layout the sensor hub uses; message id, chip number and result are not looked at. */
  function Encode(t: Trigger, msgid: byte, chip: byte, result: byte): seq<byte>
    requires |t.aid| == ACTIONS && |t.data| <= MAX_ENTRIES
  {
    [msgid, chip, t.cid] + t.aid + [result, |t.data|] + EncodeEntries(t.data)
  }

  /** The entry at the start of some bytes, if they hold one. */
  function ParseEntry(s: seq<byte>): Option<Entry> {
    if |s| < 2 || |s| < 2 + 2 * Width(s[1]) then None
    else
      var w := Width(s[1]);
      Some(Entry(s[0], s[1], Convert(s[2..2 + w]), Convert(s[2 + w..2 + 2 * w])))
  }

  function EntrySize(kind: byte): nat {
    2 + 2 * Width(kind)
  }

  function ParseEntries(s: seq<byte>, n: nat): Option<seq<Entry>> {
    if n == 0 then Some([])
    else
      var first := ParseEntry(s);
      if first.None? then None
      else
        var rest := ParseEntries(s[EntrySize(s[1])..], n - 1);
        if rest.None? then None else Some([first.value] + rest.value)
  }

  function Parse(s: seq<byte>): Option<Trigger> {
    if |s| < TRIGGER_SLOT_RESERVED then None
    else
      var data := ParseEntries(s[TRIGGER_SLOT_RESERVED..], s[TRIGGER_SLOT_SIZE]);
      if data.None? then None
      else Some(Trigger(s[TRIGGER_SLOT_CID], s[TRIGGER_SLOT_AID1..TRIGGER_SLOT_RESULT], data.value))
  }

  /** Where everything is in a record. */
  lemma RecordLayout(t: Trigger, msgid: byte, chip: byte, result: byte)
    requires GoodTrigger(t)
    ensures var s := Encode(t, msgid, chip, result);
            && |s| >= 9 && s[0] == msgid && s[1] == chip && s[2] == t.cid && s[3..7] == t.aid && s[7] == result
            && s[8] == |t.data| && s[9..] == EncodeEntries(t.data)
  {
    hide EncodeEntries, GoodEntry;
    var s := Encode(t, msgid, chip, result);
    assert s[3..7] == t.aid && s[9..] == EncodeEntries(t.data);
  }

  /** An entry is index, type, and two numbers of four bytes for type 1, of eight for type 2. */
  lemma EntryLayout(e: Entry)
    requires GoodEntry(e)
    ensures var s, w := EncodeEntry(e), if e.kind == 1 then 4 else if e.kind == 2 then 8 else 0;
            && |s| == 2 + 2 * w && s[0] == e.index && s[1] == e.kind
            && Convert(s[2..2 + w]) == e.value && Convert(s[2 + w..]) == e.last
  {
    var s, w := EncodeEntry(e), Width(e.kind);
    ConvertOfSave(e.value, w);
    ConvertOfSave(e.last, w);
    assert s[2..2 + w] == Save(e.value, w) && s[2 + w..] == Save(e.last, w);
  }

  lemma ParseEncodedEntry(e: Entry, rest: seq<byte>)
    requires GoodEntry(e)
    ensures ParseEntry(EncodeEntry(e) + rest) == Some(e)
    ensures |EncodeEntry(e)| == EntrySize(e.kind) && (EncodeEntry(e) + rest)[EntrySize(e.kind)..] == rest
  {
    var w := Width(e.kind);
    var s := EncodeEntry(e) + rest;
    assert s[2..2 + w] == Save(e.value, w);
    assert s[2 + w..2 + 2 * w] == Save(e.last, w);
    ConvertOfSave(e.value, w);
    ConvertOfSave(e.last, w);
  }

  lemma {:induction false} ParseEncodedEntries(es: seq<Entry>, rest: seq<byte>)
    requires forall i :: 0 <= i < |es| ==> GoodEntry(es[i])
    ensures ParseEntries(EncodeEntries(es) + rest, |es|) == Some(es)
  {
    if es == [] {
    } else {
      var tail := EncodeEntries(es[1..]) + rest;
      assert EncodeEntries(es) + rest == EncodeEntry(es[0]) + tail;
      ParseEncodedEntry(es[0], tail);
      ParseEncodedEntries(es[1..], rest);
      assert (EncodeEntry(es[0]) + tail)[1] == es[0].kind;
      assert [es[0]] + es[1..] == es;
    }
  }

  /** A record comes back as it was, whatever follows it in the buffer. */
  lemma RoundTrip(t: Trigger, msgid: byte, chip: byte, result: byte, rest: seq<byte>)
    requires GoodTrigger(t)
    ensures Parse(Encode(t, msgid, chip, result) + rest) == Some(t)
  {
    hide ParseEntries, EncodeEntries, GoodEntry;
    ParseEncodedEntries(t.data, rest);
    var s := Encode(t, msgid, chip, result) + rest;
    assert s[TRIGGER_SLOT_CID] == t.cid && s[TRIGGER_SLOT_SIZE] == |t.data|;
    assert s[TRIGGER_SLOT_RESERVED..] == EncodeEntries(t.data) + rest;
    assert s[TRIGGER_SLOT_AID1..TRIGGER_SLOT_RESULT] == t.aid;
  }

  lemma {:induction false} CutEntries(es: seq<Entry>, k: nat)
    requires k < |EncodeEntries(es)|
    ensures ParseEntries(EncodeEntries(es)[..k], |es|) == None
  {
    if es == [] {
    } else {
      var first, tail := EncodeEntry(es[0]), EncodeEntries(es[1..]);
      var s := EncodeEntries(es)[..k];
      if k >= |first| {
        assert s[1] == es[0].kind;
        assert s[|first|..] == tail[..k - |first|];
        CutEntries(es[1..], k - |first|);
      } else if k >= 2 {
        assert s[1] == es[0].kind;
      }
    }
  }

  /** A record cut short anywhere is rejected. */
  lemma StrictPrefixIsRejected(t: Trigger, msgid: byte, chip: byte, result: byte, k: nat)
    requires GoodTrigger(t) && k < |Encode(t, msgid, chip, result)|
    ensures Parse(Encode(t, msgid, chip, result)[..k]) == None
  {
    var s := Encode(t, msgid, chip, result)[..k];
    if k >= TRIGGER_SLOT_RESERVED {
      assert s[TRIGGER_SLOT_SIZE] == |t.data|;
      assert s[TRIGGER_SLOT_RESERVED..] == EncodeEntries(t.data)[..k - TRIGGER_SLOT_RESERVED];
      CutEntries(t.data, k - TRIGGER_SLOT_RESERVED);
    }
  }

  lemma ParsedEntry(s: seq<byte>)
    requires ParseEntry(s).Some?
    ensures var e := ParseEntry(s).value; GoodEntry(e) && EncodeEntry(e) == s[..EntrySize(s[1])]
  {
    var w := Width(s[1]);
    var value, last := s[2..2 + w], s[2 + w..2 + 2 * w];
    SaveOfConvert(value);
    SaveOfConvert(last);
    hide Width, Save, Convert, Pow256;
    assert s[..2 + 2 * w] == [s[0], s[1]] + value + last;
  }

  lemma {:induction false} ParsedEntries(s: seq<byte>, n: nat)
    requires ParseEntries(s, n).Some?
    ensures var es := ParseEntries(s, n).value;
            && |es| == n && (forall i :: 0 <= i < n ==> GoodEntry(es[i]))
            && EncodeEntries(es) <= s
  {
    if n == 0 {
    } else {
      ParsedEntry(s);
      ParsedEntries(s[EntrySize(s[1])..], n - 1);
      var es := ParseEntries(s, n).value;
      assert es[1..] == ParseEntries(s[EntrySize(s[1])..], n - 1).value;
      assert s == s[..EntrySize(s[1])] + s[EntrySize(s[1])..];
    }
  }

  /** What is accepted as a record of at most eight entries begins with the encoding of just the
      fields that are delivered. */
  lemma AcceptedIsEncoded(s: seq<byte>)
    requires Parse(s).Some? && s[TRIGGER_SLOT_SIZE] <= MAX_ENTRIES
    ensures var t := Parse(s).value; GoodTrigger(t) && Encode(t, s[0], s[1], s[7]) <= s
  {
    hide ParseEntries, EncodeEntries, GoodEntry;
    ParsedEntries(s[TRIGGER_SLOT_RESERVED..], s[TRIGGER_SLOT_SIZE]);
    HeaderBytes(s);
  }

  lemma HeaderBytes(s: seq<byte>)
    requires |s| >= TRIGGER_SLOT_RESERVED
    ensures s == [s[0], s[1], s[TRIGGER_SLOT_CID]] + s[TRIGGER_SLOT_AID1..TRIGGER_SLOT_RESULT]
                 + [s[7], s[TRIGGER_SLOT_SIZE]] + s[TRIGGER_SLOT_RESERVED..]
  {
  }

  /** A record sent in a frame arrives with all its fields or not at all, whatever state earlier
      traffic left the receiver in; it arrives unless its second fragment looks like a header. */
  lemma RecordArrivesWhole(r: Shf.Receiver, t: Trigger, msgid: byte, chip: byte, result: byte)
    requires Shf.Plausible(r) && GoodTrigger(t)
    requires |Encode(t, msgid, chip, result)| <= Shf.MAX_PAYLOAD
    ensures var record := Encode(t, msgid, chip, result);
            var handled := Shf.Feed(r, Shf.Fragments(Shf.Frame(record))).1;
            if Shf.Followed(record) then |handled| == 1 && Parse(handled[0]) == Some(t) else handled == []
  {
    hide Parse, GoodEntry, EncodeEntries, Shf.Feed, Shf.Fragments, Shf.Frame, Shf.Followed, Shf.Plausible;
    var record := Encode(t, msgid, chip, result);
    Shf.ExactPayloadOrNothing(r, record);
    RoundTrip(t, msgid, chip, result, []);
    assert record + [] == record;
  }

  /** Entries already read before those still to come. */
  function Prepended(es: seq<Entry>, more: Option<seq<Entry>>): Option<seq<Entry>> {
    if more.None? then None else Some(es + more.value)
  }

  lemma PrependedMore(es: seq<Entry>, e: Entry, more: Option<seq<Entry>>)
    ensures Prepended(es, Prepended([e], more)) == Prepended(es + [e], more)
  {
    if more.Some? {
      assert es + ([e] + more.value) == es + [e] + more.value;
    }
  }

  /** The entry, and some entries, from a place on. */
  function EntryAt(s: seq<byte>, used: nat): Option<Entry>
    requires used <= |s|
  {
    ParseEntry(s[used..])
  }

  function EntriesAt(s: seq<byte>, used: nat, n: nat): Option<seq<Entry>>
    requires used <= |s|
  {
    ParseEntries(s[used..], n)
  }

  lemma EntriesFrom(s: seq<byte>, used: nat, n: nat)
    requires used <= |s|
    ensures n == 0 ==> EntriesAt(s, used, n) == Some([])
    ensures n > 0 && EntryAt(s, used).None? ==> EntriesAt(s, used, n) == None
    ensures n > 0 && EntryAt(s, used).Some? ==>
              && used + 1 < |s| && used + EntrySize(s[used + 1]) <= |s|
              && EntriesAt(s, used, n)
                   == Prepended([EntryAt(s, used).value], EntriesAt(s, used + EntrySize(s[used + 1]), n - 1))
  {
    if ParseEntry(s[used..]).Some? {
      assert s[used..][EntrySize(s[used + 1])..] == s[used + EntrySize(s[used + 1])..];
    }
  }

  /** The first `n` entries of a message are those read already and those from `used` on. */
  predicate SoFar(s: seq<byte>, n: nat, done: seq<Entry>, used: nat) {
    && TRIGGER_SLOT_RESERVED <= |s| && used <= |s| && |done| <= n
    && EntriesAt(s, TRIGGER_SLOT_RESERVED, n) == Prepended(done, EntriesAt(s, used, n - |done|))
  }

  lemma NoneYet(s: seq<byte>, n: nat)
    requires TRIGGER_SLOT_RESERVED <= |s|
    ensures SoFar(s, n, [], TRIGGER_SLOT_RESERVED)
  {
    hide EntriesAt;
    var more := EntriesAt(s, TRIGGER_SLOT_RESERVED, n);
    assert more.Some? ==> [] + more.value == more.value;
  }

  lemma OneMore(s: seq<byte>, n: nat, done: seq<Entry>, used: nat)
    requires SoFar(s, n, done, used) && |done| < n
    ensures EntryAt(s, used).None? ==> EntriesAt(s, TRIGGER_SLOT_RESERVED, n) == None
    ensures EntryAt(s, used).Some? ==>
              && used + 1 < |s|
              && SoFar(s, n, done + [EntryAt(s, used).value], used + EntrySize(s[used + 1]))
  {
    hide EntryAt, EntriesAt, EntrySize;
    EntriesFrom(s, used, n - |done|);
    if EntryAt(s, used).Some? {
      var e, next := EntryAt(s, used).value, used + EntrySize(s[used + 1]);
      PrependedMore(done, e, EntriesAt(s, next, n - |done| - 1));
    }
  }

  /** The place behind `n` entries that begin at `used`, if they are all there. */
  function Behind(s: seq<byte>, used: nat, n: nat): Option<nat>
    requires used <= |s|
    decreases n
  {
    if n == 0 then Some(used)
    else if EntryAt(s, used).None? then None
    else Behind(s, used + EntrySize(s[used + 1]), n - 1)
  }

  lemma BehindNext(s: seq<byte>, used: nat, n: nat)
    requires used <= |s|
    ensures n == 0 ==> Behind(s, used, n) == Some(used)
    ensures n > 0 && EntryAt(s, used).Some? ==>
              && used + 1 < |s| && used + EntrySize(s[used + 1]) <= |s|
              && Behind(s, used, n) == Behind(s, used + EntrySize(s[used + 1]), n - 1)
    ensures |s| < used + 2 ==> EntryAt(s, used).None?
  {
  }

  /** Index and type of a ninth entry would be written behind the record. */
  predicate HasNinth(s: seq<byte>)
    requires TRIGGER_SLOT_RESERVED <= |s|
  {
    var end := Behind(s, TRIGGER_SLOT_RESERVED, MAX_ENTRIES);
    end.Some? && |s| >= end.value + 2
  }

  /** A message overruns the record if it announces more than eight entries and has the start of a
      ninth. */
  predicate FitsRecord(s: seq<byte>) {
    |s| >= TRIGGER_SLOT_RESERVED && s[TRIGGER_SLOT_SIZE] > MAX_ENTRIES ==> !HasNinth(s)
  }

  /** How far the loop has come with a message of `n` entries that does not overrun the record. */
  predicate Reading(s: seq<byte>, n: nat, done: seq<Entry>, used: nat) {
    && SoFar(s, n, done, used) && |done| <= MAX_ENTRIES && (n > MAX_ENTRIES ==> !HasNinth(s))
    && Behind(s, TRIGGER_SLOT_RESERVED, MAX_ENTRIES) == Behind(s, used, MAX_ENTRIES - |done|)
  }

  lemma ReadingMore(s: seq<byte>, n: nat, done: seq<Entry>, used: nat)
    requires Reading(s, n, done, used) && |done| < n
    ensures used <= |s|
    ensures EntryAt(s, used).None? ==> EntriesAt(s, TRIGGER_SLOT_RESERVED, n) == None
    ensures EntryAt(s, used).Some? ==>
              && |done| < MAX_ENTRIES && used + 1 < |s|
              && Reading(s, n, done + [EntryAt(s, used).value], used + EntrySize(s[used + 1]))
  {
    hide EntryAt, EntriesAt, EntrySize, Behind;
    OneMore(s, n, done, used);
    BehindNext(s, used, MAX_ENTRIES - |done|);
    hide SoFar;
  }

  lemma AllRead(s: seq<byte>, done: seq<Entry>, used: nat)
    requires Reading(s, |done|, done, used)
    ensures EntriesAt(s, TRIGGER_SLOT_RESERVED, |done|) == Some(done)
  {
    assert done + [] == done;
  }

  /** The record the message handler fills in; unused entries are zero. */
  class SensorTriggerData {
    var cid: byte
    var aid: seq<byte>
    const data: array<Entry>

    ghost predicate Valid()
      reads this, data
    {
      data.Length == MAX_ENTRIES
    }

    /** The first entries are these, and the others are zero. */
    ghost predicate Filled(entries: seq<Entry>)
      requires Valid()
      reads this, data
    {
      && |entries| <= MAX_ENTRIES && data[..|entries|] == entries
      && forall i :: |entries| <= i < MAX_ENTRIES ==> data[i] == NO_ENTRY
    }

    /** The record holds `t` and nothing else. */
    ghost predicate Holds(t: Trigger)
      requires Valid()
      reads this, data
    {
      cid == t.cid && aid == t.aid && Filled(t.data)
    }

    constructor ()
      ensures Valid() && fresh(data)
    {
      cid, aid := 0, [];
      data := new Entry[MAX_ENTRIES](i => NO_ENTRY);
    }

    method Clear()
      requires Valid()
      modifies this, data
      ensures Filled([])
    {
      cid, aid := 0, [];
      for i := 0 to MAX_ENTRIES
        invariant forall j :: 0 <= j < i ==> data[j] == NO_ENTRY
      {
        data[i] := NO_ENTRY;
      }
    }

    method BuildTriggerData(message: array<byte>) returns (ok: bool)
      requires Valid() && FitsRecord(message[..])
      modifies this, data
      ensures ok == Parse(message[..]).Some?
      ensures ok ==> Holds(Parse(message[..]).value)
    {
      if message.Length < TRIGGER_SLOT_RESERVED {
        return false;
      }
      Clear();
      cid := message[TRIGGER_SLOT_CID];
      aid := message[TRIGGER_SLOT_AID1..TRIGGER_SLOT_AID1 + ACTIONS];
      ok := ReadEntries(message, message[TRIGGER_SLOT_SIZE]);
    }

    /** The loop over the entries, into a cleared record. */
    method ReadEntries(message: array<byte>, itemSize: nat) returns (ok: bool)
      requires Valid() && Filled([]) && TRIGGER_SLOT_RESERVED <= message.Length
      requires itemSize > MAX_ENTRIES ==> !HasNinth(message[..])
      modifies data
      ensures var parsed := EntriesAt(message[..], TRIGGER_SLOT_RESERVED, itemSize);
              ok == parsed.Some? && (ok ==> Filled(parsed.value))
    {
      ghost var bytes := message[..];
      var used: nat := TRIGGER_SLOT_RESERVED;
      ghost var done: seq<Entry> := [];
      NoneYet(bytes, itemSize);
      assert Reading(bytes, itemSize, done, used);
      hide Reading, EntryAt, EntriesAt, EntrySize;
      for i := 0 to itemSize
        invariant i == |done| <= MAX_ENTRIES && used <= message.Length && Filled(done) && message[..] == bytes
        invariant Reading(bytes, itemSize, done, used)
      {
        ReadingMore(bytes, itemSize, done, used);
        var entry := ReadEntry(message, used);
        if entry == None {
          return false;
        }
        data[i] := entry.value;
        used := used + EntrySize(message[used + 1]);
        done := done + [entry.value];
      }
      AllRead(bytes, done, used);
      ok := true;
    }

    /** One turn of the loop: an entry and the values its type calls for. */
    static method ReadEntry(message: array<byte>, used: nat) returns (entry: Option<Entry>)
      requires used <= message.Length
      ensures entry == EntryAt(message[..], used)
      ensures entry.Some? ==> used + 1 < message.Length && used + EntrySize(message[used + 1]) <= message.Length
    {
      ghost var s := message[..][used..];
      var size := message.Length;
      if size < used + 2 {
        return None;
      }
      var e := NO_ENTRY.(index := message[used], kind := message[used + 1]);
      var at := used + 2;
      if e.kind == UINT32 {
        if size < at + 8 {
          return None;
        }
        var value := ConvertUint8ToUint32(message, at);
        var last := ConvertUint8ToUint32(message, at + 4);
        assert s[2..6] == message[at..at + 4] && s[6..10] == message[at + 4..at + 8];
        e := e.(value := value, last := last);
      } else if e.kind == UINT64 {
        if size < at + 16 {
          return None;
        }
        var value := ConvertUint8ToUint64(message, at);
        var last := ConvertUint8ToUint64(message, at + 8);
        assert s[2..10] == message[at..at + 8] && s[10..18] == message[at + 8..at + 16];
        e := e.(value := value, last := last);
      }
      entry := Some(e);
    }
  }
}
