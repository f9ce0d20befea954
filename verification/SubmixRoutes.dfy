/** The route table of the remote submix audio device (audio_remote_submix/audio_hw.cpp): streams
    are opened and closed by address; the output and the input on one address share a pipe, and an
    input that is opened again is the same stream with one more reference. */
module SubmixRoutes {
  import opened Common

  const MAX_ROUTES := 10
  const MAX_ADDRESS_LEN := 32
  const DEFAULT_SAMPLE_RATE_HZ := 48000
  const IN_MONO := 0x10
  const IN_STEREO := 0x0C
  const OUT_MONO := 0x1
  const OUT_STEREO := 0x3

  const SUPPORTED_RATES: seq<nat> := [8000, 11025, 12000, 16000, 22050, 24000, 32000, 44100, 48000]

  function SupportedRate(rate: nat): nat {
    if rate in SUPPORTED_RATES then rate else DEFAULT_SAMPLE_RATE_HZ
  }

  function SupportedInMask(mask: nat): nat {
    if mask == IN_MONO || mask == IN_STEREO then mask else IN_STEREO
  }

  function SupportedOutMask(mask: nat): nat {
    if mask == OUT_MONO || mask == OUT_STEREO then mask else OUT_STEREO
  }

  /** Only the first bytes of an address are stored and compared. */
  function Key(address: string): string {
    if |address| <= MAX_ADDRESS_LEN then address else address[..MAX_ADDRESS_LEN]
  }

  /** A slot of the route table.  Streams are known by numbers; `commonRate` is the rate the pipe
      was created with. */
  datatype Route = Route(
    address: string,
    pipe: bool,
    commonRate: nat,
    inputMask: nat, inputRate: nat,
    outputMask: nat, outputRate: nat,
    output: Option<nat>,
    input: Option<nat>)
  {
    predicate Open() { output.Some? || input.Some? }
  }

  const UNUSED := Route("", false, 0, 0, 0, 0, 0, None, None)

  datatype InStream = InStream(route: nat, refCount: nat)

  /** The device: its slots, the open output streams with their route, the open input streams. */
  datatype Device = Device(routes: seq<Route>, outs: map<nat, nat>, ins: map<nat, InStream>, nextId: nat)

  datatype Result = Opened(id: nat) | NoMemory | Invalid

  // ---------- What the operations do ----------

  function FirstAt(routes: seq<Route>, key: string, from: nat): (r: Option<nat>)
    requires from <= |routes|
    ensures r.Some? ==> from <= r.value < |routes| && routes[r.value].address == key
    ensures r.None? ==> forall i :: from <= i < |routes| ==> routes[i].address != key
    decreases |routes| - from
  {
    if from == |routes| then None
    else if routes[from].address == key then Some(from)
    else FirstAt(routes, key, from + 1)
  }

  function LastEmpty(routes: seq<Route>): (r: Option<nat>)
    ensures r.Some? ==> r.value < |routes| && routes[r.value].address == ""
    ensures r.None? ==> forall i :: 0 <= i < |routes| ==> routes[i].address != ""
  {
    if routes == [] then None
    else if routes[|routes| - 1].address == "" then Some(|routes| - 1)
    else LastEmpty(routes[..|routes| - 1])
  }

  /** The slot of an address, else a free slot. */
  function Lookup(routes: seq<Route>, key: string): (r: Option<nat>)
    ensures r.Some? ==>
              && r.value < |routes|
              && (routes[r.value].address != key ==>
                    routes[r.value].address == "" && forall i :: 0 <= i < |routes| ==> routes[i].address != key)
    ensures r.None? ==> forall i :: 0 <= i < |routes| ==> routes[i].address != key && routes[i].address != ""
  {
    var found := FirstAt(routes, key, 0);
    if found.Some? then found else LastEmpty(routes)
  }

  /** Equal rates, unless the input is mono. */
  predicate Compatible(inputRate: nat, inputMask: nat, outputRate: nat) {
    inputRate == outputRate || inputMask == IN_MONO
  }

  /** An open stream is compared by the rate of the pipe, not by its own. */
  predicate CanOpen(r: Route, rate: nat, mask: nat, openingInput: bool) {
    && (openingInput || r.output.None?)
    && (r.Open() ==>
          if openingInput then Compatible(rate, mask, r.commonRate) else Compatible(r.commonRate, r.inputMask, rate))
  }

  function WithPipe(r: Route, rate: nat): Route {
    if r.pipe then r else r.(pipe := true, commonRate := rate)
  }

  /** A pipe of another rate is dropped and made anew. */
  function WithOutput(r: Route, key: string, id: nat, rate: nat, mask: nat): Route {
    var kept := if r.commonRate != rate then r.(pipe := false) else r;
    WithPipe(kept.(address := key, output := Some(id), outputMask := mask, outputRate := rate), rate)
  }

  function WithInput(r: Route, key: string, id: nat, rate: nat, mask: nat): Route {
    var own := r.(address := key, input := Some(id), inputMask := mask, inputRate := rate);
    WithPipe(if r.output.None? then own.(outputRate := 48000, outputMask := OUT_STEREO) else own, rate)
  }

  /** Without streams the pipe and the address go. */
  function Settled(r: Route): Route {
    if r.Open() then r else r.(pipe := false, address := "")
  }

  /** The slot an open call works on, unless the call fails. */
  function Target(d: Device, address: string, rate: nat, mask: nat, openingInput: bool): (r: Option<nat>)
    ensures r.Some? ==> r.value < |d.routes|
  {
    var slot := Lookup(d.routes, Key(address));
    if slot.Some? && CanOpen(d.routes[slot.value], rate, mask, openingInput) then slot else None
  }

  function OpenedOutput(d: Device, address: string, rate: nat, mask: nat): (Device, Result) {
    var okRate, okMask := SupportedRate(rate), SupportedOutMask(mask);
    if Lookup(d.routes, Key(address)).None? then (d, NoMemory)
    else match Target(d, address, okRate, okMask, false)
      case None => (d, Invalid)
      case Some(i) =>
        (d.(routes := d.routes[i := WithOutput(d.routes[i], Key(address), d.nextId, okRate, okMask)],
            outs := d.outs[d.nextId := i], nextId := d.nextId + 1),
         Opened(d.nextId))
  }

  function OpenedInput(d: Device, address: string, rate: nat, mask: nat): (Device, Result) {
    var okRate, okMask := SupportedRate(rate), SupportedInMask(mask);
    if Lookup(d.routes, Key(address)).None? then (d, NoMemory)
    else match Target(d, address, okRate, okMask, true)
      case None => (d, Invalid)
      case Some(i) =>
        var again := d.routes[i].input;
        var id := if again.Some? then again.value else d.nextId;
        var count := if again.Some? && id in d.ins then d.ins[id].refCount + 1 else 1;
        (d.(routes := d.routes[i := WithInput(d.routes[i], Key(address), id, okRate, okMask)],
            ins := d.ins[id := InStream(i, count)], nextId := if again.Some? then d.nextId else d.nextId + 1),
         Opened(id))
  }

  function ClosedOutput(d: Device, id: nat): Device
    requires id in d.outs && d.outs[id] < |d.routes|
  {
    var i := d.outs[id];
    d.(routes := d.routes[i := Settled(d.routes[i].(output := None))], outs := d.outs - {id})
  }

  function ClosedInput(d: Device, id: nat): Device
    requires id in d.ins && d.ins[id].route < |d.routes| && d.ins[id].refCount > 0
  {
    var s := d.ins[id];
    if s.refCount == 1 then
      d.(routes := d.routes[s.route := Settled(d.routes[s.route].(input := None))], ins := d.ins - {id})
    else
      d.(routes := d.routes[s.route := Settled(d.routes[s.route])], ins := d.ins[id := s.(refCount := s.refCount - 1)])
  }

  // ---------- Runs ----------

  datatype Call =
    | OpenOutput(address: string, rate: nat, mask: nat)
    | CloseOutput(id: nat)
    | OpenInput(address: string, rate: nat, mask: nat)
    | CloseInput(id: nat)

  /** Callers close only streams that are open. */
  predicate Legal(d: Device, c: Call) {
    match c
    case CloseOutput(id) => id in d.outs && d.outs[id] < |d.routes|
    case CloseInput(id) => id in d.ins && d.ins[id].route < |d.routes| && d.ins[id].refCount > 0
    case _ => true
  }

  function Apply(d: Device, c: Call): Device {
    if !Legal(d, c) then d
    else match c
      case OpenOutput(address, rate, mask) => OpenedOutput(d, address, rate, mask).0
      case CloseOutput(id) => ClosedOutput(d, id)
      case OpenInput(address, rate, mask) => OpenedInput(d, address, rate, mask).0
      case CloseInput(id) => ClosedInput(d, id)
  }

  function Empty(): Device {
    Device(seq(MAX_ROUTES, i => UNUSED), map[], map[], 0)
  }

  function Run(calls: seq<Call>): Device {
    if calls == [] then Empty() else Apply(Run(calls[..|calls| - 1]), calls[|calls| - 1])
  }

  predicate Named(c: Call) {
    (c.OpenOutput? || c.OpenInput?) ==> c.address != ""
  }

  // ---------- The table invariant ----------

  /** A slot has an address, a pipe and a stream together or not at all; its streams point back;
      the output has the rate of the pipe, and so has an input that is not mono. */
  predicate RouteInv(d: Device, i: nat)
    requires i < |d.routes|
  {
    var r := d.routes[i];
    && (r.address != "" <==> r.Open())
    && (r.pipe <==> r.Open())
    && (r.output.Some? ==> r.output.value in d.outs && d.outs[r.output.value] == i && r.outputRate == r.commonRate)
    && (r.input.Some? ==> r.input.value in d.ins && d.ins[r.input.value].route == i)
    && (r.input.Some? && r.inputMask != IN_MONO ==> r.inputRate == r.commonRate)
  }

  predicate OutInv(d: Device, id: nat)
    requires id in d.outs
  {
    id < d.nextId && d.outs[id] < |d.routes| && d.routes[d.outs[id]].output == Some(id)
  }

  predicate InInv(d: Device, id: nat)
    requires id in d.ins
  {
    && id < d.nextId && d.ins[id].route < |d.routes| && d.ins[id].refCount > 0
    && d.routes[d.ins[id].route].input == Some(id)
  }

  predicate Distinct(routes: seq<Route>) {
    forall i, j :: 0 <= i < j < |routes| && routes[i].address != "" ==> routes[i].address != routes[j].address
  }

  predicate Inv(d: Device) {
    && |d.routes| == MAX_ROUTES
    && Distinct(d.routes)
    && (forall i :: 0 <= i < |d.routes| ==> RouteInv(d, i))
    && (forall id :: id in d.outs ==> OutInv(d, id))
    && (forall id :: id in d.ins ==> InInv(d, id))
  }

  lemma StillDistinct(routes: seq<Route>, i: nat, r: Route)
    requires Distinct(routes) && i < |routes|
    requires forall j :: 0 <= j < |routes| && j != i ==> routes[j].address != r.address
    ensures Distinct(routes[i := r])
  {
  }

  /** The slot an open call works on is its own or a free one, and no other has the address. */
  lemma TargetSlot(d: Device, address: string, rate: nat, mask: nat, openingInput: bool)
    requires Inv(d) && address != "" && Target(d, address, rate, mask, openingInput).Some?
    ensures var i := Target(d, address, rate, mask, openingInput).value;
            && RouteInv(d, i) && CanOpen(d.routes[i], rate, mask, openingInput)
            && (forall j :: 0 <= j < |d.routes| && j != i ==> d.routes[j].address != Key(address))
  {
    hide RouteInv, OutInv, InInv, CanOpen;
  }

  /** An input that is open already keeps its stream. */
  lemma InputAgain(d: Device, i: nat)
    requires Inv(d) && i < |d.routes| && d.routes[i].input.Some?
    ensures d.routes[i].input.value in d.ins && d.routes[i].input.value < d.nextId
  {
    assert RouteInv(d, i) && InInv(d, d.routes[i].input.value);
  }

  lemma OpenOutputKeepsInv(d: Device, address: string, rate: nat, mask: nat)
    requires Inv(d) && address != ""
    ensures Inv(OpenedOutput(d, address, rate, mask).0)
  {
    var okRate, okMask := SupportedRate(rate), SupportedOutMask(mask);
    if Target(d, address, okRate, okMask, false).Some? {
      TargetSlot(d, address, okRate, okMask, false);
      var i := Target(d, address, okRate, okMask, false).value;
      var r := WithOutput(d.routes[i], Key(address), d.nextId, okRate, okMask);
      StillDistinct(d.routes, i, r);
      OutputTied(d, i, r, okRate);
    }
  }

  /** Tying a new output to a slot without one. */
  lemma OutputTied(d: Device, i: nat, r: Route, rate: nat)
    requires Inv(d) && i < |d.routes| && RouteInv(d, i) && d.routes[i].output.None? && Distinct(d.routes[i := r])
    requires r.address != "" && r.pipe && r.output == Some(d.nextId) && r.outputRate == r.commonRate == rate
    requires r.input == d.routes[i].input && r.inputMask == d.routes[i].inputMask
    requires r.inputRate == d.routes[i].inputRate
    requires r.input.Some? && r.inputMask != IN_MONO ==> r.inputRate == rate
    ensures Inv(d.(routes := d.routes[i := r], outs := d.outs[d.nextId := i], nextId := d.nextId + 1))
  {
    hide Distinct;
    var e := d.(routes := d.routes[i := r], outs := d.outs[d.nextId := i], nextId := d.nextId + 1);
    forall j | 0 <= j < |e.routes| ensures RouteInv(e, j) {
      assert RouteInv(d, j);
    }
    forall id | id in e.outs ensures OutInv(e, id) {
      assert id in d.outs ==> OutInv(d, id);
    }
    forall id | id in e.ins ensures InInv(e, id) {
      assert InInv(d, id);
    }
  }

  lemma OpenInputKeepsInv(d: Device, address: string, rate: nat, mask: nat)
    requires Inv(d) && address != ""
    ensures Inv(OpenedInput(d, address, rate, mask).0)
  {
    var okRate, okMask := SupportedRate(rate), SupportedInMask(mask);
    if Target(d, address, okRate, okMask, true).Some? {
      TargetSlot(d, address, okRate, okMask, true);
      hide Inv, Distinct;
      var i := Target(d, address, okRate, okMask, true).value;
      var (e, result) := OpenedInput(d, address, rate, mask);
      var id := result.id;
      if d.routes[i].input.Some? {
        InputAgain(d, i);
      }
      StillDistinct(d.routes, i, e.routes[i]);
      InputTied(d, i, e.routes[i], id, e.ins[id].refCount);
    }
  }

  /** Tying a new input to a slot without one, or counting the one it has. */
  lemma InputTied(d: Device, i: nat, r: Route, id: nat, count: nat)
    requires Inv(d) && i < |d.routes| && RouteInv(d, i) && Distinct(d.routes[i := r])
    requires d.routes[i].input == (if id < d.nextId then Some(id) else None) && id <= d.nextId && count > 0
    requires r.address != "" && r.pipe && r.input == Some(id) && r.output == d.routes[i].output
    requires r.inputMask != IN_MONO ==> r.inputRate == r.commonRate
    requires r.output.Some? ==> r.outputRate == d.routes[i].outputRate && r.commonRate == d.routes[i].commonRate
    ensures Inv(d.(routes := d.routes[i := r], ins := d.ins[id := InStream(i, count)],
                   nextId := if id < d.nextId then d.nextId else d.nextId + 1))
  {
    hide Distinct;
    var e := d.(routes := d.routes[i := r], ins := d.ins[id := InStream(i, count)],
                nextId := if id < d.nextId then d.nextId else d.nextId + 1);
    forall j | 0 <= j < |e.routes| ensures RouteInv(e, j) {
      assert RouteInv(d, j);
    }
    forall o | o in e.outs ensures OutInv(e, o) {
      assert OutInv(d, o);
    }
    forall o | o in e.ins ensures InInv(e, o) {
      assert o in d.ins ==> InInv(d, o);
    }
  }

  lemma CloseOutputKeepsInv(d: Device, id: nat)
    requires Inv(d) && id in d.outs
    ensures OutInv(d, id) && Inv(ClosedOutput(d, id))
  {
    assert OutInv(d, id);
    var e := ClosedOutput(d, id);
    forall i | 0 <= i < |e.routes| ensures RouteInv(e, i) {
      assert RouteInv(d, i);
    }
    forall o | o in e.outs ensures OutInv(e, o) {
      assert OutInv(d, o);
    }
    forall o | o in e.ins ensures InInv(e, o) {
      assert InInv(d, o);
    }
  }

  lemma CloseInputKeepsInv(d: Device, id: nat)
    requires Inv(d) && id in d.ins
    ensures InInv(d, id) && Inv(ClosedInput(d, id))
  {
    assert InInv(d, id);
    var e := ClosedInput(d, id);
    forall i | 0 <= i < |e.routes| ensures RouteInv(e, i) {
      assert RouteInv(d, i);
    }
    forall o | o in e.outs ensures OutInv(e, o) {
      assert OutInv(d, o);
    }
    forall o | o in e.ins ensures InInv(e, o) {
      assert InInv(d, o);
    }
  }

  lemma StepKeepsInv(d: Device, c: Call)
    requires Inv(d) && Named(c)
    ensures Inv(Apply(d, c))
  {
    hide Inv, OpenedOutput, OpenedInput, ClosedOutput, ClosedInput;
    if Legal(d, c) {
      match c
      case OpenOutput(address, rate, mask) => OpenOutputKeepsInv(d, address, rate, mask);
      case CloseOutput(id) => CloseOutputKeepsInv(d, id);
      case OpenInput(address, rate, mask) => OpenInputKeepsInv(d, address, rate, mask);
      case CloseInput(id) => CloseInputKeepsInv(d, id);
    }
  }

  predicate AllNamed(calls: seq<Call>) {
    forall i :: 0 <= i < |calls| ==> Named(calls[i])
  }

  /** The table is in order after every sequence of opens and closes with non-empty addresses. */
  lemma {:induction false} RunKeepsInv(calls: seq<Call>)
    requires AllNamed(calls)
    ensures Inv(Run(calls))
  {
    if calls == [] {
    } else {
      RunKeepsInv(calls[..|calls| - 1]);
      StepKeepsInv(Run(calls[..|calls| - 1]), calls[|calls| - 1]);
    }
  }

  /** Whenever an input and an output are open on a route, their rates are equal or the input is
      mono, in every run. */
  lemma RatesStayCompatible(calls: seq<Call>, i: nat)
    requires AllNamed(calls) && i < MAX_ROUTES
    ensures |Run(calls).routes| == MAX_ROUTES
    ensures var r := Run(calls).routes[i];
            r.input.Some? && r.output.Some? ==> Compatible(r.inputRate, r.inputMask, r.outputRate)
  {
    RunKeepsInv(calls);
    assert RouteInv(Run(calls), i);
  }

  /** The empty address marks free slots, so opening it leaves a stream in a slot that counts as
      free, unless there is no free slot. */
  lemma OpenKeepsInvExactlyIfNamed(d: Device, address: string, rate: nat, mask: nat)
    requires Inv(d)
    ensures Inv(OpenedOutput(d, address, rate, mask).0) <==>
              address != "" || forall i :: 0 <= i < |d.routes| ==> d.routes[i].address != ""
    ensures Inv(OpenedInput(d, address, rate, mask).0) <==>
              address != "" || forall i :: 0 <= i < |d.routes| ==> d.routes[i].address != ""
  {
    if address != "" {
      OpenOutputKeepsInv(d, address, rate, mask);
      OpenInputKeepsInv(d, address, rate, mask);
    } else {
      var slot := Lookup(d.routes, "");
      if slot.Some? {
        var i := slot.value;
        assert RouteInv(d, i);
        assert !RouteInv(OpenedOutput(d, address, rate, mask).0, i);
        assert !RouteInv(OpenedInput(d, address, rate, mask).0, i);
      }
    }
  }

  /** The very first call can be such a one. */
  lemma SomeOpenBreaksTheTable()
    ensures !Inv(Run([OpenOutput("", 48000, OUT_STEREO)]))
    ensures !Inv(Run([OpenInput("", 48000, IN_STEREO)]))
  {
    RunKeepsInv([]);
    OpenKeepsInvExactlyIfNamed(Empty(), "", 48000, OUT_STEREO);
    OpenKeepsInvExactlyIfNamed(Empty(), "", 48000, IN_STEREO);
    assert Empty().routes[0].address == "";
    hide Inv, OpenedOutput, OpenedInput;
    RunOfOne(OpenOutput("", 48000, OUT_STEREO));
    RunOfOne(OpenInput("", 48000, IN_STEREO));
  }

  lemma RunOfOne(c: Call)
    ensures Run([c]) == Apply(Empty(), c)
  {
    assert [c][..0] == [];
  }

  /** A call runs out of slots exactly if ten other addresses are in use. */
  lemma NoMemoryExactlyIfFull(d: Device, address: string, rate: nat, mask: nat)
    requires Inv(d) && address != ""
    ensures (OpenedOutput(d, address, rate, mask).1 == NoMemory) == (OpenedInput(d, address, rate, mask).1 == NoMemory)
    ensures OpenedOutput(d, address, rate, mask).1 == NoMemory <==>
              |d.routes| == 10 && forall i :: 0 <= i < 10 ==> d.routes[i].Open() && d.routes[i].address != Key(address)
  {
    forall i | 0 <= i < MAX_ROUTES ensures d.routes[i].address != "" <==> d.routes[i].Open() {
      assert RouteInv(d, i);
    }
  }

  // ---------- What an open does ----------

  /** Two addresses are the same if they agree on their first 32 characters. */
  lemma SameAddress(a: string, b: string)
    ensures Key(a) == Key(b) <==> a == b || (|a| >= 32 && |b| >= 32 && a[..32] == b[..32])
  {
    if |a| == 32 {
      assert a[..32] == a;
    }
    if |b| == 32 {
      assert b[..32] == b;
    }
  }

  /** A rate or mask that is not supported is replaced by the default. */
  lemma SupportedConfigs(rate: nat, mask: nat)
    ensures rate in {8000, 11025, 12000, 16000, 22050, 24000, 32000, 44100, 48000} ==> SupportedRate(rate) == rate
    ensures rate !in {8000, 11025, 12000, 16000, 22050, 24000, 32000, 44100, 48000} ==> SupportedRate(rate) == 48000
    ensures SupportedInMask(mask) == if mask in {0x10, 0x0C} then mask else 0x0C
    ensures SupportedOutMask(mask) == if mask in {0x1, 0x3} then mask else 0x3
  {
    var rates := SUPPORTED_RATES;
    assert rates[0] == 8000 && rates[1] == 11025 && rates[2] == 12000 && rates[3] == 16000 && rates[4] == 22050;
    assert rates[5] == 24000 && rates[6] == 32000 && rates[7] == 44100 && rates[8] == 48000;
  }

  /** An output opens exactly if no output is open on its address and an input that is has the same rate
      or is mono; a new address needs a free slot. */
  lemma OutputOpensExactlyIf(d: Device, address: string, rate: nat, mask: nat)
    requires Inv(d) && address != ""
    ensures OpenedOutput(d, address, rate, mask).1.Opened? <==>
              || (exists i :: 0 <= i < |d.routes| && d.routes[i].address == Key(address) && d.routes[i].output == None
                              && (d.routes[i].commonRate == SupportedRate(rate) || d.routes[i].inputMask == IN_MONO))
              || ((forall i :: 0 <= i < |d.routes| ==> d.routes[i].address != Key(address))
                  && exists i :: 0 <= i < |d.routes| && d.routes[i].address == "")
  {
    hide RouteInv, OutInv, InInv, SupportedRate;
    SlotOfAddress(d, address);
  }

  /** An input opens exactly if it is mono or has the rate of the pipe on its address, if there is one;
      a new address needs a free slot. */
  lemma InputOpensExactlyIf(d: Device, address: string, rate: nat, mask: nat)
    requires Inv(d) && address != ""
    ensures OpenedInput(d, address, rate, mask).1.Opened? <==>
              || (exists i :: 0 <= i < |d.routes| && d.routes[i].address == Key(address)
                              && (d.routes[i].commonRate == SupportedRate(rate) || SupportedInMask(mask) == IN_MONO))
              || ((forall i :: 0 <= i < |d.routes| ==> d.routes[i].address != Key(address))
                  && exists i :: 0 <= i < |d.routes| && d.routes[i].address == "")
  {
    hide RouteInv, OutInv, InInv, SupportedRate;
    SlotOfAddress(d, address);
  }

  /** The slot of an address is the only one, and in use; a free one has no streams. */
  lemma SlotOfAddress(d: Device, address: string)
    requires Inv(d) && address != ""
    ensures var slot := Lookup(d.routes, Key(address));
            && (slot.Some? && d.routes[slot.value].address == Key(address) ==>
                  && d.routes[slot.value].Open()
                  && forall i :: 0 <= i < |d.routes| && i != slot.value ==> d.routes[i].address != Key(address))
            && (slot.Some? && d.routes[slot.value].address == "" ==> !d.routes[slot.value].Open())
  {
    if Lookup(d.routes, Key(address)).Some? {
      assert RouteInv(d, Lookup(d.routes, Key(address)).value);
    }
  }

  /** An output that opened has the slot of its address, with a pipe of its rate; the input there and
      all other slots stay as they were. */
  lemma OutputIsOpened(d: Device, address: string, rate: nat, mask: nat)
    requires Inv(d) && address != "" && OpenedOutput(d, address, rate, mask).1.Opened?
    ensures var (e, result) := OpenedOutput(d, address, rate, mask);
            && result.id == d.nextId && e.nextId == d.nextId + 1 && result.id in e.outs && e.ins == d.ins
            && e.outs == d.outs[result.id := e.outs[result.id]]
            && var i := e.outs[result.id];
            && i < |d.routes| && d.routes[i].address in {Key(address), ""}
            && var was, now := d.routes[i], e.routes[i];
            && now.address == Key(address) && now.output == Some(result.id) && now.pipe
            && now.outputRate == now.commonRate == SupportedRate(rate) && now.outputMask == SupportedOutMask(mask)
            && now.input == was.input && now.inputMask == was.inputMask && now.inputRate == was.inputRate
            && e.routes == d.routes[i := now]
  {
    hide RouteInv, OutInv, InInv, SupportedRate, SupportedOutMask;
  }

  /** An input that opened likewise; a pipe that is there keeps its rate. */
  lemma InputIsOpened(d: Device, address: string, rate: nat, mask: nat)
    requires Inv(d) && address != "" && OpenedInput(d, address, rate, mask).1.Opened?
    ensures var (e, result) := OpenedInput(d, address, rate, mask);
            && result.id in e.ins && e.outs == d.outs && e.ins == d.ins[result.id := e.ins[result.id]]
            && var i := e.ins[result.id].route;
            && i < |d.routes| && d.routes[i].address in {Key(address), ""}
            && var was, now := d.routes[i], e.routes[i];
            && now.address == Key(address) && now.input == Some(result.id) && now.pipe
            && now.inputRate == SupportedRate(rate) && now.inputMask == SupportedInMask(mask)
            && now.commonRate == (if was.output == None == was.input then SupportedRate(rate) else was.commonRate)
            && now.output == was.output
            && (was.output.Some? ==> now.outputRate == was.outputRate && now.outputMask == was.outputMask)
            && (was.input.Some? ==> result.id == was.input.value)
            && (was.input.None? ==> result.id == d.nextId)
            && e.routes == d.routes[i := now]
  {
    hide OutInv, InInv, SupportedRate, SupportedInMask;
    SlotOfAddress(d, address);
    assert RouteInv(d, OpenedInput(d, address, rate, mask).0.ins[OpenedInput(d, address, rate, mask).1.id].route);
  }

  /** A closed output leaves its slot, and the last stream takes the address and the pipe with it. */
  lemma OutputIsClosed(d: Device, id: nat)
    requires Inv(d) && id in d.outs
    ensures OutInv(d, id)
    ensures var e, i := Apply(d, CloseOutput(id)), d.outs[id];
            var was, now := d.routes[i], e.routes[i];
            && id !in e.outs && e.outs == d.outs - {id} && e.ins == d.ins && e.routes == d.routes[i := now]
            && now.output == None && now.input == was.input
            && (was.input.Some? ==> now.address == was.address && now.pipe == was.pipe)
            && (was.input == None ==> now.address == "" && !now.pipe)
  {
    assert OutInv(d, id);
  }

  /** A closed input loses one reference; with the last it leaves its slot. */
  lemma InputIsClosed(d: Device, id: nat)
    requires Inv(d) && id in d.ins
    ensures InInv(d, id)
    ensures var e, i := Apply(d, CloseInput(id)), d.ins[id].route;
            var was, now := d.routes[i], e.routes[i];
            && e.outs == d.outs && e.routes == d.routes[i := now] && now.output == was.output
            && (d.ins[id].refCount > 1 ==>
                  e.ins == d.ins[id := InStream(i, d.ins[id].refCount - 1)] && now == was)
            && (d.ins[id].refCount == 1 ==>
                  && e.ins == d.ins - {id} && now.input == None
                  && (was.output.Some? ==> now.address == was.address && now.pipe == was.pipe)
                  && (was.output == None ==> now.address == "" && !now.pipe))
  {
    assert InInv(d, id);
    assert RouteInv(d, d.ins[id].route);
  }

  // ---------- References ----------

  /** How often opening an input returned this stream, and how often it was closed. */
  function Opens(calls: seq<Call>, id: nat): nat {
    if calls == [] then 0
    else
      var before, c := calls[..|calls| - 1], calls[|calls| - 1];
      Opens(before, id)
      + if c.OpenInput? && OpenedInput(Run(before), c.address, c.rate, c.mask).1 == Opened(id) then 1 else 0
  }

  function Closes(calls: seq<Call>, id: nat): nat {
    if calls == [] then 0
    else
      var before, c := calls[..|calls| - 1], calls[|calls| - 1];
      Closes(before, id) + if c == CloseInput(id) && Legal(Run(before), c) then 1 else 0
  }

  function References(d: Device, id: nat): nat {
    if id in d.ins then d.ins[id].refCount else 0
  }

  lemma ReferencesInStep(d: Device, c: Call, id: nat)
    requires Inv(d) && Named(c)
    ensures References(Apply(d, c), id) + (if c == CloseInput(id) && Legal(d, c) then 1 else 0)
              == References(d, id)
                 + if c.OpenInput? && OpenedInput(d, c.address, c.rate, c.mask).1 == Opened(id) then 1 else 0
  {
    hide Distinct, OutInv, CanOpen, WithOutput, WithInput, Settled;
    match c
    case OpenOutput(_, _, _) =>
    case CloseOutput(_) =>
    case OpenInput(address, rate, mask) =>
      var slot := Lookup(d.routes, Key(address));
      if slot.Some? {
        assert RouteInv(d, slot.value);
      }
      assert d.nextId in d.ins ==> InInv(d, d.nextId);
    case CloseInput(closed) =>
  }

  /** An input's reference count is its opens less its closes, and it is dropped exactly when the
      two are equal. */
  lemma {:induction false} ReferencesAreOpensLessCloses(calls: seq<Call>, id: nat)
    requires AllNamed(calls)
    ensures var d := Run(calls);
            && Opens(calls, id) == Closes(calls, id) + References(d, id)
            && (id in d.ins <==> Opens(calls, id) != Closes(calls, id))
  {
    if calls == [] {
    } else {
      var before, c := calls[..|calls| - 1], calls[|calls| - 1];
      ReferencesAreOpensLessCloses(before, id);
      RunKeepsInv(before);
      ReferencesInStep(Run(before), c, id);
    }
    RunKeepsInv(calls);
    assert id in Run(calls).ins ==> InInv(Run(calls), id);
  }

  // ---------- The device ----------

  class SubmixDevice {
    const routes: array<Route>
    var outs: map<nat, nat>
    var ins: map<nat, InStream>
    var nextId: nat

    ghost function View(): Device
      reads this, routes
    {
      Device(routes[..], outs, ins, nextId)
    }

    constructor ()
      ensures fresh(routes) && View() == Empty() && Inv(View())
    {
      routes := new Route[MAX_ROUTES](i => UNUSED);
      outs, ins, nextId := map[], map[], 0;
    }

    /** Searches for the slot of an address, noting the last free one on the way. */
    method GetRouteForAddress(address: string) returns (slot: Option<nat>)
      ensures slot == Lookup(routes[..], Key(address))
    {
      ghost var all := routes[..];
      var empty: Option<nat> := None;
      for i := 0 to routes.Length
        invariant empty == LastEmpty(all[..i])
        invariant FirstAt(all, Key(address), 0) == FirstAt(all, Key(address), i)
      {
        assert all[..i + 1][..i] == all[..i];
        if routes[i].address == "" {
          empty := Some(i);
        }
        if routes[i].address == Key(address) {
          return Some(i);
        }
      }
      assert all[..routes.Length] == all;
      slot := empty;
    }

    method OpenValidate(i: nat, rate: nat, mask: nat, openingInput: bool) returns (ok: bool)
      requires i < routes.Length
      ensures ok == CanOpen(routes[i], rate, mask, openingInput)
      ensures ok <==>
                && (openingInput || routes[i].output == None)
                && (routes[i].output == None == routes[i].input || rate == routes[i].commonRate
                    || (if openingInput then mask else routes[i].inputMask) == IN_MONO)
    {
      var outputOpen, inputOpen := routes[i].output.Some?, routes[i].input.Some?;
      if !openingInput && outputOpen {
        return false;
      }
      if inputOpen || outputOpen {
        var inputRate, inputMask := rate, mask;
        var outputRate := routes[i].commonRate;
        if !openingInput {
          inputRate, inputMask, outputRate := routes[i].commonRate, routes[i].inputMask, rate;
        }
        if inputRate != outputRate && inputMask != IN_MONO {
          return false;
        }
      }
      ok := true;
    }

    /** Ties a stream to a slot and creates the pipe if there is none. */
    method CreatePipe(i: nat, address: string, rate: nat, mask: nat, output: Option<nat>, input: Option<nat>)
      requires i < routes.Length && output.Some? != input.Some?
      modifies routes
      ensures routes[..] == old(routes[..])[i :=
                if input.Some? then WithInput(old(routes[i]), Key(address), input.value, rate, mask)
                else
                  WithPipe(old(routes[i]).(address := Key(address), output := output,
                                           outputMask := mask, outputRate := rate), rate)]
    {
      if input.Some? {
        routes[i] := routes[i].(input := input, inputMask := mask, inputRate := rate);
        if routes[i].output.None? {
          routes[i] := routes[i].(outputRate := 48000, outputMask := OUT_STEREO);
        }
      } else {
        routes[i] := routes[i].(output := output, outputMask := mask, outputRate := rate);
      }
      routes[i] := routes[i].(address := Key(address));
      if !routes[i].pipe {
        routes[i] := routes[i].(pipe := true, commonRate := rate);
      }
    }

    method ReleasePipe(i: nat)
      requires i < routes.Length
      modifies routes
      ensures routes[..] == old(routes[..])[i := old(routes[i]).(pipe := false, address := "")]
    {
      routes[i] := routes[i].(pipe := false, address := "");
    }

    method OpenOutputStream(address: string, rate: nat, mask: nat) returns (result: Result)
      modifies this, routes
      ensures (View(), result) == OpenedOutput(old(View()), address, rate, mask)
    {
      var okRate, okMask := SupportedRate(rate), SupportedOutMask(mask);
      var slot := GetRouteForAddress(address);
      if slot == None {
        return NoMemory;
      }
      var i := slot.value;
      var ok := OpenValidate(i, okRate, okMask, false);
      if !ok {
        return Invalid;
      }
      if routes[i].commonRate != okRate {
        ReleasePipe(i);
      }
      CreatePipe(i, address, okRate, okMask, Some(nextId), None);
      assert routes[..] == old(routes[..])[i := WithOutput(old(routes[i]), Key(address), nextId, okRate, okMask)];
      outs := outs[nextId := i];
      result := Opened(nextId);
      nextId := nextId + 1;
    }

    method OpenInputStream(address: string, rate: nat, mask: nat) returns (result: Result)
      requires forall i :: 0 <= i < routes.Length && routes[i].input.Some? ==> routes[i].input.value in ins
      modifies this, routes
      ensures (View(), result) == OpenedInput(old(View()), address, rate, mask)
    {
      var slot := GetRouteForAddress(address);
      if slot == None {
        return NoMemory;
      }
      var i := slot.value;
      var okRate, okMask := SupportedRate(rate), SupportedInMask(mask);
      var ok := OpenValidate(i, okRate, okMask, true);
      if !ok {
        return Invalid;
      }
      var id := nextId;
      if routes[i].input.Some? {
        id := routes[i].input.value;
        ins := ins[id := InStream(i, ins[id].refCount + 1)];
      } else {
        ins := ins[id := InStream(i, 1)];
        nextId := nextId + 1;
      }
      CreatePipe(i, address, okRate, okMask, None, Some(id));
      result := Opened(id);
    }

    /** Drops the streams and, once the slot has none, the pipe. */
    method DestroyPipe(input: Option<nat>, output: Option<nat>)
      requires input.Some? != output.Some?
      requires input.Some? ==> Legal(View(), CloseInput(input.value))
      requires output.Some? ==> Legal(View(), CloseOutput(output.value))
      modifies this, routes
      ensures View() == if input.Some? then ClosedInput(old(View()), input.value)
                        else ClosedOutput(old(View()), output.value)
    {
      var i: nat;
      if input.Some? {
        var id := input.value;
        i := ins[id].route;
        if ins[id].refCount == 1 {
          ins := ins - {id};
          routes[i] := routes[i].(input := None);
        } else {
          ins := ins[id := ins[id].(refCount := ins[id].refCount - 1)];
        }
      } else {
        i := outs[output.value];
        outs := outs - {output.value};
        routes[i] := routes[i].(output := None);
      }
      if routes[i].input == None && routes[i].output == None {
        ReleasePipe(i);
      }
    }

    method CloseOutputStream(id: nat)
      requires Inv(View()) && id in outs
      modifies this, routes
      ensures View() == Apply(old(View()), CloseOutput(id)) && Inv(View())
    {
      CloseOutputKeepsInv(View(), id);
      DestroyPipe(None, Some(id));
    }

    method CloseInputStream(id: nat)
      requires Inv(View()) && id in ins
      modifies this, routes
      ensures View() == Apply(old(View()), CloseInput(id)) && Inv(View())
    {
      CloseInputKeepsInv(View(), id);
      DestroyPipe(Some(id), None);
    }
  }
}
