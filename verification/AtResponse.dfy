/** Collecting the answer to an AT command (c2kril/c2k-ril/atchannel.c): every line the modem
    sends while a command is pending is sorted into one of five places.  Final responses follow
    Annex B of 3GPP TS 27.007. */
module AtResponse {
  import opened Common

  // ---------- Strings ----------

  function Lower(c: char): char {
    if 'A' <= c <= 'Z' then c - 'A' + 'a' else c
  }

  /** Prefix up to the case of letters. */
  predicate StartsWith(line: string, prefix: string) {
    |prefix| <= |line| && forall i :: 0 <= i < |prefix| ==> Lower(line[i]) == Lower(prefix[i])
  }

  lemma Clash(s: string, p: string, q: string, i: nat)
    requires i < |p| && i < |q| && Lower(p[i]) != Lower(q[i])
    ensures !(StartsWith(s, p) && StartsWith(s, q))
  {
    assert StartsWith(s, p) ==> Lower(s[i]) == Lower(p[i]);
    assert StartsWith(s, q) ==> Lower(s[i]) == Lower(q[i]);
  }

  predicate IsDigit(c: char) {
    '0' <= c <= '9'
  }

  // ---------- Sorting lines ----------

  datatype CommandType = NoResult | Numeric | SingleLine | MultiLine | Raw

  /** A pending command: its text, the kind of answer expected and the prefix of that answer. */
  datatype Command = Command(text: string, kind: CommandType, prefix: Option<string>)

  predicate IsSms(c: Command) { StartsWith(c.text, "AT+CMGS") }
  predicate IsDataCall(c: Command) { StartsWith(c.text, "ATD#777") }
  predicate IsVoiceCall(c: Command) { StartsWith(c.text, "AT+CDV=") }
  predicate IsPowerOn(c: Command) { StartsWith(c.text, "AT+CPON") }
  predicate IsPowerOff(c: Command) { StartsWith(c.text, "AT+CPOF") }
  predicate IsEarlyPowerOff(c: Command) { StartsWith(c.text, "AT+EPOF") }
  predicate IsPower(c: Command) { IsPowerOn(c) || IsPowerOff(c) || IsEarlyPowerOff(c) }

  predicate HasPrefix(c: Command, line: string) {
    c.prefix.Some? && StartsWith(line, c.prefix.value)
  }

  datatype Sink = Ack | Final(success: bool) | Prompt | Unsolicited | Intermediate

  predicate IsFinalSuccess(c: Command, line: string) {
    !IsSms(c) && !IsDataCall(c) && !IsVoiceCall(c) && !IsPower(c) && StartsWith(line, "OK")
  }

  const FINAL_ERRORS: seq<string> :=
    ["ERROR", "+CMS ERROR:", "+CME ERROR:", "NO CARRIER", "NO ANSWER", "NO DIALTONE", "BUSY"]

  /** A lost carrier ends only calls. */
  predicate CarrierLossElsewhere(c: Command, line: string) {
    !StartsWith(c.text, "ATD") && !IsVoiceCall(c) && StartsWith(line, "NO CARRIER")
  }

  predicate IsFinalError(c: Command, line: string) {
    !CarrierLossElsewhere(c, line) && exists i :: 0 <= i < |FINAL_ERRORS| && StartsWith(line, FINAL_ERRORS[i])
  }

  /** The line that answers a command which waits for more than OK. */
  predicate IsAwaited(c: Command, okSeen: bool, line: string) {
    || (IsSms(c) && (StartsWith(line, "^HCMGSS:") || StartsWith(line, "^HCMGSF:")))
    || (IsDataCall(c) && StartsWith(line, "CONNECT"))
    || (IsVoiceCall(c) && StartsWith(line, "^ORIG"))
    || (okSeen && IsPowerOn(c) && StartsWith(line, "+VPON:1"))
    || (okSeen && (IsPowerOff(c) || IsEarlyPowerOff(c)) && StartsWith(line, "+VPON:0"))
  }

  predicate IsRefusedCall(c: Command, line: string) {
    IsVoiceCall(c) && StartsWith(line, "+CEND:8") && |line| == 7
  }

  /** Where a line that ends nothing goes, by the kind of answer expected. */
  function ByKind(c: Command, first: bool, line: string): Sink {
    match c.kind
    case NoResult => Unsolicited
    case Numeric => if first && line != "" && IsDigit(line[0]) then Intermediate else Unsolicited
    case SingleLine => if first && HasPrefix(c, line) then Intermediate else Unsolicited
    case MultiLine => if HasPrefix(c, line) then Intermediate else Unsolicited
    case Raw => if StartsWith(line, "+EI3GPPIRAT:") then Unsolicited else Intermediate
  }

  /** The place of a line that nothing special waits for. */
  function Ordinary(c: Command, first: bool, line: string): Sink {
    if IsFinalSuccess(c, line) then Final(true)
    else if IsFinalError(c, line) then Final(false)
    else if line == "> " then Prompt
    else ByKind(c, first, line)
  }

  /** Everything the lines of one command have caused so far, each list in arrival order. */
  datatype Exchange = Exchange(
    intermediates: seq<string>,
    unsolicited: seq<string>,
    acks: seq<string>,
    prompts: seq<string>,
    finals: seq<string>,
    success: bool)

  const FRESH := Exchange([], [], [], [], [], false)

  /** Some intermediate begins with OK, in capitals. */
  predicate OkSeen(intermediates: seq<string>) {
    exists i :: 0 <= i < |intermediates| && "OK" <= intermediates[i]
  }

  /** For the power commands OK is only noted; it does not end them. */
  function Note(c: Command, e: Exchange, line: string): Exchange {
    if IsPower(c) && StartsWith(line, "OK") then e.(intermediates := e.intermediates + [line]) else e
  }

  /** The place of a line.  `ackSupported` stands for RIL versions from 13 on. */
  function Classify(ackSupported: bool, c: Command, e: Exchange, line: string): Sink {
    if ackSupported && StartsWith(line, "ACK") then Ack
    else if IsAwaited(c, OkSeen(e.intermediates), line) then Final(true)
    else if IsRefusedCall(c, line) then Final(false)
    else Ordinary(c, Note(c, e, line).intermediates == [], line)
  }

  function Put(e: Exchange, sink: Sink, line: string): Exchange {
    match sink
    case Ack => e.(acks := e.acks + [line])
    case Final(ok) => e.(finals := e.finals + [line], success := ok)
    case Prompt => e.(prompts := e.prompts + [line])
    case Unsolicited => e.(unsolicited := e.unsolicited + [line])
    case Intermediate => e.(intermediates := e.intermediates + [line])
  }

  function Step(ackSupported: bool, c: Command, e: Exchange, line: string): Exchange {
    Put(Note(c, e, line), Classify(ackSupported, c, e, line), line)
  }

  /** All lines that arrived while the command was pending. */
  function Run(ackSupported: bool, c: Command, lines: seq<string>): Exchange {
    if lines == [] then FRESH
    else
      var n := |lines| - 1;
      Step(ackSupported, c, Run(ackSupported, c, lines[..n]), lines[n])
  }

  /** The place line `i` of a run went to. */
  function PlaceOf(ackSupported: bool, c: Command, lines: seq<string>, i: nat): Sink
    requires i < |lines|
  {
    Classify(ackSupported, c, Run(ackSupported, c, lines[..i]), lines[i])
  }

  predicate SamePlace(a: Sink, b: Sink) {
    a == b || (a.Final? && b.Final?)
  }

  /** The lines of a run that went to one place, in arrival order. */
  function Pick(ackSupported: bool, c: Command, lines: seq<string>, place: Sink): seq<string> {
    if lines == [] then []
    else
      var n := |lines| - 1;
      Pick(ackSupported, c, lines[..n], place) + Filed(PlaceOf(ackSupported, c, lines, n), place, lines[n])
  }

  function Filed(a: Sink, place: Sink, line: string): seq<string> {
    if SamePlace(a, place) then [line] else []
  }

  lemma StepFiles(ackSupported: bool, c: Command, e: Exchange, line: string)
    ensures var next, place := Step(ackSupported, c, e, line), Classify(ackSupported, c, e, line);
            && (!IsPower(c) ==> next.intermediates == e.intermediates + Filed(place, Intermediate, line))
            && next.unsolicited == e.unsolicited + Filed(place, Unsolicited, line)
            && next.acks == e.acks + Filed(place, Ack, line)
            && next.prompts == e.prompts + Filed(place, Prompt, line)
            && next.finals == e.finals + Filed(place, Final(true), line)
  {
    hide Classify, IsPower, StartsWith;
  }

  /** Each line goes to exactly one place, and each place holds its lines in arrival order: nothing
      is lost, doubled or reordered.  Only power commands keep their OK lines besides. */
  lemma {:induction false} EveryLineHasOnePlace(ackSupported: bool, c: Command, lines: seq<string>)
    ensures var e := Run(ackSupported, c, lines);
            && (!IsPower(c) ==> e.intermediates == Pick(ackSupported, c, lines, Intermediate))
            && e.unsolicited == Pick(ackSupported, c, lines, Unsolicited)
            && e.acks == Pick(ackSupported, c, lines, Ack)
            && e.prompts == Pick(ackSupported, c, lines, Prompt)
            && e.finals == Pick(ackSupported, c, lines, Final(true))
  {
    hide Step, Classify, Filed, IsPower;
    if lines == [] {
    } else {
      var n := |lines| - 1;
      EveryLineHasOnePlace(ackSupported, c, lines[..n]);
      StepFiles(ackSupported, c, Run(ackSupported, c, lines[..n]), lines[n]);
    }
  }

  predicate WellKept(c: Command, intermediates: seq<string>) {
    match c.kind
    case NoResult => intermediates == []
    case Numeric =>
      && |intermediates| <= 1
      && forall i :: 0 <= i < |intermediates| ==> intermediates[i] != "" && IsDigit(intermediates[i][0])
    case SingleLine => |intermediates| <= 1 && forall i :: 0 <= i < |intermediates| ==> HasPrefix(c, intermediates[i])
    case MultiLine => forall i :: 0 <= i < |intermediates| ==> HasPrefix(c, intermediates[i])
    case Raw => true
  }

  /** The intermediate lines are of the expected kind: none, at most one, or all prefixed. */
  lemma {:induction false} IntermediatesFitTheCommand(ackSupported: bool, c: Command, lines: seq<string>)
    requires !IsPower(c)
    ensures WellKept(c, Run(ackSupported, c, lines).intermediates)
  {
    hide Step, IsPower;
    if lines == [] {
    } else {
      var n := |lines| - 1;
      IntermediatesFitTheCommand(ackSupported, c, lines[..n]);
      StepKeepsWell(ackSupported, c, Run(ackSupported, c, lines[..n]), lines[n]);
    }
  }

  lemma StepKeepsWell(ackSupported: bool, c: Command, e: Exchange, line: string)
    requires !IsPower(c) && WellKept(c, e.intermediates)
    ensures WellKept(c, Step(ackSupported, c, e, line).intermediates)
  {
    hide StartsWith, HasPrefix, IsPower, IsAwaited, IsRefusedCall, IsFinalSuccess, IsFinalError, OkSeen;
    hide WellKept;
    if Classify(ackSupported, c, e, line) == Intermediate {
      OneMoreKept(c, e.intermediates, line);
    }
  }

  lemma OneMoreKept(c: Command, intermediates: seq<string>, line: string)
    requires WellKept(c, intermediates) && ByKind(c, intermediates == [], line) == Intermediate
    ensures WellKept(c, intermediates + [line])
  {
    hide StartsWith, HasPrefix;
  }

  // ---------- Power commands ----------

  /** The line a power command waits for once OK was seen. */
  function Awaits(c: Command): string {
    if IsPowerOn(c) then "+VPON:1" else "+VPON:0"
  }

  predicate CapitalOkBefore(lines: seq<string>, j: nat) {
    exists i :: 0 <= i < j && i < |lines| && "OK" <= lines[i]
  }

  lemma PowerIsNothingElse(c: Command)
    requires IsPower(c)
    ensures !IsSms(c) && !IsDataCall(c) && !IsVoiceCall(c)
    ensures IsPowerOn(c) ==> !IsPowerOff(c) && !IsEarlyPowerOff(c)
    ensures IsPowerOff(c) ==> !IsEarlyPowerOff(c)
  {
    Clash(c.text, "AT+CPON", "AT+CMGS", 4);
    Clash(c.text, "AT+CPON", "ATD#777", 2);
    Clash(c.text, "AT+CPON", "AT+CDV=", 4);
    Clash(c.text, "AT+CPON", "AT+CPOF", 6);
    Clash(c.text, "AT+CPON", "AT+EPOF", 3);
    Clash(c.text, "AT+CPOF", "AT+EPOF", 3);
    Clash(c.text, "AT+CPOF", "AT+CMGS", 4);
    Clash(c.text, "AT+CPOF", "ATD#777", 2);
    Clash(c.text, "AT+CPOF", "AT+CDV=", 4);
    Clash(c.text, "AT+EPOF", "AT+CMGS", 3);
    Clash(c.text, "AT+EPOF", "ATD#777", 2);
    Clash(c.text, "AT+EPOF", "AT+CDV=", 3);
  }

  /** What an OK line is not. */
  lemma OkIsNothingElse(line: string)
    requires StartsWith(line, "OK")
    ensures !StartsWith(line, "ACK") && !StartsWith(line, "+VPON:0") && !StartsWith(line, "+VPON:1")
    ensures !StartsWith(line, "^HCMGSS:") && !StartsWith(line, "^HCMGSF:") && !StartsWith(line, "CONNECT")
    ensures !StartsWith(line, "^ORIG") && !StartsWith(line, "+CEND:8")
  {
    Clash(line, "OK", "ACK", 0);
    Clash(line, "OK", "+VPON:0", 0);
    Clash(line, "OK", "+VPON:1", 0);
    Clash(line, "OK", "^HCMGSS:", 0);
    Clash(line, "OK", "^HCMGSF:", 0);
    Clash(line, "OK", "CONNECT", 0);
    Clash(line, "OK", "^ORIG", 0);
    Clash(line, "OK", "+CEND:8", 0);
  }

  lemma OkSeenAppend(xs: seq<string>, line: string)
    ensures OkSeen(xs + [line]) <==> OkSeen(xs) || "OK" <= line
  {
    var ys := xs + [line];
    assert ys[|xs|] == line;
    assert forall i :: 0 <= i < |xs| ==> ys[i] == xs[i];
  }

  lemma OkSeenInStep(ackSupported: bool, c: Command, e: Exchange, line: string)
    requires IsPower(c)
    ensures OkSeen(Step(ackSupported, c, e, line).intermediates) <==> OkSeen(e.intermediates) || "OK" <= line
  {
    hide Classify, IsPower;
    var noted := Note(c, e, line);
    if "OK" <= line {
      assert line[0] == "OK"[0] && line[1] == "OK"[1];
      assert StartsWith(line, "OK");
    }
    OkSeenAppend(e.intermediates, line);
    OkSeenAppend(noted.intermediates, line);
  }

  lemma CapitalOkAppend(lines: seq<string>, n: nat)
    requires n < |lines|
    ensures CapitalOkBefore(lines, n + 1) <==> CapitalOkBefore(lines[..n], n) || "OK" <= lines[n]
  {
    assert forall i :: 0 <= i < n ==> lines[..n][i] == lines[i];
  }

  /** OK has been noted exactly if some line of the run began with it. */
  lemma {:induction false} OkIsNoted(ackSupported: bool, c: Command, lines: seq<string>)
    requires IsPower(c)
    ensures OkSeen(Run(ackSupported, c, lines).intermediates) <==> CapitalOkBefore(lines, |lines|)
  {
    hide Step, IsPower;
    if lines == [] {
    } else {
      var n := |lines| - 1;
      OkIsNoted(ackSupported, c, lines[..n]);
      OkSeenInStep(ackSupported, c, Run(ackSupported, c, lines[..n]), lines[n]);
      CapitalOkAppend(lines, n);
    }
  }

  /** A power command succeeds at a line exactly if that line is the awaited +VPON and a line
      beginning with OK arrived strictly before it. */
  lemma PowerOnOrdering(ackSupported: bool, c: Command, lines: seq<string>, j: nat)
    requires IsPower(c) && j < |lines|
    ensures PlaceOf(ackSupported, c, lines, j) == Final(true) <==>
              StartsWith(lines[j], Awaits(c)) && CapitalOkBefore(lines, j)
  {
    var e, line := Run(ackSupported, c, lines[..j]), lines[j];
    OkIsNoted(ackSupported, c, lines[..j]);
    assert CapitalOkBefore(lines[..j], j) <==> CapitalOkBefore(lines, j) by {
      assert forall i :: 0 <= i < j ==> lines[..j][i] == lines[i];
    }
    PowerPlace(ackSupported, c, e, line);
  }

  lemma PowerPlace(ackSupported: bool, c: Command, e: Exchange, line: string)
    requires IsPower(c)
    ensures Classify(ackSupported, c, e, line) == Final(true) <==>
              StartsWith(line, Awaits(c)) && OkSeen(e.intermediates)
  {
    hide StartsWith, OkSeen;
    PowerIsNothingElse(c);
    Clash(line, "ACK", Awaits(c), 0);
  }

  /** Hence success in a run implies OK strictly before the awaited +VPON. */
  lemma {:induction false} PowerSuccessNeedsOkFirst(ackSupported: bool, c: Command, lines: seq<string>)
    requires IsPower(c) && Run(ackSupported, c, lines).success
    ensures exists j :: 0 <= j < |lines| && StartsWith(lines[j], Awaits(c)) && CapitalOkBefore(lines, j)
  {
    if lines == [] {
    } else {
      var n := |lines| - 1;
      if PlaceOf(ackSupported, c, lines, n) == Final(true) {
        PowerOnOrdering(ackSupported, c, lines, n);
      } else {
        PowerSuccessNeedsOkFirst(ackSupported, c, lines[..n]);
        var j :| 0 <= j < n && StartsWith(lines[..n][j], Awaits(c)) && CapitalOkBefore(lines[..n], j);
        var i :| 0 <= i < j && "OK" <= lines[..n][i];
        assert lines[i] == lines[..n][i] && lines[j] == lines[..n][j];
      }
    }
  }

  // ---------- What ends which command ----------

  /** Letters are compared without their case, and all else as it is. */
  lemma SameLetter(a: char, b: char)
    ensures Lower(a) == Lower(b) <==>
              || a == b
              || ('A' <= a <= 'Z' && b as int == a as int + 32)
              || ('A' <= b <= 'Z' && a as int == b as int + 32)
  {
  }

  /** A command that waits for nothing but OK. */
  predicate IsPlain(c: Command) {
    && !StartsWith(c.text, "AT+CMGS") && !StartsWith(c.text, "ATD#777") && !StartsWith(c.text, "AT+CDV=")
    && !StartsWith(c.text, "AT+CPON") && !StartsWith(c.text, "AT+CPOF") && !StartsWith(c.text, "AT+EPOF")
  }

  /** An error response; a lost carrier is one for calls only. */
  predicate IsErrorFor(call: bool, line: string) {
    || StartsWith(line, "ERROR") || StartsWith(line, "+CMS ERROR:") || StartsWith(line, "+CME ERROR:")
    || (call && StartsWith(line, "NO CARRIER")) || StartsWith(line, "NO ANSWER")
    || StartsWith(line, "NO DIALTONE") || StartsWith(line, "BUSY")
  }

  lemma FinalErrors(c: Command, line: string)
    ensures IsFinalError(c, line) <==>
              IsErrorFor(StartsWith(c.text, "ATD") || StartsWith(c.text, "AT+CDV="), line)
  {
    hide StartsWith;
    assert IsErrorFor(true, line) <==> exists i :: 0 <= i < |FINAL_ERRORS| && StartsWith(line, FINAL_ERRORS[i]) by {
      assert FINAL_ERRORS[0] == "ERROR" && FINAL_ERRORS[1] == "+CMS ERROR:" && FINAL_ERRORS[2] == "+CME ERROR:";
      assert FINAL_ERRORS[3] == "NO CARRIER" && FINAL_ERRORS[4] == "NO ANSWER";
      assert FINAL_ERRORS[5] == "NO DIALTONE" && FINAL_ERRORS[6] == "BUSY";
    }
    Clash(line, "NO CARRIER", "ERROR", 0);
    Clash(line, "NO CARRIER", "+CMS ERROR:", 0);
    Clash(line, "NO CARRIER", "+CME ERROR:", 0);
    Clash(line, "NO CARRIER", "NO ANSWER", 3);
    Clash(line, "NO CARRIER", "NO DIALTONE", 3);
    Clash(line, "NO CARRIER", "BUSY", 0);
  }

  /** No other answer begins as an error response does. */
  lemma ErrorsAreNothingElse(line: string, e: string)
    requires StartsWith(line, e)
    requires e in {"ERROR", "+CMS ERROR:", "+CME ERROR:", "NO CARRIER", "NO ANSWER", "NO DIALTONE", "BUSY"}
    ensures !StartsWith(line, "ACK") && !StartsWith(line, "OK") && !StartsWith(line, "CONNECT")
    ensures !StartsWith(line, "^HCMGSS:") && !StartsWith(line, "^HCMGSF:") && !StartsWith(line, "^ORIG")
    ensures !StartsWith(line, "+VPON:0") && !StartsWith(line, "+VPON:1")
  {
    hide StartsWith;
    Clash(line, e, "ACK", 0);
    Clash(line, e, "OK", 0);
    Clash(line, e, "CONNECT", 0);
    Clash(line, e, "^HCMGSS:", 0);
    Clash(line, e, "^HCMGSF:", 0);
    Clash(line, e, "^ORIG", 0);
    Clash(line, e, "+VPON:0", if e[0] == '+' then 1 else 0);
    Clash(line, e, "+VPON:1", if e[0] == '+' then 1 else 0);
  }

  lemma ErrorIsNothingElse(line: string)
    requires IsErrorFor(true, line)
    ensures !StartsWith(line, "ACK") && !StartsWith(line, "OK") && !StartsWith(line, "CONNECT")
    ensures !StartsWith(line, "^HCMGSS:") && !StartsWith(line, "^HCMGSF:") && !StartsWith(line, "^ORIG")
    ensures !StartsWith(line, "+VPON:0") && !StartsWith(line, "+VPON:1")
  {
    hide StartsWith;
    var errors := {"ERROR", "+CMS ERROR:", "+CME ERROR:", "NO CARRIER", "NO ANSWER", "NO DIALTONE", "BUSY"};
    var e :| e in errors && StartsWith(line, e);
    ErrorsAreNothingElse(line, e);
  }

  lemma AckIsNothingElse(line: string)
    requires StartsWith(line, "ACK")
    ensures !StartsWith(line, "OK") && !StartsWith(line, "CONNECT") && !StartsWith(line, "+CEND:8")
    ensures !StartsWith(line, "^HCMGSS:") && !StartsWith(line, "^HCMGSF:") && !StartsWith(line, "^ORIG")
    ensures !IsErrorFor(true, line)
  {
    hide StartsWith;
    Clash(line, "ACK", "OK", 0);
    Clash(line, "ACK", "CONNECT", 0);
    Clash(line, "ACK", "+CEND:8", 0);
    Clash(line, "ACK", "^HCMGSS:", 0);
    Clash(line, "ACK", "^HCMGSF:", 0);
    Clash(line, "ACK", "^ORIG", 0);
    if IsErrorFor(true, line) {
      ErrorIsNothingElse(line);
    }
  }

  /** Everything about the answers that tells them apart. */
  lemma AnswersDiffer(line: string)
    ensures IsErrorFor(true, line) ==>
              && !StartsWith(line, "ACK") && !StartsWith(line, "OK") && !StartsWith(line, "CONNECT")
              && !StartsWith(line, "^HCMGSS:") && !StartsWith(line, "^HCMGSF:") && !StartsWith(line, "^ORIG")
              && !StartsWith(line, "+VPON:0") && !StartsWith(line, "+VPON:1")
    ensures StartsWith(line, "ACK") ==>
              && !StartsWith(line, "OK") && !StartsWith(line, "CONNECT") && !StartsWith(line, "+CEND:8")
              && !StartsWith(line, "^HCMGSS:") && !StartsWith(line, "^HCMGSF:") && !StartsWith(line, "^ORIG")
    ensures !(StartsWith(line, "^ORIG") && StartsWith(line, "+CEND:8"))
  {
    hide StartsWith;
    Clash(line, "^ORIG", "+CEND:8", 0);
    if IsErrorFor(true, line) {
      ErrorIsNothingElse(line);
    }
    if StartsWith(line, "ACK") {
      AckIsNothingElse(line);
    }
  }

  lemma CommandsDiffer(c: Command)
    ensures StartsWith(c.text, "AT+CMGS") ==> !IsDataCall(c) && !IsVoiceCall(c) && !IsPower(c)
    ensures StartsWith(c.text, "AT+CMGS") || IsPower(c) ==> !StartsWith(c.text, "ATD")
    ensures StartsWith(c.text, "ATD#777") ==>
              !IsSms(c) && !IsVoiceCall(c) && !IsPower(c) && StartsWith(c.text, "ATD")
    ensures StartsWith(c.text, "AT+CDV=") ==> !IsSms(c) && !IsDataCall(c) && !IsPower(c)
  {
    Clash(c.text, "AT+CMGS", "ATD#777", 2);
    Clash(c.text, "AT+CMGS", "AT+CDV=", 4);
    Clash(c.text, "ATD#777", "AT+CDV=", 2);
    Clash(c.text, "AT+CMGS", "ATD", 2);
    Clash(c.text, "AT+CPON", "ATD", 2);
    Clash(c.text, "AT+CPOF", "ATD", 2);
    Clash(c.text, "AT+EPOF", "ATD", 2);
    if IsPower(c) {
      PowerIsNothingElse(c);
    }
    assert "ATD#777"[..3] == "ATD";
  }

  /** A plain command succeeds at exactly the lines that begin with OK, and fails at exactly the
      error responses. */
  lemma PlainOutcome(ackSupported: bool, c: Command, lines: seq<string>, j: nat)
    requires IsPlain(c) && j < |lines|
    ensures PlaceOf(ackSupported, c, lines, j) == Final(true) <==> StartsWith(lines[j], "OK")
    ensures PlaceOf(ackSupported, c, lines, j) == Final(false) <==> IsErrorFor(StartsWith(c.text, "ATD"), lines[j])
  {
    hide StartsWith, OkSeen, Run, IsFinalError;
    FinalErrors(c, lines[j]);
    AnswersDiffer(lines[j]);
  }

  /** The same for the commands that wait for a line of their own. */
  lemma AwaitedOutcome(ackSupported: bool, c: Command, lines: seq<string>, j: nat)
    requires j < |lines|
    ensures StartsWith(c.text, "AT+CMGS") ==>
              && (PlaceOf(ackSupported, c, lines, j) == Final(true) <==>
                    StartsWith(lines[j], "^HCMGSS:") || StartsWith(lines[j], "^HCMGSF:"))
              && (PlaceOf(ackSupported, c, lines, j) == Final(false) <==> IsErrorFor(false, lines[j]))
    ensures StartsWith(c.text, "ATD#777") ==>
              && (PlaceOf(ackSupported, c, lines, j) == Final(true) <==> StartsWith(lines[j], "CONNECT"))
              && (PlaceOf(ackSupported, c, lines, j) == Final(false) <==> IsErrorFor(true, lines[j]))
    ensures StartsWith(c.text, "AT+CDV=") ==>
              && (PlaceOf(ackSupported, c, lines, j) == Final(true) <==> StartsWith(lines[j], "^ORIG"))
              && (PlaceOf(ackSupported, c, lines, j) == Final(false) <==>
                    IsErrorFor(true, lines[j]) || (StartsWith(lines[j], "+CEND:8") && |lines[j]| == 7))
    ensures StartsWith(c.text, "AT+CPON") || StartsWith(c.text, "AT+CPOF") || StartsWith(c.text, "AT+EPOF") ==>
              (PlaceOf(ackSupported, c, lines, j) == Final(false) <==> IsErrorFor(false, lines[j]))
  {
    hide StartsWith, OkSeen, Run, IsFinalError;
    CommandsDiffer(c);
    FinalErrors(c, lines[j]);
    AnswersDiffer(lines[j]);
  }

  /** The command succeeds at line j, and no later line ends it again. */
  predicate SucceedsAt(ackSupported: bool, c: Command, lines: seq<string>, j: nat)
    requires j < |lines|
  {
    && PlaceOf(ackSupported, c, lines, j) == Final(true)
    && forall i :: j < i < |lines| ==> !PlaceOf(ackSupported, c, lines, i).Final?
  }

  lemma PlaceInPrefix(ackSupported: bool, c: Command, lines: seq<string>, n: nat, i: nat)
    requires i < n <= |lines|
    ensures PlaceOf(ackSupported, c, lines, i) == PlaceOf(ackSupported, c, lines[..n], i)
  {
    hide Classify, Run;
    assert lines[..n][..i] == lines[..i];
  }

  lemma StepDecides(ackSupported: bool, c: Command, lines: seq<string>, n: nat)
    requires |lines| == n + 1
    ensures var place := PlaceOf(ackSupported, c, lines, n);
            Run(ackSupported, c, lines).success ==
              if place.Final? then place.success else Run(ackSupported, c, lines[..n]).success
  {
    hide Classify, IsPower, StartsWith;
  }

  lemma SucceedsEarlier(ackSupported: bool, c: Command, lines: seq<string>, n: nat, j: nat)
    requires j < n && |lines| == n + 1
    ensures SucceedsAt(ackSupported, c, lines, j) <==>
              SucceedsAt(ackSupported, c, lines[..n], j) && !PlaceOf(ackSupported, c, lines, n).Final?
  {
    hide PlaceOf;
    forall i | j <= i < n ensures PlaceOf(ackSupported, c, lines, i) == PlaceOf(ackSupported, c, lines[..n], i) {
      PlaceInPrefix(ackSupported, c, lines, n, i);
    }
  }

  lemma SucceedsLast(ackSupported: bool, c: Command, lines: seq<string>, n: nat)
    requires |lines| == n + 1
    ensures SucceedsAt(ackSupported, c, lines, n) <==> PlaceOf(ackSupported, c, lines, n) == Final(true)
  {
    hide PlaceOf;
  }

  lemma {:induction false} SuccessHasItsLine(ackSupported: bool, c: Command, lines: seq<string>) returns (j: nat)
    requires Run(ackSupported, c, lines).success
    ensures j < |lines| && SucceedsAt(ackSupported, c, lines, j)
  {
    assert lines != [];
    hide Run, PlaceOf, SucceedsAt;
    var n := |lines| - 1;
    StepDecides(ackSupported, c, lines, n);
    if PlaceOf(ackSupported, c, lines, n).Final? {
      j := n;
      SucceedsLast(ackSupported, c, lines, n);
    } else {
      j := SuccessHasItsLine(ackSupported, c, lines[..n]);
      SucceedsEarlier(ackSupported, c, lines, n, j);
    }
  }

  lemma {:induction false} ItsLineMeansSuccess(ackSupported: bool, c: Command, lines: seq<string>, j: nat)
    requires j < |lines| && SucceedsAt(ackSupported, c, lines, j)
    ensures Run(ackSupported, c, lines).success
  {
    hide Run, PlaceOf, SucceedsAt;
    var n := |lines| - 1;
    StepDecides(ackSupported, c, lines, n);
    if j == n {
      SucceedsLast(ackSupported, c, lines, n);
    } else {
      SucceedsEarlier(ackSupported, c, lines, n, j);
      ItsLineMeansSuccess(ackSupported, c, lines[..n], j);
    }
  }

  /** A run succeeds exactly if the last line that ended the command is one it succeeds at. */
  lemma SuccessIsTheLastFinal(ackSupported: bool, c: Command, lines: seq<string>)
    ensures Run(ackSupported, c, lines).success <==>
              exists j :: 0 <= j < |lines| && SucceedsAt(ackSupported, c, lines, j)
  {
    hide Run, SucceedsAt;
    if Run(ackSupported, c, lines).success {
      var j := SuccessHasItsLine(ackSupported, c, lines);
    }
    if j :| 0 <= j < |lines| && SucceedsAt(ackSupported, c, lines, j) {
      ItsLineMeansSuccess(ackSupported, c, lines, j);
    }
  }

  /** The lines a plain command ends at. */
  function Endings(call: bool, lines: seq<string>): seq<string> {
    if lines == [] then []
    else
      var n := |lines| - 1;
      Endings(call, lines[..n])
      + if StartsWith(lines[n], "OK") || IsErrorFor(call, lines[n]) then [lines[n]] else []
  }

  /** So a plain command gets its OK and error lines as final responses, and has succeeded exactly if
      the last of these is an OK. */
  lemma {:induction false} PlainRun(ackSupported: bool, c: Command, lines: seq<string>)
    requires IsPlain(c)
    ensures var e := Run(ackSupported, c, lines);
            && e.finals == Endings(StartsWith(c.text, "ATD"), lines)
            && (e.success <==> e.finals != [] && StartsWith(e.finals[|e.finals| - 1], "OK"))
  {
    if lines == [] {
    } else {
      hide StartsWith, IsErrorFor, IsPlain, Step, PlaceOf;
      var n := |lines| - 1;
      PlainRun(ackSupported, c, lines[..n]);
      PlainOutcome(ackSupported, c, lines, n);
      StepDecides(ackSupported, c, lines, n);
      StepEnds(ackSupported, c, lines, n);
    }
  }

  lemma StepEnds(ackSupported: bool, c: Command, lines: seq<string>, n: nat)
    requires |lines| == n + 1
    ensures Run(ackSupported, c, lines).finals ==
              Run(ackSupported, c, lines[..n]).finals
              + if PlaceOf(ackSupported, c, lines, n).Final? then [lines[n]] else []
  {
    hide Classify, IsPower, StartsWith;
  }

  /** All other lines: an acknowledgement and a prompt are known by their text, and of the rest a
      command collects what its kind calls for.  An OK that a power command notes counts as collected. */
  lemma OtherLines(ackSupported: bool, c: Command, lines: seq<string>, j: nat)
    requires j < |lines| && !PlaceOf(ackSupported, c, lines, j).Final?
    ensures var line, place := lines[j], PlaceOf(ackSupported, c, lines, j);
            var power := StartsWith(c.text, "AT+CPON") || StartsWith(c.text, "AT+CPOF")
                         || StartsWith(c.text, "AT+EPOF");
            var none := Run(ackSupported, c, lines[..j]).intermediates == [] && !(power && StartsWith(line, "OK"));
            && (place == Ack <==> ackSupported && StartsWith(line, "ACK"))
            && (place == Prompt <==> line == "> ")
            && (place != Ack && place != Prompt ==>
                  match c.kind
                  case NoResult => place == Unsolicited
                  case Numeric => place == if none && line != "" && '0' <= line[0] <= '9' then Intermediate
                                           else Unsolicited
                  case SingleLine => place == if none && c.prefix.Some? && StartsWith(line, c.prefix.value)
                                              then Intermediate else Unsolicited
                  case MultiLine => place == if c.prefix.Some? && StartsWith(line, c.prefix.value) then Intermediate
                                             else Unsolicited
                  case Raw => place == if StartsWith(line, "+EI3GPPIRAT:") then Unsolicited else Intermediate)
  {
    assert lines[j] == "> " ==> !StartsWith(lines[j], "ACK");
    hide StartsWith, OkSeen, Run, IsFinalError, IsAwaited, IsRefusedCall, IsFinalSuccess;
  }

  /** Only a power command that succeeded changes what is recorded of the modem's power. */
  lemma PowerIsRecorded(c: Command, before: bool, success: bool)
    ensures success && StartsWith(c.text, "AT+CPON") ==> Powered(c, before, success)
    ensures success && StartsWith(c.text, "AT+CPOF") ==> !Powered(c, before, success)
    ensures !success || (!StartsWith(c.text, "AT+CPON") && !StartsWith(c.text, "AT+CPOF")) ==>
              Powered(c, before, success) == before
  {
    Clash(c.text, "AT+CPON", "AT+CPOF", 6);
  }

  // ---------- The channel ----------

  /** The unsolicited handler has seen other lines before the command. */
  function Prefixed(before: seq<string>, e: Exchange): Exchange {
    e.(unsolicited := before + e.unsolicited)
  }

  lemma PrefixedStep(ackSupported: bool, c: Command, before: seq<string>, e: Exchange, line: string)
    ensures var next := Step(ackSupported, c, e, line);
            && Step(ackSupported, c, Prefixed(before, e), line) == Prefixed(before, next)
            && (next.finals == e.finals || next.finals == e.finals + [line])
  {
    hide IsAwaited, IsRefusedCall, IsFinalSuccess, IsFinalError, ByKind, OkSeen, StartsWith, IsPower;
    assert before + e.unsolicited + [line] == before + (e.unsolicited + [line]);
  }

  /** The linked list of intermediate lines, newest first. */
  datatype AtLines = Nil | Cons(line: string, next: AtLines)

  function Arrived(list: AtLines): seq<string> {
    match list
    case Nil => []
    case Cons(line, next) => Arrived(next) + [line]
  }

  function InOrder(list: AtLines): seq<string> {
    match list
    case Nil => []
    case Cons(line, next) => [line] + InOrder(next)
  }

  /** The modem's power state after a command ended: only a successful power command changes it. */
  function Powered(c: Command, before: bool, success: bool): bool {
    if success && IsPowerOn(c) then true
    else if success && IsPowerOff(c) then false
    else before
  }

  /** What the issuer of a command gets back. */
  datatype Response = Response(success: bool, final: string, lines: AtLines)

  class AtChannel {
    const ackSupported: bool
    var pending: bool
    var command: Command
    var smsPdu: Option<string>
    // the response being collected
    var success: bool
    var ack: bool
    var finalResponse: Option<string>
    var intermediates: AtLines
    // what left the channel: calls of the unsolicited handler and answers to the prompt
    var unsolicited: seq<string>
    var written: seq<Option<string>>
    var modemPowered: bool

    ghost var acks: seq<string>
    ghost var prompts: seq<string>
    ghost var finals: seq<string>

    ghost function View(): Exchange
      reads this
    {
      Exchange(Arrived(intermediates), unsolicited, acks, prompts, finals, success)
    }

    constructor (supportsAck: bool)
      ensures !pending && ackSupported == supportsAck && unsolicited == [] && written == []
    {
      ackSupported := supportsAck;
      pending, command, smsPdu := false, Command("", NoResult, None), None;
      success, ack, finalResponse, intermediates := false, false, None, Nil;
      unsolicited, written, modemPowered := [], [], false;
      acks, prompts, finals := [], [], [];
    }

    /** Starts collecting.  Issued while another command is pending it fails, and the error path
        clears that other command.  A command sent under both mutexes of the channel never comes
        here meanwhile; only the handshake, which takes the command mutex alone, can. */
    method Begin(c: Command, pdu: Option<string>) returns (ok: bool)
      modifies this`pending, this`command, this`smsPdu, this`success, this`ack, this`finalResponse,
               this`intermediates, this`acks, this`prompts, this`finals
      ensures ok == pending == !old(pending)
      ensures ok ==> command == c && smsPdu == pdu && finalResponse == None
      ensures ok ==> View() == FRESH.(unsolicited := unsolicited)
    {
      ok := !pending;
      if ok {
        pending, command, smsPdu := true, c, pdu;
        success, ack, finalResponse, intermediates := false, false, None, Nil;
        acks, prompts, finals := [], [], [];
      } else {
        ClearPendingCommand();
      }
    }

    method ClearPendingCommand()
      modifies this`pending, this`smsPdu, this`command
      ensures !pending && smsPdu == None && command == old(command).(prefix := None)
    {
      pending, smsPdu, command := false, None, command.(prefix := None);
    }

    method AddIntermediate(line: string)
      modifies this`intermediates
      ensures Arrived(intermediates) == old(Arrived(intermediates)) + [line]
    {
      intermediates := Cons(line, intermediates);
    }

    method HandleFinalResponse(line: string)
      modifies this`finalResponse, this`finals
      ensures finalResponse == Some(line) && finals == old(finals) + [line]
    {
      finalResponse := Some(line);
      finals := finals + [line];
    }

    method HandleUnsolicited(line: string)
      modifies this`unsolicited
      ensures unsolicited == old(unsolicited) + [line]
    {
      unsolicited := unsolicited + [line];
    }

    /** Searches the collected lines for one that begins with OK. */
    method FindOkInResponse() returns (found: bool)
      ensures found == OkSeen(Arrived(intermediates))
    {
      var p := intermediates;
      ghost var older: seq<string> := [];
      while p != Nil
        invariant Arrived(intermediates) == Arrived(p) + older
        invariant !OkSeen(older)
        decreases p
      {
        var n := |Arrived(p.next)|;
        assert Arrived(intermediates)[n] == p.line;
        if "OK" <= p.line {
          return true;
        }
        older := [p.line] + older;
        p := p.next;
      }
      assert Arrived(intermediates) == older;
      found := false;
    }

    method IsFinalResponseError(line: string) returns (r: bool)
      ensures r == IsFinalError(command, line)
    {
      for i := 0 to |FINAL_ERRORS|
        invariant CarrierLossElsewhere(command, line) || forall k :: 0 <= k < i ==> !StartsWith(line, FINAL_ERRORS[k])
      {
        if !StartsWith(command.text, "ATD") && !StartsWith(command.text, "AT+CDV=") && StartsWith(line, "NO CARRIER") {
          continue;
        }
        if StartsWith(line, FINAL_ERRORS[i]) {
          return true;
        }
      }
      r := false;
    }

    /** Also notes an OK that answers a power command. */
    method IsFinalResponseSuccess(line: string) returns (r: bool)
      modifies this`intermediates
      ensures r == IsFinalSuccess(command, line)
      ensures Arrived(intermediates) ==
                old(Arrived(intermediates)) + if IsPower(command) && StartsWith(line, "OK") then [line] else []
    {
      if IsSms(command) || IsDataCall(command) || IsVoiceCall(command) {
        PowerIsNothingElseHere();
        return false;
      } else if IsPowerOn(command) || IsPowerOff(command) || IsEarlyPowerOff(command) {
        if StartsWith(line, "OK") {
          AddIntermediate(line);
        }
        return false;
      }
      r := StartsWith(line, "OK");
    }

    /** The lines tried first are never the OK of a power command. */
    lemma SpecialIsNotNoted(line: string)
      requires (ackSupported && StartsWith(line, "ACK")) || IsRefusedCall(command, line)
               || IsAwaited(command, OkSeen(Arrived(intermediates)), line)
      ensures Note(command, View(), line) == View()
    {
      if StartsWith(line, "OK") {
        OkIsNothingElse(line);
      }
    }

    lemma PowerIsNothingElseHere()
      ensures IsPower(command) ==> !IsSms(command) && !IsDataCall(command) && !IsVoiceCall(command)
      ensures IsPowerOn(command) ==> !IsPowerOff(command) && !IsEarlyPowerOff(command)
      ensures IsPowerOff(command) ==> !IsEarlyPowerOff(command)
    {
      if IsPower(command) {
        PowerIsNothingElse(command);
      }
    }

    method Conclude(ok: bool, line: string)
      modifies this`success, this`finalResponse, this`finals
      ensures View() == Put(old(View()), Final(ok), line)
      ensures success == ok && finalResponse == Some(line) && finals == old(finals) + [line]
    {
      success := ok;
      HandleFinalResponse(line);
    }

    method HandleAck(line: string)
      requires ackSupported && StartsWith(line, "ACK")
      modifies this`ack, this`acks
      ensures ack && acks == old(acks) + [line]
      ensures View() == Step(ackSupported, command, old(View()), line)
    {
      SpecialIsNotNoted(line);
      hide StartsWith, OkSeen, IsAwaited, IsRefusedCall, IsFinalError, IsFinalSuccess, IsPower, ByKind, Arrived;
      ack := true;
      acks := acks + [line];
    }

    method ProcessLine(line: string)
      modifies this
      ensures pending == old(pending) && command == old(command) && smsPdu == old(smsPdu)
      ensures View() == if pending then Step(ackSupported, command, old(View()), line)
                        else old(View()).(unsolicited := old(unsolicited) + [line])
      ensures finalResponse == if |finals| > |old(finals)| then Some(line) else old(finalResponse)
      ensures written == old(written) + if |prompts| > |old(prompts)| then [smsPdu] else []
      ensures ack == (old(ack) || |acks| > |old(acks)|)
      ensures modemPowered == Powered(command, old(modemPowered), pending && success && |finals| > |old(finals)|)
    {
      if !pending {
        HandleUnsolicited(line);
      } else {
        var ok := FindOkInResponse();
        hide StartsWith, OkSeen, Step, Arrived, IsPowerOn, IsPowerOff;
        if ackSupported && StartsWith(line, "ACK") {
          HandleAck(line);
        } else {
          ProcessAnswer(line, ok);
        }
      }
    }

    method ProcessAnswer(line: string, ok: bool)
      requires pending && !(ackSupported && StartsWith(line, "ACK"))
      requires ok == OkSeen(Arrived(intermediates))
      modifies this
      ensures pending == old(pending) && command == old(command) && smsPdu == old(smsPdu)
      ensures View() == Step(ackSupported, command, old(View()), line)
      ensures finalResponse == if |finals| > |old(finals)| then Some(line) else old(finalResponse)
      ensures written == old(written) + if |prompts| > |old(prompts)| then [smsPdu] else []
      ensures modemPowered == Powered(command, old(modemPowered), success && |finals| > |old(finals)|)
      ensures ack == old(ack) && acks == old(acks)
    {
      PowerIsNothingElseHere();
      hide StartsWith, OkSeen, Ordinary, Put, Note, Arrived;
      hide IsSms, IsDataCall, IsVoiceCall, IsPowerOn, IsPowerOff, IsEarlyPowerOff;
      if IsSms(command) && (StartsWith(line, "^HCMGSS:") || StartsWith(line, "^HCMGSF:")) {
        SpecialIsNotNoted(line);
        Conclude(true, line);
      } else if IsDataCall(command) && StartsWith(line, "CONNECT") {
        SpecialIsNotNoted(line);
        Conclude(true, line);
      } else if IsVoiceCall(command) && StartsWith(line, "^ORIG") {
        SpecialIsNotNoted(line);
        Conclude(true, line);
      } else if IsVoiceCall(command) && StartsWith(line, "+CEND:8") && |line| == 7 {
        SpecialIsNotNoted(line);
        Conclude(false, line);
      } else if IsPowerOn(command) && StartsWith(line, "+VPON:1") && ok {
        SpecialIsNotNoted(line);
        modemPowered := true;
        Conclude(true, line);
      } else if IsPowerOff(command) && StartsWith(line, "+VPON:0") && ok {
        SpecialIsNotNoted(line);
        modemPowered := false;
        Conclude(true, line);
      } else if IsEarlyPowerOff(command) && StartsWith(line, "+VPON:0") && ok {
        SpecialIsNotNoted(line);
        Conclude(true, line);
      } else {
        ProcessRest(line);
      }
    }

    /** A line that is none of the special answers. */
    method ProcessRest(line: string)
      requires pending
      requires !(ackSupported && StartsWith(line, "ACK"))
      requires !IsAwaited(command, OkSeen(Arrived(intermediates)), line) && !IsRefusedCall(command, line)
      modifies this
      ensures pending == old(pending) && command == old(command) && smsPdu == old(smsPdu)
      ensures View() == Step(ackSupported, command, old(View()), line)
      ensures finalResponse == if |finals| > |old(finals)| then Some(line) else old(finalResponse)
      ensures written == old(written) + if |prompts| > |old(prompts)| then [smsPdu] else []
      ensures modemPowered == Powered(command, old(modemPowered), success && |finals| > |old(finals)|)
      ensures ack == old(ack) && acks == old(acks)
    {
      hide StartsWith, OkSeen, IsAwaited, IsRefusedCall, Ordinary, Put;
      var done := IsFinalResponseSuccess(line);
      assert View() == Note(command, old(View()), line);
      assert (intermediates == Nil) == (View().intermediates == []);
      Sort(line, done);
    }

    /** A line that is no success, or ends the command with it. */
    method Sort(line: string, done: bool)
      requires pending && done == IsFinalSuccess(command, line)
      modifies this`success, this`finalResponse, this`finals, this`written, this`prompts, this`intermediates,
               this`unsolicited
      ensures View() == Put(old(View()), Ordinary(command, old(intermediates) == Nil, line), line)
      ensures finalResponse == if |finals| > |old(finals)| then Some(line) else old(finalResponse)
      ensures written == old(written) + if |prompts| > |old(prompts)| then [smsPdu] else []
      ensures |finals| > |old(finals)| && success ==> done
    {
      hide IsFinalError, IsFinalSuccess, ByKind, Arrived;
      if done {
        success := true;
        HandleFinalResponse(line);
        return;
      }
      var failed := IsFinalResponseError(line);
      if failed {
        success := false;
        HandleFinalResponse(line);
      } else if line == "> " {
        written := written + [smsPdu];
        prompts := prompts + [line];
      } else {
        ProcessByKind(line);
      }
    }

    method ProcessByKind(line: string)
      requires line != "> "
      modifies this`intermediates, this`unsolicited
      ensures View() == Put(old(View()), ByKind(command, old(intermediates) == Nil, line), line)
    {
      match command.kind
      case NoResult =>
        HandleUnsolicited(line);
      case Numeric =>
        if intermediates == Nil && line != "" && IsDigit(line[0]) {
          AddIntermediate(line);
        } else {
          HandleUnsolicited(line);
        }
      case SingleLine =>
        if intermediates == Nil && HasPrefix(command, line) {
          AddIntermediate(line);
        } else {
          HandleUnsolicited(line);
        }
      case MultiLine =>
        if HasPrefix(command, line) {
          AddIntermediate(line);
        } else {
          HandleUnsolicited(line);
        }
      case Raw =>
        if StartsWith(line, "+EI3GPPIRAT:") {
          HandleUnsolicited(line);
        } else {
          AddIntermediate(line);
        }
    }

    /** Turns the list of intermediate lines round, so that the oldest comes first. */
    method ReverseIntermediates()
      modifies this`intermediates
      ensures InOrder(intermediates) == old(Arrived(intermediates))
    {
      var cur := intermediates;
      intermediates := Nil;
      while cur != Nil
        invariant old(Arrived(intermediates)) == Arrived(cur) + InOrder(intermediates)
        decreases cur
      {
        var next := cur.next;
        ghost var older, done := Arrived(next), InOrder(intermediates);
        assert older + [cur.line] + done == older + ([cur.line] + done);
        intermediates := Cons(cur.line, intermediates);
        cur := next;
      }
      assert [] + InOrder(intermediates) == InOrder(intermediates);
    }

    /** Hands the finished response to the issuer of the command: its intermediate lines are in
        arrival order. */
    method TakeResponse() returns (r: Response)
      requires pending && finalResponse.Some?
      modifies this
      ensures InOrder(r.lines) == old(View()).intermediates
      ensures r.success == old(success) && r.final == old(finalResponse).value
      ensures !pending && smsPdu == None && unsolicited == old(unsolicited) && written == old(written)
      ensures modemPowered == old(modemPowered)
    {
      ReverseIntermediates();
      r := Response(success, finalResponse.value, intermediates);
      ClearPendingCommand();
    }

    /** One whole command: the lines that arrive until its issuer wakes up are processed one by
        one.  The issuer gets the intermediate lines of the run in arrival order. */
    method Issue(c: Command, pdu: Option<string>, lines: seq<string>) returns (r: Option<Response>)
      requires !pending
      modifies this
      ensures var e := Run(ackSupported, c, lines);
              && unsolicited == old(unsolicited) + e.unsolicited
              && r.Some? == (e.finals != [])
              && (r.Some? ==> InOrder(r.value.lines) == e.intermediates && r.value.success == e.success
                              && r.value.final == e.finals[|e.finals| - 1])
      ensures pending == r.None?
    {
      var begun := Begin(c, pdu);
      Collect(lines, unsolicited);
      if finalResponse == None {
        return None;
      }
      var response := TakeResponse();
      r := Some(response);
    }

    /** Processes lines from the start of a command on. */
    method Collect(lines: seq<string>, ghost before: seq<string>)
      requires pending && View() == Prefixed(before, FRESH) && finalResponse == None
      modifies this
      ensures pending && command == old(command)
      ensures View() == Prefixed(before, Run(ackSupported, command, lines))
      ensures finalResponse == if finals == [] then None else Some(finals[|finals| - 1])
    {
      hide Step, Arrived, Powered;
      ghost var run := FRESH;
      for n := 0 to |lines|
        invariant pending && command == old(command)
        invariant run == Run(ackSupported, command, lines[..n]) && View() == Prefixed(before, run)
        invariant finalResponse == if finals == [] then None else Some(finals[|finals| - 1])
      {
        assert lines[..n + 1][..n] == lines[..n];
        PrefixedStep(ackSupported, command, before, run, lines[n]);
        ProcessLine(lines[n]);
        run := Step(ackSupported, command, run, lines[n]);
      }
      assert lines[..|lines|] == lines;
    }
  }
}
