/** The reader thread of an AT channel (c2kril/c2k-ril/atchannel.c): lines are read, SMS indications
    take the next line with them, and all other lines are sorted into the pending command's
    response.  What a command collects depends on the stream alone, not on how it was read. */
module AtSession {
  import opened Common
  import opened LineReader
  import opened AtResponse

  const SMS_UNSOLICITEDS: seq<string> := ["+CDS:", "+CBM:", "+CMGR:"]

  predicate IsSmsIndication(line: string) {
    exists i :: 0 <= i < |SMS_UNSOLICITEDS| && StartsWith(line, SMS_UNSOLICITEDS[i])
  }

  lemma SmsIndications(line: string)
    ensures IsSmsIndication(line) <==>
              StartsWith(line, "+CDS:") || StartsWith(line, "+CBM:") || StartsWith(line, "+CMGR:")
  {
    hide StartsWith;
    assert SMS_UNSOLICITEDS[0] == "+CDS:" && SMS_UNSOLICITEDS[1] == "+CBM:" && SMS_UNSOLICITEDS[2] == "+CMGR:";
  }

  /** The lines that are no SMS indications, nor the text behind one. */
  function PlainLines(lines: seq<string>): seq<string> {
    if lines == [] then []
    else if !IsSmsIndication(lines[0]) then [lines[0]] + PlainLines(lines[1..])
    else if |lines| == 1 then []
    else PlainLines(lines[2..])
  }

  /** The SMS indications with their texts; a last one without text is dropped. */
  function SmsPairs(lines: seq<string>): seq<(string, string)> {
    if lines == [] then []
    else if !IsSmsIndication(lines[0]) then SmsPairs(lines[1..])
    else if |lines| == 1 then []
    else [(lines[0], lines[1])] + SmsPairs(lines[2..])
  }

  predicate IsPlain(lines: seq<string>) {
    forall i :: 0 <= i < |lines| ==> !IsSmsIndication(lines[i])
  }

  /** A last indication without text. */
  function Dropped(lines: seq<string>): (r: seq<string>)
    ensures |r| <= 1
  {
    if lines == [] then []
    else if !IsSmsIndication(lines[0]) then Dropped(lines[1..])
    else if |lines| == 1 then lines
    else Dropped(lines[2..])
  }

  /** Both halves of some pairs. */
  function Halves(pairs: seq<(string, string)>): multiset<string> {
    if pairs == [] then multiset{} else multiset{pairs[0].0, pairs[0].1} + Halves(pairs[1..])
  }

  /** The lines as a bag are the plain lines, both halves of the pairs, and what is dropped. */
  predicate AllSeen(lines: seq<string>) {
    multiset(lines) == multiset(PlainLines(lines)) + Halves(SmsPairs(lines)) + multiset(Dropped(lines))
  }

  /** No line is lost, made up or seen twice: the plain lines and both halves of the pairs are all
      lines, but for a last indication without text. */
  lemma {:induction false} EveryLineIsSeen(lines: seq<string>)
    ensures AllSeen(lines)
    ensures IsPlain(PlainLines(lines))
    ensures forall i :: 0 <= i < |SmsPairs(lines)| ==> IsSmsIndication(SmsPairs(lines)[i].0)
    decreases |lines|
  {
    hide IsSmsIndication, AllSeen;
    if lines == [] {
      NoneSeen();
    } else if !IsSmsIndication(lines[0]) {
      EveryLineIsSeen(lines[1..]);
      PlainSeen(lines);
    } else if |lines| == 1 {
      LastSeen(lines);
    } else {
      EveryLineIsSeen(lines[2..]);
      PairSeen(lines);
    }
  }

  /** What is dropped is a last line, and an indication. */
  lemma {:induction false} OnlyLastIsDropped(lines: seq<string>)
    requires Dropped(lines) != []
    ensures Dropped(lines) == lines[|lines| - 1..] && IsSmsIndication(lines[|lines| - 1])
    decreases |lines|
  {
    hide IsSmsIndication;
    if !IsSmsIndication(lines[0]) {
      OnlyLastIsDropped(lines[1..]);
    } else if |lines| > 1 {
      OnlyLastIsDropped(lines[2..]);
    }
  }

  lemma NoneSeen()
    ensures AllSeen([])
  {
  }

  lemma LastSeen(lines: seq<string>)
    requires |lines| == 1 && IsSmsIndication(lines[0])
    ensures AllSeen(lines)
  {
    hide IsSmsIndication;
  }

  lemma BagOf<T>(first: seq<T>, rest: seq<T>, s: seq<T>)
    requires s == first + rest
    ensures multiset(s) == multiset(first) + multiset(rest)
  {
  }

  lemma PlainParts(lines: seq<string>)
    requires lines != [] && !IsSmsIndication(lines[0])
    ensures PlainLines(lines) == [lines[0]] + PlainLines(lines[1..])
    ensures SmsPairs(lines) == SmsPairs(lines[1..]) && Dropped(lines) == Dropped(lines[1..])
  {
    hide IsSmsIndication;
  }

  lemma PairParts(lines: seq<string>)
    requires |lines| > 1 && IsSmsIndication(lines[0])
    ensures SmsPairs(lines) == [(lines[0], lines[1])] + SmsPairs(lines[2..])
    ensures PlainLines(lines) == PlainLines(lines[2..]) && Dropped(lines) == Dropped(lines[2..])
  {
    hide IsSmsIndication;
  }

  lemma PlainSeen(lines: seq<string>)
    requires lines != [] && !IsSmsIndication(lines[0]) && AllSeen(lines[1..])
    ensures AllSeen(lines)
  {
    hide IsSmsIndication, Halves, PlainLines, SmsPairs, Dropped;
    PlainParts(lines);
    BagOf([lines[0]], lines[1..], lines);
    BagOf([lines[0]], PlainLines(lines[1..]), PlainLines(lines));
  }

  lemma PairSeen(lines: seq<string>)
    requires |lines| > 1 && IsSmsIndication(lines[0]) && AllSeen(lines[2..])
    ensures AllSeen(lines)
  {
    hide IsSmsIndication, Halves, PlainLines, SmsPairs, Dropped;
    PairParts(lines);
    BagOf([lines[0], lines[1]], lines[2..], lines);
    HalvesOf((lines[0], lines[1]), SmsPairs(lines[2..]), SmsPairs(lines));
  }

  lemma HalvesOf(first: (string, string), rest: seq<(string, string)>, pairs: seq<(string, string)>)
    requires pairs == [first] + rest
    ensures Halves(pairs) == multiset([first.0, first.1]) + Halves(rest)
  {
    assert pairs[1..] == rest;
  }

  /** Lines are handled in their order: behind lines of which none is dropped, the others are handled as
      if they came first. */
  lemma {:induction false} HandledInOrder(a: seq<string>, b: seq<string>)
    requires Dropped(a) == []
    ensures PlainLines(a + b) == PlainLines(a) + PlainLines(b) && SmsPairs(a + b) == SmsPairs(a) + SmsPairs(b)
    decreases |a|
  {
    hide IsSmsIndication;
    if a == [] {
      assert a + b == b;
    } else if !IsSmsIndication(a[0]) {
      HandledInOrder(a[1..], b);
      assert (a + b)[1..] == a[1..] + b;
    } else if |a| > 1 {
      HandledInOrder(a[2..], b);
      assert (a + b)[2..] == a[2..] + b && (a + b)[1] == a[1];
    }
  }

  /** One line, or an indication and the line behind it. */
  lemma HandledAlone(line: string, text: string)
    ensures if IsSmsIndication(line)
            then PlainLines([line, text]) == [] && SmsPairs([line, text]) == [(line, text)] && Dropped([line]) == [line]
            else PlainLines([line]) == [line] && SmsPairs([line]) == []
  {
    hide IsSmsIndication;
    assert [line, text][2..] == [] && [line][1..] == [];
  }

  /** What is behind the lines handled so far: plain lines, pairs, and lines to come. */
  predicate Handled(all: seq<string>, plain: seq<string>, pairs: seq<(string, string)>, left: seq<string>) {
    PlainLines(all) == plain + PlainLines(left) && SmsPairs(all) == pairs + SmsPairs(left)
  }

  lemma HandledLine(all: seq<string>, plain: seq<string>, pairs: seq<(string, string)>, line: string, left: seq<string>)
    requires Handled(all, plain, pairs, [line] + left) && !IsSmsIndication(line)
    ensures Handled(all, plain + [line], pairs, left)
  {
    hide IsSmsIndication;
    assert ([line] + left)[1..] == left;
    assert plain + ([line] + PlainLines(left)) == plain + [line] + PlainLines(left);
  }

  lemma HandledSms(all: seq<string>, plain: seq<string>, pairs: seq<(string, string)>,
                   first: string, second: string, left: seq<string>)
    requires Handled(all, plain, pairs, [first] + ([second] + left)) && IsSmsIndication(first)
    ensures Handled(all, plain, pairs + [(first, second)], left)
  {
    hide IsSmsIndication;
    var lines := [first] + ([second] + left);
    assert lines[2..] == left && lines[1] == second;
    assert pairs + ([(first, second)] + SmsPairs(left)) == pairs + [(first, second)] + SmsPairs(left);
  }

  lemma HandledAll(all: seq<string>, plain: seq<string>, pairs: seq<(string, string)>, left: seq<string>)
    requires Handled(all, plain, pairs, left)
    requires left == [] || (|left| == 1 && IsSmsIndication(left[0]))
    ensures PlainLines(all) == plain && SmsPairs(all) == pairs
  {
  }

  lemma NothingHandled(all: seq<string>)
    ensures Handled(all, [], [], all)
  {
  }

  method IsSmsUnsolicited(line: string) returns (r: bool)
    ensures r == IsSmsIndication(line)
  {
    for i := 0 to |SMS_UNSOLICITEDS|
      invariant forall k :: 0 <= k < i ==> !StartsWith(line, SMS_UNSOLICITEDS[k])
    {
      if StartsWith(line, SMS_UNSOLICITEDS[i]) {
        return true;
      }
    }
    r := false;
  }

  /** One more plain line for the pending command. */
  method SortLine(channel: AtChannel, ghost before: seq<string>, ghost plain: seq<string>, line: string)
    requires channel.pending
    requires channel.View() == Prefixed(before, Run(channel.ackSupported, channel.command, plain))
    modifies channel
    ensures channel.pending && channel.command == old(channel.command)
    ensures channel.View() == Prefixed(before, Run(channel.ackSupported, channel.command, plain + [line]))
  {
    hide Step, Arrived;
    assert (plain + [line])[..|plain|] == plain;
    ghost var run := Run(channel.ackSupported, channel.command, plain);
    PrefixedStep(channel.ackSupported, channel.command, before, run, line);
    channel.ProcessLine(line);
  }

  /** Reads to the end of the stream while a command is pending.  For every way the stream is cut
      into reads, the command has collected the run of its plain lines, and the handler has
      been given all SMS indications with their texts, in order. */
  method ReaderLoop(reader: LineChannel, channel: AtChannel, ghost before: seq<string>)
    returns (sms: seq<(string, string)>)
    requires reader.Plain() && channel.pending && channel.View() == Prefixed(before, FRESH)
    modifies reader, reader.buffer, channel
    ensures var lines := Lines(old(reader.Unread()));
            && sms == SmsPairs(lines)
            && channel.View() == Prefixed(before, Run(channel.ackSupported, old(channel.command), PlainLines(lines)))
  {
    sms := [];
    ghost var all, plain: seq<string> := Lines(reader.Unread()), [];
    NothingHandled(all);
    assert Run(channel.ackSupported, channel.command, []) == FRESH;
    hide Lines, Handled, PlainLines, SmsPairs, IsSmsIndication, Run, Arrived, LineReader.Fits, NoPrompt, Normal;
    while true
      invariant reader.Plain() && Handled(all, plain, sms, Lines(reader.Unread()))
      invariant channel.pending && channel.command == old(channel.command)
      invariant channel.View() == Prefixed(before, Run(channel.ackSupported, channel.command, plain))
      decreases |reader.Unread()|
    {
      ghost var left := Lines(reader.Unread());
      var line := reader.ReadNext();
      if line == None {
        HandledAll(all, plain, sms, left);
        return;
      }
      var indication := IsSmsUnsolicited(line.value);
      if indication {
        var text := reader.ReadNext();
        if text == None {
          HandledAll(all, plain, sms, left);
          return;
        }
        HandledSms(all, plain, sms, line.value, text.value, Lines(reader.Unread()));
        sms := sms + [(line.value, text.value)];
      } else {
        HandledLine(all, plain, sms, line.value, Lines(reader.Unread()));
        SortLine(channel, before, plain, line.value);
        plain := plain + [line.value];
      }
    }
  }
}
