/** The line reader of an AT channel (c2kril/c2k-ril/atchannel.c): a sliding buffer filled by
    reads of arbitrary size, out of which complete lines are cut.  `NextLine` and `Lines` say
    what a stream of characters means; `LineChannel` is the buffer and cursor of the C code. */
module LineReader {
  import opened Common

  const MAX_AT_RESPONSE: nat := 8 * 1024

  // ---------- Lines of a stream ----------

  predicate IsNewline(c: char) {
    c == '\r' || c == '\n'
  }

  predicate AllNewlines(s: string) {
    forall i :: 0 <= i < |s| ==> IsNewline(s[i])
  }

  predicate NoNewline(s: string) {
    forall i :: 0 <= i < |s| ==> !IsNewline(s[i])
  }

  /** NUL bytes count as carriage returns. */
  function Normal(s: string): (r: string)
    ensures |r| == |s|
    ensures forall i :: 0 <= i < |s| ==> r[i] == if s[i] == '\0' then '\r' else s[i]
  {
    if s == [] then [] else [if s[0] == '\0' then '\r' else s[0]] + Normal(s[1..])
  }

  /** The stream cut at every newline; the last piece is not terminated. */
  function Split(s: string): (r: seq<string>)
    ensures r != []
  {
    if s == [] then [[]]
    else if IsNewline(s[0]) then [[]] + Split(s[1..])
    else [[s[0]] + Split(s[1..])[0]] + Split(s[1..])[1..]
  }

  function NonEmpty(pieces: seq<string>): seq<string> {
    if pieces == [] then []
    else (if pieces[0] == [] then [] else [pieces[0]]) + NonEmpty(pieces[1..])
  }

  /** The lines of a stream: its terminated, non-empty pieces. */
  function Lines(s: string): seq<string> {
    NonEmpty(Split(s)[..|Split(s)| - 1])
  }

  function Skip(s: string): string {
    if s != [] && IsNewline(s[0]) then Skip(s[1..]) else s
  }

  function Eol(s: string): (e: nat)
    ensures e <= |s| && NoNewline(s[..e]) && (e < |s| ==> IsNewline(s[e]))
  {
    if s == [] || IsNewline(s[0]) then 0
    else
      var e := Eol(s[1..]);
      assert s[..e + 1] == [s[0]] + s[1..][..e];
      e + 1
  }

  lemma {:induction false} EolAt(s: string, e: nat)
    requires e <= |s| && NoNewline(s[..e]) && (e < |s| ==> IsNewline(s[e]))
    ensures Eol(s) == e
  {
    if e > 0 {
      assert s[0] == s[..e][0] && s[1..][..e - 1] == s[..e][1..];
      EolAt(s[1..], e - 1);
    }
  }

  /** The first line of a stream and what follows its terminator. */
  function NextLine(s: string): Option<(string, string)> {
    var t := Skip(s);
    var e := Eol(t);
    if e == |t| then None else Some((t[..e], t[e + 1..]))
  }

  lemma {:induction false} SplitLine(t: string, e: nat)
    requires e < |t| && NoNewline(t[..e]) && IsNewline(t[e])
    ensures Split(t) == [t[..e]] + Split(t[e + 1..])
  {
    if e == 0 {
    } else {
      assert t[1..][..e - 1] == t[..e][1..] && t[1..][e..] == t[e + 1..];
      SplitLine(t[1..], e - 1);
      assert [t[0]] + t[1..][..e - 1] == t[..e];
    }
  }

  lemma {:induction false} SplitUnterminated(t: string)
    requires NoNewline(t)
    ensures Split(t) == [t]
  {
    if t == [] {
    } else {
      SplitUnterminated(t[1..]);
      assert [t[0]] + t[1..] == t;
    }
  }

  lemma {:induction false} SkippingLosesNoLine(s: string)
    ensures Lines(Skip(s)) == Lines(s)
  {
    if s != [] && IsNewline(s[0]) {
      SkippingLosesNoLine(s[1..]);
      var rest := Split(s[1..]);
      assert Split(s)[..|Split(s)| - 1] == [[]] + rest[..|rest| - 1];
    }
  }

  /** Taking next lines until there is none yields exactly the lines of the stream. */
  lemma NextLineIsFirstOfLines(s: string)
    ensures match NextLine(s)
            case Some((line, rest)) => Lines(s) == [line] + Lines(rest) && |rest| < |s|
            case None => Lines(s) == []
  {
    SkippingLosesNoLine(s);
    var t := Skip(s);
    SkipIsSuffix(s);
    var e := Eol(t);
    if e == |t| {
      assert t[..e] == t;
      SplitUnterminated(t);
    } else {
      SplitLine(t, e);
      var rest := Split(t[e + 1..]);
      assert Split(t)[..|Split(t)| - 1] == [t[..e]] + rest[..|rest| - 1];
      SkipStartsALine(s);
    }
  }

  lemma {:induction false} SkipIsSuffix(s: string)
    ensures |Skip(s)| <= |s| && AllNewlines(s[..|s| - |Skip(s)|]) && s[|s| - |Skip(s)|..] == Skip(s)
  {
    if s != [] && IsNewline(s[0]) {
      SkipIsSuffix(s[1..]);
      var n := |s| - |Skip(s)|;
      assert s[..n] == [s[0]] + s[1..][..n - 1];
    }
  }

  lemma {:induction false} SkipStartsALine(s: string)
    ensures Skip(s) == [] || !IsNewline(Skip(s)[0])
  {
    if s != [] && IsNewline(s[0]) {
      SkipStartsALine(s[1..]);
    }
  }

  /** A piece of newlines up to `j` and of a line from there. */
  predicate Stretch(s: string, i: int, j: int, k: int) {
    0 <= i <= j <= k <= |s| && AllNewlines(s[i..j]) && NoNewline(s[j..k])
  }

  /** Every newline run with the line behind it and its terminator fits the buffer. */
  ghost predicate Fits(s: string) {
    forall i, j, k :: Stretch(s, i, j, k) ==> k - i < MAX_AT_RESPONSE
  }

  /** No line starts with the SMS prompt. */
  predicate NoPrompt(s: string) {
    forall i :: 0 <= i < |s| - 1 && s[i] == '>' && s[i + 1] == ' ' ==> i > 0 && !IsNewline(s[i - 1])
  }

  lemma NextLineSkips(nl: string, s: string)
    requires AllNewlines(nl)
    ensures NextLine(nl + s) == NextLine(s)
  {
    SkipNewlines(nl, s);
  }

  lemma {:induction false} SkipNewlines(nl: string, s: string)
    requires AllNewlines(nl)
    ensures Skip(nl + s) == Skip(s)
  {
    if nl == [] {
      assert nl + s == s;
    } else {
      assert (nl + s)[1..] == nl[1..] + s;
      SkipNewlines(nl[1..], s);
    }
  }

  /** What stays behind a line is again a stream of such lines. */
  lemma RestKeepsShape(s: string, line: string, rest: string)
    requires NextLine(s) == Some((line, rest)) && NoPrompt(s) && Fits(s)
    ensures NoPrompt(rest) && Fits(rest)
  {
    SkipIsSuffix(s);
    var t := Skip(s);
    var n := |s| - |rest|;
    assert rest == t[Eol(t) + 1..] == s[n..] && s[n - 1] == t[Eol(t)];
    NoPromptAfter(s, n);
    FitsAfter(s, n);
  }

  lemma NoPromptAfter(s: string, n: nat)
    requires NoPrompt(s) && 0 < n <= |s| && IsNewline(s[n - 1])
    ensures NoPrompt(s[n..])
  {
    var rest := s[n..];
    forall i | 0 <= i < |rest| - 1 && rest[i] == '>' && rest[i + 1] == ' ' ensures i > 0 && !IsNewline(rest[i - 1]) {
      assert s[n + i] == rest[i] && s[n + i + 1] == rest[i + 1];
      assert !IsNewline(s[n + i - 1]);
    }
  }

  lemma FitsAfter(s: string, n: nat)
    requires Fits(s) && n <= |s|
    ensures Fits(s[n..])
  {
    hide Stretch;
    forall i, j, k | Stretch(s[n..], i, j, k) ensures k - i < MAX_AT_RESPONSE {
      StretchAfter(s, n, i, j, k);
    }
  }

  lemma StretchAfter(s: string, n: nat, i: int, j: int, k: int)
    requires n <= |s| && Stretch(s[n..], i, j, k)
    ensures Stretch(s, n + i, n + j, n + k)
  {
    hide AllNewlines, NoNewline;
    assert s[n + i..n + j] == s[n..][i..j] && s[n + j..n + k] == s[n..][j..k];
  }

  lemma {:induction false} NormalConcat(a: string, b: string)
    ensures Normal(a + b) == Normal(a) + Normal(b)
  {
  }

  lemma Moved(ahead: string, stream: string, chunk: string, rest: string)
    requires stream == chunk + rest
    ensures ahead + Normal(stream) == (ahead + Normal(chunk)) + Normal(rest)
  {
    NormalConcat(chunk, rest);
  }

  /** A buffered line found behind skipped newlines is the next line of the whole stream. */
  lemma CutLine(nl: string, c: string, rest: string)
    requires AllNewlines(nl) && c != [] && !IsNewline(c[0]) && Eol(c) < |c|
    ensures NextLine(nl + (c + rest)) == Some((c[..Eol(c)], c[Eol(c) + 1..] + rest))
  {
    hide NextLine, AllNewlines;
    var e, t := Eol(c), c + rest;
    NextLineSkips(nl, t);
    EolOfConcat(c, rest);
    UnskippedLine(t);
    assert t[..e] == c[..e] && t[e + 1..] == c[e + 1..] + rest;
  }

  lemma EolOfConcat(c: string, rest: string)
    requires Eol(c) < |c|
    ensures Eol(c + rest) == Eol(c)
  {
    var e, t := Eol(c), c + rest;
    assert t[..e] == c[..e];
    EolAt(t, e);
  }

  lemma UnskippedLine(t: string)
    requires t != [] && !IsNewline(t[0]) && Eol(t) < |t|
    ensures NextLine(t) == Some((t[..Eol(t)], t[Eol(t) + 1..]))
  {
  }

  lemma NoLineYet(nl: string, c: string)
    requires AllNewlines(nl) && NoNewline(c)
    ensures NextLine(nl + c) == None
  {
    SkipNewlines(nl, c);
    assert c[..|c|] == c;
    EolAt(c, |c|);
  }

  /** A prompt that is taken for a line is one that starts a line. */
  lemma PromptStartsALine(s: string, rest: string)
    requires Skip(s) == "> " + rest
    ensures !NoPrompt(s)
  {
    SkipIsSuffix(s);
    var n := |s| - |Skip(s)|;
    assert s[n] == Skip(s)[0] == '>' && s[n + 1] == Skip(s)[1] == ' ';
    assert n > 0 ==> s[n - 1] == s[..n][n - 1];
  }

  lemma SkipPartial(c: string)
    requires NoNewline(c)
    ensures Skip(c) == c
  {
  }

  lemma SkippedToPrompt(nl: string, rest: string)
    requires AllNewlines(nl)
    ensures Skip(nl + ("> " + rest)) == "> " + rest
  {
    SkipNewlines(nl, "> " + rest);
  }

  /** While the buffer holds only skipped newlines and a partial line it cannot be full. */
  lemma RoomLeft(nl: string, c: string, rest: string, skipped: nat)
    requires Fits(nl + (c + rest)) && AllNewlines(nl) && NoNewline(c) && skipped <= |nl|
    ensures skipped + |c| < MAX_AT_RESPONSE
  {
    var s := nl + (c + rest);
    assert s[|nl| - skipped..|nl|] == nl[|nl| - skipped..] && s[|nl|..|nl| + |c|] == c;
    assert Stretch(s, |nl| - skipped, |nl|, |nl| + |c|);
  }

  // ---------- What lines are made of ----------

  function Flattened(pieces: seq<string>): string {
    if pieces == [] then "" else pieces[0] + Flattened(pieces[1..])
  }

  /** The stream without carriage returns and line feeds. */
  function Printable(s: string): string {
    if s == "" then "" else (if s[0] == '\r' || s[0] == '\n' then "" else [s[0]]) + Printable(s[1..])
  }

  lemma {:induction false} SplitKeepsAllElse(s: string)
    ensures Flattened(Split(s)) == Printable(s)
    ensures forall i :: 0 <= i < |Split(s)| ==> '\r' !in Split(s)[i] && '\n' !in Split(s)[i]
  {
    if s == "" {
      assert Split(s)[1..] == [];
    } else {
      SplitKeepsAllElse(s[1..]);
      var rest := Split(s[1..]);
      if IsNewline(s[0]) {
        assert Split(s)[1..] == rest;
      } else {
        assert Split(s)[1..] == rest[1..];
        assert [s[0]] + rest[0] + Flattened(rest[1..]) == [s[0]] + (rest[0] + Flattened(rest[1..]));
      }
    }
  }

  lemma {:induction false} NonEmptyKeepsAll(pieces: seq<string>)
    ensures Flattened(NonEmpty(pieces)) == Flattened(pieces)
    ensures forall i :: 0 <= i < |NonEmpty(pieces)| ==> NonEmpty(pieces)[i] != "" && NonEmpty(pieces)[i] in pieces
  {
    if pieces != [] {
      NonEmptyKeepsAll(pieces[1..]);
      if pieces[0] == "" {
        assert NonEmpty(pieces) == NonEmpty(pieces[1..]);
        assert "" + Flattened(pieces[1..]) == Flattened(pieces[1..]);
      } else {
        assert NonEmpty(pieces)[1..] == NonEmpty(pieces[1..]);
      }
    }
  }

  lemma {:induction false} FlattenedSnoc(pieces: seq<string>, last: string)
    ensures Flattened(pieces + [last]) == Flattened(pieces) + last
  {
    if pieces == [] {
      assert [last][1..] == [];
    } else {
      FlattenedSnoc(pieces[1..], last);
      assert (pieces + [last])[1..] == pieces[1..] + [last];
    }
  }

  /** The lines are not empty and hold no carriage return or line feed.  One behind the other, with the
      piece that is not terminated, they are all other characters of the stream, in order. */
  lemma LinesKeepAllElse(s: string)
    ensures forall i :: 0 <= i < |Lines(s)| ==> Lines(s)[i] != "" && '\r' !in Lines(s)[i] && '\n' !in Lines(s)[i]
    ensures Flattened(Lines(s)) + Split(s)[|Split(s)| - 1] == Printable(s)
  {
    hide Split, NonEmpty, Flattened, Printable;
    var pieces, n := Split(s), |Split(s)| - 1;
    SplitKeepsAllElse(s);
    NonEmptyKeepsAll(pieces[..n]);
    FlattenedSnoc(pieces[..n], pieces[n]);
    assert pieces == pieces[..n] + [pieces[n]];
  }

  // ---------- Prompts and reads ----------

  /** What the modem sends, in the pieces in which it can be read. */
  function Joined(pieces: seq<string>): string {
    if pieces == [] then "" else pieces[0] + Joined(pieces[1..])
  }

  /** With `ahead` read already, some read ends right behind a prompt at the start of the next line. */
  predicate PromptCut(ahead: string, pieces: seq<string>)
    decreases |pieces|
  {
    Skip(ahead) == "> " || (pieces != [] && PromptCut(ahead + Normal(pieces[0]), pieces[1..]))
  }

  lemma {:induction false} PromptCutIsRead(ahead: string, pieces: seq<string>)
    ensures PromptCut(ahead, pieces) <==>
              exists k :: 0 <= k <= |pieces| && Skip(ahead + Normal(Joined(pieces[..k]))) == "> "
    decreases |pieces|
  {
    assert ahead + Normal(Joined(pieces[..0])) == ahead;
    if pieces != [] {
      var next, rest := ahead + Normal(pieces[0]), pieces[1..];
      PromptCutIsRead(next, rest);
      forall k | 0 <= k <= |rest|
        ensures ahead + Normal(Joined(pieces[..k + 1])) == next + Normal(Joined(rest[..k]))
      {
        assert pieces[..k + 1][1..] == rest[..k];
        Moved(ahead, Joined(pieces[..k + 1]), pieces[0], Joined(rest[..k]));
      }
      if k :| 0 <= k <= |pieces| && Skip(ahead + Normal(Joined(pieces[..k]))) == "> " {
        if k > 0 {
          assert Skip(next + Normal(Joined(rest[..k - 1]))) == "> ";
        }
      }
      if k :| 0 <= k <= |rest| && Skip(next + Normal(Joined(rest[..k]))) == "> " {
        assert Skip(ahead + Normal(Joined(pieces[..k + 1]))) == "> ";
      }
    }
  }

  /** Skipped newlines make no difference. */
  lemma {:induction false} PromptCutBehind(nl: string, c: string, pieces: seq<string>)
    requires AllNewlines(nl)
    ensures PromptCut(nl + c, pieces) == PromptCut(c, pieces)
    decreases |pieces|
  {
    hide Skip;
    SkipNewlines(nl, c);
    if pieces != [] {
      assert nl + c + Normal(pieces[0]) == nl + (c + Normal(pieces[0]));
      PromptCutBehind(nl, c + Normal(pieces[0]), pieces[1..]);
    }
  }

  /** Once a line is complete no prompt is seen, whatever is read behind it. */
  lemma {:induction false} LineIsNoPrompt(c: string, pieces: seq<string>)
    requires c != [] && !IsNewline(c[0]) && Eol(c) < |c|
    ensures !PromptCut(c, pieces)
    decreases |pieces|
  {
    assert c != "> " by {
      assert IsNewline(c[Eol(c)]);
    }
    if pieces != [] {
      EolOfConcat(c, Normal(pieces[0]));
      LineIsNoPrompt(c + Normal(pieces[0]), pieces[1..]);
    }
  }

  lemma PromptSeen(pieces: seq<string>)
    ensures PromptCut("> ", pieces)
  {
  }

  /** A partial line that is no prompt, and the next piece. */
  lemma PromptCutNext(c: string, pieces: seq<string>)
    requires Skip(c) != "> "
    ensures pieces == [] ==> !PromptCut(c, pieces)
    ensures pieces != [] ==> PromptCut(c, pieces) == PromptCut(c + Normal(pieces[0]), pieces[1..])
  {
  }

  /** A piece that is read in two parts: only a prompt at the end of the first makes a difference. */
  lemma PromptCutPart(c: string, pieces: seq<string>, n: nat)
    requires pieces != [] && n < |pieces[0]| && Skip(c) != "> " && Skip(c + Normal(pieces[0][..n])) != "> "
    ensures PromptCut(c, pieces) == PromptCut(c + Normal(pieces[0][..n]), [pieces[0][n..]] + pieces[1..])
  {
    var p, left := pieces[0], [pieces[0][n..]] + pieces[1..];
    PromptCutNext(c, pieces);
    PromptCutNext(c + Normal(p[..n]), left);
    assert p == p[..n] + p[n..] && left[1..] == pieces[1..];
    Moved(c, p, p[..n], p[n..]);
  }

  lemma Skipping(nl: string, skipped: string, ahead: string, later: string)
    requires AllNewlines(nl) && AllNewlines(skipped)
    ensures AllNewlines(nl + skipped) && nl + ((skipped + ahead) + later) == (nl + skipped) + (ahead + later)
  {
  }

  /** No prompt fills the buffer to its end. */
  lemma FullIsNoPrompt(nl: string, c: string, rest: string, skipped: nat)
    requires Fits(nl + (c + rest)) && AllNewlines(nl) && skipped <= |nl| && skipped + |c| >= MAX_AT_RESPONSE
    ensures Skip(c) != "> "
  {
    hide Fits, Skip;
    if Skip(c) == "> " {
      SkipIsSuffix(c);
      var n := c[..|c| - 2];
      assert c == n + "> ";
      Skipping(nl, n, "> ", rest);
      RoomLeft(nl + n, "> ", rest, skipped + |n|);
    }
  }

  // ---------- The sliding buffer ----------

  class LineChannel {
    /** ATBuffer: one place more than a response may take, for the NUL. */
    const buffer: array<char>
    var cur: nat
    /** Where the NUL stands that ends the buffered data. */
    ghost var end: nat
    /** What the modem has sent or will send and nobody has read yet, in the pieces in which it
        is there for a read. */
    var incoming: seq<string>

    ghost predicate Shape()
      reads this, buffer
    {
      && buffer.Length == MAX_AT_RESPONSE + 1
      && cur <= end <= MAX_AT_RESPONSE
      && buffer[end] == '\0'
      && (forall i :: cur <= i < end ==> buffer[i] != '\0')
      && forall i :: 0 <= i < |incoming| ==> incoming[i] != ""
    }

    ghost function Unread(): string
      reads this, buffer
      requires Shape()
    {
      buffer[cur..end] + Normal(Joined(incoming))
    }

    /** Some read will end right behind a prompt. */
    ghost predicate PromptAhead()
      reads this, buffer
      requires Shape()
    {
      PromptCut(buffer[cur..end], incoming)
    }

    constructor (storage: array<char>, pieces: seq<string>)
      requires storage.Length == MAX_AT_RESPONSE + 1 && forall i :: 0 <= i < |pieces| ==> pieces[i] != ""
      modifies storage
      ensures Shape() && Unread() == Normal(Joined(pieces)) && PromptAhead() == PromptCut("", pieces)
      ensures buffer == storage && incoming == pieces
    {
      buffer, cur, end, incoming := storage, 0, 0, pieces;
      new;
      buffer[0] := '\0';
    }

    /** One read of the descriptor: it hands over the piece that is there, as far as there is
        space for it, and nothing only at the end of the stream. */
    method Read(space: nat) returns (chunk: string)
      requires Shape() && space > 0
      modifies this`incoming
      ensures Shape() && Joined(old(incoming)) == chunk + Joined(incoming) && |chunk| <= space
      ensures chunk == "" <==> old(incoming) == []
      ensures old(incoming) == [] ==> incoming == []
      ensures old(incoming) != [] ==>
                if |old(incoming)[0]| <= space then chunk == old(incoming)[0] && incoming == old(incoming)[1..]
                else chunk == old(incoming)[0][..space] && incoming == [old(incoming)[0][space..]] + old(incoming)[1..]
    {
      if incoming == [] {
        chunk := "";
      } else if |incoming[0]| <= space {
        chunk, incoming := incoming[0], incoming[1..];
      } else {
        var piece := incoming[0];
        chunk, incoming := piece[..space], [piece[space..]] + incoming[1..];
        assert piece[..space] + (piece[space..] + Joined(incoming[1..])) == piece + Joined(incoming[1..]);
      }
    }

    method SkipLeadingNewlines()
      requires Shape()
      modifies this`cur
      ensures Shape() && old(cur) <= cur && AllNewlines(buffer[old(cur)..cur])
      ensures !IsNewline(buffer[cur])
    {
      while buffer[cur] == '\r' || buffer[cur] == '\n'
        invariant Shape() && old(cur) <= cur && AllNewlines(buffer[old(cur)..cur])
        decreases end - cur
      {
        cur := cur + 1;
      }
    }

    /** The end of the next line, if there is a complete one.  The two characters of an SMS
        prompt count as a line when nothing follows them. */
    method FindNextEol() returns (eol: Option<nat>)
      requires Shape()
      ensures eol == if buffer[cur..end] == "> " then Some(end)
                     else if Eol(buffer[cur..end]) == end - cur then None
                     else Some(cur + Eol(buffer[cur..end]))
    {
      if buffer[cur] == '>' && buffer[cur + 1] == ' ' && buffer[cur + 2] == '\0' {
        return Some(cur + 2);
      }
      var p := cur;
      while buffer[p] != '\0' && buffer[p] != '\r' && buffer[p] != '\n'
        invariant cur <= p <= end && forall i :: cur <= i < p ==> !IsNewline(buffer[i])
        decreases end - p
      {
        p := p + 1;
      }
      assert buffer[cur..end][..p - cur] == buffer[cur..p];
      EolAt(buffer[cur..end], p - cur);
      eol := if buffer[p] == '\0' then None else Some(p);
    }

    /** Puts what was read behind the buffered data, NUL bytes as carriage returns. */
    method Append(pRead: nat, chunk: string)
      requires Shape() && pRead == end && end + |chunk| <= MAX_AT_RESPONSE
      modifies this`end, buffer
      ensures Shape() && end == old(end) + |chunk|
      ensures buffer[cur..end] == old(buffer[cur..end]) + Normal(chunk)
    {
      forall i | 0 <= i < |chunk| {
        buffer[pRead + i] := if chunk[i] == '\0' then '\r' else chunk[i];
      }
      buffer[pRead + |chunk|] := '\0';
      end := pRead + |chunk|;
    }

    /** Moves a partial line to the front of the buffer. */
    method MoveUp() returns (pRead: nat)
      requires Shape()
      modifies this`cur, this`end, buffer
      ensures Shape() && cur == 0 && pRead == end && buffer[cur..end] == old(buffer[cur..end])
    {
      var from := cur;
      var len := StringLength();
      ghost var moved := buffer[from..from + len + 1];
      forall i | 0 <= i < len + 1 {
        buffer[i] := buffer[from + i];
      }
      assert buffer[..len + 1] == moved;
      assert forall i :: 0 <= i < len ==> buffer[i] == moved[i] != '\0';
      cur, end, pRead := 0, len, len;
    }

    method StringLength() returns (len: nat)
      requires Shape()
      ensures len == end - cur
    {
      len := 0;
      while buffer[cur + len] != '\0'
        invariant cur + len <= end
        decreases end - len
      {
        len := len + 1;
      }
    }

    /** What was skipped, what is still to come, and whether a prompt is ahead as it was at first. */
    ghost predicate Tracks(s: string, nl: string, early: bool)
      reads this, buffer
      requires Shape()
    {
      AllNewlines(nl) && s == nl + Unread() && early == PromptAhead()
    }

    /** Skips newlines and looks for the end of the line behind them.  `good` says that `s` is
        still accounted for by `nl` and the unread characters. */
    method Scan(ghost s: string, ghost nl: string, ghost early: bool, ghost good: bool)
      returns (eol: Option<nat>, ghost nl2: string)
      requires Shape() && (good ==> Tracks(s, nl, early))
      modifies this`cur
      ensures Shape() && old(cur) <= cur
      ensures good ==> Tracks(s, nl2, early) && |nl2| == |nl| + (cur - old(cur))
      ensures Scanned(eol, good)
    {
      SkipLeadingNewlines();
      ghost var skipped, ahead, later := buffer[old(cur)..cur], buffer[cur..end], Normal(Joined(incoming));
      assert old(buffer[cur..end]) == skipped + ahead;
      nl2 := nl + skipped;
      hide PromptCut, Joined, Normal, Skip, AllNewlines;
      if good {
        Skipping(nl, skipped, ahead, later);
        PromptCutBehind(skipped, ahead, incoming);
      }
      eol := FindNextEol();
      assert ahead[..end - cur] == ahead;
    }

    /** Reads behind the partial line and scans again; a count of 0 means that the stream has
        ended. */
    method ReadMore(ghost s: string, ghost nl: string, ghost early: bool, ghost good: bool, pRead: nat)
      returns (count: nat, eol: Option<nat>, ghost nl2: string)
      requires Shape() && (good ==> Fits(s) && Tracks(s, nl, early) && cur <= |nl|)
      requires pRead == end < MAX_AT_RESPONSE && Scanned(None, good)
      modifies this`cur, this`end, this`incoming, buffer
      ensures Shape() && old(cur) <= cur && end == pRead + count
      ensures good ==> Tracks(s, nl2, early) && |nl2| == |nl| + (cur - old(cur))
      ensures count == 0 ==> incoming == [] && old(incoming) == [] && eol.None?
      ensures count > 0 ==> |Joined(incoming)| < |old(Joined(incoming))|
      ensures Scanned(eol, good)
    {
      hide Fits, PromptCut, Joined, Skip;
      nl2, eol := nl, None;
      count := Fill(pRead);
      if count > 0 {
        if good && end == MAX_AT_RESPONSE {
          FullIsNoPrompt(nl, buffer[cur..end], Normal(Joined(incoming)), cur);
        }
        eol, nl2 := Scan(s, nl, early, good);
      }
    }

    /** Moves characters from the descriptor into the buffer. */
    method Fill(pRead: nat) returns (count: nat)
      requires Shape() && pRead == end < MAX_AT_RESPONSE && Scanned(None, false)
      modifies this`end, this`incoming, buffer
      ensures Shape() && end == pRead + count && Unread() == old(Unread())
      ensures |Joined(incoming)| == |old(Joined(incoming))| - count
      ensures count == 0 ==> incoming == [] && old(incoming) == [] && buffer[cur..end] == old(buffer[cur..end])
      ensures end < MAX_AT_RESPONSE || Skip(buffer[cur..end]) != "> " ==> PromptAhead() == old(PromptAhead())
    {
      ghost var ahead, pieces := buffer[cur..end], incoming;
      var chunk := Read(MAX_AT_RESPONSE - pRead);
      count := |chunk|;
      SkipPartial(ahead);
      hide Joined, PromptCut, Skip;
      if count > 0 {
        Append(pRead, chunk);
        Moved(ahead, Joined(pieces), chunk, Joined(incoming));
        PromptCutNext(ahead, pieces);
        if chunk != pieces[0] && Skip(ahead + Normal(chunk)) != "> " {
          PromptCutPart(ahead, pieces, count);
        }
      }
    }

    /** What a scan established: no line yet, and no prompt; or the end of one of the two.  Only a
        prompt ends where the buffered data end. */
    ghost predicate Scanned(eol: Option<nat>, good: bool)
      reads this, buffer
      requires Shape()
    {
      match eol
      case None => NoNewline(buffer[cur..end]) && buffer[cur..end] != "> "
      case Some(e) =>
        && cur <= e <= end
        && (good ==> if e == end then buffer[cur..end] == "> "
                     else Eol(buffer[cur..end]) == e - cur && !IsNewline(buffer[cur]))
    }

    /** What reading a line comes to: the next line of the stream, or a prompt behind which
        nothing had been read.  The cursor is then behind the NUL. */
    ghost predicate LineTaken(s: string, line: string, early: bool)
      reads this, buffer
    {
      if early then cur == end + 1 && line == "> " && Skip(s) == "> " + Normal(Joined(incoming))
      else Shape() && NextLine(s) == Some((line, Unread()))
    }

    /** No prompt is taken where no line starts with one. */
    lemma NotPrompted(s: string, line: string, early: bool)
      requires NoPrompt(s) && LineTaken(s, line, early)
      ensures Shape() && NextLine(s) == Some((line, Unread()))
    {
      if early {
        PromptStartsALine(s, Normal(Joined(incoming)));
      }
    }

    /** Cuts the line off and leaves the cursor behind its terminator. */
    method Take(ghost s: string, ghost nl: string, ghost early: bool, ghost good: bool, eol: nat)
      returns (line: string)
      requires Shape() && Scanned(Some(eol), good) && (good ==> Tracks(s, nl, early))
      modifies this`cur, buffer
      ensures |line| <= MAX_AT_RESPONSE
      ensures good ==> LineTaken(s, line, early)
    {
      hide PromptCut, Joined, Normal, Skip, NextLine, AllNewlines, Eol;
      if good {
        if eol == end {
          SkippedToPrompt(nl, Normal(Joined(incoming)));
          PromptSeen(incoming);
        } else {
          CutLine(nl, buffer[cur..end], Normal(Joined(incoming)));
          LineIsNoPrompt(buffer[cur..end], incoming);
        }
      }
      ghost var ahead := buffer[cur..end];
      line := buffer[cur..eol];
      assert forall i :: 0 <= i < eol - cur ==> line[i] == ahead[i];
      assert line == ahead[..eol - cur];
      buffer[eol] := '\0';
      cur := eol + 1;
      assert cur <= end ==> buffer[cur..end] == ahead[|line| + 1..];
    }

    /** Reads a line.  For streams whose lines fit, a prompt is taken for one exactly if some read
        ends right behind it.  Otherwise the line and what stays unread depend on the stream
        alone, not on how it was cut into reads. */
    method ReadLine() returns (line: Option<string>)
      requires Shape()
      modifies this, buffer
      ensures line.Some? ==> |line.value| <= 8192
      ensures Fits(old(Unread())) ==>
                match line
                case Some(l) => LineTaken(old(Unread()), l, old(PromptAhead()))
                case None => incoming == [] && NextLine(old(Unread())) == None && !old(PromptAhead())
    {
      hide Fits, NextLine, Eol, Skip, Normal, Joined, PromptCut, IsNewline, LineTaken;
      ghost var s, nl, early, good := Unread(), "", PromptAhead(), Fits(Unread());
      var savedCur := cur;
      var pRead, eol, errors := 0, None, 0;
      if buffer[cur] == '\0' {
        cur, end := 0, 0;
        buffer[0] := '\0';
      } else {
        eol, nl := Scan(s, nl, early, good);
        if eol.None? {
          pRead := MoveUp();
        }
      }
      while eol.None?
        invariant Shape() && Scanned(eol, good)
        invariant good ==> Tracks(s, nl, early)
        invariant eol.None? ==> pRead == end && (good ==> cur <= |nl|)
        invariant errors < 5
        decreases |Joined(incoming)| + 5 - errors
      {
        if good {
          RoomLeft(nl, buffer[cur..end], Normal(Joined(incoming)), cur);
        }
        if MAX_AT_RESPONSE - pRead == 0 {
          // the line exceeds the buffer: drop it and start over
          cur, end, pRead := 0, 0, 0;
          buffer[0] := '\0';
        }
        var count;
        count, eol, nl := ReadMore(s, nl, early, good, pRead);
        if count > 0 {
          pRead := pRead + count;
        } else {
          errors := errors + 1;
          if errors < 5 {
            continue;
          }
          if good {
            NothingMore(s, nl, early);
          }
          cur := savedCur;
          return None;
        }
      }
      var l := Take(s, nl, early, good, eol.value);
      line := Some(l);
    }

    /** At the end of the stream, without a line. */
    lemma NothingMore(s: string, nl: string, early: bool)
      requires Shape() && Tracks(s, nl, early) && Scanned(None, true) && incoming == []
      ensures NextLine(s) == None && !early
    {
      NoLineYet(nl, buffer[cur..end]);
      SkipPartial(buffer[cur..end]);
      assert buffer[cur..end] + Normal("") == buffer[cur..end];
    }

    /** What a reader of lines without prompts has in front of it. */
    ghost predicate Plain()
      reads this, buffer
    {
      Shape() && NoPrompt(Unread()) && Fits(Unread())
    }

    /** One read out of a stream without prompts whose lines fit: the first of its lines. */
    method ReadNext() returns (line: Option<string>)
      requires Plain()
      modifies this, buffer
      ensures match line
              case Some(l) => Plain() && Lines(old(Unread())) == [l] + Lines(Unread()) && |Unread()| < |old(Unread())|
              case None => Lines(old(Unread())) == []
    {
      hide Fits, NoPrompt, Lines, NextLine, Skip, Normal, Joined, PromptCut, LineTaken;
      ghost var s, early := Unread(), PromptAhead();
      line := ReadLine();
      NextLineIsFirstOfLines(s);
      if line.Some? {
        NotPrompted(s, line.value, early);
        RestKeepsShape(s, line.value, Unread());
      }
    }

    /** The reader's outer loop up to the end of the stream: for every way the stream is cut into
        reads, the lines it gets are the lines of the stream. */
    method ReaderLoop() returns (lines: seq<string>)
      requires Plain()
      modifies this, buffer
      ensures lines == Lines(old(Unread()))
    {
      hide Fits, NoPrompt, Lines, Normal, Joined;
      lines := [];
      while true
        invariant Plain() && lines + Lines(Unread()) == Lines(old(Unread()))
        decreases |Unread()|
      {
        var line := ReadNext();
        if line == None {
          return;
        }
        lines := lines + [line.value];
      }
    }
  }

  lemma ShortFits(s: string)
    requires |s| < MAX_AT_RESPONSE
    ensures Fits(s)
  {
  }

  /** The first line of a stream, for every way it is cut into reads. */
  method FirstLine(pieces: seq<string>) returns (line: Option<string>)
    requires (forall i :: 0 <= i < |pieces| ==> pieces[i] != "") && Fits(Normal(Joined(pieces)))
    ensures PromptCut("", pieces) ==> line == Some("> ")
    ensures !PromptCut("", pieces) ==>
              match NextLine(Normal(Joined(pieces)))
              case Some((first, _)) => line == Some(first)
              case None => line == None
  {
    hide Joined, PromptCut, NextLine, Fits, Normal, Skip;
    var storage := new char[MAX_AT_RESPONSE + 1];
    var reader := new LineChannel(storage, pieces);
    line := reader.ReadLine();
  }

  /** One stream, in two reads and in one. */
  const PROMPTED := "> x\r"
  const IN_TWO := [PROMPTED[..2], PROMPTED[2..]]
  const IN_ONE := [PROMPTED]

  lemma PromptedStream()
    ensures Joined(IN_TWO) == Joined(IN_ONE) == Normal(PROMPTED) == PROMPTED
    ensures Normal(PROMPTED[..2]) == PROMPTED[..2] == "> "
  {
    assert IN_TWO[1..] == [PROMPTED[2..]] && IN_ONE[1..] == [] && IN_TWO[1..][1..] == [];
    assert PROMPTED[..2] + PROMPTED[2..] == PROMPTED;
  }

  lemma PromptedLine()
    ensures NextLine(PROMPTED) == Some(("> x", ""))
    ensures PromptCut("", IN_TWO) && !PromptCut("", IN_ONE)
  {
    PromptedStream();
    hide Normal, Joined;
    EolAt(PROMPTED, 3);
    UnskippedLine(PROMPTED);
    assert PROMPTED[..3] == "> x" && PROMPTED[4..] == "";
    LineIsNoPrompt(PROMPTED, []);
    assert IN_ONE[1..] == [] && "" + PROMPTED == PROMPTED && "" + "> " == "> ";
    PromptCutNext("", IN_ONE);
    PromptCutNext("", IN_TWO);
    PromptSeen(IN_TWO[1..]);
  }

  /** What the first line is depends on the cut: the same bytes are a prompt, or another line. */
  method OneStreamTwoLines() returns (cut: Option<string>, whole: Option<string>)
    ensures Joined(IN_TWO) == Joined(IN_ONE)
    ensures cut == Some("> ") && whole == Some("> x")
  {
    PromptedStream();
    PromptedLine();
    ShortFits(PROMPTED);
    hide Joined, PromptCut, NextLine, Fits, Normal;
    cut := FirstLine(IN_TWO);
    whole := FirstLine(IN_ONE);
  }
}
