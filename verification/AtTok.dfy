/** Splitting the fields of an AT response (c2kril/c2k-ril/at_tok.c): the tokenizer cuts the line in
    place and hands out pointers into it. */
module AtTok {
  import opened Common

  const NUL := '\0'

  predicate IsSpace(c: char) {
    9 <= c as int <= 13 || c == ' '
  }

  // ---------- What a step of the tokenizer does to the text that is left ----------

  function SkipSpace(s: string): (r: string)
    ensures |r| <= |s|
  {
    if s != "" && IsSpace(s[0]) then SkipSpace(s[1..]) else s
  }

  /** What is skipped are tabs, line feeds, vertical tabs, form feeds, carriage returns and blanks, and
      all of them. */
  lemma {:induction false} SkipsAllSpace(s: string)
    ensures var n := |s| - |SkipSpace(s)|;
            && SkipSpace(s) == s[n..]
            && (forall i :: 0 <= i < n ==> s[i] as int in {9, 10, 11, 12, 13, 32})
            && (n < |s| ==> s[n] as int !in {9, 10, 11, 12, 13, 32})
  {
    if s != "" && IsSpace(s[0]) {
      SkipsAllSpace(s[1..]);
      assert forall i :: 0 < i < |s| ==> s[i] == s[1..][i - 1];
    }
  }

  /** The text behind the next comma. */
  function BehindComma(s: string): (r: string)
    ensures |r| <= |s|
  {
    if s == "" then "" else if s[0] == ',' then s[1..] else BehindComma(s[1..])
  }

  /** The text up to a delimiter, and what is behind it, if there is one. */
  function Cut(s: string, delim: char): (r: (string, Option<string>))
    ensures |r.0| <= |s| && (r.1.Some? ==> |r.1.value| < |s|)
    ensures if r.1.Some? then s == r.0 + [delim] + r.1.value else s == r.0
    ensures delim !in r.0
  {
    if s == "" then ("", None)
    else if s[0] == delim then ("", Some(s[1..]))
    else
      var (token, rest) := Cut(s[1..], delim);
      ([s[0]] + token, rest)
  }

  function NextToken(s: string): (r: (string, Option<string>))
    ensures s != "" && r.1.Some? ==> |r.1.value| < |s|
  {
    var t := SkipSpace(s);
    if t != "" && t[0] == '"' then
      var (token, rest) := Cut(t[1..], '"');
      (token, if rest.Some? then Some(BehindComma(rest.value)) else None)
    else Cut(t, ',')
  }

  /** All tokens a reader gets who asks for the next one as long as there is more. */
  function Tokens(rest: Option<string>): seq<string>
    decreases if rest.Some? then |rest.value| + 1 else 0
  {
    if rest == None || rest.value == "" then []
    else [NextToken(rest.value).0] + Tokens(NextToken(rest.value).1)
  }

  // ---------- Printing fields ----------

  /** A field with white space in front; in quotes it may hold commas, and what stands between
      the closing quote and the comma is ignored. */
  datatype Field = Plain(pad: string, text: string) | Quoted(pad: string, text: string, tail: string)

  predicate Spaces(s: string) {
    forall i :: 0 <= i < |s| ==> IsSpace(s[i])
  }

  predicate Good(f: Field) {
    && Spaces(f.pad) && NUL !in f.text
    && match f
       case Plain(_, text) => ',' !in text && (text != "" ==> !IsSpace(text[0]) && text[0] != '"')
       case Quoted(_, text, tail) => '"' !in text && ',' !in tail && NUL !in tail
  }

  /** What a field is printed as behind its pad. */
  function Body(f: Field): string {
    match f
    case Plain(_, text) => text
    case Quoted(_, text, tail) => "\"" + text + "\"" + tail
  }

  function Printed(f: Field): string {
    f.pad + Body(f)
  }

  function Joined(fs: seq<Field>): string {
    if fs == [] then ""
    else if |fs| == 1 then Printed(fs[0])
    else Printed(fs[0]) + "," + Joined(fs[1..])
  }

  function Texts(fs: seq<Field>): (r: seq<string>)
    ensures |r| == |fs|
  {
    if fs == [] then [] else [fs[0].text] + Texts(fs[1..])
  }

  predicate AllGood(fs: seq<Field>) {
    forall i :: 0 <= i < |fs| ==> Good(fs[i])
  }

  lemma {:induction false} SkipPad(pad: string, s: string)
    requires Spaces(pad) && (s != "" ==> !IsSpace(s[0]))
    ensures SkipSpace(pad + s) == s
  {
    if pad == "" {
      assert pad + s == s;
    } else {
      assert (pad + s)[1..] == pad[1..] + s;
      SkipPad(pad[1..], s);
    }
  }

  lemma {:induction false} CutFirst(a: string, delim: char, b: string)
    requires delim !in a
    ensures Cut(a + [delim] + b, delim) == (a, Some(b))
  {
    var s := a + [delim] + b;
    if a == "" {
      assert s == [delim] + b;
    } else {
      assert s[1..] == a[1..] + [delim] + b;
      CutFirst(a[1..], delim, b);
      assert [a[0]] + a[1..] == a;
    }
  }

  lemma {:induction false} CutNone(a: string, delim: char)
    requires delim !in a
    ensures Cut(a, delim) == (a, None)
  {
    if a == "" {
    } else {
      CutNone(a[1..], delim);
      assert [a[0]] + a[1..] == a;
    }
  }

  lemma {:induction false} BehindFirst(a: string, b: string)
    requires ',' !in a
    ensures BehindComma(a + "," + b) == b && BehindComma(a) == ""
  {
    var s := a + "," + b;
    if a == "" {
      assert s == "," + b;
    } else {
      assert s[1..] == a[1..] + "," + b;
      BehindFirst(a[1..], b);
    }
  }

  lemma PrintedBody(f: Field, rest: string)
    requires Spaces(f.pad) && (Body(f) + rest != "" ==> !IsSpace((Body(f) + rest)[0]))
    ensures SkipSpace(Printed(f) + rest) == Body(f) + rest
  {
    hide SkipSpace, Body;
    Regrouped(f.pad, Body(f), rest);
    SkipPad(f.pad, Body(f) + rest);
  }

  lemma Regrouped(a: string, b: string, c: string)
    ensures a + b + c == a + (b + c)
  {
  }

  lemma AddNothing(s: string)
    ensures s + "" == s
  {
  }

  lemma QuotedRest(text: string, tail: string, rest: string)
    requires '"' !in text
    ensures var s := "\"" + text + "\"" + tail + rest; s[0] == '"' && Cut(s[1..], '"') == (text, Some(tail + rest))
  {
    hide Cut;
    assert ("\"" + text + "\"" + tail + rest)[1..] == text + ['"'] + (tail + rest);
    CutFirst(text, '"', tail + rest);
  }

  /** A field that another one follows. */
  lemma NextOfMany(f: Field, more: string)
    requires Good(f)
    ensures NextToken(Printed(f) + "," + more) == (f.text, Some(more))
  {
    hide Cut, SkipSpace, BehindComma, Printed;
    var rest := "," + more;
    Regrouped(Printed(f), ",", more);
    PrintedBody(f, rest);
    match f {
      case Plain(_, text) =>
        Regrouped(text, ",", more);
        CutFirst(text, ',', more);
      case Quoted(_, text, tail) =>
        QuotedRest(text, tail, rest);
        Regrouped(tail, ",", more);
        BehindFirst(tail, more);
    }
  }

  /** The last field.  Behind a quoted one the line is at its end. */
  lemma NextOfLast(f: Field)
    requires Good(f)
    ensures NextToken(Printed(f)) == (f.text, if f.Plain? then None else Some(""))
  {
    hide Cut, SkipSpace, BehindComma, Printed;
    AddNothing(Printed(f));
    AddNothing(Body(f));
    PrintedBody(f, "");
    match f {
      case Plain(_, text) =>
        CutNone(text, ',');
      case Quoted(_, text, tail) =>
        QuotedRest(text, tail, "");
        AddNothing(tail);
        BehindFirst(tail, "");
    }
  }

  lemma FirstOfMany(fs: seq<Field>)
    requires |fs| > 1 && Good(fs[0])
    ensures Tokens(Some(Joined(fs))) == [fs[0].text] + Tokens(Some(Joined(fs[1..])))
  {
    hide NextToken, Printed, Good;
    NextOfMany(fs[0], Joined(fs[1..]));
  }

  /** The texts of all fields, less a last one that is printed as nothing. */
  function Visible(fs: seq<Field>): seq<string> {
    if fs != [] && Printed(fs[|fs| - 1]) == "" then Texts(fs)[..|fs| - 1] else Texts(fs)
  }

  lemma VisibleMore(fs: seq<Field>)
    requires |fs| > 1
    ensures Visible(fs) == [fs[0].text] + Visible(fs[1..])
  {
    hide Printed;
    var more, n := fs[1..], |fs| - 1;
    assert more[n - 1] == fs[n];
    assert Texts(fs)[..n] == [fs[0].text] + Texts(more)[..n - 1];
  }

  /** Reading the fields back gives the texts of all of them, but a last one that is printed as
      nothing is not seen. */
  lemma {:induction false} FieldsComeBack(fs: seq<Field>)
    requires AllGood(fs)
    ensures Tokens(Some(Joined(fs))) == Visible(fs)
  {
    if fs == [] {
    } else if |fs| == 1 {
      NextOfLast(fs[0]);
      assert Texts(fs) == [fs[0].text];
    } else {
      FirstOfMany(fs);
      VisibleMore(fs);
      hide Tokens, Joined, Visible, Good;
      FieldsComeBack(fs[1..]);
    }
  }

  /** A whole response: the fields behind the first colon. */
  lemma ResponseComesBack(prefix: string, fs: seq<Field>)
    requires ':' !in prefix && AllGood(fs) && (fs != [] ==> Printed(fs[|fs| - 1]) != "")
    ensures Tokens(Cut(prefix + ":" + Joined(fs), ':').1) == Texts(fs)
  {
    CutFirst(prefix, ':', Joined(fs));
    FieldsComeBack(fs);
  }

  // ---------- The tokenizer ----------

  /** A string in a buffer, ended by a NUL. */
  ghost predicate CString(buffer: seq<char>, at: nat, s: string) {
    && at + |s| < |buffer| && buffer[at + |s|] == NUL
    && forall i :: 0 <= i < |s| ==> buffer[at + i] == s[i] && s[i] != NUL
  }

  /** Some pointers point to their texts, each of which ends before `end`. */
  ghost predicate Point(buffer: seq<char>, tokens: seq<nat>, texts: seq<string>, end: nat) {
    && |tokens| == |texts|
    && forall k :: 0 <= k < |tokens| ==> CString(buffer, tokens[k], texts[k]) && tokens[k] + |texts[k]| < end
  }

  /** Cutting on behind them leaves the pointers valid; the next token joins them. */
  lemma StillPoint(before: seq<char>, after: seq<char>, cursor: nat, tokens: seq<nat>, texts: seq<string>,
                   token: nat, text: string, end: nat)
    requires |before| == |after| && cursor <= |before| && before[..cursor] == after[..cursor]
    requires Point(before, tokens, texts, cursor)
    requires CString(after, token, text) && token + |text| < end && cursor <= end
    ensures Point(after, tokens + [token], texts + [text], end)
  {
    forall k | 0 <= k < |tokens| ensures CString(after, tokens[k], texts[k]) {
      StillThere(before, after, cursor, tokens[k], texts[k]);
    }
  }

  lemma StillThere(before: seq<char>, after: seq<char>, cursor: nat, at: nat, s: string)
    requires |before| == |after| && cursor <= |before| && before[..cursor] == after[..cursor]
    requires CString(before, at, s) && at + |s| < cursor
    ensures CString(after, at, s)
  {
    assert forall i :: 0 <= i < cursor ==> before[..cursor][i] == after[..cursor][i];
  }

  lemma PointsInside(buffer: seq<char>, tokens: seq<nat>, texts: seq<string>, end: nat)
    requires Point(buffer, tokens, texts, end)
    ensures Point(buffer, tokens, texts, |buffer|)
  {
  }

  /** `texts` are the first of all tokens, the others are in the text that is left. */
  predicate Taken(all: seq<string>, texts: seq<string>, rest: Option<string>) {
    all == texts + Tokens(rest)
  }

  lemma TakeNext(all: seq<string>, texts: seq<string>, s: string)
    requires s != "" && Taken(all, texts, Some(s))
    ensures Taken(all, texts + [NextToken(s).0], NextToken(s).1)
    ensures NextToken(s).1.Some? ==> |NextToken(s).1.value| < |s|
  {
    var (text, rest) := NextToken(s);
    assert texts + ([text] + Tokens(rest)) == texts + [text] + Tokens(rest);
  }

  lemma TakenAll(all: seq<string>, texts: seq<string>, rest: Option<string>)
    requires Taken(all, texts, rest) && (rest == None || rest.value == "")
    ensures all == texts
  {
  }

  class Tokenizer {
    const buffer: array<char>
    var cur: Option<nat>
    ghost var rest: Option<string>

    /** The cursor is null, or stands at the text that is left. */
    ghost predicate Valid()
      reads this, buffer
    {
      && (cur.Some? <==> rest.Some?)
      && (cur.Some? ==> CString(buffer[..], cur.value, rest.value))
    }

    constructor (line: array<char>, ghost text: string)
      requires CString(line[..], 0, text)
      ensures Valid() && buffer == line && rest == Some(text) && cur == Some(0)
    {
      buffer, cur, rest := line, Some(0), Some(text);
    }

    /** Moves behind the first colon. */
    method Start() returns (ok: bool)
      requires Valid()
      modifies this
      ensures Valid()
      ensures ok == (old(rest).Some? && Cut(old(rest).value, ':').1.Some?)
      ensures rest == if ok then Cut(old(rest).value, ':').1 else None
    {
      if cur == None {
        return false;
      }
      ghost var s := rest.value;
      var c: nat := cur.value;
      while buffer[c] != NUL && buffer[c] != ':'
        invariant CString(buffer[..], c, s) && cur == old(cur) && rest == old(rest)
        invariant Cut(rest.value, ':').1 == Cut(s, ':').1
        decreases |s|
      {
        c := c + 1;
        s := s[1..];
      }
      ok := buffer[c] == ':';
      cur, rest := if ok then Some(c + 1) else None, Cut(rest.value, ':').1;
    }

    method SkipWhiteSpace()
      requires Valid()
      modifies this
      ensures Valid()
      ensures rest == if old(rest).Some? then Some(SkipSpace(old(rest).value)) else None
      ensures cur.Some? ==> cur.value >= old(cur).value
    {
      if cur == None {
        return;
      }
      while buffer[cur.value] != NUL && IsSpace(buffer[cur.value])
        invariant Valid() && cur.Some? && old(rest).Some? && cur.value >= old(cur).value
        invariant SkipSpace(rest.value) == SkipSpace(old(rest).value)
        decreases |rest.value|
      {
        cur, rest := Some(cur.value + 1), Some(rest.value[1..]);
      }
    }

    method SkipNextComma()
      requires Valid()
      modifies this
      ensures Valid()
      ensures rest == if old(rest).Some? then Some(BehindComma(old(rest).value)) else None
      ensures cur.Some? ==> cur.value >= old(cur).value
    {
      if cur == None {
        return;
      }
      while buffer[cur.value] != NUL && buffer[cur.value] != ','
        invariant Valid() && cur.Some? && old(rest).Some? && cur.value >= old(cur).value
        invariant BehindComma(rest.value) == BehindComma(old(rest).value)
        decreases |rest.value|
      {
        cur, rest := Some(cur.value + 1), Some(rest.value[1..]);
      }
      if buffer[cur.value] == ',' {
        cur, rest := Some(cur.value + 1), Some(rest.value[1..]);
      }
    }

    /** Cuts the text at a delimiter by putting a NUL there; only that place is written. */
    method StrSep(delim: char) returns (token: nat)
      requires Valid() && cur.Some? && delim != NUL
      modifies this, buffer
      ensures Valid() && rest == Cut(old(rest).value, delim).1
      ensures token == old(cur).value && CString(buffer[..], token, Cut(old(rest).value, delim).0)
      ensures buffer[..token] == old(buffer[..token])
      ensures cur.Some? ==> token + |Cut(old(rest).value, delim).0| < cur.value
    {
      token := cur.value;
      ghost var all, s, done := rest.value, rest.value, "";
      var c: nat := token;
      while buffer[c] != NUL && buffer[c] != delim
        invariant cur == old(cur) && rest == old(rest) && buffer[..] == old(buffer[..])
        invariant c == token + |done| && all == done + s && delim !in done && CString(buffer[..], token, all)
        invariant CString(buffer[..], c, s)
        decreases |s|
      {
        assert all == (done + [s[0]]) + s[1..];
        c := c + 1;
        done, s := done + [s[0]], s[1..];
      }
      forall i | 0 <= i < |done| ensures buffer[token + i] == done[i] && done[i] != NUL {
        assert all[i] == done[i];
      }
      if buffer[c] == NUL {
        assert all == done;
        CutNone(done, delim);
        cur, rest := None, None;
      } else {
        assert all == done + [delim] + s[1..];
        CutFirst(done, delim, s[1..]);
        buffer[c] := NUL;
        cur, rest := Some(c + 1), Some(s[1..]);
      }
    }

    method NextTok() returns (token: Option<nat>)
      requires Valid()
      modifies this, buffer
      ensures Valid() && token.Some? == old(cur).Some?
      ensures token.Some? ==>
                && rest == NextToken(old(rest).value).1 && token.value >= old(cur).value
                && CString(buffer[..], token.value, NextToken(old(rest).value).0)
                && buffer[..old(cur).value] == old(buffer[..cur.value])
                && (cur.Some? ==> token.value + |NextToken(old(rest).value).0| < cur.value)
      ensures token.None? ==> cur == None && buffer[..] == old(buffer[..])
    {
      SkipWhiteSpace();
      if cur == None {
        return None;
      }
      var t: nat;
      if buffer[cur.value] == '"' {
        cur, rest := Some(cur.value + 1), Some(rest.value[1..]);
        t := StrSep('"');
        SkipNextComma();
      } else {
        t := StrSep(',');
      }
      token := Some(t);
    }

    method HasMore() returns (more: bool)
      requires Valid()
      ensures more == (rest.Some? && rest.value != "")
    {
      assert rest.Some? && rest.value != "" ==> buffer[..][cur.value + 0] == rest.value[0];
      more := !(cur == None || buffer[cur.value] == NUL);
    }

    /** Asks for tokens as long as there are more.  In the end all pointers handed out still point
        to their tokens, although the line was cut to pieces. */
    method AllTokens() returns (tokens: seq<nat>)
      requires Valid()
      modifies this, buffer
      ensures Point(buffer[..], tokens, Tokens(old(rest)), buffer.Length)
    {
      tokens := [];
      ghost var all, texts: seq<string> := Tokens(rest), [];
      assert Taken(all, texts, rest) && Point(buffer[..], tokens, texts, Reached());
      hide Point, Taken, Tokens, NextToken, CString;
      var more := HasMore();
      while more
        invariant Valid() && more == (rest.Some? && rest.value != "")
        invariant Taken(all, texts, rest) && Point(buffer[..], tokens, texts, Reached())
        decreases if rest.Some? then |rest.value| + 1 else 0
      {
        ghost var before, left, was := buffer[..], rest.value, cur.value;
        TakeNext(all, texts, left);
        var token := NextTok();
        ghost var text := NextToken(left).0;
        StillPoint(before, buffer[..], was, tokens, texts, token.value, text, Reached());
        tokens, texts := tokens + [token.value], texts + [text];
        more := HasMore();
      }
      TakenAll(all, texts, rest);
      PointsInside(buffer[..], tokens, texts, Reached());
    }

    /** How far the line has been cut. */
    ghost function Reached(): nat
      reads this
    {
      if cur.Some? then cur.value else buffer.Length
    }
  }
}
