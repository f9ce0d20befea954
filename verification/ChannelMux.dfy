/** The AT channel multiplexer (c2kril/c2k-ril/atchannel_config.c): eight pseudo channels share the
    physical channels to the modem, and whatever comes back is written to the pseudo channel that
    wrote last.  The mutex shared by all pseudo channels on one physical channel
    (c2kril/c2k-ril/atchannel.c) is what makes that the right one. */
module ChannelMux {
  import opened Common

  const PSEUDO_CHANNELS := 8
  const PHYSICAL_MAX_CHANNEL_NUM := 8

  // ---------- The two mapping switches ----------

  function UpdatePseudoChannelMapping(physicalNumber: nat, index: nat): nat {
    if physicalNumber == PHYSICAL_MAX_CHANNEL_NUM then index
    else match index
      case 0 => 0
      case 2 => 0
      case 3 => 0
      case 6 => 0
      case 7 => 0
      case 1 => 3
      case 4 => 1
      case 5 => 2
      case _ => index
  }

  function UpdatePhysicalChannelMapping(physicalNumber: nat, index: nat): nat {
    if physicalNumber == PHYSICAL_MAX_CHANNEL_NUM then index
    else match index
      case 0 => 0
      case 1 => 4
      case 2 => 5
      case 3 => 1
      case _ => index
  }

  // ---------- The multiplexer as a state machine ----------

  /** What the modem sends on a physical channel.  An answer carries the pseudo channel whose
      command it answers; nothing in the program can see that tag. */
  datatype Token = Urc(text: string) | Answer(issuer: nat, text: string, final: bool)

  /** `phys` and `route` are indexed by pseudo and physical channel:
      `phys[p]` is the physical channel of p, `route[k]` the pseudo channel that wrote last to k.
      `loaded[k]` is the route the loop over the physical channels has loaded for k and not yet used.
      `holder[k]` is the pseudo channel that holds the mutex of k, `unsent[p]` the number of chunks
      of p's command the multiplexer has not forwarded, `serving[k]` the issuer of the command the
      modem is answering, `up[k]` what the modem sent and the multiplexer has not forwarded,
      `inbox[p]` what was written to p, `answered[p]` whether a final answer was, since p
      took the mutex.  `sent[p]` logs all answers the modem gave to p's commands. */
  datatype Mux = Mux(
    phys: seq<nat>, route: seq<nat>, loaded: seq<Option<nat>>,
    holder: seq<Option<nat>>, unsent: seq<nat>, serving: seq<Option<nat>>,
    up: seq<seq<Token>>, inbox: seq<seq<Token>>, answered: seq<bool>,
    sent: seq<seq<Token>>)
  {
    predicate Shaped() {
      && |unsent| == |inbox| == |answered| == |sent| == |phys|
      && |holder| == |serving| == |up| == |loaded| == |route|
      && (forall p :: 0 <= p < |phys| ==> phys[p] < |route|)
      && (forall k :: 0 <= k < |route| ==> route[k] < |phys|)
      && (forall k :: 0 <= k < |route| && loaded[k].Some? ==> loaded[k].value < |phys|)
    }
  }

  /** `Lock` takes the mutex and writes a command of some chunks; `Finish` returns the mutex once a
      final answer came.  `Down` is one forward to the modem; `Reply` and `Announce` are the modem's.
      A forward from the modem takes two steps: `Load` loads the route of a readable channel, and
      `Deliver` reads at most `room` tokens and writes them where the loaded route leads. */
  datatype Step =
    | Lock(p: nat, chunks: pos)
    | Down(p: nat)
    | Reply(k: nat, text: string, final: bool)
    | Announce(k: nat, text: string)
    | Load(k: nat)
    | Deliver(k: nat, room: pos)
    | Finish(p: nat)

  function AfterLock(m: Mux, p: nat, chunks: nat): (r: Mux)
    requires m.Shaped() && p < |m.phys|
    ensures r.Shaped()
  {
    m.(holder := m.holder[m.phys[p] := Some(p)], unsent := m.unsent[p := chunks], answered := m.answered[p := false])
  }

  /** The modem begins to answer once it has the whole command. */
  function AfterDown(m: Mux, p: nat): (r: Mux)
    requires m.Shaped() && p < |m.phys| && m.unsent[p] > 0
    ensures r.Shaped()
  {
    var k := m.phys[p];
    m.(route := m.route[k := p],
       unsent := m.unsent[p := m.unsent[p] - 1],
       serving := if m.unsent[p] == 1 then m.serving[k := Some(p)] else m.serving)
  }

  function AfterReply(m: Mux, k: nat, text: string, final: bool): (r: Mux)
    requires m.Shaped() && k < |m.route| && m.serving[k].Some? && m.serving[k].value < |m.phys|
    ensures r.Shaped()
  {
    var p := m.serving[k].value;
    var token := Answer(p, text, final);
    m.(up := m.up[k := m.up[k] + [token]],
       sent := m.sent[p := m.sent[p] + [token]],
       serving := if final then m.serving[k := None] else m.serving)
  }

  function AfterAnnounce(m: Mux, k: nat, text: string): (r: Mux)
    requires m.Shaped() && k < |m.route|
    ensures r.Shaped()
  {
    m.(up := m.up[k := m.up[k] + [Urc(text)]])
  }

  function AfterLoad(m: Mux, k: nat): (r: Mux)
    requires m.Shaped() && k < |m.route|
    ensures r.Shaped()
  {
    m.(loaded := m.loaded[k := Some(m.route[k])])
  }

  /** One token goes to q.  Its reader takes any final answer for the answer to its own command. */
  function AfterPass(m: Mux, k: nat, q: nat): (r: Mux)
    requires m.Shaped() && k < |m.route| && q < |m.phys| && m.up[k] != []
    ensures r.Shaped() && r.route == m.route && r.phys == m.phys && r.loaded == m.loaded && r.up[k] == m.up[k][1..]
  {
    var token := m.up[k][0];
    m.(up := m.up[k := m.up[k][1..]],
       inbox := m.inbox[q := m.inbox[q] + [token]],
       answered := if token.Answer? && token.final then m.answered[q := true] else m.answered)
  }

  function Passed(m: Mux, k: nat, q: nat, n: nat): (r: Mux)
    requires m.Shaped() && k < |m.route| && q < |m.phys| && n <= |m.up[k]|
    ensures r.Shaped() && r.route == m.route && r.phys == m.phys && r.loaded == m.loaded
    decreases n
  {
    if n == 0 then m else Passed(AfterPass(m, k, q), k, q, n - 1)
  }

  /** How much one read takes. */
  function Taken(m: Mux, k: nat, room: nat): (n: nat)
    requires m.Shaped() && k < |m.route|
    ensures n <= |m.up[k]| && n <= room
  {
    if room <= |m.up[k]| then room else |m.up[k]|
  }

  function AfterDeliver(m: Mux, k: nat, room: nat): (r: Mux)
    requires m.Shaped() && k < |m.route| && m.loaded[k].Some?
    ensures r.Shaped()
  {
    var passed := Passed(m, k, m.loaded[k].value, Taken(m, k, room));
    passed.(loaded := passed.loaded[k := None])
  }

  function AfterFinish(m: Mux, p: nat): (r: Mux)
    requires m.Shaped() && p < |m.phys|
    ensures r.Shaped()
  {
    m.(holder := m.holder[m.phys[p] := None])
  }

  /** Whether a step can happen now. */
  predicate Enabled(m: Mux, s: Step)
    requires m.Shaped()
  {
    match s
    case Lock(p, _) => p < |m.phys| && m.holder[m.phys[p]] == None
    case Down(p) => p < |m.phys| && m.unsent[p] > 0
    case Reply(k, _, _) => k < |m.route| && m.serving[k].Some? && m.serving[k].value < |m.phys|
    case Announce(k, _) => k < |m.route|
    case Load(k) => k < |m.route| && m.up[k] != []
    case Deliver(k, _) => k < |m.route| && m.loaded[k].Some?
    case Finish(p) => p < |m.phys| && m.holder[m.phys[p]] == Some(p) && m.answered[p]
  }

  /** A step that cannot happen changes nothing. */
  function Apply(m: Mux, s: Step): (r: Mux)
    requires m.Shaped()
    ensures r.Shaped()
  {
    if !Enabled(m, s) then m
    else match s
      case Lock(p, chunks) => AfterLock(m, p, chunks)
      case Down(p) => AfterDown(m, p)
      case Reply(k, text, final) => AfterReply(m, k, text, final)
      case Announce(k, text) => AfterAnnounce(m, k, text)
      case Load(k) => AfterLoad(m, k)
      case Deliver(k, room) => AfterDeliver(m, k, room)
      case Finish(p) => AfterFinish(m, p)
  }

  function Run(m: Mux, steps: seq<Step>): (r: Mux)
    requires m.Shaped()
    ensures r.Shaped()
    decreases |steps|
  {
    if steps == [] then m else Apply(Run(m, steps[..|steps| - 1]), steps[|steps| - 1])
  }

  lemma RunSnoc(m: Mux, steps: seq<Step>, s: Step)
    requires m.Shaped()
    ensures Run(m, steps + [s]) == Apply(Run(m, steps), s)
  {
    assert (steps + [s])[..|steps|] == steps;
  }

  // ---------- The invariant ----------

  /** The answers among some tokens. */
  function Answers(s: seq<Token>): (r: seq<Token>) {
    if s == [] then []
    else Answers(s[..|s| - 1]) + if s[|s| - 1].Answer? then [s[|s| - 1]] else []
  }

  /** The answers to one issuer's commands. */
  function AnswersTo(p: nat, s: seq<Token>): (r: seq<Token>) {
    if s == [] then []
    else AnswersTo(p, s[..|s| - 1]) + if s[|s| - 1].Answer? && s[|s| - 1].issuer == p then [s[|s| - 1]] else []
  }

  /** p's command is with the modem: sent off completely, and no final answer has come back. */
  predicate Outstanding(m: Mux, k: nat, p: nat)
    requires m.Shaped() && k < |m.route|
  {
    && p < |m.phys| && m.phys[p] == k && m.holder[k] == Some(p) && m.route[k] == p
    && m.unsent[p] == 0 && !m.answered[p]
  }

  /** One physical channel: whoever is being answered holds the mutex and is routed to, and a
      final answer is the last answer on its way. */
  predicate LinkInv(m: Mux, k: nat)
    requires m.Shaped() && k < |m.route|
  {
    && (m.holder[k].Some? ==> m.holder[k].value < |m.phys| && m.phys[m.holder[k].value] == k)
    && (m.serving[k].Some? ==> Outstanding(m, k, m.serving[k].value))
    && (forall i :: 0 <= i < |m.up[k]| && m.up[k][i].Answer? ==> Outstanding(m, k, m.up[k][i].issuer))
    && (forall i :: 0 <= i < |m.up[k]| && m.up[k][i].Answer? && m.up[k][i].final ==>
          m.serving[k] == None && forall j :: i < j < |m.up[k]| ==> m.up[k][j].Urc?)
  }

  predicate SenderInv(m: Mux, p: nat)
    requires m.Shaped() && p < |m.phys|
  {
    && (m.unsent[p] > 0 ==> m.holder[m.phys[p]] == Some(p) && !m.answered[p])
    && Answers(m.inbox[p]) + AnswersTo(p, m.up[m.phys[p]]) == m.sent[p]
    && AnswersTo(p, m.sent[p]) == m.sent[p]
  }

  predicate Inv(m: Mux) {
    && m.Shaped()
    && (forall k :: 0 <= k < |m.route| ==> LinkInv(m, k))
    && (forall p :: 0 <= p < |m.phys| ==> SenderInv(m, p))
  }

  lemma {:induction false} AnswersToCons(p: nat, t: Token, s: seq<Token>)
    ensures AnswersTo(p, [t] + s) == (if t.Answer? && t.issuer == p then [t] else []) + AnswersTo(p, s)
  {
    if s == [] {
      assert [t] + s == [t] && [t][..0] == [];
    } else {
      var n, u := |s| - 1, [t] + s;
      AnswersToCons(p, t, s[..n]);
      assert u[..n + 1] == [t] + s[..n] && u[n + 1] == s[n];
    }
  }

  lemma AnswersSnoc(p: nat, s: seq<Token>, t: Token)
    ensures Answers(s + [t]) == Answers(s) + if t.Answer? then [t] else []
    ensures AnswersTo(p, s + [t]) == AnswersTo(p, s) + if t.Answer? && t.issuer == p then [t] else []
  {
    assert (s + [t])[..|s|] == s;
  }

  lemma LockKeepsInv(m: Mux, p: nat, chunks: pos)
    requires Inv(m) && Enabled(m, Lock(p, chunks))
    ensures Inv(AfterLock(m, p, chunks))
  {
    var r, own := AfterLock(m, p, chunks), m.phys[p];
    assert LinkInv(m, own);
    forall k | 0 <= k < |r.route| ensures LinkInv(r, k) {
      assert LinkInv(m, k);
    }
    forall q | 0 <= q < |r.phys| ensures SenderInv(r, q) {
      assert SenderInv(m, q);
    }
  }

  lemma DownKeepsInv(m: Mux, p: nat)
    requires Inv(m) && Enabled(m, Down(p))
    ensures Inv(AfterDown(m, p))
  {
    var r, own := AfterDown(m, p), m.phys[p];
    assert LinkInv(m, own) && SenderInv(m, p);
    forall k | 0 <= k < |r.route| ensures LinkInv(r, k) {
      assert LinkInv(m, k);
    }
    forall q | 0 <= q < |r.phys| ensures SenderInv(r, q) {
      assert SenderInv(m, q);
    }
  }

  lemma ReplyKeepsLink(m: Mux, k: nat, text: string, final: bool, l: nat)
    requires Inv(m) && Enabled(m, Reply(k, text, final)) && l < |m.route|
    ensures LinkInv(AfterReply(m, k, text, final), l)
  {
    hide Answers, AnswersTo, SenderInv;
    assert LinkInv(m, k) && LinkInv(m, l);
  }

  lemma ReplyKeepsSender(m: Mux, k: nat, text: string, final: bool, q: nat)
    requires Inv(m) && Enabled(m, Reply(k, text, final)) && q < |m.phys|
    ensures SenderInv(AfterReply(m, k, text, final), q)
  {
    hide Answers, AnswersTo;
    var r, token := AfterReply(m, k, text, final), Answer(m.serving[k].value, text, final);
    assert LinkInv(m, k) && SenderInv(m, q);
    AnswersSnoc(q, m.up[k], token);
    AnswersSnoc(q, m.sent[q], token);
    assert Answers(r.inbox[q]) + AnswersTo(q, r.up[r.phys[q]]) == r.sent[q];
  }

  lemma ReplyKeepsInv(m: Mux, k: nat, text: string, final: bool)
    requires Inv(m) && Enabled(m, Reply(k, text, final))
    ensures Inv(AfterReply(m, k, text, final))
  {
    hide LinkInv, SenderInv;
    var r := AfterReply(m, k, text, final);
    forall l | 0 <= l < |r.route| ensures LinkInv(r, l) {
      ReplyKeepsLink(m, k, text, final, l);
    }
    forall q | 0 <= q < |r.phys| ensures SenderInv(r, q) {
      ReplyKeepsSender(m, k, text, final, q);
    }
  }

  lemma AnnounceKeepsInv(m: Mux, k: nat, text: string)
    requires Inv(m) && Enabled(m, Announce(k, text))
    ensures Inv(AfterAnnounce(m, k, text))
  {
    var r := AfterAnnounce(m, k, text);
    forall l | 0 <= l < |r.route| ensures LinkInv(r, l) {
      assert LinkInv(m, l);
    }
    forall q | 0 <= q < |r.phys| ensures SenderInv(r, q) {
      assert SenderInv(m, q);
      AnswersSnoc(q, m.up[k], Urc(text));
    }
  }

  lemma PassKeepsLink(m: Mux, k: nat, q: nat, l: nat)
    requires Inv(m) && k < |m.route| && q < |m.phys| && m.up[k] != [] && l < |m.route|
    requires m.up[k][0].Answer? ==> q == m.route[k]
    ensures LinkInv(AfterPass(m, k, q), l)
  {
    hide Answers, AnswersTo, SenderInv;
    var r := AfterPass(m, k, q);
    assert LinkInv(m, k) && LinkInv(m, l);
    assert forall i :: 0 <= i < |r.up[k]| ==> r.up[k][i] == m.up[k][i + 1];
  }

  lemma PassKeepsSender(m: Mux, k: nat, q: nat, p: nat)
    requires Inv(m) && k < |m.route| && q < |m.phys| && m.up[k] != [] && p < |m.phys|
    requires m.up[k][0].Answer? ==> q == m.route[k]
    ensures SenderInv(AfterPass(m, k, q), p)
  {
    hide Answers, AnswersTo;
    var r, token := AfterPass(m, k, q), m.up[k][0];
    assert LinkInv(m, k) && SenderInv(m, p);
    assert m.up[k] == [token] + r.up[k];
    AnswersToCons(p, token, r.up[k]);
    AnswersSnoc(p, m.inbox[p], token);
    assert Answers(r.inbox[p]) + AnswersTo(p, r.up[r.phys[p]]) == r.sent[p];
  }

  lemma PassKeepsInv(m: Mux, k: nat, q: nat)
    requires Inv(m) && k < |m.route| && q < |m.phys| && m.up[k] != []
    requires m.up[k][0].Answer? ==> q == m.route[k]
    ensures Inv(AfterPass(m, k, q))
  {
    hide LinkInv, SenderInv;
    var r := AfterPass(m, k, q);
    forall l | 0 <= l < |r.route| ensures LinkInv(r, l) {
      PassKeepsLink(m, k, q, l);
    }
    forall p | 0 <= p < |r.phys| ensures SenderInv(r, p) {
      PassKeepsSender(m, k, q, p);
    }
  }

  /** Some answer is among the tokens of one read. */
  predicate Carries(s: seq<Token>, n: nat) {
    exists i :: 0 <= i < n && i < |s| && s[i].Answer?
  }

  lemma {:induction false} PassedKeepsInv(m: Mux, k: nat, q: nat, n: nat)
    requires Inv(m) && k < |m.route| && q < |m.phys| && n <= |m.up[k]|
    requires Carries(m.up[k], n) ==> q == m.route[k]
    ensures Inv(Passed(m, k, q, n))
    decreases n
  {
    hide LinkInv, SenderInv;
    if n == 0 {
    } else {
      var r := AfterPass(m, k, q);
      PassKeepsInv(m, k, q);
      if Carries(r.up[k], n - 1) {
        var i :| 0 <= i < n - 1 && i < |r.up[k]| && r.up[k][i].Answer?;
        assert m.up[k][i + 1] == r.up[k][i];
      }
      PassedKeepsInv(r, k, q, n - 1);
    }
  }

  /** The loaded route plays no part in the invariant. */
  lemma LoadedIsFree(m: Mux, loaded: seq<Option<nat>>)
    requires Inv(m) && |loaded| == |m.route|
    requires forall k :: 0 <= k < |loaded| && loaded[k].Some? ==> loaded[k].value < |m.phys|
    ensures Inv(m.(loaded := loaded))
  {
    var r := m.(loaded := loaded);
    forall k | 0 <= k < |r.route| ensures LinkInv(r, k) {
      assert LinkInv(m, k);
    }
    forall p | 0 <= p < |r.phys| ensures SenderInv(r, p) {
      assert SenderInv(m, p);
    }
  }

  lemma DeliverKeepsInv(m: Mux, k: nat, room: pos)
    requires Inv(m) && Enabled(m, Deliver(k, room)) && Right(m, Deliver(k, room))
    ensures Inv(AfterDeliver(m, k, room))
  {
    hide LinkInv, SenderInv;
    var q, n := m.loaded[k].value, Taken(m, k, room);
    PassedKeepsInv(m, k, q, n);
    var passed := Passed(m, k, q, n);
    LoadedIsFree(passed, passed.loaded[k := None]);
  }

  lemma FinishKeepsInv(m: Mux, p: nat)
    requires Inv(m) && Enabled(m, Finish(p))
    ensures Inv(AfterFinish(m, p))
  {
    var r, own := AfterFinish(m, p), m.phys[p];
    assert LinkInv(m, own);
    forall k | 0 <= k < |r.route| ensures LinkInv(r, k) {
      assert LinkInv(m, k);
    }
    forall q | 0 <= q < |r.phys| ensures SenderInv(r, q) {
      assert SenderInv(m, q);
    }
  }

  /** A delivery that carries an answer uses the route as it is. */
  predicate Right(m: Mux, s: Step)
    requires m.Shaped()
  {
    s.Deliver? && Enabled(m, s) && Carries(m.up[s.k], Taken(m, s.k, s.room)) ==> m.loaded[s.k].value == m.route[s.k]
  }

  /** So do all deliveries of a run. */
  predicate Orderly(m: Mux, steps: seq<Step>)
    requires m.Shaped()
    decreases |steps|
  {
    steps == [] ||
    var n := |steps| - 1;
    Orderly(m, steps[..n]) && Right(Run(m, steps[..n]), steps[n])
  }

  lemma StepKeepsInv(m: Mux, s: Step)
    requires Inv(m) && Right(m, s)
    ensures Inv(Apply(m, s))
  {
    hide LinkInv, SenderInv;
    if Enabled(m, s) {
      match s
      case Lock(p, chunks) => LockKeepsInv(m, p, chunks);
      case Down(p) => DownKeepsInv(m, p);
      case Reply(k, text, final) => ReplyKeepsInv(m, k, text, final);
      case Announce(k, text) => AnnounceKeepsInv(m, k, text);
      case Load(k) => LoadedIsFree(m, m.loaded[k := Some(m.route[k])]);
      case Deliver(k, room) => DeliverKeepsInv(m, k, room);
      case Finish(p) => FinishKeepsInv(m, p);
    }
  }

  lemma {:induction false} RunKeepsInv(m: Mux, steps: seq<Step>)
    requires Inv(m) && Orderly(m, steps)
    ensures Inv(Run(m, steps))
    decreases |steps|
  {
    hide LinkInv, SenderInv, Enabled;
    if steps == [] {
    } else {
      RunKeepsInv(m, steps[..|steps| - 1]);
      StepKeepsInv(Run(m, steps[..|steps| - 1]), steps[|steps| - 1]);
    }
  }

  // ---------- Runs from the start ----------

  predicate Fits(phys: seq<nat>, route: seq<nat>) {
    && (forall p :: 0 <= p < |phys| ==> phys[p] < |route|)
    && (forall k :: 0 <= k < |route| ==> route[k] < |phys|)
  }

  /** Nobody holds a mutex and nothing is on its way. */
  function Start(phys: seq<nat>, route: seq<nat>): (m: Mux)
    requires Fits(phys, route)
    ensures m.Shaped()
  {
    var n, k := |phys|, |route|;
    Mux(phys, route, seq(k, i => None), seq(k, i => None), seq(n, i => 0), seq(k, i => None), seq(k, i => []),
        seq(n, i => []), seq(n, i => false), seq(n, i => []))
  }

  lemma StartInv(phys: seq<nat>, route: seq<nat>)
    requires Fits(phys, route)
    ensures Inv(Start(phys, route))
  {
  }

  lemma {:induction false} TaggedAll(p: nat, s: seq<Token>)
    ensures |AnswersTo(p, s)| <= |s|
    ensures AnswersTo(p, s) == s ==> forall i :: 0 <= i < |s| ==> s[i].Answer? && s[i].issuer == p
  {
    if s == [] {
    } else {
      var n := |s| - 1;
      TaggedAll(p, s[..n]);
      if AnswersTo(p, s) == s {
        assert s[n].Answer? && s[n].issuer == p;
        assert AnswersTo(p, s[..n]) == AnswersTo(p, s)[..n] == s[..n];
        assert forall i :: 0 <= i < n ==> s[..n][i] == s[i];
      }
    }
  }

  lemma {:induction false} AnswersHold(s: seq<Token>, i: nat)
    requires i < |s| && s[i].Answer?
    ensures s[i] in Answers(s)
  {
    if i < |s| - 1 {
      AnswersHold(s[..|s| - 1], i);
    }
  }

  /** In every orderly run, whatever the order of commands, forwards, answers and announcements: each
      answer written to a pseudo channel answers a command of that channel, and the answers
      written to it, followed by those on their way, are all the modem gave, once each and in order. */
  lemma AnswersReachTheirIssuer(phys: seq<nat>, route: seq<nat>, steps: seq<Step>, p: nat)
    requires Fits(phys, route) && Orderly(Start(phys, route), steps)
    requires p < |Run(Start(phys, route), steps).phys|
    ensures var m := Run(Start(phys, route), steps);
            && (forall i :: 0 <= i < |m.inbox[p]| && m.inbox[p][i].Answer? ==> m.inbox[p][i].issuer == p)
            && Answers(m.inbox[p]) + AnswersTo(p, m.up[m.phys[p]]) == m.sent[p]
  {
    var m := Run(Start(phys, route), steps);
    StartInv(phys, route);
    RunKeepsInv(Start(phys, route), steps);
    assert SenderInv(m, p);
    TaggedAll(p, m.sent[p]);
    forall i | 0 <= i < |m.inbox[p]| && m.inbox[p][i].Answer? ensures m.inbox[p][i].issuer == p {
      AnswersHold(m.inbox[p], i);
      var a := Answers(m.inbox[p]);
      var j :| 0 <= j < |a| && a[j] == m.inbox[p][i];
      assert m.sent[p][j] == a[j];
    }
  }

  lemma {:induction false} NoAnswersTo(p: nat, s: seq<Token>)
    requires forall i :: 0 <= i < |s| ==> s[i].Urc?
    ensures AnswersTo(p, s) == []
  {
    if s == [] {
    } else {
      NoAnswersTo(p, s[..|s| - 1]);
    }
  }

  /** A command can only finish once every answer to it has been written to its issuer: the final
      one, which lets it finish, came from its own command and came last. */
  lemma FinishedIsComplete(phys: seq<nat>, route: seq<nat>, steps: seq<Step>, p: nat)
    requires Fits(phys, route) && Orderly(Start(phys, route), steps)
    requires Enabled(Run(Start(phys, route), steps), Finish(p))
    ensures var m := Run(Start(phys, route), steps);
            && m.unsent[p] == 0 && m.serving[m.phys[p]] == None
            && Answers(m.inbox[p]) == m.sent[p]
  {
    var m := Run(Start(phys, route), steps);
    StartInv(phys, route);
    RunKeepsInv(Start(phys, route), steps);
    assert SenderInv(m, p) && LinkInv(m, m.phys[p]);
    NoAnswersTo(p, m.up[m.phys[p]]);
  }

  predicate Linked(phys: seq<nat>, route: seq<nat>) {
    Fits(phys, route) && forall k :: 0 <= k < |route| ==> phys[route[k]] == k
  }

  /** Every physical channel is routed to a pseudo channel mapped to it, in every reachable state. */
  lemma {:induction false} RouteStaysLinked(phys: seq<nat>, route: seq<nat>, steps: seq<Step>)
    requires Linked(phys, route)
    ensures var m := Run(Start(phys, route), steps); m.phys == phys && Linked(m.phys, m.route)
    decreases |steps|
  {
    if steps == [] {
    } else {
      RouteStaysLinked(phys, route, steps[..|steps| - 1]);
    }
  }

  function InitialPhys(physicalNumber: nat): (r: seq<nat>)
    ensures |r| == PSEUDO_CHANNELS
  {
    seq(PSEUDO_CHANNELS, i requires 0 <= i => UpdatePseudoChannelMapping(physicalNumber, i))
  }

  function InitialRoute(physicalNumber: nat): (r: seq<nat>)
    ensures |r| == physicalNumber
  {
    seq(physicalNumber, i requires 0 <= i => UpdatePhysicalChannelMapping(physicalNumber, i))
  }

  /** The two switches agree exactly for the four and for the eight channels the modem offers. */
  lemma MappingsAgree(physicalNumber: nat)
    ensures Linked(InitialPhys(physicalNumber), InitialRoute(physicalNumber)) <==>
              physicalNumber == 4 || physicalNumber == 8
  {
    var phys, route := InitialPhys(physicalNumber), InitialRoute(physicalNumber);
    if physicalNumber < 4 {
      assert phys[1] == 3;
    } else if physicalNumber == 4 {
      assert phys == [0, 3, 0, 0, 1, 2, 0, 0] && route == [0, 4, 5, 1];
    } else if physicalNumber == 8 {
      assert route == [0, 1, 2, 3, 4, 5, 6, 7];
    } else {
      assert route[4] == 4 && phys[4] == 1;
    }
  }

  /** The mappings for both numbers of channels, channel by channel. */
  lemma MappingTables()
    ensures InitialPhys(4) == [0, 3, 0, 0, 1, 2, 0, 0] && InitialRoute(4) == [0, 4, 5, 1]
    ensures InitialPhys(8) == InitialRoute(8) == [0, 1, 2, 3, 4, 5, 6, 7]
  {
  }

  // ---------- The mutex ----------

  /** When a command is finished, any pseudo channel on the same physical channel can take the mutex. */
  lemma FinishFreesTheMutex(m: Mux, p: nat, q: nat, chunks: pos)
    requires m.Shaped() && Enabled(m, Finish(p)) && q < |m.phys| && m.phys[q] == m.phys[p]
    ensures Apply(m, Finish(p)).holder[m.phys[p]] == None
    ensures Enabled(Apply(m, Finish(p)), Lock(q, chunks))
    ensures Apply(Apply(m, Finish(p)), Lock(q, chunks)).holder[m.phys[p]] == Some(q)
  {
  }

  /** Whose Lock on k was the last to succeed, unless a Finish on k succeeded since. */
  function LastOwner(m: Mux, steps: seq<Step>, k: nat): Option<nat>
    requires m.Shaped()
    decreases |steps|
  {
    if steps == [] then None
    else
      var n := |steps| - 1;
      var before := Run(m, steps[..n]);
      match steps[n]
      case Lock(p, _) =>
        if p < |before.phys| && before.phys[p] == k < |before.holder| && before.holder[k] == None then Some(p)
        else LastOwner(m, steps[..n], k)
      case Finish(p) =>
        if p < |before.phys| && before.phys[p] == k < |before.holder| && before.holder[k] == Some(p)
           && before.answered[p]
        then None else LastOwner(m, steps[..n], k)
      case _ => LastOwner(m, steps[..n], k)
  }

  /** In every run the mutex of k is held by p exactly if p's was the last Lock or Finish on k. */
  lemma {:induction false} HolderIsLastOwner(phys: seq<nat>, route: seq<nat>, steps: seq<Step>, k: nat)
    requires Fits(phys, route) && k < |route|
    ensures var m := Run(Start(phys, route), steps);
            m.phys == phys && |m.holder| == |route| && m.holder[k] == LastOwner(Start(phys, route), steps, k)
    decreases |steps|
  {
    if steps == [] {
    } else {
      var n := |steps| - 1;
      HolderIsLastOwner(phys, route, steps[..n], k);
      var before := Run(Start(phys, route), steps[..n]);
      StepMovesHolder(before, steps[n], k);
    }
  }

  /** Only Lock and Finish on k touch its mutex. */
  lemma StepMovesHolder(m: Mux, s: Step, k: nat)
    requires m.Shaped() && k < |m.route|
    ensures Apply(m, s).phys == m.phys && |Apply(m, s).route| == |m.route|
    ensures Apply(m, s).holder[k] ==
              match s
              case Lock(p, _) =>
                if p < |m.phys| && m.phys[p] == k && m.holder[k] == None then Some(p) else m.holder[k]
              case Finish(p) =>
                if p < |m.phys| && m.phys[p] == k && m.holder[k] == Some(p) && m.answered[p] then None
                else m.holder[k]
              case _ => m.holder[k]
  {
    if s.Deliver? && Enabled(m, s) {
      PassedKeepsHolder(m, s.k, m.loaded[s.k].value, Taken(m, s.k, s.room));
    }
  }

  lemma {:induction false} PassedKeepsHolder(m: Mux, k: nat, q: nat, n: nat)
    requires m.Shaped() && k < |m.route| && q < |m.phys| && n <= |m.up[k]|
    ensures Passed(m, k, q, n).holder == m.holder && |Passed(m, k, q, n).route| == |m.route|
    decreases n
  {
    if n > 0 {
      PassedKeepsHolder(AfterPass(m, k, q), k, q, n - 1);
    }
  }

  // ---------- A whole command ----------

  function Chunks(p: nat, n: nat): seq<Step> {
    if n == 0 then [] else Chunks(p, n - 1) + [Down(p)]
  }

  /** Sends a command of n chunks, has it answered by one final line, and finishes it. */
  function WholeCommand(p: nat, k: nat, n: pos, text: string, room: pos): seq<Step> {
    [Lock(p, n)] + Chunks(p, n) + [Reply(k, text, true)] + [Load(k)] + [Deliver(k, room)] + [Finish(p)]
  }

  /** `i` of `n` chunks have been forwarded. */
  predicate Forwarded(m: Mux, r: Mux, p: nat, n: nat, i: nat)
    requires m.Shaped() && p < |m.phys| && i <= n
  {
    && r == m.(route := r.route, unsent := m.unsent[p := n - i], serving := r.serving)
    && r.route == (if i == 0 then m.route else m.route[m.phys[p] := p])
    && r.serving == (if i < n then m.serving else m.serving[m.phys[p] := Some(p)])
  }

  lemma NothingForwarded(m: Mux, p: nat, n: pos)
    requires m.Shaped() && p < |m.phys| && m.unsent[p] == n
    ensures Forwarded(m, m, p, n, 0)
  {
    assert m.unsent[p := n] == m.unsent;
  }

  lemma ForwardedNext(m: Mux, r: Mux, p: nat, n: nat, i: nat)
    requires m.Shaped() && r.Shaped() && p < |m.phys| && i < n && Forwarded(m, r, p, n, i)
    ensures Forwarded(m, Apply(r, Down(p)), p, n, i + 1)
  {
    var e := Apply(r, Down(p));
    assert r.unsent[p] == n - i && e == AfterDown(r, p);
    assert r.unsent[p := n - (i + 1)] == m.unsent[p := n - (i + 1)];
    assert r.route[m.phys[p] := p] == m.route[m.phys[p] := p];
  }

  lemma {:induction false} ChunksGoDown(m: Mux, p: nat, n: pos, i: nat)
    requires m.Shaped() && p < |m.phys| && m.unsent[p] == n && i <= n
    ensures Forwarded(m, Run(m, Chunks(p, i)), p, n, i)
  {
    hide Run, Apply, Forwarded;
    if i == 0 {
      NothingForwarded(m, p, n);
      RunNothing(m);
    } else {
      ChunksGoDown(m, p, n, i - 1);
      RunSnoc(m, Chunks(p, i - 1), Down(p));
      ForwardedNext(m, Run(m, Chunks(p, i - 1)), p, n, i - 1);
    }
  }

  /** A final answer among the tokens of a read is noticed. */
  lemma {:induction false} PassedIsAnswered(m: Mux, k: nat, q: nat, n: nat)
    requires m.Shaped() && k < |m.route| && q < |m.phys| && 0 < n <= |m.up[k]|
    requires m.up[k][n - 1].Answer? && m.up[k][n - 1].final
    ensures var r := Passed(m, k, q, n); r == m.(up := r.up, inbox := r.inbox, answered := r.answered) && r.answered[q]
    decreases n
  {
    var next := AfterPass(m, k, q);
    if n > 1 {
      PassedIsAnswered(next, k, q, n - 1);
    }
  }

  /** Whatever happened before, if nobody holds the mutex a command sent now goes through: its issuer
      is given what was waiting and then its answer, and the mutex is free again. */
  lemma CommandGoesThrough(m: Mux, p: nat, n: pos, text: string, room: pos)
    requires m.Shaped() && p < |m.phys| && m.holder[m.phys[p]] == None && room > |m.up[m.phys[p]]|
    ensures var k, answer := m.phys[p], Answer(p, text, true);
            var r := Run(m, WholeCommand(p, k, n, text, room));
            && r.inbox == m.inbox[p := m.inbox[p] + (m.up[k] + [answer])]
            && r.sent == m.sent[p := m.sent[p] + [answer]] && r.up == m.up[k := []]
            && r.holder == m.holder && r.unsent[p] == 0 && r.route == m.route[k := p]
  {
    hide Run, Apply, WholeCommand;
    var k := m.phys[p];
    WholeRun(m, p, k, n, text, room);
    CommandIsSent(m, p, n);
    var m2 := Run(Apply(m, Lock(p, n)), Chunks(p, n));
    CommandIsAnswered(m2, p, k, text);
    var m4 := Apply(Apply(m2, Reply(k, text, true)), Load(k));
    AnswerIsDelivered(m4, p, k, m.up[k], text, room);
    CommandIsFinished(Apply(m4, Deliver(k, room)), p);
    assert m.up[k := m.up[k] + [Answer(p, text, true)]][k := []] == m.up[k := []];
    assert m.holder[k := Some(p)][k := None] == m.holder;
  }

  /** An answer waits behind what the modem sent before, and the modem goes on answering until it was
      the final one; so does an announcement, which nobody asked for. */
  lemma ModemIsHeard(m: Mux, p: nat, k: nat, text: string, final: bool)
    requires m.Shaped() && k < |m.route| && p < |m.phys| && m.serving[k] == Some(p)
    ensures var r := Apply(m, Reply(k, text, final));
            && r.up == m.up[k := m.up[k] + [Answer(p, text, final)]]
            && r.sent == m.sent[p := m.sent[p] + [Answer(p, text, final)]]
            && r.serving == if final then m.serving[k := None] else m.serving
    ensures Apply(m, Announce(k, text)) == m.(up := m.up[k := m.up[k] + [Urc(text)]])
  {
  }

  lemma CommandIsSent(m: Mux, p: nat, n: pos)
    requires m.Shaped() && p < |m.phys| && m.holder[m.phys[p]] == None
    ensures var r, k := Run(Apply(m, Lock(p, n)), Chunks(p, n)), m.phys[p];
            && r.phys == m.phys && r.up == m.up && r.inbox == m.inbox && r.sent == m.sent
            && r.holder == m.holder[k := Some(p)] && r.serving == m.serving[k := Some(p)]
            && r.route == m.route[k := p] && r.unsent == m.unsent[p := 0]
  {
    ChunksGoDown(Apply(m, Lock(p, n)), p, n, n);
    hide Run;
  }

  lemma CommandIsAnswered(m: Mux, p: nat, k: nat, text: string)
    requires m.Shaped() && k < |m.route| && p < |m.phys| && m.serving[k] == Some(p)
    ensures var r := Apply(Apply(m, Reply(k, text, true)), Load(k));
            && r.phys == m.phys && r.holder == m.holder && r.unsent == m.unsent && r.route == m.route
            && r.inbox == m.inbox && r.up == m.up[k := m.up[k] + [Answer(p, text, true)]]
            && r.sent == m.sent[p := m.sent[p] + [Answer(p, text, true)]] && r.loaded[k] == Some(m.route[k])
  {
  }

  lemma AnswerIsDelivered(m: Mux, p: nat, k: nat, waiting: seq<Token>, text: string, room: pos)
    requires m.Shaped() && k < |m.route| && p < |m.phys| && m.loaded[k] == Some(p)
    requires m.up[k] == waiting + [Answer(p, text, true)] && room > |waiting|
    ensures var r := Apply(m, Deliver(k, room));
            && r.phys == m.phys && r.holder == m.holder && r.unsent == m.unsent && r.route == m.route
            && r.sent == m.sent && r.inbox == m.inbox[p := m.inbox[p] + m.up[k]] && r.up == m.up[k := []]
            && r.answered[p]
  {
    var taken := |waiting| + 1;
    assert m.up[k][taken - 1] == Answer(p, text, true);
    PassedAppends(m, k, p, taken);
    PassedIsAnswered(m, k, p, taken);
    hide Passed;
    assert m.up[k][..taken] == m.up[k] && m.up[k][taken..] == [];
  }

  lemma CommandIsFinished(m: Mux, p: nat)
    requires m.Shaped() && p < |m.phys| && m.holder[m.phys[p]] == Some(p) && m.answered[p]
    ensures Apply(m, Finish(p)) == m.(holder := m.holder[m.phys[p] := None])
  {
  }

  lemma WholeRun(m: Mux, p: nat, k: nat, n: pos, text: string, room: pos)
    requires m.Shaped()
    ensures Run(m, WholeCommand(p, k, n, text, room))
              == Apply(Apply(Apply(Apply(Run(Apply(m, Lock(p, n)), Chunks(p, n)), Reply(k, text, true)), Load(k)),
                             Deliver(k, room)), Finish(p))
  {
    hide Apply;
    var first := [Lock(p, n)] + Chunks(p, n);
    RunConcat(m, [Lock(p, n)], Chunks(p, n));
    assert [Lock(p, n)][..0] == [];
    RunSnoc(m, first, Reply(k, text, true));
    RunSnoc(m, first + [Reply(k, text, true)], Load(k));
    RunSnoc(m, first + [Reply(k, text, true)] + [Load(k)], Deliver(k, room));
    RunSnoc(m, first + [Reply(k, text, true)] + [Load(k)] + [Deliver(k, room)], Finish(p));
  }

  // ---------- When the routing is right ----------

  /** No answer has been written to a pseudo channel that did not ask. */
  predicate NoStray(m: Mux)
    requires m.Shaped()
  {
    forall p, i :: 0 <= p < |m.inbox| && 0 <= i < |m.inbox[p]| && m.inbox[p][i].Answer? ==> m.inbox[p][i].issuer == p
  }

  /** What is written to q by a read. */
  lemma {:induction false} PassedAppends(m: Mux, k: nat, q: nat, n: nat)
    requires m.Shaped() && k < |m.route| && q < |m.phys| && n <= |m.up[k]|
    ensures Passed(m, k, q, n).inbox == m.inbox[q := m.inbox[q] + m.up[k][..n]]
    ensures Passed(m, k, q, n).up == m.up[k := m.up[k][n..]]
    decreases n
  {
    if n == 0 {
      assert m.inbox[q] + m.up[k][..0] == m.inbox[q] && m.up[k][0..] == m.up[k];
    } else {
      PassedAppends(AfterPass(m, k, q), k, q, n - 1);
      var token, rest := m.up[k][0], m.up[k][1..];
      assert m.inbox[q] + [token] + rest[..n - 1] == m.inbox[q] + m.up[k][..n];
      assert rest[n - 1..] == m.up[k][n..];
    }
  }

  lemma StrayStays(m: Mux, s: Step)
    requires m.Shaped() && !NoStray(m)
    ensures !NoStray(Apply(m, s))
  {
    var p, i :| 0 <= p < |m.inbox| && 0 <= i < |m.inbox[p]| && m.inbox[p][i].Answer? && m.inbox[p][i].issuer != p;
    var r := Apply(m, s);
    if s.Deliver? && Enabled(m, s) {
      PassedAppends(m, s.k, m.loaded[s.k].value, Taken(m, s.k, s.room));
    }
    assert |r.inbox| == |m.inbox| && |r.inbox[p]| >= |m.inbox[p]| && r.inbox[p][i] == m.inbox[p][i];
  }

  lemma WrongDeliveryStrays(m: Mux, s: Step)
    requires Inv(m) && !Right(m, s)
    ensures !NoStray(Apply(m, s))
  {
    var k, q, n := s.k, m.loaded[s.k].value, Taken(m, s.k, s.room);
    var i :| 0 <= i < n && i < |m.up[k]| && m.up[k][i].Answer?;
    assert LinkInv(m, k);
    assert Outstanding(m, k, m.up[k][i].issuer);
    PassedAppends(m, k, q, n);
    var r := Apply(m, s);
    assert r.inbox[q][|m.inbox[q]| + i] == m.up[k][i];
  }

  lemma OrderlyRunsDoNotStray(phys: seq<nat>, route: seq<nat>, steps: seq<Step>)
    requires Fits(phys, route) && Orderly(Start(phys, route), steps)
    ensures NoStray(Run(Start(phys, route), steps))
  {
    var m := Run(Start(phys, route), steps);
    forall p, i | 0 <= p < |m.inbox| && 0 <= i < |m.inbox[p]| && m.inbox[p][i].Answer?
      ensures m.inbox[p][i].issuer == p
    {
      AnswersReachTheirIssuer(phys, route, steps, p);
    }
  }

  /** The exact condition, for every run: no answer strays if and only if each delivery that carries
      an answer finds the loaded route still in force. */
  lemma {:induction false} RightExactlyIfOrderly(phys: seq<nat>, route: seq<nat>, steps: seq<Step>)
    requires Fits(phys, route)
    ensures NoStray(Run(Start(phys, route), steps)) <==> Orderly(Start(phys, route), steps)
    decreases |steps|
  {
    var start := Start(phys, route);
    if Orderly(start, steps) {
      OrderlyRunsDoNotStray(phys, route, steps);
    } else {
      var before, s := steps[..|steps| - 1], steps[|steps| - 1];
      RightExactlyIfOrderly(phys, route, before);
      if Orderly(start, before) {
        StartInv(phys, route);
        RunKeepsInv(start, before);
        WrongDeliveryStrays(Run(start, before), s);
      } else {
        StrayStays(Run(start, before), s);
      }
    }
  }

  /** Nothing happens between the two halves of a forward. */
  predicate Atomic(steps: seq<Step>) {
    forall i :: 0 <= i < |steps| && steps[i].Deliver? ==> i > 0 && steps[i - 1] == Load(steps[i].k)
  }

  lemma {:induction false} AtomicRunsAreOrderly(m: Mux, steps: seq<Step>)
    requires m.Shaped() && Atomic(steps)
    ensures Orderly(m, steps)
    decreases |steps|
  {
    if steps == [] {
    } else {
      var n := |steps| - 1;
      AtomicRunsAreOrderly(m, steps[..n]);
      if steps[n].Deliver? {
        assert steps[..n][n - 1] == Load(steps[n].k);
      }
    }
  }

  /** No read takes more than one token. */
  predicate OneByOne(steps: seq<Step>) {
    forall i :: 0 <= i < |steps| && steps[i].Deliver? ==> steps[i].room == 1
  }

  /** A loaded route is in force for the token that was next when it was loaded. */
  predicate HeadInv(m: Mux, k: nat)
    requires m.Shaped() && k < |m.route|
  {
    m.loaded[k].Some? ==> m.up[k] != [] && (m.up[k][0].Answer? ==> m.loaded[k].value == m.route[k])
  }

  lemma StepKeepsTables(m: Mux, s: Step)
    requires m.Shaped()
    ensures var r := Apply(m, s); |r.route| == |m.route| && r.phys == m.phys && |r.inbox| == |m.inbox|
  {
    if s.Deliver? && Enabled(m, s) {
      PassedAppends(m, s.k, m.loaded[s.k].value, Taken(m, s.k, s.room));
    }
  }

  lemma StepKeepsHead(m: Mux, s: Step, k: nat)
    requires Inv(m) && k < |m.route| && HeadInv(m, k)
    ensures |Apply(m, s).route| == |m.route| && HeadInv(Apply(m, s), k)
  {
    assert LinkInv(m, k);
    if s.Down? && Enabled(m, s) {
      assert SenderInv(m, s.p);
    } else if s.Deliver? && Enabled(m, s) {
      PassedAppends(m, s.k, m.loaded[s.k].value, Taken(m, s.k, s.room));
    }
  }

  lemma OneTokenIsRight(m: Mux, s: Step)
    requires m.Shaped() && (s.Deliver? ==> s.room == 1)
    requires forall k :: 0 <= k < |m.route| ==> HeadInv(m, k)
    ensures Right(m, s)
  {
    assert s.Deliver? && Enabled(m, s) ==> HeadInv(m, s.k);
  }

  /** Only a read that takes several tokens can go wrong: one by one, every run is orderly, whatever
      happens between the two halves of a forward. */
  lemma {:induction false} OneTokenReadsAreOrderly(phys: seq<nat>, route: seq<nat>, steps: seq<Step>)
    requires Fits(phys, route) && OneByOne(steps)
    ensures Orderly(Start(phys, route), steps)
    ensures var m := Run(Start(phys, route), steps); forall k :: 0 <= k < |m.route| ==> HeadInv(m, k)
    decreases |steps|
  {
    if steps == [] {
    } else {
      var start, n := Start(phys, route), |steps| - 1;
      OneTokenReadsAreOrderly(phys, route, steps[..n]);
      StartInv(phys, route);
      RunKeepsInv(start, steps[..n]);
      var m := Run(start, steps[..n]);
      OneTokenIsRight(m, steps[n]);
      StepKeepsTables(m, steps[n]);
      hide Inv, HeadInv, Right, Apply;
      forall k | 0 <= k < |Run(start, steps).route| ensures HeadInv(Run(start, steps), k) {
        StepKeepsHead(m, steps[n], k);
      }
    }
  }

  /** A run in which an answer goes to the wrong pseudo channel: between the load and the read of an
      announcement, p sends a command on the same physical channel and is answered. */
  function StrayRun(k: nat, p: nat): seq<Step> {
    [Announce(k, "RING"), Load(k), Lock(p, 1), Down(p), Reply(k, "OK", true), Deliver(k, 2)]
  }

  /** The state before the read of that run. */
  lemma BeforeStray(phys: seq<nat>, route: seq<nat>, p: nat)
    requires Fits(phys, route) && p < |phys|
    ensures var k := phys[p];
            var m := Run(Start(phys, route), StrayRun(k, p)[..5]);
            && m == Start(phys, route).(
                 route := route[k := p],
                 loaded := m.loaded, holder := m.holder, serving := m.serving, unsent := m.unsent, sent := m.sent,
                 answered := m.answered,
                 up := Start(phys, route).up[k := [Urc("RING"), Answer(p, "OK", true)]])
            && m.loaded[k] == Some(route[k])
  {
    var k, run, m0 := phys[p], StrayRun(phys[p], p), Start(phys, route);
    var m1 := Apply(m0, run[0]);
    var m2 := Apply(m1, run[1]);
    var m3 := Apply(m2, run[2]);
    var m4 := Apply(m3, run[3]);
    var m5 := Apply(m4, run[4]);
    assert m1.up[k] == [Urc("RING")] && m2.loaded[k] == Some(route[k]);
    assert m3.unsent[p] == 1 && m4.serving[k] == Some(p) && m4.route == route[k := p];
    assert m5.up[k] == [Urc("RING"), Answer(p, "OK", true)];
    FiveSteps(m0, m1, m2, m3, m4, run);
  }

  /** The first five states of a run. */
  lemma FiveSteps(m0: Mux, m1: Mux, m2: Mux, m3: Mux, m4: Mux, run: seq<Step>)
    requires |run| >= 5 && m0.Shaped() && m1.Shaped() && m2.Shaped() && m3.Shaped() && m4.Shaped()
    requires m1 == Apply(m0, run[0]) && m2 == Apply(m1, run[1]) && m3 == Apply(m2, run[2]) && m4 == Apply(m3, run[3])
    ensures Run(m0, run[..5]) == Apply(m4, run[4])
  {
    hide Apply, Run, Mux.Shaped;
    RunNext(m0, run, 0);
    assert Run(m0, run[..1]) == m1;
    RunNext(m0, run, 1);
    assert Run(m0, run[..2]) == m2;
    RunNext(m0, run, 2);
    assert Run(m0, run[..3]) == m3;
    RunNext(m0, run, 3);
    RunNext(m0, run, 4);
  }

  lemma RunNext(m: Mux, run: seq<Step>, n: nat)
    requires m.Shaped() && n < |run|
    ensures Run(m, run[..n + 1]) == Apply(Run(m, run[..n]), run[n])
    ensures n == 0 ==> Run(m, run[..n + 1]) == Apply(m, run[n])
  {
    assert run[..n + 1] == run[..n] + [run[n]];
    RunSnoc(m, run[..n], run[n]);
  }

  /** The condition can fail on any two pseudo channels that share a physical one: the answer to p is
      written to the channel that was routed to before. */
  lemma SomeAnswerStrays(phys: seq<nat>, route: seq<nat>, p: nat)
    requires Fits(phys, route) && p < |phys| && route[phys[p]] != p
    ensures var q := route[phys[p]];
            var m := Run(Start(phys, route), StrayRun(phys[p], p));
            && q < |m.inbox| && m.inbox[q] == [Urc("RING"), Answer(p, "OK", true)]
            && !NoStray(m)
  {
    var k, run := phys[p], StrayRun(phys[p], p);
    BeforeStray(phys, route, p);
    var m := Run(Start(phys, route), run[..5]);
    RunNext(Start(phys, route), run, 5);
    assert run[..6] == run;
    PassedAppends(m, k, route[k], 2);
    var r := Apply(m, run[5]);
    assert r.inbox[route[k]] == [] + [Urc("RING"), Answer(p, "OK", true)];
    assert r.inbox[route[k]][1].issuer != route[k];
  }

  // ---------- The channel tables ----------

  /** The forwards of a pass over the first `n` pseudo channels, those that have something to read. */
  function Downs(ready: seq<bool>, n: nat): seq<Step>
    requires n <= |ready|
  {
    if n == 0 then [] else if ready[n - 1] then Downs(ready, n - 1) + [Down(n - 1)] else Downs(ready, n - 1)
  }

  lemma DownsNext(ready: seq<bool>, n: nat)
    requires n <= |ready|
    ensures n == 0 ==> Downs(ready, n) == []
    ensures n < |ready| ==> Downs(ready, n + 1) == if ready[n] then Downs(ready, n) + [Down(n)] else Downs(ready, n)
  {
  }

  /** The steps of a pass over the first `n` physical channels: for each readable one the route is
      loaded, other threads run, and a read is delivered. */
  function Forwards(ready: seq<bool>, rooms: seq<pos>, meanwhile: seq<seq<Step>>, n: nat): seq<Step>
    requires |rooms| == |meanwhile| == |ready| && n <= |ready|
  {
    if n == 0 then []
    else
      var before := Forwards(ready, rooms, meanwhile, n - 1);
      if ready[n - 1] then before + ([Load(n - 1)] + meanwhile[n - 1] + [Deliver(n - 1, rooms[n - 1])]) else before
  }

  lemma ForwardsNext(ready: seq<bool>, rooms: seq<pos>, meanwhile: seq<seq<Step>>, n: nat)
    requires |rooms| == |meanwhile| == |ready| && n < |ready|
    ensures Forwards(ready, rooms, meanwhile, 0) == []
    ensures Forwards(ready, rooms, meanwhile, n + 1) == Forwards(ready, rooms, meanwhile, n)
              + if ready[n] then [Load(n)] + meanwhile[n] + [Deliver(n, rooms[n])] else []
  {
  }

  lemma RunNothing(m: Mux)
    requires m.Shaped()
    ensures Run(m, []) == m
  {
  }

  lemma {:induction false} RunConcat(m: Mux, a: seq<Step>, b: seq<Step>)
    requires m.Shaped()
    ensures Run(m, a + b) == Run(Run(m, a), b)
    decreases |b|
  {
    hide Run, Apply;
    if b == [] {
      RunNothing(Run(m, a));
      assert a + b == a;
    } else {
      var front, last := b[..|b| - 1], b[|b| - 1];
      RunConcat(m, a, front);
      RunSnoc(m, a + front, last);
      RunSnoc(Run(m, a), front, last);
      assert b == front + [last];
      assert a + b == (a + front) + [last];
    }
  }

  /** Only the loop over the physical channels loads routes and delivers. */
  predicate OfOthers(steps: seq<Step>) {
    forall i :: 0 <= i < |steps| ==> !steps[i].Load? && !steps[i].Deliver?
  }

  class Multiplexer {
    const physicalNumber: nat
    // pseudoChannels[i].physicalIndexMapped, and the physical channel whose mutex i uses
    const pseudo: array<nat>
    const mutex: array<nat>
    // physicalChannels[k].pseudoIndexMapped
    const physical: array<nat>
    // the loop variable of the loop over the physical channels, per channel
    var loaded: seq<Option<nat>>
    // the mutexes, and what the terminals on both sides hold
    var holder: seq<Option<nat>>
    var unsent: seq<nat>
    var serving: seq<Option<nat>>
    var up: seq<seq<Token>>
    var inbox: seq<seq<Token>>
    var answered: seq<bool>
    ghost var sent: seq<seq<Token>>

    ghost function View(): Mux
      reads this, pseudo, physical
    {
      Mux(pseudo[..], physical[..], loaded, holder, unsent, serving, up, inbox, answered, sent)
    }

    ghost predicate Valid()
      reads this, pseudo, mutex, physical
    {
      && pseudo != mutex && pseudo != physical && mutex != physical
      && pseudo.Length == mutex.Length == PSEUDO_CHANNELS && physical.Length == physicalNumber
      && View().Shaped()
      && mutex[..] == pseudo[..]
    }

    constructor (n: nat)
      requires n == 4 || n == PHYSICAL_MAX_CHANNEL_NUM
      ensures Valid() && physicalNumber == n && fresh(pseudo) && fresh(mutex) && fresh(physical)
      ensures View() == Start(InitialPhys(n), InitialRoute(n))
    {
      physicalNumber := n;
      pseudo := new nat[PSEUDO_CHANNELS];
      mutex := new nat[PSEUDO_CHANNELS];
      physical := new nat[n];
      loaded, holder, serving, up := seq(n, i => None), seq(n, i => None), seq(n, i => None), seq(n, i => []);
      unsent, inbox := seq(PSEUDO_CHANNELS, i => 0), seq(PSEUDO_CHANNELS, i => []);
      answered, sent := seq(PSEUDO_CHANNELS, i => false), seq(PSEUDO_CHANNELS, i => []);
      new;
      MappingsAgree(n);
      InitPhysicalChannels();
      ConstructChannelMapping();
    }

    method InitPhysicalChannels()
      requires physical.Length == physicalNumber
      modifies physical
      ensures physical[..] == InitialRoute(physicalNumber)
    {
      for k := 0 to physicalNumber
        invariant physical[..k] == InitialRoute(physicalNumber)[..k]
      {
        physical[k] := UpdatePhysicalChannelMapping(physicalNumber, k);
      }
    }

    /** Pseudo channels on one physical channel share its mutex. */
    method ConstructChannelMapping()
      requires pseudo != mutex && pseudo.Length == mutex.Length == PSEUDO_CHANNELS
      modifies pseudo, mutex
      ensures pseudo[..] == mutex[..] == InitialPhys(physicalNumber)
    {
      for i := 0 to PSEUDO_CHANNELS
        invariant pseudo[..i] == mutex[..i] == InitialPhys(physicalNumber)[..i]
      {
        var indexMapped := UpdatePseudoChannelMapping(physicalNumber, i);
        pseudo[i] := indexMapped;
        mutex[i] := indexMapped;
      }
    }

    /** Takes the mutex, if it is free, and writes a command. */
    method LockAndWrite(p: nat, chunks: pos) returns (ok: bool)
      requires Valid() && p < PSEUDO_CHANNELS
      modifies this
      ensures Valid() && View() == Apply(old(View()), Lock(p, chunks))
      ensures ok == (old(holder)[mutex[p]] == None)
      ensures holder == if ok then old(holder)[mutex[p] := Some(p)] else old(holder)
    {
      ok := holder[mutex[p]] == None;
      if ok {
        holder := holder[mutex[p] := Some(p)];
        unsent, answered := unsent[p := chunks], answered[p := false];
      }
    }

    method Unlock(p: nat) returns (ok: bool)
      requires Valid() && p < PSEUDO_CHANNELS
      modifies this
      ensures Valid() && View() == Apply(old(View()), Finish(p))
      ensures ok == (old(holder)[mutex[p]] == Some(p) && old(answered)[p])
      ensures holder == if ok then old(holder)[mutex[p] := None] else old(holder)
    {
      ok := holder[mutex[p]] == Some(p) && answered[p];
      if ok {
        holder := holder[mutex[p] := None];
      }
    }

    /** Routes the physical channel to i and passes one chunk on. */
    method ForwardDown(i: nat)
      requires Valid() && i < PSEUDO_CHANNELS && unsent[i] > 0
      modifies this, physical
      ensures Valid() && View() == Apply(old(View()), Down(i))
      ensures unsent == old(unsent)[i := old(unsent)[i] - 1]
    {
      var k := pseudo[i];
      physical[k] := i;
      unsent := unsent[i := unsent[i] - 1];
      if unsent[i] == 0 {
        serving := serving[k := Some(i)];
      }
    }

    method ModemReplies(k: nat, text: string, final: bool)
      requires Valid() && Enabled(View(), Reply(k, text, final))
      modifies this`up, this`serving, this`sent
      ensures Valid() && View() == Apply(old(View()), Reply(k, text, final))
    {
      var p := serving[k].value;
      up := up[k := up[k] + [Answer(p, text, final)]];
      sent := sent[p := sent[p] + [Answer(p, text, final)]];
      if final {
        serving := serving[k := None];
      }
    }

    /** One step of another thread or of the modem, if it can happen. */
    method OtherStep(s: Step)
      requires Valid() && !s.Load? && !s.Deliver?
      modifies this, physical
      ensures Valid() && View() == Apply(old(View()), s)
      ensures loaded == old(loaded) && forall k :: 0 <= k < physicalNumber ==> old(up)[k] <= up[k]
    {
      match s
      case Lock(p, chunks) =>
        if p < PSEUDO_CHANNELS {
          var _ := LockAndWrite(p, chunks);
        }
      case Down(p) =>
        if p < PSEUDO_CHANNELS && unsent[p] > 0 {
          ForwardDown(p);
        }
      case Reply(k, text, final) =>
        if k < physicalNumber && serving[k].Some? && serving[k].value < PSEUDO_CHANNELS {
          ModemReplies(k, text, final);
        }
      case Announce(k, text) =>
        if k < physicalNumber {
          up := up[k := up[k] + [Urc(text)]];
        }
      case Finish(p) =>
        if p < PSEUDO_CHANNELS {
          var _ := Unlock(p);
        }
    }

    method OthersRun(steps: seq<Step>)
      requires Valid() && OfOthers(steps)
      modifies this, physical
      ensures Valid() && View() == Run(old(View()), steps)
      ensures loaded == old(loaded) && forall k :: 0 <= k < physicalNumber ==> old(up)[k] <= up[k]
    {
      ghost var was := View();
      assert View() == Run(was, steps[..0]);
      hide Run, Apply, Enabled;
      for n := 0 to |steps|
        invariant Valid() && View() == Run(was, steps[..n])
        invariant loaded == old(loaded) && forall k :: 0 <= k < physicalNumber ==> old(up)[k] <= up[k]
      {
        RunNext(was, steps, n);
        OtherStep(steps[n]);
      }
      assert steps[..|steps|] == steps;
    }

    /** The first half of a forward. */
    method LoadRoute(k: nat)
      requires Valid() && k < physicalNumber && up[k] != []
      modifies this`loaded
      ensures Valid() && View() == Apply(old(View()), Load(k))
    {
      loaded := loaded[k := Some(physical[k])];
    }

    /** The second half: a read of at most `room` tokens goes where the loaded route leads. */
    method ReadAndWrite(k: nat, room: pos)
      requires Valid() && k < physicalNumber && loaded[k].Some?
      modifies this`up, this`inbox, this`answered, this`loaded
      ensures Valid() && View() == Apply(old(View()), Deliver(k, room))
      ensures forall l :: 0 <= l < physicalNumber && l != k ==> up[l] == old(up)[l]
    {
      var q := loaded[k].value;
      var len := if room <= |up[k]| then room else |up[k]|;
      ghost var was := View();
      PassTokens(k, q, len);
      loaded := loaded[k := None];
    }

    /** Writes the tokens of a read to q, whose reader sees them one after the other. */
    method PassTokens(k: nat, q: nat, n: nat)
      requires Valid() && k < physicalNumber && q < PSEUDO_CHANNELS && n <= |up[k]|
      modifies this`up, this`inbox, this`answered
      ensures Valid() && View() == Passed(old(View()), k, q, n)
      ensures forall l :: 0 <= l < physicalNumber && l != k ==> up[l] == old(up)[l]
      decreases n
    {
      if n > 0 {
        PassToken(k, q);
        hide AfterPass;
        PassTokens(k, q, n - 1);
      }
    }

    method PassToken(k: nat, q: nat)
      requires Valid() && k < physicalNumber && q < PSEUDO_CHANNELS && up[k] != []
      modifies this`up, this`inbox, this`answered
      ensures Valid() && View() == AfterPass(old(View()), k, q)
      ensures up == old(up)[k := old(up)[k][1..]]
    {
      var token := up[k][0];
      up := up[k := up[k][1..]];
      inbox := inbox[q := inbox[q] + [token]];
      if token.Answer? && token.final {
        answered := answered[q := true];
      }
    }

    /** One turn of the loop that reads the pseudo channels. */
    method PseudoChannelPass(ready: seq<bool>)
      requires Valid() && |ready| == PSEUDO_CHANNELS
      requires forall i :: 0 <= i < |ready| && ready[i] ==> unsent[i] > 0
      modifies this, physical
      ensures Valid() && View() == Run(old(View()), Downs(ready, |ready|))
    {
      ghost var was := View();
      ghost var steps: seq<Step> := [];
      RunNothing(was);
      DownsNext(ready, 0);
      hide Run, Apply, Enabled, Downs;
      for i := 0 to |ready|
        invariant Valid() && View() == Run(was, steps) && steps == Downs(ready, i)
        invariant forall j :: i <= j < |ready| && ready[j] ==> unsent[j] > 0
      {
        DownsNext(ready, i);
        if ready[i] {
          ForwardOneDown(i, was, steps);
          steps := steps + [Down(i)];
        }
      }
    }

    method ForwardOneDown(i: nat, ghost was: Mux, ghost steps: seq<Step>)
      requires Valid() && i < PSEUDO_CHANNELS && unsent[i] > 0
      requires was.Shaped() && View() == Run(was, steps)
      modifies this, physical
      ensures Valid() && View() == Run(was, steps + [Down(i)])
      ensures unsent == old(unsent)[i := old(unsent)[i] - 1]
    {
      RunSnoc(was, steps, Down(i));
      hide Run, Apply, Enabled;
      ForwardDown(i);
    }

    /** One turn of the loop that reads the physical channels.  Other threads may run between the
        load of a route and the read. */
    method PhysicalChannelPass(ready: seq<bool>, rooms: seq<pos>, meanwhile: seq<seq<Step>>)
      requires Valid() && |ready| == |rooms| == |meanwhile| == physicalNumber
      requires forall k :: 0 <= k < physicalNumber && ready[k] ==> up[k] != []
      requires forall k :: 0 <= k < physicalNumber ==> OfOthers(meanwhile[k])
      modifies this, physical
      ensures Valid() && View() == Run(old(View()), Forwards(ready, rooms, meanwhile, physicalNumber))
    {
      ghost var was := View();
      ghost var steps: seq<Step> := Forwards(ready, rooms, meanwhile, 0);
      assert View() == Run(was, steps);
      hide Run, Apply, Enabled, OfOthers;
      for k := 0 to physicalNumber
        invariant Valid() && View() == Run(was, steps) && steps == Forwards(ready, rooms, meanwhile, k)
        invariant forall j :: k <= j < physicalNumber && ready[j] ==> up[j] != []
      {
        if ready[k] {
          ghost var forward := ForwardOne(k, rooms[k], meanwhile[k]);
          RunConcat(was, steps, forward);
          steps := steps + forward;
        }
      }
    }

    method ForwardOne(k: nat, room: pos, meanwhile: seq<Step>) returns (ghost steps: seq<Step>)
      requires Valid() && k < physicalNumber && up[k] != [] && OfOthers(meanwhile)
      modifies this, physical
      ensures Valid() && steps == [Load(k)] + meanwhile + [Deliver(k, room)] && View() == Run(old(View()), steps)
      ensures forall l :: 0 <= l < physicalNumber && l != k ==> old(up)[l] <= up[l]
    {
      ghost var was := View();
      steps := [Load(k)];
      assert Run(was, steps) == Apply(was, Load(k));
      hide Run, Apply, Enabled, OfOthers;
      LoadRoute(k);
      RunConcat(was, steps, meanwhile);
      OthersRun(meanwhile);
      RunSnoc(was, steps + meanwhile, Deliver(k, room));
      ReadAndWrite(k, room);
      steps := steps + meanwhile + [Deliver(k, room)];
    }
  }
}
