/** Reading recorded audio from the remote submix pipe (audio_remote_submix/audio_hw.cpp): the read
    loop retries short and failing pipe reads, converts between mono and stereo in place, and
    fills the rest with silence.  Input and output have the same rate. */
module SubmixRead {

  const MAX_READ_ATTEMPTS := 3

  /** The pipe is created with at least two channels, so each of its frames has two samples. */
  const PIPE_CHANNELS := 2

  type sample = x: int | -32768 <= x <= 32767

  /** Division as in C: towards zero. */
  function Half(x: int): int {
    if x >= 0 then x / 2 else -((-x) / 2)
  }

  function Average(a: sample, b: sample): sample {
    Half(a + b)
  }

  /** Half the sum, rounded towards zero. */
  predicate IsMean(r: int, a: int, b: int) {
    (a + b >= 0 ==> a + b - 1 <= 2 * r <= a + b) && (a + b <= 0 ==> a + b <= 2 * r <= a + b + 1)
  }

  lemma AverageIsMean(a: sample, b: sample)
    ensures IsMean(Average(a, b), a, b)
    ensures forall r: int :: IsMean(r, a, b) ==> r == Average(a, b)
  {
  }

  /** Samples in some frames of one or two channels. */
  function Samples(channels: nat, frames: nat): (n: nat)
    requires channels == 1 || channels == 2
    ensures frames <= n <= 2 * frames
  {
    if channels == 1 then frames else 2 * frames
  }

  // ---------- What the conversions compute ----------

  function Averages(s: seq<sample>): (r: seq<sample>)
    ensures |r| == |s| / 2
  {
    seq(|s| / 2, i requires 0 <= i < |s| / 2 => Average(s[2 * i], s[2 * i + 1]))
  }

  lemma AveragesFrom(s: seq<sample>, r: seq<sample>)
    requires |s| == 2 * |r| && forall i :: 0 <= i < |r| ==> r[i] == Average(s[2 * i], s[2 * i + 1])
    ensures r == Averages(s)
  {
  }

  function Doubled(s: seq<sample>): (r: seq<sample>)
    ensures |r| == 2 * |s|
  {
    seq(2 * |s|, k requires 0 <= k < 2 * |s| => s[k / 2])
  }

  lemma DoubledFrom(s: seq<sample>, r: seq<sample>)
    requires |r| == 2 * |s| && forall k :: 0 <= k < |r| ==> r[k] == s[k / 2]
    ensures r == Doubled(s)
  {
  }

  /** From the channels of the pipe to the channels of the reader. */
  function Convert(pipeChannels: nat, channels: nat, s: seq<sample>): seq<sample> {
    if pipeChannels == 2 && channels == 1 then Averages(s)
    else if pipeChannels == 1 && channels == 2 then Doubled(s)
    else s
  }

  function Silence(n: nat): (r: seq<sample>)
    ensures |r| == n && forall i :: 0 <= i < n ==> r[i] == 0
  {
    seq(n, i => 0)
  }

  lemma DoubledConcat(a: seq<sample>, b: seq<sample>)
    ensures Doubled(a + b) == Doubled(a) + Doubled(b)
  {
    forall k | 0 <= k < 2 * |a + b| ensures Doubled(a + b)[k] == (Doubled(a) + Doubled(b))[k] {
      assert k >= 2 * |a| ==> (k - 2 * |a|) / 2 == k / 2 - |a|;
    }
  }

  lemma AveragesConcat(a: seq<sample>, b: seq<sample>)
    requires |a| % 2 == 0
    ensures Averages(a + b) == Averages(a) + Averages(b)
  {
    var s, n := a + b, |a| / 2;
    forall i | 0 <= i < |s| / 2 ensures Averages(s)[i] == (Averages(a) + Averages(b))[i] {
      if i < n {
        assert s[2 * i] == a[2 * i] && s[2 * i + 1] == a[2 * i + 1];
      } else {
        assert s[2 * i] == b[2 * (i - n)] && s[2 * i + 1] == b[2 * (i - n) + 1];
      }
    }
  }

  /** Converting piece by piece is converting the whole. */
  lemma ConvertConcat(pipeChannels: nat, channels: nat, a: seq<sample>, b: seq<sample>)
    requires pipeChannels == 2 ==> |a| % 2 == 0
    ensures Convert(pipeChannels, channels, a + b)
              == Convert(pipeChannels, channels, a) + Convert(pipeChannels, channels, b)
  {
    hide Averages, Doubled;
    DoubledConcat(a, b);
    if pipeChannels == 2 {
      AveragesConcat(a, b);
    }
  }

  /** From stereo to mono every frame becomes its mean, and from mono to stereo every sample is
      there twice; otherwise nothing changes. */
  lemma ConvertedSamples(pipeChannels: nat, channels: nat, s: seq<sample>)
    ensures var r := Convert(pipeChannels, channels, s);
            && (pipeChannels == 2 && channels == 1 ==>
                  |r| == |s| / 2 && forall i :: 0 <= i < |r| ==> IsMean(r[i], s[2 * i], s[2 * i + 1]))
            && (pipeChannels == 1 && channels == 2 ==>
                  |r| == 2 * |s| && forall i :: 0 <= i < |s| ==> r[2 * i] == r[2 * i + 1] == s[i])
            && (pipeChannels == channels ==> r == s)
  {
    hide IsMean, Averages, Doubled;
    AveragedSamples(s);
    DoubledSamples(s);
  }

  lemma AveragedSamples(s: seq<sample>)
    ensures forall i :: 0 <= i < |Averages(s)| ==> IsMean(Averages(s)[i], s[2 * i], s[2 * i + 1])
  {
    hide IsMean, Average;
    forall i | 0 <= i < |Averages(s)| ensures IsMean(Averages(s)[i], s[2 * i], s[2 * i + 1]) {
      AverageIsMean(s[2 * i], s[2 * i + 1]);
    }
  }

  lemma DoubledSamples(s: seq<sample>)
    ensures forall i :: 0 <= i < |s| ==> Doubled(s)[2 * i] == Doubled(s)[2 * i + 1] == s[i]
  {
    forall i | 0 <= i < |s| ensures Doubled(s)[2 * i] == Doubled(s)[2 * i + 1] == s[i] {
      assert 2 * i / 2 == i && (2 * i + 1) / 2 == i;
    }
  }

  // ---------- What the reader uses of what it takes ----------

  /** Pipe frames got by some successful reads. */
  function Frames(gots: seq<nat>): nat {
    if gots == [] then 0 else Frames(gots[..|gots| - 1]) + gots[|gots| - 1]
  }

  lemma FramesMore(gots: seq<nat>, g: nat)
    ensures Frames(gots + [g]) == Frames(gots) + g
  {
    assert (gots + [g])[..|gots|] == gots;
  }

  /** Reads of `gots` frames have filled `at` samples, and `remaining` of the frames are missing. */
  predicate Counted(pipeChannels: nat, channels: nat, frames: nat, gots: seq<nat>, at: nat, remaining: nat)
    requires channels == 1 || channels == 2
  {
    && at + Samples(channels, remaining) == Samples(channels, frames) && Frames(gots) + remaining == frames
    && (pipeChannels == 1 && channels == 2 && frames > 0 ==> remaining > 0)
  }

  lemma CountedMore(pipeChannels: nat, channels: nat, frames: nat, gots: seq<nat>, at: nat, remaining: nat, got: nat)
    requires (channels == 1 || channels == 2) && Counted(pipeChannels, channels, frames, gots, at, remaining)
    requires 0 < got <= remaining && (pipeChannels == 1 && channels == 2 ==> 2 * got <= remaining)
    ensures Counted(pipeChannels, channels, frames, gots + [got], at + Samples(channels, got), remaining - got)
  {
    FramesMore(gots, got);
    hide Frames;
  }

  lemma RoomFor(pipeChannels: nat, channels: nat, frames: nat, gots: seq<nat>, at: nat, remaining: nat)
    requires (channels == 1 || channels == 2) && Counted(pipeChannels, channels, frames, gots, at, remaining)
    ensures at + 2 * remaining <= 2 * frames && remaining == frames - Frames(gots)
  {
    hide Frames;
  }

  /** Reads of `gots` frames took the samples `s`.  Of the block of each read only as many samples are
      used as it has frames of the output: all of them for a stereo output, the first half for
      a mono one. */
  function KeptOf(pipeChannels: nat, s: seq<sample>, gots: seq<nat>): (r: seq<sample>)
    requires pipeChannels == 1 || pipeChannels == 2
    requires |s| == PIPE_CHANNELS * Frames(gots)
    ensures |r| == Samples(pipeChannels, Frames(gots))
    decreases |gots|
  {
    if gots == [] then []
    else
      var g := gots[|gots| - 1];
      var n := |s| - PIPE_CHANNELS * g;
      KeptOf(pipeChannels, s[..n], gots[..|gots| - 1]) + s[n..][..Samples(pipeChannels, g)]
  }

  lemma Front(data: seq<sample>, at: nat, n: nat, k: nat)
    requires at + n <= |data| && k <= n
    ensures data[at..at + n][..k] == data[at..at + k]
  {
  }

  lemma KeptSnoc(pipeChannels: nat, s: seq<sample>, gots: seq<nat>, block: seq<sample>, g: nat)
    requires pipeChannels == 1 || pipeChannels == 2
    requires |s| == PIPE_CHANNELS * Frames(gots) && |block| == PIPE_CHANNELS * g
    ensures |s + block| == PIPE_CHANNELS * Frames(gots + [g])
    ensures KeptOf(pipeChannels, s + block, gots + [g])
              == KeptOf(pipeChannels, s, gots) + block[..Samples(pipeChannels, g)]
  {
    FramesMore(gots, g);
    assert (gots + [g])[..|gots|] == gots;
    assert (s + block)[..|s|] == s && (s + block)[|s|..] == block;
  }

  /** One more read. */
  lemma KeptMore(pipeChannels: nat, channels: nat, s: seq<sample>, gots: seq<nat>, block: seq<sample>, g: nat)
    requires pipeChannels == 1 || pipeChannels == 2
    requires |s| == PIPE_CHANNELS * Frames(gots) && |block| == PIPE_CHANNELS * g
    ensures |s + block| == PIPE_CHANNELS * Frames(gots + [g])
    ensures Convert(pipeChannels, channels, KeptOf(pipeChannels, s + block, gots + [g]))
              == Convert(pipeChannels, channels, KeptOf(pipeChannels, s, gots))
                 + Convert(pipeChannels, channels, block[..Samples(pipeChannels, g)])
  {
    hide Convert, KeptOf, Frames;
    KeptSnoc(pipeChannels, s, gots, block, g);
    ConvertConcat(pipeChannels, channels, KeptOf(pipeChannels, s, gots), block[..Samples(pipeChannels, g)]);
  }

  /** With a stereo output nothing that is taken is lost. */
  lemma {:induction false} StereoIsKept(s: seq<sample>, gots: seq<nat>)
    requires |s| == PIPE_CHANNELS * Frames(gots)
    ensures KeptOf(2, s, gots) == s
    decreases |gots|
  {
    if gots == [] {
    } else {
      var n := |s| - PIPE_CHANNELS * gots[|gots| - 1];
      StereoIsKept(s[..n], gots[..|gots| - 1]);
      assert s[n..][..|s| - n] == s[n..] && s[..n] + s[n..] == s;
    }
  }

  /** What is kept is all that was taken exactly if the output is stereo or nothing was taken. */
  lemma KeptExactlyIfStereo(pipeChannels: nat, s: seq<sample>, gots: seq<nat>)
    requires pipeChannels == 1 || pipeChannels == 2
    requires |s| == PIPE_CHANNELS * Frames(gots)
    ensures KeptOf(pipeChannels, s, gots) == s <==> pipeChannels == 2 || s == []
  {
    if pipeChannels == 2 {
      StereoIsKept(s, gots);
    }
  }

  /** With a mono output sample i of read r is kept from the front of what that read took. */
  lemma {:induction false} MonoKeepsTheFront(s: seq<sample>, gots: seq<nat>, r: nat, i: nat)
    requires |s| == PIPE_CHANNELS * Frames(gots) && r < |gots| && i < gots[r]
    ensures Frames(gots[..r]) + i < |KeptOf(1, s, gots)| && 2 * Frames(gots[..r]) + i < |s|
    ensures KeptOf(1, s, gots)[Frames(gots[..r]) + i] == s[2 * Frames(gots[..r]) + i]
    decreases |gots|
  {
    var last := |gots| - 1;
    var front, g := gots[..last], gots[last];
    assert gots == front + [g];
    FramesMore(front, g);
    hide KeptOf, Frames;
    var n := 2 * Frames(front);
    assert s == s[..n] + s[n..];
    KeptSnoc(1, s[..n], front, s[n..], g);
    if r < last {
      assert front[..r] == gots[..r];
      MonoKeepsTheFront(s[..n], front, r, i);
    }
  }

  predicate Extends(longer: seq<sample>, s: seq<sample>) {
    s <= longer
  }

  lemma ExtendsOn(a: seq<sample>, b: seq<sample>, c: seq<sample>)
    requires Extends(b, a) && Extends(c, b)
    ensures Extends(c, a)
  {
  }

  /** `data` is what reads of `gots` frames have left for the reader while the samples taken grew
      from `start` to `now`. */
  predicate LeftBy(pipeChannels: nat, channels: nat, start: seq<sample>, now: seq<sample>, gots: seq<nat>,
                   data: seq<sample>)
    requires pipeChannels == 1 || pipeChannels == 2
  {
    && start <= now && |now| - |start| == PIPE_CHANNELS * Frames(gots)
    && data == Convert(pipeChannels, channels, KeptOf(pipeChannels, now[|start|..], gots))
  }

  lemma LeftByNone(pipeChannels: nat, channels: nat, start: seq<sample>)
    requires pipeChannels == 1 || pipeChannels == 2
    ensures Frames([]) == 0 && LeftBy(pipeChannels, channels, start, start, [], [])
  {
    assert start[|start|..] == [];
  }

  /** One read of the pipe: the frames it was asked for, and its result. */
  datatype PipeRead = PipeRead(asked: nat, got: int)

  /** The frames got by the reads that gave any. */
  function Gots(history: seq<PipeRead>): seq<nat> {
    if history == [] then []
    else
      var n := |history| - 1;
      Gots(history[..n]) + if history[n].got > 0 then [history[n].got as nat] else []
  }

  /** The reads that gave nothing or failed. */
  function Failures(history: seq<PipeRead>): nat {
    if history == [] then 0
    else
      var n := |history| - 1;
      Failures(history[..n]) + if history[n].got > 0 then 0 else 1
  }

  /** Every read asks for all frames that are still missing, or for half of them when mono becomes
      stereo. */
  predicate AsksForAll(pipeChannels: nat, channels: nat, frames: nat, history: seq<PipeRead>) {
    history == [] ||
    var n := |history| - 1;
    && AsksForAll(pipeChannels, channels, frames, history[..n])
    && history[n].asked == Asked(pipeChannels, channels, frames - Frames(Gots(history[..n])))
  }

  function Asked(pipeChannels: nat, channels: nat, missing: int): int {
    if pipeChannels == 1 && channels == 2 then missing / 2 else missing
  }

  /** The reads since `log` got `gots` of `frames` frames, and so many of them failed. */
  predicate Logged(pipeChannels: nat, channels: nat, frames: nat, log: seq<PipeRead>, history: seq<PipeRead>,
                   gots: seq<nat>, failures: nat)
  {
    && log <= history && Gots(history[|log|..]) == gots && Failures(history[|log|..]) == failures
    && AsksForAll(pipeChannels, channels, frames, history[|log|..])
  }

  lemma LoggedNone(pipeChannels: nat, channels: nat, frames: nat, log: seq<PipeRead>)
    ensures Logged(pipeChannels, channels, frames, log, log, [], 0)
  {
    assert log[|log|..] == [];
  }

  lemma HistoryMore(history: seq<PipeRead>, r: PipeRead)
    ensures Gots(history + [r]) == Gots(history) + if r.got > 0 then [r.got as nat] else []
    ensures Failures(history + [r]) == Failures(history) + if r.got > 0 then 0 else 1
  {
    assert (history + [r])[..|history|] == history;
  }

  lemma AsksMore(pipeChannels: nat, channels: nat, frames: nat, history: seq<PipeRead>, r: PipeRead)
    requires AsksForAll(pipeChannels, channels, frames, history)
    requires r.asked == Asked(pipeChannels, channels, frames - Frames(Gots(history)))
    ensures AsksForAll(pipeChannels, channels, frames, history + [r])
  {
    hide Frames, Gots, Asked;
    assert (history + [r])[..|history|] == history;
  }

  lemma LoggedMore(pipeChannels: nat, channels: nat, frames: nat, log: seq<PipeRead>, history: seq<PipeRead>,
                   gots: seq<nat>, failures: nat, r: PipeRead)
    requires Logged(pipeChannels, channels, frames, log, history, gots, failures)
    requires r.asked == Asked(pipeChannels, channels, frames - Frames(gots))
    ensures r.got > 0 ==> Logged(pipeChannels, channels, frames, log, history + [r], gots + [r.got as nat], failures)
    ensures r.got <= 0 ==> Logged(pipeChannels, channels, frames, log, history + [r], gots, failures + 1)
  {
    hide Frames, Gots, Failures, Asked, AsksForAll;
    var before := history[|log|..];
    assert (history + [r])[|log|..] == before + [r];
    HistoryMore(before, r);
    AsksMore(pipeChannels, channels, frames, before, r);
  }

  // ---------- The reader ----------

  class SubmixInput {
    const channels: nat
    const pipeChannels: nat
    // the pipe, if there is one: samples of whole pipe frames, oldest first
    var hasPipe: bool
    var pipe: seq<sample>
    // what left the pipe
    ghost var taken: seq<sample>
    // all reads of the pipe
    ghost var history: seq<PipeRead>

    ghost predicate Valid()
      reads this
    {
      (channels == 1 || channels == 2) && (pipeChannels == 1 || pipeChannels == 2)
    }

    /** Everything that was ever written to the pipe. */
    ghost function Written(): seq<sample>
      reads this
    {
      taken + pipe
    }

    constructor (input: nat, output: nat)
      requires (input == 1 || input == 2) && (output == 1 || output == 2)
      ensures Valid() && channels == input && pipeChannels == output && Written() == []
    {
      channels, pipeChannels := input, output;
      hasPipe, pipe, taken, history := true, [], [], [];
    }

    /** Between two reads the other side may write. */
    method OtherSideWrites()
      requires Valid()
      modifies this`pipe
      ensures Valid() && Extends(Written(), old(Written()))
    {
      var more: seq<sample> :| true;
      assert taken + (pipe + more) == taken + pipe + more;
      pipe := pipe + more;
    }

    /** A non-blocking pipe read: at most `frames` frames, oldest first; fewer, none or an error
        are possible at any time. */
    method ReadPipe(data: array<sample>, at: nat, frames: nat) returns (got: int)
      requires Valid() && at + PIPE_CHANNELS * frames <= data.Length
      modifies data, this`pipe, this`taken, this`history
      ensures Valid() && got <= frames && history == old(history) + [PipeRead(frames, got)]
      ensures Written() == old(Written()) && data[..at] == old(data[..at])
      ensures got <= 0 ==> taken == old(taken)
      ensures got > 0 ==> taken == old(taken) + data[at..at + PIPE_CHANNELS * got]
    {
      got :| got <= frames && (got > 0 ==> PIPE_CHANNELS * got <= |pipe|);
      if got > 0 {
        var n := PIPE_CHANNELS * got;
        ghost var part := pipe[..n];
        for i := 0 to n
          invariant pipe == old(pipe) && taken == old(taken) && history == old(history)
          invariant data[at..at + i] == pipe[..i]
          invariant data[..at] == old(data[..at])
        {
          data[at + i] := pipe[i];
        }
        assert part == data[at..at + n];
        assert pipe == part + pipe[n..];
        assert taken + pipe == taken + part + pipe[n..];
        taken := taken + part;
        pipe := pipe[n..];
      }
      history := history + [PipeRead(frames, got)];
    }

    /** Stereo to mono, forwards: the frame written is never ahead of the one read. */
    method AverageInPlace(data: array<sample>, at: nat, frames: nat)
      requires at + 2 * frames <= data.Length
      modifies data
      ensures data[at..at + frames] == Averages(old(data[at..at + 2 * frames]))
      ensures forall j :: 0 <= j < frames ==>
                IsMean(data[at + j], old(data[at + 2 * j]), old(data[at + (2 * j + 1)]))
      ensures data[..at] == old(data[..at])
    {
      hide Averages, Average, IsMean;
      ghost var raw := data[at..at + 2 * frames];
      for f := 0 to frames
        invariant forall j :: 0 <= j < f ==> data[at + j] == Average(raw[2 * j], raw[2 * j + 1])
        invariant forall j :: 2 * f <= j < 2 * frames ==> data[at + j] == raw[j]
        invariant data[..at] == old(data[..at])
      {
        assert data[at + 2 * f] == raw[2 * f] && data[at + (2 * f + 1)] == raw[2 * f + 1];
        data[at + f] := Average(data[at + 2 * f], data[at + 2 * f + 1]);
      }
      AveragesFrom(raw, data[at..at + frames]);
      forall j | 0 <= j < frames ensures IsMean(data[at + j], old(data[at + 2 * j]), old(data[at + (2 * j + 1)])) {
        assert raw[2 * j] == old(data[at + 2 * j]) && raw[2 * j + 1] == old(data[at + (2 * j + 1)]);
        AverageIsMean(raw[2 * j], raw[2 * j + 1]);
      }
    }

    /** Mono to stereo, backwards: the frame written is never behind the one read. */
    method DoubleInPlace(data: array<sample>, at: nat, frames: nat)
      requires at + 2 * frames <= data.Length
      modifies data
      ensures data[at..at + 2 * frames] == Doubled(old(data[at..at + frames]))
      ensures data[..at] == old(data[..at])
    {
      hide Doubled;
      ghost var raw := data[at..at + frames];
      var f := frames;
      while f > 0
        invariant 0 <= f <= frames
        invariant forall j :: 0 <= j < f ==> data[at + j] == raw[j]
        invariant forall k :: 2 * f <= k < 2 * frames ==> data[at + k] == raw[k / 2]
        invariant data[..at] == old(data[..at])
      {
        f := f - 1;
        var s := data[at + f];
        data[at + 2 * f] := s;
        data[at + 2 * f + 1] := s;
      }
      DoubledFrom(raw, data[at..at + 2 * frames]);
    }

    /** One turn of the read loop with the buffer filled up to `at`: behind it are then the samples
        used of the block read, converted. */
    method ReadOnce(data: array<sample>, at: nat, remaining: nat) returns (got: int, ghost block: seq<sample>)
      requires Valid() && at + 2 * remaining <= data.Length
      modifies data, this`pipe, this`taken, this`history
      ensures Valid() && got <= remaining
      ensures var asked := if pipeChannels == 1 && channels == 2 then remaining / 2 else remaining;
              history == old(history) + [PipeRead(asked, got)]
      ensures Written() == old(Written()) && taken == old(taken) + block
      ensures data[..at] == old(data[..at])
      ensures got <= 0 ==> block == []
      ensures pipeChannels == 1 && channels == 2 ==> 2 * got <= remaining
      ensures got > 0 ==>
                && |block| == PIPE_CHANNELS * got
                && at + Samples(channels, got) <= data.Length
                && data[at..at + Samples(channels, got)]
                     == Convert(pipeChannels, channels, block[..Samples(pipeChannels, got)])
    {
      hide Convert;
      var readFrames := remaining;
      if pipeChannels == 1 && channels == 2 {
        readFrames := readFrames / 2;
      }
      got := ReadPipe(data, at, readFrames);
      block := [];
      if got > 0 {
        block := data[at..at + PIPE_CHANNELS * got];
        Front(data[..], at, PIPE_CHANNELS * got, Samples(pipeChannels, got));
        ConvertInPlace(data, at, got);
      }
    }

    method ConvertInPlace(data: array<sample>, at: nat, frames: nat)
      requires Valid() && at + 2 * frames <= data.Length
      modifies data
      ensures data[at..at + Samples(channels, frames)]
                == Convert(pipeChannels, channels, old(data[at..at + Samples(pipeChannels, frames)]))
      ensures data[..at] == old(data[..at])
    {
      hide Averages, Doubled;
      if pipeChannels == 2 && channels == 1 {
        AverageInPlace(data, at, frames);
      } else if pipeChannels == 1 && channels == 2 {
        DoubleInPlace(data, at, frames);
      }
    }

    /** The same turn in the course of a read. */
    method ReadMore(data: array<sample>, ghost start: seq<sample>, ghost gots: seq<nat>, at: nat, remaining: nat)
      returns (got: int)
      requires Valid() && at + 2 * remaining <= data.Length
      requires LeftBy(pipeChannels, channels, start, taken, gots, data[..at])
      modifies data, this`pipe, this`taken, this`history
      ensures Valid() && got <= remaining
      ensures var asked := if pipeChannels == 1 && channels == 2 then remaining / 2 else remaining;
              history == old(history) + [PipeRead(asked, got)]
      ensures Written() == old(Written()) && Extends(taken, old(taken))
      ensures pipeChannels == 1 && channels == 2 ==> 2 * got <= remaining
      ensures got <= 0 ==> LeftBy(pipeChannels, channels, start, taken, gots, data[..at])
      ensures got > 0 ==>
                && at + Samples(channels, got) <= data.Length
                && LeftBy(pipeChannels, channels, start, taken, gots + [got], data[..at + Samples(channels, got)])
    {
      hide Convert;
      ghost var before, filled := taken[|start|..], data[..at];
      ghost var block;
      got, block := ReadOnce(data, at, remaining);
      assert taken[|start|..] == before + block;
      if got > 0 {
        KeptMore(pipeChannels, channels, before, gots, block, got);
        assert data[..at + Samples(channels, got)] == filled + data[at..at + Samples(channels, got)];
      } else {
        assert before + [] == before;
      }
    }

    /** How far a read of `frames` frames has come: the buffer is filled up to `at` with what reads of
        `gots` frames have left, `remaining` frames are missing, and `attempts` reads have failed. */
    ghost predicate Reading(data: array<sample>, start: seq<sample>, written: seq<sample>, log: seq<PipeRead>,
                            frames: nat, gots: seq<nat>, at: nat, remaining: nat, attempts: nat)
      reads this, data
    {
      && Valid() && 2 * frames <= data.Length && at <= data.Length
      && Extends(taken, start) && Extends(Written(), written)
      && Logged(pipeChannels, channels, frames, log, history, gots, attempts)
      && Counted(pipeChannels, channels, frames, gots, at, remaining)
      && LeftBy(pipeChannels, channels, start, taken, gots, data[..at])
    }

    lemma NothingRead(data: array<sample>, frames: nat)
      requires Valid() && 2 * frames <= data.Length
      ensures Reading(data, taken, Written(), history, frames, [], 0, frames, 0)
    {
      LeftByNone(pipeChannels, channels, taken);
      LoggedNone(pipeChannels, channels, frames, history);
      hide LeftBy, Logged, Written;
      assert data[..0] == [];
    }

    method OtherSideWritesMeanwhile(data: array<sample>, ghost start: seq<sample>, ghost written: seq<sample>,
                                    ghost log: seq<PipeRead>, ghost frames: nat, ghost gots: seq<nat>, at: nat,
                                    remaining: nat, attempts: nat)
      requires Reading(data, start, written, log, frames, gots, at, remaining, attempts)
      modifies this`pipe
      ensures Reading(data, start, written, log, frames, gots, at, remaining, attempts)
    {
      hide LeftBy, Counted, Logged, Written, Extends;
      ghost var before := Written();
      OtherSideWrites();
      ExtendsOn(written, before, Written());
    }

    /** One attempt to read the pipe. */
    method Attempt(data: array<sample>, ghost start: seq<sample>, ghost written: seq<sample>, ghost log: seq<PipeRead>,
                   ghost frames: nat, ghost gots: seq<nat>, at: nat, remaining: nat, attempts: nat)
      returns (got: nat)
      requires Reading(data, start, written, log, frames, gots, at, remaining, attempts) && remaining > 0
      modifies data, this`pipe, this`taken, this`history
      ensures got <= remaining
      ensures got == 0 ==> Reading(data, start, written, log, frames, gots, at, remaining, attempts + 1)
      ensures got > 0 ==>
                Reading(data, start, written, log, frames, gots + [got], at + Samples(channels, got), remaining - got,
                        attempts)
    {
      hide LeftBy, Counted, Logged, Written, Extends, Samples;
      RoomFor(pipeChannels, channels, frames, gots, at, remaining);
      ghost var before, logged := taken, history;
      var n := ReadMore(data, start, gots, at, remaining);
      ExtendsOn(start, before, taken);
      LoggedMore(pipeChannels, channels, frames, log, logged, gots, attempts,
                 PipeRead(if pipeChannels == 1 && channels == 2 then remaining / 2 else remaining, n));
      if n <= 0 {
        return 0;
      }
      CountedMore(pipeChannels, channels, frames, gots, at, remaining, n);
      got := n;
    }

    /** One turn of the loop, while the other side goes on writing. */
    method Turn(data: array<sample>, ghost start: seq<sample>, ghost written: seq<sample>, ghost log: seq<PipeRead>,
                ghost frames: nat, ghost gots: seq<nat>, at: nat, remaining: nat, attempts: nat)
      returns (ghost gots': seq<nat>, at': nat, remaining': nat, attempts': nat)
      requires Reading(data, start, written, log, frames, gots, at, remaining, attempts) && remaining > 0
      modifies data, this`pipe, this`taken, this`history
      ensures Reading(data, start, written, log, frames, gots', at', remaining', attempts')
      ensures remaining' <= remaining && attempts' == if remaining' == remaining then attempts + 1 else attempts
    {
      hide LeftBy, Counted, Logged, Written, Extends, Samples;
      OtherSideWritesMeanwhile(data, start, written, log, frames, gots, at, remaining, attempts);
      var got := Attempt(data, start, written, log, frames, gots, at, remaining, attempts);
      if got > 0 {
        gots', at', remaining', attempts' := gots + [got], at + Samples(channels, got), remaining - got, attempts;
      } else {
        gots', at', remaining', attempts' := gots, at, remaining, attempts + 1;
      }
    }

    /** Reads until the buffer is full or the last attempt failed. */
    method ReadFromPipe(data: array<sample>, frames: nat)
      returns (at: nat, remaining: nat, attempts: nat, ghost gots: seq<nat>)
      requires Valid() && 2 * frames <= data.Length
      modifies data, this`pipe, this`taken, this`history
      ensures Reading(data, old(taken), old(Written()), old(history), frames, gots, at, remaining, attempts)
      ensures attempts <= MAX_READ_ATTEMPTS && (remaining > 0 ==> attempts == MAX_READ_ATTEMPTS)
    {
      at, remaining, attempts, gots := 0, frames, 0, [];
      ghost var start, written, log := taken, Written(), history;
      NothingRead(data, frames);
      hide LeftBy, Counted, Logged, Written, Extends, Samples;
      while remaining > 0 && attempts < MAX_READ_ATTEMPTS
        invariant Reading(data, start, written, log, frames, gots, at, remaining, attempts)
        invariant attempts <= MAX_READ_ATTEMPTS
        decreases remaining + (MAX_READ_ATTEMPTS - attempts)
      {
        gots, at, remaining, attempts := Turn(data, start, written, log, frames, gots, at, remaining, attempts);
      }
    }

    /** Reads `frames` frames; the pipe reads that gave any gave `gots` frames.  The buffer then holds what
        these left for the reader, converted and in order, and silence behind it; silence only after
        the last attempt failed.  A mono output read in stereo always leaves silence. */
    method Read(data: array<sample>, frames: nat) returns (ghost gots: seq<nat>, ghost silent: nat)
      requires Valid() && 2 * frames <= data.Length
      modifies data, this`pipe, this`taken, this`history
      ensures Valid() && Extends(taken, old(taken)) && Extends(Written(), old(Written()))
      ensures old(history) <= history && gots == Gots(history[|old(history)|..])
      ensures AsksForAll(pipeChannels, channels, frames, history[|old(history)|..])
      ensures Frames(gots) + silent == frames && |taken| - |old(taken)| == PIPE_CHANNELS * Frames(gots)
      ensures data[..Samples(channels, frames)]
                == Convert(pipeChannels, channels, KeptOf(pipeChannels, taken[|old(taken)|..], gots))
                   + Silence(Samples(channels, silent))
      ensures Failures(history[|old(history)|..]) <= 3
      ensures hasPipe && silent > 0 ==> Failures(history[|old(history)|..]) == 3
      ensures !hasPipe ==> silent == frames && history == old(history)
      ensures pipeChannels == 1 && channels == 2 && frames > 0 ==> silent > 0
    {
      gots, silent := [], frames;
      var at, remaining, attempts := 0, frames, 0;
      LeftByNone(pipeChannels, channels, taken);
      LoggedNone(pipeChannels, channels, frames, history);
      if hasPipe {
        at, remaining, attempts, gots := ReadFromPipe(data, frames);
      }
      silent := remaining;
      hide Convert, KeptOf, Gots, Failures, AsksForAll;
      FillWithSilence(data, at, Samples(channels, remaining));
    }

    method FillWithSilence(data: array<sample>, at: nat, n: nat)
      requires at + n <= data.Length
      modifies data
      ensures data[..at + n] == old(data[..at]) + Silence(n)
    {
      for i := 0 to n
        invariant data[..at] == old(data[..at])
        invariant data[at..at + i] == Silence(i)
      {
        data[at + i] := 0;
      }
      assert data[..at + n] == data[..at] + data[at..at + n];
    }
  }
}
