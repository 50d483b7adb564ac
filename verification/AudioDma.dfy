/** A DMA audio transfer from its start command to its completion: what reaches the FIFO and
    the output, under any interleaving of output ticks and DMA ticks. */
module AudioDma {
  import opened Words
  import opened DmaSpec
  import I2s = I2sSpec
  import Clock = I2sTheorems
  import Intc

  /** Word `k` of a buffer. */
  function WordAt(fetch: Fetch, addr: Word, k: nat): Option<Word> {
    fetch(Add32(addr, 4 * k))
  }

  /** The halfwords of the first `n` words of a buffer, as samples. */
  function Source(fetch: Fetch, addr: Word, n: nat): seq<I2s.Sample> {
    if n == 0 then []
    else
      Source(fetch, addr, n - 1) +
      (match WordAt(fetch, addr, n - 1)
       case None => []
       case Some(w) => [I2s.ToSample(w % TWO_TO_16), I2s.ToSample(w / TWO_TO_16)])
  }

  /** Every word of the buffer is in RAM. */
  predicate Mapped(fetch: Fetch, addr: Word, words: nat) {
    forall k | 0 <= k < words :: WordAt(fetch, addr, k).Some?
  }

  /** A transfer: where it started, how much it is, what had been played and queued then, and
      how often the channel had completed. */
  datatype Transfer = Transfer(i: nat, addr: Word, bytes: nat, fetch: Fetch,
                               played: seq<I2s.Sample>, before: nat, overruns: nat,
                               completions: nat, codec: I2s.Codec)

  predicate WellFormed(t: Transfer) {
    t.i < CHANNELS && t.bytes > 0 && t.bytes % 4 == 0 && Mapped(t.fetch, t.addr, t.bytes / 4)
  }

  /** No other channel is feeding the FIFO. */
  predicate Alone(s: System, i: nat) {
    forall j | 0 <= j < CHANNELS && j != i :: !(s.dma.ch[j].active && TargetsI2s(s.dma.ch[j]))
  }

  /** What came out of the FIFO and what is still in it. */
  function Stream(s: I2s.I2s): seq<I2s.Sample> {
    Clock.Inputs(s.pcm) + s.tx
  }

  /** The channel's part of the transfer: its counters agree with the words moved. */
  predicate ChannelTrack(c: Channel, t: Transfer) {
    TargetsI2s(c) && c.left % 4 == 0 && c.left <= t.bytes &&
    c.addr == Add32(t.addr, t.bytes - c.left) &&
    (c.active ==> c.completions == t.completions) &&
    (!c.active ==> c.left == 0 && c.completions == t.completions + 1)
  }

  /** The output's part: what has entered the FIFO is what was there before and then the
      first words of the buffer, in order, and nothing was lost. */
  predicate StreamTrack(s: I2s.I2s, t: Transfer, words: nat) {
    |s.tx| <= I2s.DEPTH && s.n.overruns == t.overruns && t.before <= |s.pcm| &&
    Stream(s) == t.played + Source(t.fetch, t.addr, words) &&
    Clock.ScaledFrom(s.pcm, t.before, t.codec)
  }

  ghost predicate Track(s: System, t: Transfer) {
    WellFormed(t) && Alone(s, t.i) && s.fetch == t.fetch &&
    ChannelTrack(s.dma.ch[t.i], t) &&
    StreamTrack(s.i2s, t, (t.bytes - s.dma.ch[t.i].left) / 4)
  }

  lemma TrackFacts(s: System, t: Transfer)
    requires Track(s, t)
    ensures t.i < CHANNELS && t.before <= |s.i2s.pcm| && |s.i2s.tx| <= I2s.DEPTH
    ensures Clock.ScaledFrom(s.i2s.pcm, t.before, t.codec)
    ensures s.dma.ch[t.i].left % 4 == 0 && s.dma.ch[t.i].left <= t.bytes
    ensures TargetsI2s(s.dma.ch[t.i])
    ensures !s.dma.ch[t.i].active ==>
              s.dma.ch[t.i].left == 0 && s.dma.ch[t.i].completions == t.completions + 1
  {
    hide Clock.ScaledFrom, Stream, Mapped;
  }

  // --------------------------------------------------------------------------- one word

  lemma PushTwo(s: I2s.I2s, w: Word)
    requires I2s.Free(s) >= 2
    ensures I2s.Push(s, 4, w) ==
            s.(tx := s.tx + [I2s.ToSample(w % TWO_TO_16), I2s.ToSample(w / TWO_TO_16)],
               n := s.n.(accepted := s.n.accepted + 2))
  {
    hide I2s.ToSample;
  }

  lemma SourceStep(fetch: Fetch, addr: Word, words: nat, w: Word)
    requires WordAt(fetch, addr, words) == Some(w)
    ensures Source(fetch, addr, words + 1) ==
            Source(fetch, addr, words) + [I2s.ToSample(w % TWO_TO_16), I2s.ToSample(w / TWO_TO_16)]
  {
    hide I2s.ToSample, WordAt;
  }

  lemma PushWordTrack(s: I2s.I2s, t: Transfer, words: nat, w: Word)
    requires StreamTrack(s, t, words) && I2s.Free(s) >= 2
    requires WordAt(t.fetch, t.addr, words) == Some(w)
    ensures StreamTrack(I2s.Push(s, 4, w), t, words + 1)
  {
    hide I2s.Push, I2s.ToSample, Clock.Inputs, Clock.ScaledFrom, Source, WordAt;
    PushTwo(s, w);
    SourceStep(t.fetch, t.addr, words, w);
    var two := [I2s.ToSample(w % TWO_TO_16), I2s.ToSample(w / TWO_TO_16)];
    assert Stream(I2s.Push(s, 4, w)) == Stream(s) + two;
  }

  lemma CountedTrack(c: Channel, t: Transfer)
    requires ChannelTrack(c, t) && c.active && c.left >= 4 && t.bytes % 4 == 0
    ensures ChannelTrack(Counted(c), t)
    ensures (t.bytes - Counted(c).left) / 4 == (t.bytes - c.left) / 4 + 1
    ensures 4 * ((t.bytes - c.left) / 4) == t.bytes - c.left
  {
    hide Add32;
    Add32Adds(t.addr, t.bytes - c.left, 4);
  }

  lemma FeedWordTrack(s: System, t: Transfer, w: Word)
    requires t.i < CHANNELS && Track(s, t) && s.dma.ch[t.i].active && s.dma.ch[t.i].left >= 4
    requires I2s.Free(s.i2s) >= 2 && s.fetch(s.dma.ch[t.i].addr) == Some(w)
    ensures Track(FeedWord(s, t.i, w), t)
  {
    hide StreamTrack, ChannelTrack, Mapped, I2s.Push, I2s.UpdateIrq, WordAt, Add32,
         I2s.Free;
    var c := s.dma.ch[t.i];
    TrackFacts(s, t);
    var words := (t.bytes - c.left) / 4;
    CountedTrack(c, t);
    NextWord(t, words);
    NextAddress(c, t, words);
    PushWordTrack(s.i2s, t, words, w);
    assert FeedWord(s, t.i, w).dma.ch[t.i] == Counted(c);
  }

  lemma NextAddress(c: Channel, t: Transfer, words: nat)
    requires ChannelTrack(c, t) && 4 * words == t.bytes - c.left
    ensures c.addr == Add32(t.addr, 4 * words)
  {
  }

  /** The clock and the history of the output, which feeding does not touch. */
  predicate SameOutput(a: I2s.I2s, b: I2s.I2s) {
    a.pcm == b.pcm && a.rate == b.rate && a.config == b.config && a.acc == b.acc
  }

  /** What a visit of the engine keeps: the track, the output's clock and history, and the
      sum of what is still to be fetched and what is queued. */
  ghost predicate Kept(s: System, r: System, t: Transfer)
    requires t.i < CHANNELS
  {
    var c, c' := s.dma.ch[t.i], r.dma.ch[t.i];
    Track(r, t) && SameOutput(s.i2s, r.i2s) && (!c.active ==> !c'.active) &&
    c'.left / 2 + |r.i2s.tx| == c.left / 2 + |s.i2s.tx|
  }

  /** The channel has completed, or there is no room for another word. */
  predicate Fed(r: System, i: nat)
    requires i < CHANNELS
  {
    r.dma.ch[i].active ==> r.dma.ch[i].left > 0 && I2s.Free(r.i2s) < 2
  }

  lemma KeptZero(s: System, t: Transfer)
    requires t.i < CHANNELS && Track(s, t)
    ensures Kept(s, s, t)
  {
    hide Track;
  }

  lemma KeptTrans(s: System, m: System, r: System, t: Transfer)
    requires t.i < CHANNELS && Kept(s, m, t) && Kept(m, r, t)
    ensures Kept(s, r, t)
  {
    hide Track;
  }

  lemma CompleteTrack(s: System, t: Transfer)
    requires t.i < CHANNELS && Track(s, t) && s.dma.ch[t.i].active && s.dma.ch[t.i].left == 0
    ensures Kept(s, Complete(s, t.i), t) && Fed(Complete(s, t.i), t.i)
  {
    hide StreamTrack, Mapped, Intc.SetLow, WithBit;
  }

  /** Running the channel from any point keeps the transfer on track; afterwards it has
      completed or the FIFO has no room for another word. */
  lemma {:induction false} FeedTrack(s: System, t: Transfer)
    requires t.i < CHANNELS && Track(s, t) && s.dma.ch[t.i].active
    ensures Kept(s, Feed(s, t.i), t) && Fed(Feed(s, t.i), t.i)
    decreases s.dma.ch[t.i].left
  {
    hide Track, I2s.Push, Complete, I2s.UpdateIrq, WordAt, Kept, Fed;
    var c := s.dma.ch[t.i];
    TrackFacts(s, t);
    if c.left > 0 && I2s.Free(s.i2s) >= 2 {
      FetchReady(s, t);
      var w := s.fetch(c.addr).value;
      var next := FeedWord(s, t.i, w);
      assert Feed(s, t.i) == Feed(next, t.i);
      FeedWordTrack(s, t, w);
      FeedWordKept(s, t, w);
      FeedTrack(next, t);
      KeptTrans(s, next, Feed(next, t.i), t);
    } else if c.left == 0 {
      assert Feed(s, t.i) == Complete(s, t.i);
      CompleteTrack(s, t);
    } else {
      assert Feed(s, t.i) == s;
      KeptZero(s, t);
      FullIsFed(s, t.i);
    }
  }

  lemma FullIsFed(s: System, i: nat)
    requires i < CHANNELS && s.dma.ch[i].left > 0 && I2s.Free(s.i2s) < 2
    ensures Fed(s, i)
  {
  }

  lemma FetchReady(s: System, t: Transfer)
    requires t.i < CHANNELS && Track(s, t) && s.dma.ch[t.i].left > 0
    ensures s.fetch(s.dma.ch[t.i].addr).Some?
  {
    hide StreamTrack, Mapped, WordAt, Add32;
    var words := (t.bytes - s.dma.ch[t.i].left) / 4;
    assert 4 * words == t.bytes - s.dma.ch[t.i].left;
    NextWord(t, words);
  }

  lemma FeedWordKept(s: System, t: Transfer, w: Word)
    requires t.i < CHANNELS && s.dma.ch[t.i].left >= 4 && I2s.Free(s.i2s) >= 2
    requires s.dma.ch[t.i].active && Track(FeedWord(s, t.i, w), t)
    ensures Kept(s, FeedWord(s, t.i, w), t) && FeedWord(s, t.i, w).dma.ch[t.i].active
  {
    hide Track, I2s.Push, I2s.UpdateIrq;
    PushTwo(s.i2s, w);
  }

  lemma NextWord(t: Transfer, words: nat)
    requires WellFormed(t) && 4 * words < t.bytes
    ensures WordAt(t.fetch, t.addr, words).Some?
    ensures WordAt(t.fetch, t.addr, words) == t.fetch(Add32(t.addr, 4 * words))
  {
  }

  // ------------------------------------------------------------------------ engine ticks

  /** A visit to another channel leaves this transfer alone. */
  lemma OtherChannel(s: System, t: Transfer, j: nat)
    requires t.i < CHANNELS && Track(s, t) && j < CHANNELS && j != t.i
    ensures var r := AudioRun(TryLcd(s, j), j);
            Kept(s, r, t) && r.i2s == s.i2s && r.dma.ch[t.i] == s.dma.ch[t.i]
  {
    hide StreamTrack, Mapped, Intc.SetLow, WithBit, Pour, Feed;
  }

  lemma OwnChannel(s: System, t: Transfer)
    requires t.i < CHANNELS && Track(s, t)
    ensures var r := AudioRun(TryLcd(s, t.i), t.i); Kept(s, r, t) && Fed(r, t.i)
  {
    hide Track, PourChannel, Feed, Kept, Fed;
    TrackFacts(s, t);
    assert TryLcd(s, t.i) == s;
    if s.dma.ch[t.i].active {
      FeedTrack(s, t);
    } else {
      KeptZero(s, t);
      IdleIsFed(s, t.i);
    }
  }

  lemma IdleIsFed(s: System, i: nat)
    requires i < CHANNELS && !s.dma.ch[i].active
    ensures Fed(s, i)
  {
  }

  lemma {:induction false} ChannelsTrack(s: System, t: Transfer, n: nat)
    requires t.i < CHANNELS && Track(s, t) && n <= CHANNELS
    ensures var r := TickChannels(s, n);
            Kept(s, r, t) && (n > t.i ==> Fed(r, t.i)) && (n <= t.i ==> r.dma.ch[t.i] == s.dma.ch[t.i])
  {
    hide Track, AudioRun, TryLcd, Fed;
    if n == 0 {
      KeptZero(s, t);
    } else {
      ChannelsTrack(s, t, n - 1);
      var m := TickChannels(s, n - 1);
      var r := AudioRun(TryLcd(m, n - 1), n - 1);
      assert TickChannels(s, n) == r;
      hide TickChannels, Kept;
      if n - 1 == t.i {
        OwnChannel(m, t);
      } else {
        OtherChannel(m, t, n - 1);
        FedSame(m, r, t.i);
      }
      KeptTrans(s, m, r, t);
    }
  }

  lemma FedSame(s: System, r: System, i: nat)
    requires i < CHANNELS && r.i2s == s.i2s && r.dma.ch[i] == s.dma.ch[i]
    ensures Fed(s, i) <==> Fed(r, i)
  {
  }

  // ------------------------------------------------------------------------ output ticks

  lemma {:induction false} PlayKeepsStream(s: I2s.I2s, c: I2s.Codec, n: nat)
    ensures var r := I2s.Play(s, c, n);
            && Stream(r) == Stream(s) && r.n.overruns == s.n.overruns && |r.pcm| == |s.pcm| + n
            && |r.tx| == (if n <= |s.tx| then |s.tx| - n else 0)
  {
    if n != 0 {
      hide I2s.PlayOne, Stream;
      PlayKeepsStream(s, c, n - 1);
    }
  }

  /** An output tick plays from the stream and loses none of it. */
  lemma TickStream(s: I2s.I2s, c: I2s.Codec, usec: nat, from: nat)
    requires Clock.ScaledFrom(s.pcm, from, c) && from <= |s.pcm|
    ensures var r := I2s.Tick(s, c, usec);
            && Stream(r) == Stream(s) && r.n.overruns == s.n.overruns
            && |r.tx| <= |s.tx| && |r.pcm| >= |s.pcm|
            && |r.tx| + (|r.pcm| - |s.pcm|) >= |s.tx|
            && (|r.pcm| > |s.pcm| && |s.tx| > 0 ==> |r.tx| < |s.tx|)
            && Clock.ScaledFrom(r.pcm, from, c)
  {
    hide I2s.Play, Clock.Inputs, I2s.PerTick, Clock.ScaledFrom;
    if I2s.Enabled(s) {
      var synced := I2s.SyncRate(s, c);
      var total := synced.acc + I2s.PerTick(usec, synced.rate);
      var start := synced.(acc := total % I2s.MICRO);
      PlayKeepsStream(start, c, total / I2s.MICRO);
      Clock.PlayScaled(start, c, total / I2s.MICRO, from);
    }
  }

  lemma OutputTickTrack(s: System, t: Transfer, usec: nat)
    requires Track(s, t)
    ensures Track(s.(i2s := I2s.Tick(s.i2s, t.codec, usec)), t)
  {
    hide Stream, I2s.Tick, Clock.ScaledFrom, Mapped;
    TickStream(s.i2s, t.codec, usec, t.before);
  }

  // -------------------------------------------------------------------------------- runs

  /** The output and the engine tick in any order. */
  datatype Event = OutputTick(usec: nat) | EngineTick

  function Happen(s: System, e: Event, c: I2s.Codec): System {
    match e
    case OutputTick(usec) =>
      s.(i2s := I2s.Tick(s.i2s, c, usec), lines := I2s.TickLines(s.lines, s.i2s, c, usec))
    case EngineTick => Tick(s)
  }

  function Run(s: System, events: seq<Event>, c: I2s.Codec): System
    decreases |events|
  {
    if events == [] then s else Run(Happen(s, events[0], c), events[1..], c)
  }

  lemma LinesTrack(s: System, t: Transfer, lines: Intc.Lines)
    requires Track(s, t)
    ensures Track(s.(lines := lines), t)
  {
    hide StreamTrack, Mapped;
  }

  lemma EventTrack(s: System, t: Transfer, e: Event)
    requires Track(s, t)
    ensures Track(Happen(s, e, t.codec), t)
  {
    hide Track, TickChannels, I2s.TickLines, I2s.Tick;
    TrackFacts(s, t);
    match e
    case OutputTick(usec) =>
      OutputTickTrack(s, t, usec);
      LinesTrack(s.(i2s := I2s.Tick(s.i2s, t.codec, usec)), t,
                 I2s.TickLines(s.lines, s.i2s, t.codec, usec));
    case EngineTick => ChannelsTrack(s, t, CHANNELS);
  }

  lemma {:induction false} RunTrack(s: System, t: Transfer, events: seq<Event>)
    requires Track(s, t)
    ensures Track(Run(s, events, t.codec), t)
    decreases |events|
  {
    if events != [] {
      hide Happen, Track;
      EventTrack(s, t, events[0]);
      RunTrack(Happen(s, events[0], t.codec), t, events[1..]);
    }
  }

  /** The transfer a start command asks for. */
  function Asked(s: System, i: nat, cmd: Word, c: I2s.Codec): Transfer
    requires i < CHANNELS
  {
    Transfer(i, s.dma.ch[i].ram, TransferBytes(cmd), s.fetch, Stream(s.i2s), |s.i2s.pcm|,
             s.i2s.n.overruns, s.dma.ch[i].completions, c)
  }

  /** A start command for a whole number of words in RAM to the audio FIFO. */
  ghost predicate Starts(s: System, i: nat, cmd: Word, c: I2s.Codec) {
    i < CHANNELS && TargetsI2s(s.dma.ch[i]) && Bit(cmd, START) &&
    |s.i2s.tx| <= I2s.DEPTH && Alone(s, i) && WellFormed(Asked(s, i, cmd, c))
  }

  lemma SourceEmpty(fetch: Fetch, addr: Word)
    ensures Source(fetch, addr, 0) == []
  {
  }

  lemma StartTrack(s: System, i: nat, cmd: Word, c: I2s.Codec)
    requires Starts(s, i, cmd, c)
    ensures var r := AudioCommand(s, i, cmd);
            Track(r, Asked(s, i, cmd, c)) && Fed(r, i) && SameOutput(s.i2s, r.i2s) &&
            Pending(r, Asked(s, i, cmd, c)) == TransferBytes(cmd) / 2 + |s.i2s.tx|
  {
    hide Stream, Clock.Inputs, Source, WordAt, Feed;
    var t := Asked(s, i, cmd, c);
    var ch := s.dma.ch[i];
    var armed := SetCh(s, i, ch.(addr := ch.ram, left := TransferBytes(cmd), active := true,
                                 starts := ch.starts + 1));
    SourceEmpty(t.fetch, t.addr);
    assert Stream(s.i2s) + [] == Stream(s.i2s);
    assert Track(armed, t);
    hide Track;
    FeedTrack(armed, t);
  }

  /** From the start of an audio transfer of a whole number of words in RAM, under any
      interleaving of output and engine ticks: exactly the halfwords of the buffer enter the
      FIFO, in order and once each, behind what was queued, with no overrun; the channel has
      completed once when all have entered, and not before; and everything played since is
      codec-scaled data of that stream or silence. */
  lemma AudioTransfer(s: System, i: nat, cmd: Word, events: seq<Event>, c: I2s.Codec)
    requires Starts(s, i, cmd, c)
    ensures var r := Run(AudioCommand(s, i, cmd), events, c);
            var ch := r.dma.ch[i]; var words := (TransferBytes(cmd) - ch.left) / 4;
            && 0 <= words <= TransferBytes(cmd) / 4
            && Stream(r.i2s) == Stream(s.i2s) + Source(s.fetch, s.dma.ch[i].ram, words)
            && r.i2s.n.overruns == s.i2s.n.overruns
            && (ch.active ==> ch.completions == s.dma.ch[i].completions)
            && (!ch.active ==> words == TransferBytes(cmd) / 4 &&
                               ch.completions == s.dma.ch[i].completions + 1)
            && Clock.ScaledFrom(r.i2s.pcm, |s.i2s.pcm|, c)
  {
    hide Run, AudioCommand, Source, Clock.ScaledFrom, Clock.Inputs, Mapped;
    StartTrack(s, i, cmd, c);
    RunTrack(AudioCommand(s, i, cmd), Asked(s, i, cmd, c), events);
  }

  // ---------------------------------------------------------------------------- completion

  /** Bus ticks of a constant rate: the output ticks, then the engine. */
  function Rounds(s: System, c: I2s.Codec, usec: nat, n: nat): System {
    if n == 0 then s
    else Happen(Happen(Rounds(s, c, usec, n - 1), OutputTick(usec), c), EngineTick, c)
  }

  /** An enabled output at the codec's rate, with its books in order. */
  predicate Clocked(s: I2s.I2s, c: I2s.Codec) {
    I2s.Enabled(s) && s.rate == I2s.SampleRate(c) && s.acc < I2s.MICRO
  }

  lemma {:induction false} PlayKeepsClock(s: I2s.I2s, c: I2s.Codec, n: nat)
    ensures var r := I2s.Play(s, c, n); r.config == s.config && r.rate == s.rate && r.acc == s.acc
  {
    if n != 0 {
      PlayKeepsClock(s, c, n - 1);
    }
  }

  lemma TickClock(s: I2s.I2s, c: I2s.Codec, usec: nat)
    requires Clocked(s, c)
    ensures var r := I2s.Tick(s, c, usec); var k := I2s.PerTick(usec, s.rate);
            Clocked(r, c) && r.acc + (|r.pcm| - |s.pcm|) * I2s.MICRO == s.acc + k
  {
    hide I2s.PerTick, I2s.SampleRate;
    var total := s.acc + I2s.PerTick(usec, s.rate);
    var start := s.(acc := total % I2s.MICRO);
    PlayKeepsStream(start, c, total / I2s.MICRO);
    PlayKeepsClock(start, c, total / I2s.MICRO);
    hide I2s.Play, Stream;
  }

  /** A transfer on track just after an engine tick, with the output clocked. */
  ghost predicate Ready(s: System, t: Transfer) {
    t.i < CHANNELS && Track(s, t) && Fed(s, t.i) && Clocked(s.i2s, t.codec)
  }

  predicate Idle(s: System, t: Transfer) {
    t.i < CHANNELS && !s.dma.ch[t.i].active
  }

  /** The halfwords that have not yet left the FIFO. */
  function Pending(s: System, t: Transfer): nat {
    if t.i < CHANNELS then s.dma.ch[t.i].left / 2 + |s.i2s.tx| else 0
  }

  /** Bus ticks of a transfer in progress: the clock is exact, and a halfword played while
      the channel is active is a halfword less to go. */
  ghost predicate Advanced(s: System, r: System, t: Transfer, usec: nat, n: nat) {
    Ready(r, t) && r.i2s.rate == s.i2s.rate &&
    Pending(r, t) <= Pending(s, t) && |r.i2s.pcm| >= |s.i2s.pcm| &&
    (Idle(s, t) ==> Idle(r, t)) &&
    (!Idle(r, t) && |r.i2s.pcm| > |s.i2s.pcm| ==> Pending(r, t) < Pending(s, t)) &&
    r.i2s.acc + (|r.i2s.pcm| - |s.i2s.pcm|) * I2s.MICRO ==
    s.i2s.acc + n * I2s.PerTick(usec, s.i2s.rate)
  }

  lemma RoundAdvances(s: System, t: Transfer, usec: nat)
    requires Ready(s, t)
    ensures Advanced(s, Rounds(s, t.codec, usec, 1), t, usec, 1)
  {
    hide I2s.Tick, I2s.TickLines, I2s.PerTick, I2s.SampleRate, Track, TickChannels, Stream,
         Clock.ScaledFrom;
    var m := Happen(s, OutputTick(usec), t.codec);
    assert Rounds(s, t.codec, usec, 1) == Tick(m) by {
      assert Rounds(s, t.codec, usec, 0) == s;
    }
    hide Rounds;
    EventTrack(s, t, OutputTick(usec));
    TrackFacts(s, t);
    TickStream(s.i2s, t.codec, usec, t.before);
    TickClock(s.i2s, t.codec, usec);
    ChannelsTrack(m, t, CHANNELS);
  }

  lemma {:induction false} RoundsAdd(s: System, c: I2s.Codec, usec: nat, m: nat, n: nat)
    ensures Rounds(Rounds(s, c, usec, m), c, usec, n) == Rounds(s, c, usec, m + n)
  {
    hide Happen;
    if n != 0 {
      RoundsAdd(s, c, usec, m, n - 1);
    }
  }

  lemma AdvancedTrans(s: System, m: System, r: System, t: Transfer, usec: nat, n: nat)
    requires Advanced(s, m, t, usec, n) && Advanced(m, r, t, usec, 1)
    ensures Advanced(s, r, t, usec, n + 1)
  {
    hide Ready, Pending, Idle, I2s.PerTick;
    var k := I2s.PerTick(usec, s.i2s.rate);
    assert (n + 1) * k == n * k + 1 * k;
  }

  lemma AdvancedZero(s: System, t: Transfer, usec: nat)
    requires Ready(s, t)
    ensures Advanced(s, s, t, usec, 0)
  {
    hide Ready, Pending, Idle, I2s.PerTick;
    assert 0 * I2s.PerTick(usec, s.i2s.rate) == 0;
  }

  lemma AdvancedReady(s: System, r: System, t: Transfer, usec: nat, n: nat)
    requires Advanced(s, r, t, usec, n)
    ensures Ready(r, t) && (Idle(s, t) ==> Idle(r, t))
  {
    hide Ready, Pending, Idle;
  }

  lemma {:induction false} RoundsAdvance(s: System, t: Transfer, usec: nat, n: nat)
    requires Ready(s, t)
    ensures Advanced(s, Rounds(s, t.codec, usec, n), t, usec, n)
    decreases n
  {
    hide Happen, Ready, Advanced;
    if n == 0 {
      AdvancedZero(s, t, usec);
    } else {
      RoundsAdvance(s, t, usec, n - 1);
      var m := Rounds(s, t.codec, usec, n - 1);
      RoundsAdd(s, t.codec, usec, n - 1, 1);
      hide Rounds;
      AdvancedReady(s, m, t, usec, n - 1);
      RoundAdvances(m, t, usec);
      AdvancedTrans(s, m, Rounds(s, t.codec, usec, n), t, usec, n - 1);
    }
  }

  lemma PerTickPositive(usec: nat, rate: nat)
    requires usec > 0 && rate > 0
    ensures I2s.PerTick(usec, rate) >= 1
  {
    MulOrder(usec, rate);
  }

  /** A million bus ticks play at least one halfword. */
  lemma MillionRounds(s: System, t: Transfer, usec: nat, n: nat)
    requires Ready(s, t) && usec > 0 && n >= I2s.MICRO
    ensures var r := Rounds(s, t.codec, usec, n);
            Ready(r, t) && (!Idle(r, t) ==> Pending(r, t) < Pending(s, t))
  {
    hide Track, Fed, Rounds, I2s.PerTick, Pending, Idle, I2s.SampleRate;
    PerTickPositive(usec, s.i2s.rate);
    RoundsAdvance(s, t, usec, n);
  }

  lemma StaysIdle(s: System, t: Transfer, usec: nat, n: nat)
    requires Ready(s, t) && Idle(s, t)
    ensures var r := Rounds(s, t.codec, usec, n); Ready(r, t) && Idle(r, t)
  {
    hide Ready, Rounds, Idle, Advanced;
    RoundsAdvance(s, t, usec, n);
    AdvancedReady(s, Rounds(s, t.codec, usec, n), t, usec, n);
  }

  lemma StillPending(s: System, t: Transfer)
    requires Ready(s, t)
    ensures Pending(s, t) == 0 ==> Idle(s, t)
  {
    hide Track;
    TrackFacts(s, t);
  }

  /** `p` stretches of `n` bus ticks each. */
  function Stretches(s: System, c: I2s.Codec, usec: nat, n: nat, p: nat): System
    decreases p
  {
    if p == 0 then s else Stretches(Rounds(s, c, usec, n), c, usec, n, p - 1)
  }

  lemma {:induction false} IdleStretches(s: System, t: Transfer, usec: nat, n: nat, p: nat)
    requires Ready(s, t) && Idle(s, t)
    ensures var r := Stretches(s, t.codec, usec, n, p); Ready(r, t) && Idle(r, t)
    decreases p
  {
    hide Ready, Rounds, Idle;
    if p != 0 {
      StaysIdle(s, t, usec, n);
      IdleStretches(Rounds(s, t.codec, usec, n), t, usec, n, p - 1);
    }
  }

  lemma {:induction false} EventuallyComplete(s: System, t: Transfer, usec: nat, n: nat, p: nat)
    requires Ready(s, t) && usec > 0 && Pending(s, t) <= p && n >= I2s.MICRO
    ensures var r := Stretches(s, t.codec, usec, n, p); Ready(r, t) && Idle(r, t)
    decreases p
  {
    hide Ready, Rounds, Idle, Pending;
    StillPending(s, t);
    if Idle(s, t) {
      IdleStretches(s, t, usec, n, p);
    } else {
      var m := Rounds(s, t.codec, usec, n);
      MillionRounds(s, t, usec, n);
      if Idle(m, t) {
        IdleStretches(m, t, usec, n, p - 1);
      } else {
        EventuallyComplete(m, t, usec, n, p - 1);
      }
    }
  }

  /** With the output enabled, an audio transfer completes: a million bus ticks for each
      halfword still to leave the FIFO are enough for the channel to be idle, to have
      completed exactly once, and for the whole buffer to have entered the FIFO. */
  lemma AudioCompletes(s: System, i: nat, cmd: Word, c: I2s.Codec, usec: nat, n: nat)
    requires Starts(s, i, cmd, c) && Clocked(s.i2s, c) && usec > 0 && n >= I2s.MICRO
    ensures var r := Stretches(AudioCommand(s, i, cmd), c, usec, n,
                               TransferBytes(cmd) / 2 + |s.i2s.tx|);
            var ch := r.dma.ch[i];
            && !ch.active && ch.completions == s.dma.ch[i].completions + 1
            && Stream(r.i2s) ==
               Stream(s.i2s) + Source(s.fetch, s.dma.ch[i].ram, TransferBytes(cmd) / 4)
  {
    hide Stretches, AudioCommand, Source, Clock.ScaledFrom, Clock.Inputs, Mapped;
    StartTrack(s, i, cmd, c);
    EventuallyComplete(AudioCommand(s, i, cmd), Asked(s, i, cmd, c), usec, n,
                       TransferBytes(cmd) / 2 + |s.i2s.tx|);
  }
}
