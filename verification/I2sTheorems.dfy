/** The audio clock and the FIFO over whole runs: how much is played, what is played, and how
    it is counted. */
module I2sTheorems {
  import opened Words
  import opened I2sSpec

  // ------------------------------------------------------------------------- bookkeeping

  /** The samples that came out of the FIFO, in order. */
  function Inputs(pcm: seq<Output>): seq<Sample> {
    if pcm == [] then []
    else
      var before := Inputs(pcm[..|pcm| - 1]);
      match pcm[|pcm| - 1] case Silence => before case Played(input, _) => before + [input]
  }

  /** How many of the first `n` played halfwords start a stretch of silence, counting a
      stretch that `was` already running as old. */
  function Starvations(pcm: seq<Output>, from: nat, n: nat, was: bool): nat
    requires from <= n <= |pcm|
  {
    if n == from then 0
    else
      Starvations(pcm, from, n - 1, was) +
      (if pcm[n - 1].Silence? && !(if n - 1 == from then was else pcm[n - 2].Silence?) then 1 else 0)
  }

  /** What holds of the device in every reachable state, with `discarded` the halfwords the
      guest has cleared from the FIFO since the last reset. */
  predicate Books(s: I2s, discarded: nat) {
    |s.tx| <= DEPTH && s.acc < MICRO &&
    |s.pcm| == s.n.drained + s.n.underrunHalfwords &&
    |Inputs(s.pcm)| == s.n.drained &&
    s.n.accepted == s.n.drained + |s.tx| + discarded &&
    (!Enabled(s) ==> s.acc == 0 && !s.starved) &&
    s.streamStart % 2 == 0 && s.streamStart <= |s.pcm| + 1
  }

  lemma InputsExtend(pcm: seq<Output>, o: Output)
    ensures Inputs(pcm + [o]) == Inputs(pcm) + (match o case Silence => [] case Played(i, _) => [i])
  {
    assert (pcm + [o])[..|pcm|] == pcm;
  }

  lemma PlayOneBooks(s: I2s, c: Codec, discarded: nat)
    requires Books(s, discarded) && Enabled(s)
    ensures Books(PlayOne(s, c), discarded) && Enabled(PlayOne(s, c))
    ensures PlayOne(s, c).acc == s.acc && PlayOne(s, c).rate == s.rate
    ensures Inputs(PlayOne(s, c).pcm) + PlayOne(s, c).tx == Inputs(s.pcm) + s.tx
  {
    hide Scale;
    InputsExtend(s.pcm, NextOutput(s, c));
    hide Inputs;
  }

  lemma {:induction false} PlayBooks(s: I2s, c: Codec, discarded: nat, n: nat)
    requires Books(s, discarded) && Enabled(s)
    ensures var t := Play(s, c, n);
            && Books(t, discarded) && Enabled(t) && t.acc == s.acc && t.rate == s.rate
            && |t.pcm| == |s.pcm| + n && t.pcm[..|s.pcm|] == s.pcm
            && Inputs(t.pcm) + t.tx == Inputs(s.pcm) + s.tx
            && t.n.accepted == s.n.accepted && t.n.overruns == s.n.overruns && t.config == s.config
  {
    if n != 0 {
      PlayBooks(s, c, discarded, n - 1);
      PlayOneBooks(Play(s, c, n - 1), c, discarded);
      hide Books, Inputs, Scale;
    }
  }

  // ---------------------------------------------------------------------- reachable states

  datatype Event =
    | DeviceTick(codec: Codec, usec: nat)
    | RegisterWrite(codec: Codec, offset: nat, size: nat, value: Word)

  function Happen(s: I2s, e: Event): I2s {
    match e
    case DeviceTick(c, usec) => Tick(s, c, usec)
    case RegisterWrite(c, offset, size, value) => WriteReg(s, c, offset, size, value)
  }

  /** Halfwords cleared since the last reset, after an event. */
  function Discarded(s: I2s, e: Event, before: nat): nat {
    if e.DeviceTick? then before
    else if e.offset - e.offset % 4 == 0x00 && Bit(e.value, RESET) then 0
    else if e.offset - e.offset % 4 == 0x0c && Bit(e.value, TX_CLEAR) then before + |s.tx|
    else before
  }

  function Run(s: I2s, events: seq<Event>): I2s
    decreases |events|
  {
    if events == [] then s else Run(Happen(s, events[0]), events[1..])
  }

  function RunDiscarded(s: I2s, events: seq<Event>, before: nat): nat
    decreases |events|
  {
    if events == [] then before
    else RunDiscarded(Happen(s, events[0]), events[1..], Discarded(s, events[0], before))
  }

  lemma TickBooks(s: I2s, c: Codec, usec: nat, discarded: nat)
    requires Books(s, discarded)
    ensures Books(Tick(s, c, usec), discarded)
  {
    hide Inputs;
    if Enabled(s) {
      var t := SyncRate(s, c);
      var total := t.acc + PerTick(usec, t.rate);
      PlayBooks(t.(acc := total % MICRO), c, discarded, total / MICRO);
    }
    hide Play;
  }

  lemma WriteBooks(s: I2s, c: Codec, offset: nat, size: nat, value: Word, discarded: nat)
    requires Books(s, discarded)
    ensures Books(WriteReg(s, c, offset, size, value),
                  Discarded(s, RegisterWrite(c, offset, size, value), discarded))
  {
    hide ToSample;
  }

  lemma {:induction false} RunBooks(s: I2s, events: seq<Event>, discarded: nat)
    requires Books(s, discarded)
    ensures Books(Run(s, events), RunDiscarded(s, events, discarded))
    decreases |events|
  {
    if events != [] {
      var e := events[0];
      match e {
        case DeviceTick(c, usec) => TickBooks(s, c, usec, discarded);
        case RegisterWrite(c, offset, size, value) => WriteBooks(s, c, offset, size, value, discarded);
      }
      hide Happen, Books, Discarded;
      RunBooks(Happen(s, e), events[1..], Discarded(s, e, discarded));
    }
  }

  /** In every reachable state: each halfword played was drained from the FIFO or is counted
      as an underrun, and each halfword accepted has been drained, is still queued, or was
      cleared by the guest. The accumulator stays below a million and a disabled output holds
      no fraction and no running underrun. */
  lemma Conservation(events: seq<Event>)
    ensures var s := Run(PowerOn(), events);
            && |s.pcm| == s.n.drained + s.n.underrunHalfwords
            && s.n.accepted == s.n.drained + |s.tx| + RunDiscarded(PowerOn(), events, 0)
            && s.acc < MICRO && |s.tx| <= DEPTH
            && (!Enabled(s) ==> s.acc == 0 && !s.starved)
  {
    hide Run, RunDiscarded, Inputs, PowerOn, Happen, Discarded;
    PowerOnBooks();
    RunBooks(PowerOn(), events, 0);
  }

  lemma PowerOnBooks()
    ensures Books(PowerOn(), 0)
  {
  }

  // ------------------------------------------------------------------------- sample clock

  /** A guest access that neither reconfigures nor resets the output. */
  predicate Streaming(e: Event, c: Codec, usec: nat) {
    match e
    case DeviceTick(codec, u) => SampleRate(codec) == SampleRate(c) && u == usec
    case RegisterWrite(_, offset, _, _) => offset - offset % 4 != 0x00
  }

  function TicksIn(events: seq<Event>): nat {
    if events == [] then 0
    else TicksIn(events[..|events| - 1]) + (if events[|events| - 1].DeviceTick? then 1 else 0)
  }

  lemma {:induction false} RunSnoc(s: I2s, events: seq<Event>)
    requires events != []
    ensures Run(s, events) == Happen(Run(s, events[..|events| - 1]), events[|events| - 1])
    decreases |events|
  {
    hide Happen;
    if |events| > 1 {
      RunSnoc(Happen(s, events[0]), events[1..]);
      assert events[1..][..|events| - 2] == events[..|events| - 1][1..];
    }
  }

  lemma TickClock(s: I2s, c: Codec, usec: nat, rate: nat, discarded: nat)
    requires Books(s, discarded) && Enabled(s) && s.rate == rate == SampleRate(c)
    ensures var t := Tick(s, c, usec); var total := s.acc + PerTick(usec, rate);
            && |t.pcm| == |s.pcm| + total / MICRO && t.acc == total % MICRO
            && t.rate == rate && Enabled(t)
  {
    hide Inputs, PerTick;
    var total := s.acc + PerTick(usec, rate);
    PlayBooks(s.(acc := total % MICRO), c, discarded, total / MICRO);
    hide Play;
  }

  lemma OneMoreTick(acc: nat, n: nat, k: nat)
    ensures ((acc + n * k) % MICRO + k) % MICRO == (acc + (n + 1) * k) % MICRO
    ensures (acc + n * k) / MICRO + ((acc + n * k) % MICRO + k) / MICRO == (acc + (n + 1) * k) / MICRO
  {
    DivideSum(0, acc + n * k, k, MICRO);
    assert (n + 1) * k == n * k + k;
  }

  lemma {:induction false} RunClock(s: I2s, events: seq<Event>, c: Codec, usec: nat, discarded: nat)
    requires Books(s, discarded) && Enabled(s) && s.rate == SampleRate(c)
    requires forall i | 0 <= i < |events| :: Streaming(events[i], c, usec)
    ensures var t := Run(s, events); var total := s.acc + TicksIn(events) * PerTick(usec, s.rate);
            && |t.pcm| == |s.pcm| + total / MICRO && t.acc == total % MICRO
            && t.rate == s.rate && Enabled(t)
    decreases |events|
  {
    hide PerTick, Tick, WriteReg, Inputs;
    if events != [] {
      var front, e := events[..|events| - 1], events[|events| - 1];
      RunClock(s, front, c, usec, discarded);
      RunSnoc(s, events);
      RunBooks(s, front, discarded);
      hide Run, RunDiscarded, Books;
      var m := Run(s, front);
      var n, k := TicksIn(front), PerTick(usec, s.rate);
      if e.DeviceTick? {
        TickClock(m, e.codec, usec, s.rate, RunDiscarded(s, front, discarded));
        OneMoreTick(s.acc, n, k);
      } else {
        WriteKeepsClock(m, e);
      }
    }
  }

  /** With a constant rate, n ticks of an enabled output play exactly
      floor((acc + 2 n usec rate) / 1000000) halfwords, whatever the FIFO holds and whatever
      the guest pushes or clears in between, and keep the exact fraction. */
  lemma SampleClock(s: I2s, events: seq<Event>, c: Codec, usec: nat, discarded: nat)
    requires Books(s, discarded) && Enabled(s) && s.rate == SampleRate(c)
    requires forall i | 0 <= i < |events| :: Streaming(events[i], c, usec)
    ensures var t := Run(s, events); var n := TicksIn(events);
            && |t.pcm| == |s.pcm| + (s.acc + 2 * n * usec * s.rate) / MICRO
            && t.acc == (s.acc + 2 * n * usec * s.rate) % MICRO
  {
    hide Run, TicksIn, Books, Streaming, Inputs;
    RunClock(s, events, c, usec, discarded);
    var n := TicksIn(events);
    assert n * (usec * s.rate * 2) == 2 * n * usec * s.rate;
  }

  lemma WriteKeepsClock(s: I2s, e: Event)
    requires e.RegisterWrite? && e.offset - e.offset % 4 != 0x00
    ensures var t := Happen(s, e);
            t.pcm == s.pcm && t.acc == s.acc && t.rate == s.rate && t.config == s.config &&
            t.starved == s.starved && t.n.underruns == s.n.underruns
  {
    hide ToSample;
  }

  // -------------------------------------------------------------------- underruns, contents

  /** Playing counts each maximal stretch of silence once. */
  lemma {:induction false} PlayUnderruns(s: I2s, c: Codec, n: nat)
    ensures var t := Play(s, c, n); var from := |s.pcm|;
            && |t.pcm| == from + n
            && t.n.underruns == s.n.underruns + Starvations(t.pcm, from, from + n, s.starved)
            && t.starved == (if n == 0 then s.starved else t.pcm[from + n - 1].Silence?)
  {
    if n != 0 {
      hide Scale;
      PlayUnderruns(s, c, n - 1);
      var m, t := Play(s, c, n - 1), Play(s, c, n);
      StarvationsExtend(m.pcm, t.pcm, |s.pcm|, |s.pcm| + n - 1, s.starved);
      hide Play;
    }
  }

  lemma {:induction false} StarvationsExtend(a: seq<Output>, b: seq<Output>, from: nat, n: nat, was: bool)
    requires from <= n <= |a| <= |b| && a == b[..|a|]
    ensures Starvations(a, from, n, was) == Starvations(b, from, n, was)
  {
    if n > from {
      StarvationsExtend(a, b, from, n - 1, was);
    }
  }

  lemma {:induction false} StarvationsSplit(pcm: seq<Output>, from: nat, mid: nat, n: nat, was: bool)
    requires from <= mid <= n <= |pcm|
    ensures Starvations(pcm, from, n, was) ==
            Starvations(pcm, from, mid, was) +
            Starvations(pcm, mid, n, if mid == from then was else pcm[mid - 1].Silence?)
  {
    if n > mid {
      StarvationsSplit(pcm, from, mid, n - 1, was);
    }
  }

  /** Over a run at a constant rate, `underruns` has grown by exactly the number of maximal
      stretches of silence that began in the run. */
  lemma {:induction false} UnderrunsAreStretches(s: I2s, events: seq<Event>, c: Codec, usec: nat,
                                                 discarded: nat)
    requires Books(s, discarded) && Enabled(s) && s.rate == SampleRate(c)
    requires forall i | 0 <= i < |events| :: Streaming(events[i], c, usec)
    ensures var t := Run(s, events); var from := |s.pcm|;
            && from <= |t.pcm| && t.pcm[..from] == s.pcm
            && t.n.underruns == s.n.underruns + Starvations(t.pcm, from, |t.pcm|, s.starved)
            && t.starved == (if |t.pcm| == from then s.starved else t.pcm[|t.pcm| - 1].Silence?)
    decreases |events|
  {
    hide PerTick, Tick, WriteReg, Inputs, TicksIn;
    if events != [] {
      var front, e := events[..|events| - 1], events[|events| - 1];
      UnderrunsAreStretches(s, front, c, usec, discarded);
      RunClock(s, front, c, usec, discarded);
      RunSnoc(s, events);
      RunBooks(s, front, discarded);
      hide Run, RunDiscarded, Books, Starvations;
      var m, t := Run(s, front), Run(s, events);
      if e.DeviceTick? {
        TickUnderruns(m, e.codec, usec, RunDiscarded(s, front, discarded));
        StarvationsExtend(m.pcm, t.pcm, |s.pcm|, |m.pcm|, s.starved);
        StarvationsSplit(t.pcm, |s.pcm|, |m.pcm|, |t.pcm|, s.starved);
      } else {
        WriteKeepsClock(m, e);
      }
    }
  }

  lemma TickUnderruns(s: I2s, c: Codec, usec: nat, discarded: nat)
    requires Books(s, discarded) && Enabled(s) && s.rate == SampleRate(c)
    ensures var t := Tick(s, c, usec); var from := |s.pcm|;
            && from <= |t.pcm| && t.pcm[..from] == s.pcm
            && t.n.underruns == s.n.underruns + Starvations(t.pcm, from, |t.pcm|, s.starved)
            && t.starved == (if |t.pcm| == from then s.starved else t.pcm[|t.pcm| - 1].Silence?)
  {
    hide Play, Inputs, Starvations, PerTick, SampleRate;
    var total := s.acc + PerTick(usec, s.rate);
    var start := s.(acc := total % MICRO);
    PlayUnderruns(start, c, total / MICRO);
    PlayBooks(start, c, discarded, total / MICRO);
  }

  /** The codec-scaled sound: from `from` on every played halfword is what the codec makes of
      what came out of the FIFO, by the parity of its index. */
  predicate ScaledFrom(pcm: seq<Output>, from: nat, c: Codec) {
    forall i | from <= i < |pcm| :: pcm[i].Played? ==> pcm[i].output == Scale(c, pcm[i].input, i)
  }

  lemma {:induction false} PlayScaled(s: I2s, c: Codec, n: nat, from: nat)
    requires ScaledFrom(s.pcm, from, c)
    ensures ScaledFrom(Play(s, c, n).pcm, from, c)
  {
    if n != 0 {
      hide Scale;
      PlayScaled(s, c, n - 1, from);
    }
  }
}
