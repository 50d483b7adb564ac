/** The audio output (src/dev_i2s.c): the transmit FIFO is a queue and the PCM ring is the
    whole history of what has been played. I2sDevice.dfy refines both to their ring buffers. */
module I2sSpec {
  import opened Words
  import Intc

  const DEPTH: nat := 32
  const RESET: nat := 0x8000_0000
  const TX_ENABLE: nat := 0x2000_0000
  const IRQ_TX: nat := 2
  const TX_CLEAR: nat := 0x100
  const MICRO: nat := 1_000_000

  type Sample = x: int | -0x8000 <= x < 0x8000

  function ToSample(h: Half): Sample {
    if h < 0x8000 then h else h - 0x1_0000
  }

  /** The codec as the output stage sees it. */
  datatype Codec = Codec(rate: nat, enabled: bool, leftGain: int, rightGain: int)

  function SampleRate(c: Codec): (r: nat)
    ensures r > 0
  {
    if c.rate != 0 then c.rate else 44100
  }

  /** Gain in 15-bit fixed point, rounded towards minus infinity and saturated. */
  function Scale(c: Codec, sample: Sample, channel: nat): Sample {
    var scaled := sample * (if channel % 2 == 0 then c.leftGain else c.rightGain) / 0x8000;
    if !c.enabled then 0
    else if scaled > 0x7fff then 0x7fff
    else if scaled < -0x8000 then -0x8000
    else scaled
  }

  /** One played halfword: silence when the FIFO was empty, otherwise what came out of the
      FIFO and what the codec made of it. */
  datatype Output = Silence | Played(input: Sample, output: Sample)

  function Value(o: Output): Sample {
    match o case Silence => 0 case Played(_, output) => output
  }

  datatype Counters = Counters(
    accepted: nat, drained: nat, overruns: nat, nonzero: nat, silenced: nat, peak: nat,
    underruns: nat, underrunHalfwords: nat, hostDropped: nat)

  datatype I2s = I2s(
    config: Word, clk: Word, fifoCfg: Word,
    tx: seq<Sample>, acc: nat, starved: bool,
    pcm: seq<Output>, streamStart: nat, rate: nat, streamId: Word,
    n: Counters)

  predicate Enabled(s: I2s) { Bit(s.config, TX_ENABLE) }

  function Free(s: I2s): nat {
    if |s.tx| <= DEPTH then DEPTH - |s.tx| else 0
  }

  /** The transmit interrupt is level triggered on room in the FIFO. */
  function UpdateIrq(lines: Intc.Lines, s: I2s): Intc.Lines {
    Intc.SetLow(lines, Intc.I2S, Bit(s.config, IRQ_TX) && Enabled(s) && Free(s) >= 2)
  }

  // ------------------------------------------------------------------------------- input

  function PushOne(s: I2s, sample: Sample): I2s {
    if |s.tx| < DEPTH
    then s.(tx := s.tx + [sample], n := s.n.(accepted := s.n.accepted + 1))
    else s.(n := s.n.(overruns := s.n.overruns + 1))
  }

  function Push(s: I2s, size: nat, value: Word): I2s {
    var one := PushOne(s, ToSample(value % TWO_TO_16));
    if size == 4 then PushOne(one, ToSample(value / TWO_TO_16)) else one
  }

  // ------------------------------------------------------------------------------ output

  function Abs(x: int): nat {
    if x < 0 then -x else x
  }

  /** What playing `o` adds to the counters; `was` is whether the output was starved. */
  function CountOutput(n: Counters, o: Output, was: bool): Counters {
    var v := Value(o);
    n.(drained := if o.Played? then n.drained + 1 else n.drained,
       underrunHalfwords := if o.Silence? then n.underrunHalfwords + 1 else n.underrunHalfwords,
       underruns := if o.Silence? && !was then n.underruns + 1 else n.underruns,
       nonzero := if v != 0 then n.nonzero + 1 else n.nonzero,
       peak := if Abs(v) > n.peak then Abs(v) else n.peak,
       silenced := if v == 0 && o.Played? && o.input != 0 then n.silenced + 1 else n.silenced)
  }

  /** What the output plays next. */
  function NextOutput(s: I2s, c: Codec): Output {
    if s.tx == [] then Silence else Played(s.tx[0], Scale(c, s.tx[0], |s.pcm|))
  }

  /** Plays one halfword. */
  function PlayOne(s: I2s, c: Codec): I2s {
    var o := NextOutput(s, c);
    s.(tx := if s.tx == [] then [] else s.tx[1..], starved := o.Silence?,
       pcm := s.pcm + [o], n := CountOutput(s.n, o, s.starved))
  }

  function Play(s: I2s, c: Codec, n: nat): I2s {
    if n == 0 then s else PlayOne(Play(s, c, n - 1), c)
  }

  function RoundUpEven(n: nat): nat {
    (n + 1) / 2 * 2
  }

  /** A change of the codec's rate starts a new stream at the next even halfword. */
  function SyncRate(s: I2s, c: Codec): I2s {
    if s.rate == 0 then s.(rate := SampleRate(c))
    else if s.rate == SampleRate(c) then s
    else s.(rate := SampleRate(c), streamStart := RoundUpEven(|s.pcm|),
            streamId := Add32(s.streamId, 1), acc := 0, starved := false)
  }

  /** Millionths of a halfword a tick is worth: two channels at the sample rate. */
  function PerTick(usec: nat, rate: nat): nat {
    usec * rate * 2
  }

  function Tick(s: I2s, c: Codec, usec: nat): I2s {
    if !Enabled(s) then s.(acc := 0, starved := false)
    else
      var t := SyncRate(s, c);
      var total := t.acc + PerTick(usec, t.rate);
      Play(t.(acc := total % MICRO), c, total / MICRO)
  }

  function TickLines(lines: Intc.Lines, s: I2s, c: Codec, usec: nat): Intc.Lines {
    if Enabled(s) then UpdateIrq(lines, Tick(s, c, usec)) else lines
  }

  // --------------------------------------------------------------------------- registers

  function ClearTx(s: I2s, clock: bool): I2s {
    s.(tx := [], acc := if clock then 0 else s.acc, starved := if clock then false else s.starved)
  }

  function ClearPcm(s: I2s, c: Codec): I2s {
    s.(pcm := [], streamStart := 0, rate := SampleRate(c), streamId := Add32(s.streamId, 1),
       n := s.n.(nonzero := 0, silenced := 0, peak := 0, underruns := 0, underrunHalfwords := 0,
                 hostDropped := 0))
  }

  function WriteConfig(s: I2s, c: Codec, value: Word): I2s {
    var reset := Bit(value, RESET);
    var t := if !reset then s
             else
               var cleared := ClearPcm(ClearTx(s, true), c);
               cleared.(n := cleared.n.(accepted := 0, drained := 0, overruns := 0));
    var u := t.(config := if reset then value - RESET else value);
    if Enabled(s) && !Enabled(u) then u.(acc := 0, starved := false) else u
  }

  function WriteFifoCfg(s: I2s, value: Word): I2s {
    var t := if Bit(value, TX_CLEAR) then ClearTx(s, false) else s;
    t.(fifoCfg := value % 0x100)
  }

  /** Register writes by offset, rounded down to a word. */
  function WriteReg(s: I2s, c: Codec, offset: nat, size: nat, value: Word): I2s {
    var reg := offset - offset % 4;
    if reg == 0x00 then WriteConfig(s, c, value)
    else if reg == 0x08 then s.(clk := value)
    else if reg == 0x0c then WriteFifoCfg(s, value)
    else if reg == 0x40 then Push(s, size, value)
    else s
  }

  function WriteLines(lines: Intc.Lines, s: I2s, c: Codec, offset: nat, size: nat, value: Word): Intc.Lines {
    var reg := offset - offset % 4;
    if reg == 0x00 || reg == 0x0c || reg == 0x40
    then UpdateIrq(lines, WriteReg(s, c, offset, size, value)) else lines
  }

  function PowerOn(): I2s {
    I2s(0, 0, 0, [], 0, false, [], 0, 0, 0, Counters(0, 0, 0, 0, 0, 0, 0, 0, 0))
  }
}
