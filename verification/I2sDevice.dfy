/** The audio output in its own form: the FIFO and the PCM output are ring buffers, the tick
    drains in a loop, and a served window is copied out of the ring. */
module I2sDevice {
  import opened Words
  import opened I2sSpec
  import Intc
  import PcmWindow

  /** The slot `i` places after `head`. */
  function Slot(head: nat, i: nat): (r: nat)
    ensures r < DEPTH
  {
    (head + i) % DEPTH
  }

  /** The `fill` entries from `head` on. */
  function Window(slots: seq<Sample>, head: nat, fill: nat): (q: seq<Sample>)
    requires |slots| == DEPTH
    ensures |q| == fill
  {
    seq(fill, i requires 0 <= i < fill => slots[Slot(head, i)])
  }

  lemma SlotsDiffer(head: nat, i: nat, j: nat)
    requires i < j < DEPTH
    ensures Slot(head, i) != Slot(head, j)
  {
  }

  /** Writing just past the window appends to it. */
  lemma PushWindow(slots: seq<Sample>, head: nat, fill: nat, sample: Sample)
    requires |slots| == DEPTH && fill < DEPTH
    ensures Window(slots[Slot(head, fill) := sample], head, fill + 1)
         == Window(slots, head, fill) + [sample]
  {
    forall i | 0 <= i < fill ensures Slot(head, i) != Slot(head, fill) {
      SlotsDiffer(head, i, fill);
    }
  }

  /** Moving the head drops the first entry. */
  lemma PopWindow(slots: seq<Sample>, head: nat, fill: nat)
    requires |slots| == DEPTH && head < DEPTH && 0 < fill <= DEPTH
    ensures Window(slots, head, fill)[0] == slots[head]
    ensures Window(slots, Slot(head, 1), fill - 1) == Window(slots, head, fill)[1..]
  {
    hide Slot;
    SlotNext(head, 0);
    forall i | 0 <= i < fill - 1 ensures Slot(Slot(head, 1), i) == Slot(head, i + 1) {
      SlotNext(head, i);
    }
  }

  lemma SlotLater(head: nat, fill: nat)
    requires fill > 0
    ensures Slot(Slot(head, 1), fill - 1) == Slot(head, fill)
  {
    SlotNext(head, fill - 1);
  }

  lemma SlotNext(head: nat, i: nat)
    ensures Slot(Slot(head, 1), i) == Slot(head, i + 1)
    ensures head < DEPTH ==> Slot(head, 0) == head
  {
    DivideSum(head, 1, i, DEPTH);
  }

  /** The ring holds the most recent part of what was played. */
  ghost predicate Holds(ring: seq<Sample>, pcm: seq<Output>)
    requires |ring| == PcmWindow.RING
  {
    forall i | 0 <= i < |pcm| && |pcm| <= i + PcmWindow.RING :: ring[Place(i)] == I2sSpec.Value(pcm[i])
  }

  function Place(i: nat): nat {
    i % PcmWindow.RING
  }

  class Device {
    var config: Word
    var clk: Word
    var fifoCfg: Word
    const fifo: array<Sample>
    var head: nat
    var tail: nat
    var fill: nat
    var acc: nat
    var starved: bool
    const ring: array<Sample>
    var produced: nat
    var streamStart: nat
    var rate: nat
    var streamId: Word
    var n: Counters
    /** Everything played since the last reset. */
    ghost var pcm: seq<Output>

    ghost predicate FifoValid()
      reads this, fifo
    {
      fifo.Length == DEPTH && head < DEPTH && fill <= DEPTH && tail == Slot(head, fill)
    }

    ghost predicate Valid()
      reads this, fifo, ring
    {
      FifoValid() && fifo != ring && ring.Length == PcmWindow.RING && produced == |pcm| &&
      Holds(ring[..], pcm)
    }

    ghost function State(): I2s
      requires FifoValid()
      reads this, fifo
    {
      I2s(config, clk, fifoCfg, Window(fifo[..], head, fill), acc, starved, pcm, streamStart, rate,
          streamId, n)
    }

    constructor ()
      ensures Valid() && fresh(fifo) && fresh(ring) && State() == PowerOn()
    {
      fifo := new Sample[DEPTH](i => 0);
      ring := new Sample[PcmWindow.RING](i => 0);
      config, clk, fifoCfg, head, tail, fill, acc, starved := 0, 0, 0, 0, 0, 0, 0, false;
      produced, streamStart, rate, streamId, pcm := 0, 0, 0, 0, [];
      n := Counters(0, 0, 0, 0, 0, 0, 0, 0, 0);
    }

    /** One halfword into the FIFO, or an overrun. */
    method PushSlot(sample: Sample)
      requires Valid()
      modifies this, fifo
      ensures Valid() && State() == PushOne(old(State()), sample)
    {
      if fill < DEPTH {
        PushWindow(fifo[..], head, fill, sample);
        ghost var after := fifo[..][tail := sample];
        fifo[tail] := sample;
        assert fifo[..] == after;
        tail := (tail + 1) % DEPTH;
        fill := fill + 1;
        n := n.(accepted := n.accepted + 1);
      } else {
        n := n.(overruns := n.overruns + 1);
      }
    }

    method PushTx(intc: Intc.Controller, size: nat, value: Word)
      requires Valid()
      modifies this, fifo, intc
      ensures Valid() && State() == Push(old(State()), size, value)
      ensures intc.lines == UpdateIrq(old(intc.lines), State())
    {
      hide PushOne, ToSample, UpdateIrq, Window, Holds;
      PushSlot(ToSample(value % TWO_TO_16));
      if size == 4 {
        PushSlot(ToSample(value / TWO_TO_16));
      }
      UpdateIrqLine(intc);
    }

    method UpdateIrqLine(intc: Intc.Controller)
      requires Valid()
      modifies intc
      ensures intc.lines == UpdateIrq(old(intc.lines), State())
    {
      if Bit(config, IRQ_TX) && Bit(config, TX_ENABLE) && DEPTH - fill >= 2 {
        intc.Assert(Intc.I2S);
      } else {
        intc.Deassert(Intc.I2S);
      }
    }

    /** Takes the next halfword off the FIFO, or none. */
    method Dequeue() returns (some: bool, input: Sample)
      requires Valid()
      modifies this
      ensures Valid() && some == (old(State()).tx != [])
      ensures input == if some then old(State()).tx[0] else 0
      ensures State() == old(State()).(tx := if some then old(State()).tx[1..] else [])
    {
      hide Window, Holds, Slot;
      some, input := fill > 0, 0;
      if some {
        SlotLater(head, fill);
        PopWindow(fifo[..], head, fill);
        input := fifo[head];
        head := Slot(head, 1);
        fill := fill - 1;
      }
    }

    /** Appends a halfword to the PCM output. */
    method Emit(output: Sample, ghost o: Output)
      requires Valid() && output == I2sSpec.Value(o)
      modifies this, ring
      ensures Valid() && State() == old(State()).(pcm := old(pcm) + [o])
      ensures produced == old(produced) + 1
    {
      hide Window;
      ghost var after := ring[..][Place(produced) := output];
      ring[produced % PcmWindow.RING] := output;
      assert ring[..] == after;
      produced := produced + 1;
      pcm := pcm + [o];
    }

    /** One pass of the drain loop: a halfword from the FIFO, or silence. */
    method DrainOne(c: Codec)
      requires Valid()
      modifies this, ring
      ensures Valid() && State() == PlayOne(old(State()), c) && acc == old(acc)
    {
      hide Window, Holds, Scale;
      ghost var o := NextOutput(State(), c);
      var some, input := Dequeue();
      var output: Sample := 0;
      if some {
        output := Scale(c, input, produced);
        n := n.(drained := n.drained + 1);
        starved := false;
      } else {
        if !starved {
          n := n.(underruns := n.underruns + 1);
          starved := true;
        }
        n := n.(underrunHalfwords := n.underrunHalfwords + 1);
      }
      Emit(output, o);
      if output != 0 {
        var magnitude: nat := Abs(output);
        n := n.(nonzero := n.nonzero + 1, peak := if magnitude > n.peak then magnitude else n.peak);
      } else if input != 0 {
        n := n.(silenced := n.silenced + 1);
      }
    }

    method SyncPcmRate(c: Codec)
      requires Valid()
      modifies this
      ensures Valid() && State() == SyncRate(old(State()), c)
    {
      hide Window, Holds, SampleRate;
      if rate == 0 {
        rate := SampleRate(c);
        return;
      }
      if rate == SampleRate(c) { return; }
      rate := SampleRate(c);
      streamStart := RoundUpEven(produced);
      streamId := Add32(streamId, 1);
      acc, starved := 0, false;
    }

    /** Plays one halfword for every full unit of the accumulator. */
    method Drain(c: Codec)
      requires Valid()
      modifies this, ring
      ensures Valid()
      ensures var was := old(State());
              State() == Play(was.(acc := was.acc % MICRO), c, was.acc / MICRO)
    {
      hide Window, Holds, PlayOne;
      ghost var total := acc;
      ghost var start := State().(acc := total % MICRO);
      ghost var k := 0;
      while acc >= MICRO
        invariant Valid() && acc + k * MICRO == total
        invariant State().(acc := total % MICRO) == Play(start, c, k)
        decreases acc
      {
        ghost var before := State();
        acc := acc - MICRO;
        DrainOne(c);
        PlayIgnoresAcc(before, c, before.acc - MICRO, total % MICRO);
        k := k + 1;
      }
      ModUnique(total, k, acc, MICRO);
    }

    /** The tick plays what the sample clock has earned, one halfword at a time. */
    method Tick(intc: Intc.Controller, c: Codec, usec: nat)
      requires Valid()
      modifies this, ring, intc
      ensures Valid() && State() == I2sSpec.Tick(old(State()), c, usec)
      ensures intc.lines == TickLines(old(intc.lines), old(State()), c, usec)
    {
      hide Window, Holds, Play, UpdateIrq, SyncRate;
      if !Bit(config, TX_ENABLE) {
        acc, starved := 0, false;
        return;
      }
      SyncPcmRate(c);
      acc := acc + usec * rate * 2;
      Drain(c);
      UpdateIrqLine(intc);
    }

    static lemma PlayIgnoresAcc(s: I2s, c: Codec, a: nat, b: nat)
      ensures PlayOne(s.(acc := a), c).(acc := b) == PlayOne(s.(acc := b), c)
    {
    }

    method ClearTxFifo(clock: bool)
      requires Valid()
      modifies this
      ensures Valid() && State() == ClearTx(old(State()), clock)
    {
      fill, head, tail := 0, 0, 0;
      if clock {
        acc, starved := 0, false;
      }
    }

    method ClearPcmRing(c: Codec)
      requires Valid()
      modifies this, ring
      ensures Valid() && State() == ClearPcm(old(State()), c)
    {
      hide Window;
      forall i | 0 <= i < ring.Length {
        ring[i] := 0;
      }
      assert fifo[..] == old(fifo[..]);
      pcm, produced, streamStart := [], 0, 0;
      n := n.(nonzero := 0, silenced := 0, peak := 0, underruns := 0, underrunHalfwords := 0,
              hostDropped := 0);
      rate := SampleRate(c);
      streamId := Add32(streamId, 1);
    }

    method WriteConfigReg(c: Codec, value: Word)
      requires Valid()
      modifies this, ring
      ensures Valid() && State() == WriteConfig(old(State()), c, value)
    {
      hide Window, Holds, ClearTx, ClearPcm;
      var wasEnabled := Bit(config, TX_ENABLE);
      if Bit(value, RESET) {
        ClearTxFifo(true);
        ClearPcmRing(c);
        n := n.(accepted := 0, drained := 0, overruns := 0);
      }
      config := if Bit(value, RESET) then value - RESET else value;
      if wasEnabled && !Bit(config, TX_ENABLE) {
        acc, starved := 0, false;
      }
    }

    method Write(intc: Intc.Controller, c: Codec, offset: nat, size: nat, value: Word)
      requires Valid()
      modifies this, fifo, ring, intc
      ensures Valid() && State() == WriteReg(old(State()), c, offset, size, value)
      ensures intc.lines == WriteLines(old(intc.lines), old(State()), c, offset, size, value)
    {
      hide Window, Holds, ClearTx, WriteConfig, Push, UpdateIrq;
      var reg := offset - offset % 4;
      if reg == 0x00 {
        WriteConfigReg(c, value);
        UpdateIrqLine(intc);
      } else if reg == 0x08 {
        clk := value;
      } else if reg == 0x0c {
        if Bit(value, TX_CLEAR) {
          ClearTxFifo(false);
        }
        fifoCfg := value % 0x100;
        UpdateIrqLine(intc);
      } else if reg == 0x40 {
        PushTx(intc, size, value);
      }
    }

    /** Moves a client's cursor into the available range and counts what it has missed. */
    method SelectWindow(asked: Option<nat>) returns (start: nat, count: nat)
      requires Valid() && streamStart % 2 == 0
      modifies this`n
      ensures Valid()
      ensures var w := PcmWindow.Serve(old(State()), asked);
              && start == w.start && count == w.count
              && State() == old(State()).(n := old(n).(hostDropped := old(n).hostDropped + w.dropped))
    {
      hide Window, Holds, RoundUpEven, PcmWindow.EvenDown;
      var even := PcmWindow.EvenDown(produced);
      var cursor := if asked.Some? then asked.value else even;
      var oldest := if even > PcmWindow.RING then even - PcmWindow.RING else 0;
      if oldest < streamStart {
        oldest := streamStart;
      }
      oldest := RoundUpEven(oldest);
      if cursor < oldest {
        n := n.(hostDropped := n.hostDropped + (oldest - cursor));
        cursor := oldest;
      }
      if cursor > even {
        cursor := even;
      }
      cursor := RoundUpEven(cursor);
      assert cursor == PcmWindow.Clamped(old(State()), if asked.Some? then asked.value else even);
      var available := even - cursor;
      if available > PcmWindow.MOST {
        n := n.(hostDropped := n.hostDropped + (available - PcmWindow.MOST));
        cursor := even - PcmWindow.MOST;
        available := PcmWindow.MOST;
      }
      start, count := cursor, available;
    }

    /** Serves a window: the body holds the halfwords that were played at those indices. */
    method SendAudio(asked: Option<nat>) returns (start: nat, body: array<Sample>)
      requires Valid() && streamStart % 2 == 0
      modifies this`n
      ensures Valid() && fresh(body)
      ensures var w := PcmWindow.Serve(old(State()), asked);
              && start == w.start && body.Length == w.count
              && start + body.Length <= |pcm|
              && (forall i | 0 <= i < body.Length :: body[i] == I2sSpec.Value(pcm[start + i]))
              && State() == old(State()).(n := old(n).(hostDropped := old(n).hostDropped + w.dropped))
    {
      hide Window, PcmWindow.Serve;
      PcmWindow.ServedRange(State(), asked);
      var count;
      start, count := SelectWindow(asked);
      ghost var counted := n;
      body := new Sample[count];
      for i := 0 to count
        invariant forall j | 0 <= j < i :: body[j] == I2sSpec.Value(pcm[start + j])
        invariant n == counted && fifo[..] == old(fifo[..]) && ring[..] == old(ring[..])
      {
        assert Place(start + i) < PcmWindow.RING;
        body[i] := ring[(start + i) % PcmWindow.RING];
        assert ring[..][Place(start + i)] == I2sSpec.Value(pcm[start + i]);
      }
    }
  }
}
