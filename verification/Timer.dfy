/** The two countdown timers (src/dev_timer.c). The tick of the emulator counts a batch of
    microseconds with one division; its meaning is the unit-step down-counter below. */
module Timer {
  import opened Words
  import Intc

  const ENABLE: nat := 0x8000_0000
  const REPEAT: nat := 0x4000_0000
  const RELOAD_SPAN: nat := 0x2000_0000

  datatype Channel = Channel(cfg: Word, val: Word) {
    function Reload(): nat { cfg % RELOAD_SPAN }
    predicate Repeats() { Bit(cfg, REPEAT) }
    predicate Enabled() { Bit(cfg, ENABLE) }
    predicate Running() { Enabled() && Reload() != 0 && val != 0 }
  }

  /** A channel and whether it has expired. */
  datatype Counted = Counted(ch: Channel, fired: bool)

  /** One step of the hardware counter. */
  function UnitStep(ch: Channel): Counted {
    if !ch.Running() then Counted(ch, false)
    else if ch.val > 1 then Counted(ch.(val := ch.val - 1), false)
    else if ch.Repeats() then Counted(ch.(val := ch.Reload()), true)
    else Counted(Channel(ch.cfg - ENABLE, 0), true)
  }

  function Steps(ch: Channel, n: nat): Counted {
    if n == 0 then Counted(ch, false)
    else
      var before := Steps(ch, n - 1);
      var last := UnitStep(before.ch);
      Counted(last.ch, before.fired || last.fired)
  }

  datatype Timers = Timers(ch0: Channel, ch1: Channel, usec: Word, phase: nat)

  datatype Ticked = Ticked(t: Timers, fired0: bool, fired1: bool)

  /** A tick of `usec` microseconds: the prescaler passes on whole steps. */
  function TimersTick(t: Timers, usec: nat, divider: nat): Ticked
    requires divider > 0
  {
    var steps := (t.phase + usec) / divider;
    var c0, c1 := Steps(t.ch0, steps), Steps(t.ch1, steps);
    Ticked(Timers(c0.ch, c1.ch, Add32(t.usec, usec), (t.phase + usec) % divider),
           c0.fired, c1.fired)
  }

  function TimersTicks(t: Timers, usec: nat, divider: nat, n: nat): Ticked
    requires divider > 0
  {
    if n == 0 then Ticked(t, false, false)
    else
      var before := TimersTicks(t, usec, divider, n - 1);
      var last := TimersTick(before.t, usec, divider);
      Ticked(last.t, before.fired0 || last.fired0, before.fired1 || last.fired1)
  }

  // ---------------------------------------------------------------- the counter's meaning

  lemma {:induction false} StepsAdd(ch: Channel, m: nat, n: nat)
    ensures var first := Steps(ch, m); var second := Steps(first.ch, n);
            Steps(ch, m + n) == Counted(second.ch, first.fired || second.fired)
  {
    if n != 0 {
      StepsAdd(ch, m, n - 1);
    }
  }

  lemma NoSteps(ch: Channel)
    ensures Steps(ch, 0) == Counted(ch, false)
  {
  }

  lemma {:induction false} StoppedSteps(ch: Channel, n: nat)
    requires !ch.Running()
    ensures Steps(ch, n) == Counted(ch, false)
  {
    if n != 0 {
      StoppedSteps(ch, n - 1);
    }
  }

  /** Before it expires the counter has lost one per step. */
  lemma {:induction false} StepsBelow(ch: Channel, n: nat)
    requires ch.Running() && n < ch.val
    ensures Steps(ch, n) == Counted(ch.(val := ch.val - n), false)
  {
    if n != 0 {
      StepsBelow(ch, n - 1);
    }
  }

  /** A one-shot counter stops at zero, disabled, once its value has run out. */
  lemma OneShotExpires(ch: Channel, n: nat)
    requires ch.Running() && !ch.Repeats() && n >= ch.val
    ensures Steps(ch, n) == Counted(Channel(ch.cfg - ENABLE, 0), true)
  {
    StepsToExpiry(ch);
    StepsAdd(ch, ch.val, n - ch.val);
    StoppedSteps(Channel(ch.cfg - ENABLE, 0), n - ch.val);
  }

  /** The step on which the value runs out. */
  lemma StepsToExpiry(ch: Channel)
    requires ch.Running()
    ensures Steps(ch, ch.val) ==
            Counted(if ch.Repeats() then ch.(val := ch.Reload()) else Channel(ch.cfg - ENABLE, 0),
                    true)
  {
    StepsBelow(ch, ch.val - 1);
  }

  /** A repeating counter, `extra` steps after an expiry. */
  lemma {:induction false} Reloaded(ch: Channel, extra: nat)
    requires ch.Running() && ch.Repeats() && ch.val == ch.Reload()
    ensures Steps(ch, extra) ==
            Counted(ch.(val := ch.Reload() - extra % ch.Reload()), extra >= ch.Reload())
    decreases extra
  {
    var r := ch.Reload();
    if extra < r {
      StepsBelow(ch, extra);
      ModUnique(extra, 0, extra, r);
    } else {
      StepsToExpiry(ch);
      StepsAdd(ch, r, extra - r);
      Reloaded(ch, extra - r);
      ModSubtract(extra, r);
    }
  }

  /** A repeating counter after its value has run out, also when the value was above the
      reload count. */
  lemma RepeatExpires(ch: Channel, n: nat)
    requires ch.Running() && ch.Repeats() && n >= ch.val
    ensures Steps(ch, n) ==
            Counted(ch.(val := ch.Reload() - (n - ch.val) % ch.Reload()), true)
  {
    StepsToExpiry(ch);
    StepsAdd(ch, ch.val, n - ch.val);
    Reloaded(ch.(val := ch.Reload()), n - ch.val);
  }

  // ------------------------------------------------------------------------------- ticks

  /** Two ticks of a and b microseconds are one tick of a + b. */
  lemma TicksAdd(t: Timers, a: nat, b: nat, divider: nat)
    requires divider > 0
    ensures var one := TimersTick(t, a, divider); var two := TimersTick(one.t, b, divider);
            TimersTick(t, a + b, divider) ==
            Ticked(two.t, one.fired0 || two.fired0, one.fired1 || two.fired1)
  {
    hide Steps, Add32;
    DivideSum(t.phase, a, b, divider);
    Add32Adds(t.usec, a, b);
    var m, n := (t.phase + a) / divider, ((t.phase + a) % divider + b) / divider;
    StepsAdd(t.ch0, m, n);
    StepsAdd(t.ch1, m, n);
  }

  /** n ticks deliver exactly floor((phase + n * usec) / divider) steps. */
  lemma {:induction false} TicksDeliver(t: Timers, usec: nat, divider: nat, n: nat)
    requires divider > 0 && t.phase < divider
    ensures var steps := (t.phase + n * usec) / divider;
            var c0, c1 := Steps(t.ch0, steps), Steps(t.ch1, steps);
            TimersTicks(t, usec, divider, n) ==
            Ticked(Timers(c0.ch, c1.ch, Add32(t.usec, n * usec), (t.phase + n * usec) % divider),
                   c0.fired, c1.fired)
  {
    if n == 0 {
      ModUnique(t.phase, 0, t.phase, divider);
    } else {
      TicksDeliver(t, usec, divider, n - 1);
      assert n * usec == (n - 1) * usec + usec;
      TicksAdd(t, (n - 1) * usec, usec, divider);
    }
  }

  /** A running counter expires on the step that uses up its value, and not before. */
  lemma FiresExactly(ch: Channel, n: nat)
    requires ch.Running()
    ensures Steps(ch, n).fired <==> n >= ch.val
  {
    if n < ch.val {
      StepsBelow(ch, n);
    } else {
      StepsToExpiry(ch);
      StepsAdd(ch, ch.val, n - ch.val);
    }
  }

  /** The step count always fits the 32-bit variable it is kept in. */
  lemma StepsFit(phase: nat, usec: Word, divider: nat)
    requires phase < divider
    ensures (phase + usec) / divider < TWO_TO_32
    ensures (phase + usec) / divider % TWO_TO_32 == (phase + usec) / divider
  {
    QuotientBelow(phase + usec, divider, TWO_TO_32);
  }

  // -------------------------------------------------------------------------- registers

  /** Setting the enable bit of a disabled timer starts it from its reload count. */
  function WriteCfg(ch: Channel, merged: Word): Channel {
    if Bit(merged, ENABLE) && !ch.Enabled() then Channel(merged, merged % RELOAD_SPAN)
    else ch.(cfg := merged)
  }

  function WriteReg(t: Timers, offset: nat, size: nat, value: Word): Timers {
    var aligned := offset - offset % 4;
    if aligned == 0x00 then t.(ch0 := WriteCfg(t.ch0, Merge(t.ch0.cfg, offset, size, value)))
    else if aligned == 0x04 then t.(ch0 := t.ch0.(val := Merge(t.ch0.val, offset, size, value)))
    else if aligned == 0x08 then t.(ch1 := WriteCfg(t.ch1, Merge(t.ch1.cfg, offset, size, value)))
    else if aligned == 0x0c then t.(ch1 := t.ch1.(val := Merge(t.ch1.val, offset, size, value)))
    else t
  }

  function ReadValue(t: Timers, offset: nat, size: nat): Word {
    var aligned := offset - offset % 4;
    var value := if aligned == 0x00 then t.ch0.cfg else if aligned == 0x04 then t.ch0.val
                 else if aligned == 0x08 then t.ch1.cfg else if aligned == 0x0c then t.ch1.val
                 else if aligned == 0x10 then t.usec
                 else if aligned == 0x14 then t.usec / 1_000_000 else 0;
    ReadPart(value, offset, size)
  }

  /** Reading a value register acknowledges that timer. */
  function ReadLines(lines: Intc.Lines, offset: nat): Intc.Lines {
    var aligned := offset - offset % 4;
    if aligned == 0x04 then Intc.SetLow(lines, Intc.TIMER0, false)
    else if aligned == 0x0c then Intc.SetLow(lines, Intc.TIMER1, false)
    else lines
  }

  /** A timer started by its enable bit raises its interrupt after exactly its reload count
      of steps. */
  lemma StartedTimerExpires(ch: Channel, merged: Word, n: nat)
    requires !ch.Enabled() && Bit(merged, ENABLE) && merged % RELOAD_SPAN != 0
    ensures Steps(WriteCfg(ch, merged), n).fired <==> n >= merged % RELOAD_SPAN
  {
    FiresExactly(WriteCfg(ch, merged), n);
  }

  // ------------------------------------------------------------------------- the device

  function Raise(lines: Intc.Lines, bit: bv32, fired: bool): Intc.Lines {
    if fired then Intc.SetLow(lines, bit, true) else lines
  }

  function RaiseBoth(lines: Intc.Lines, ticked: Ticked): Intc.Lines {
    Raise(Raise(lines, Intc.TIMER0, ticked.fired0), Intc.TIMER1, ticked.fired1)
  }

  class Device {
    const cfg: array<Word>
    const val: array<Word>
    var usec: Word
    var phase: Word

    ghost predicate Valid()
    {
      cfg.Length == 2 && val.Length == 2 && cfg != val
    }

    ghost function Value(): Timers
      requires Valid()
      reads this, cfg, val
    {
      Timers(Channel(cfg[0], val[0]), Channel(cfg[1], val[1]), usec, phase)
    }

    constructor ()
      ensures Valid() && fresh(cfg) && fresh(val)
      ensures Value() == Timers(Channel(0, 0), Channel(0, 0), 0, 0)
    {
      cfg := new Word[2](i => 0);
      val := new Word[2](i => 0);
      usec, phase := 0, 0;
    }

    /** The batch tick counts like the unit-step counter. */
    method Tick(intc: Intc.Controller, usecPerTick: Word, divider: Word)
      requires Valid() && divider > 0 && phase < divider
      modifies this, cfg, val, intc
      ensures var ticked := TimersTick(old(Value()), usecPerTick, divider);
              Value() == ticked.t && intc.lines == RaiseBoth(old(intc.lines), ticked)
      ensures phase < divider
    {
      hide Steps;
      usec := Add32(usec, usecPerTick);
      var elapsed := phase + usecPerTick;
      StepsFit(phase, usecPerTick, divider);
      var steps := elapsed / divider % TWO_TO_32;
      phase := elapsed % divider;
      if steps == 0 {
        NoSteps(Channel(cfg[0], val[0]));
        NoSteps(Channel(cfg[1], val[1]));
        return;
      }
      CountChannel(0, steps, intc);
      CountChannel(1, steps, intc);
    }

    /** One pass of the tick's loop: the batch arithmetic for channel `i`. */
    method CountChannel(i: nat, steps: nat, intc: Intc.Controller)
      requires Valid() && i < 2 && steps > 0
      modifies cfg, val, intc
      ensures var counted := Steps(old(Channel(cfg[i], val[i])), steps);
              Channel(cfg[i], val[i]) == counted.ch &&
              intc.lines == Raise(old(intc.lines), if i == 0 then Intc.TIMER0 else Intc.TIMER1,
                                  counted.fired)
      ensures cfg[1 - i] == old(cfg[1 - i]) && val[1 - i] == old(val[1 - i])
    {
      var counter := cfg[i] % RELOAD_SPAN;
      var repeats := Bit(cfg[i], REPEAT);
      var enabled := Bit(cfg[i], ENABLE);
      ghost var ch := Channel(cfg[i], val[i]);
      if !enabled || counter == 0 || val[i] == 0 {
        StoppedSteps(ch, steps);
        return;
      }
      if steps < val[i] {
        StepsBelow(ch, steps);
        val[i] := val[i] - steps;
        return;
      }
      intc.Assert(if i == 0 then Intc.TIMER0 else Intc.TIMER1);
      if repeats {
        RepeatExpires(ch, steps);
        var residual := (steps - val[i]) % counter;
        val[i] := if residual == 0 then counter else counter - residual;
      } else {
        OneShotExpires(ch, steps);
        val[i] := 0;
        cfg[i] := cfg[i] - ENABLE;
      }
    }

    method Write(offset: nat, size: nat, value: Word)
      requires Valid()
      modifies this, cfg, val
      ensures Value() == WriteReg(old(Value()), offset, size, value)
    {
      var aligned := offset - offset % 4;
      match aligned
      case 0x00 => WriteCfgReg(0, Merge(cfg[0], offset, size, value));
      case 0x04 => val[0] := Merge(val[0], offset, size, value);
      case 0x08 => WriteCfgReg(1, Merge(cfg[1], offset, size, value));
      case 0x0c => val[1] := Merge(val[1], offset, size, value);
      case _ =>
    }

    method WriteCfgReg(i: nat, merged: Word)
      requires Valid() && i < 2
      modifies cfg, val
      ensures Channel(cfg[i], val[i]) == WriteCfg(old(Channel(cfg[i], val[i])), merged)
      ensures cfg[1 - i] == old(cfg[1 - i]) && val[1 - i] == old(val[1 - i])
    {
      if Bit(merged, ENABLE) && !Bit(cfg[i], ENABLE) {
        val[i] := merged % RELOAD_SPAN;
      }
      cfg[i] := merged;
    }

    method Read(intc: Intc.Controller, offset: nat, size: nat) returns (r: Word)
      requires Valid()
      modifies intc
      ensures r == ReadValue(Value(), offset, size)
      ensures intc.lines == ReadLines(old(intc.lines), offset)
    {
      var aligned := offset - offset % 4;
      var value: Word := 0;
      match aligned {
        case 0x00 => value := cfg[0];
        case 0x04 => intc.Deassert(Intc.TIMER0); value := val[0];
        case 0x08 => value := cfg[1];
        case 0x0c => intc.Deassert(Intc.TIMER1); value := val[1];
        case 0x10 => value := usec;
        case 0x14 => value := usec / 1_000_000;
        case _ =>
      }
      r := ReadPart(value, offset, size);
    }
  }
}
