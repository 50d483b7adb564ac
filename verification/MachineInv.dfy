/** The device invariants that the idle fast-forward relies on hold in every reachable state. */
module MachineInv {
  import opened Words
  import opened Machine
  import Opto
  import Serial
  import Cores
  import Timer
  import PmuSpec
  import Pmu = PmuTheorems
  import I2s = I2sSpec
  import Dma = DmaSpec
  import LcdSpec
  import LcdDma
  import AtaSpec
  import Intc
  import Ram

  // ------------------------------------------------------------------------ the DMA engine

  /** The same requests stand in every channel, and the output's clock has not changed. */
  predicate SameRequests(s: Dma.System, t: Dma.System) {
    SameOutput(s.i2s, t.i2s) && s.apple == t.apple &&
    forall j | 0 <= j < Dma.CHANNELS :: t.dma.ch[j].cmd == s.dma.ch[j].cmd &&
                                        t.dma.ch[j].per == s.dma.ch[j].per
  }

  predicate SameOutput(s: I2s.I2s, t: I2s.I2s) {
    t.config == s.config && t.acc == s.acc && t.starved == s.starved
  }

  predicate Waiting(c: Dma.Channel) {
    Bit(c.cmd, Dma.WAIT_REQ) && Dma.TargetsLcd(c)
  }

  lemma PushSame(s: I2s.I2s, size: nat, value: Word)
    ensures SameOutput(s, I2s.Push(s, size, value))
  {
    hide I2s.ToSample;
  }

  lemma CompleteSame(s: Dma.System, i: nat)
    requires i < Dma.CHANNELS
    ensures SameRequests(s, Dma.Complete(s, i))
  {
    hide Intc.SetLow, Bit, WithBit;
  }

  lemma {:induction false} FeedSame(s: Dma.System, i: nat)
    requires i < Dma.CHANNELS
    ensures SameRequests(s, Dma.Feed(s, i))
    decreases Dma.Ch(s, i).left
  {
    hide I2s.Push, I2s.UpdateIrq, Dma.Complete, Bit, I2s.Free;
    var c := Dma.Ch(s, i);
    if c.left > 0 && I2s.Free(s.i2s) >= 2 {
      var read := s.fetch(c.addr);
      if read.Some? {
        PushSame(s.i2s, 4, read.value);
        FeedSame(Dma.FeedWord(s, i, read.value), i);
      }
    } else if c.left == 0 {
      CompleteSame(s, i);
    }
  }

  lemma AudioRunSame(s: Dma.System, i: nat)
    requires i < Dma.CHANNELS
    ensures SameRequests(s, Dma.AudioRun(s, i))
  {
    hide Dma.Feed;
    FeedSame(s, i);
  }

  lemma AudioCommandSame(s: Dma.System, i: nat, cmd: Word)
    requires i < Dma.CHANNELS
    ensures SameRequests(s, Dma.AudioCommand(s, i, cmd))
  {
    hide Dma.AudioRun, Intc.SetLow, Bit, WithBit;
    var c := Dma.Ch(s, i);
    AudioRunSame(Dma.SetCh(s, i, c.(addr := c.ram, left := Dma.TransferBytes(cmd), active := true,
                                    starts := c.starts + 1)), i);
  }

  lemma BitCleared(v: Word)
    ensures !Bit(WithBit(v, Dma.WAIT_REQ, false), Dma.WAIT_REQ)
  {
  }

  /** A request of the other profile is served at once, which takes it away. */
  lemma TryLcdServes(s: Dma.System, i: nat)
    requires i < Dma.CHANNELS
    ensures var t := Dma.TryLcd(s, i);
            && SameOutput(s.i2s, t.i2s) && t.apple == s.apple
            && (!s.apple ==> !Waiting(t.dma.ch[i]))
            && (forall j | 0 <= j < Dma.CHANNELS && j != i :: t.dma.ch[j] == s.dma.ch[j])
  {
    hide Dma.Pour, Intc.SetLow, Bit, WithBit;
    BitCleared(Dma.Ch(s, i).cmd);
  }

  predicate Kept(s: Dma.System, t: Dma.System) {
    SameOutput(s.i2s, t.i2s) && t.apple == s.apple &&
    (!s.apple && LcdDma.NoneWaiting(s.dma) ==> LcdDma.NoneWaiting(t.dma))
  }

  lemma {:induction false} TickChannelsKept(s: Dma.System, n: nat)
    requires n <= Dma.CHANNELS
    ensures Kept(s, Dma.TickChannels(s, n))
  {
    if n != 0 {
      hide Dma.TryLcd, Dma.AudioRun, Bit;
      TickChannelsKept(s, n - 1);
      var t := Dma.TickChannels(s, n - 1);
      TryLcdServes(t, n - 1);
      AudioRunSame(Dma.TryLcd(t, n - 1), n - 1);
      assert Kept(t, Dma.TryLcd(t, n - 1));
    }
  }

  /** After a register has been stored, only that channel may be waiting. */
  predicate OnlyWaiting(d: Dma.Dma, i: nat) {
    forall j | 0 <= j < Dma.CHANNELS && j != i :: !Waiting(d.ch[j])
  }

  lemma WriteChannelKept(s: Dma.System, i: nat, reg: nat, value: Word)
    requires i < Dma.CHANNELS
    ensures Kept(s, Dma.WriteChannel(s, i, reg, value))
  {
    hide Dma.TryLcd, Dma.AudioCommand, Dma.StoreReg, Bit;
    var c := Dma.Ch(s, i);
    var stored := if reg == 4 && Dma.TargetsI2s(c) then s
                  else Dma.SetCh(s, i, Dma.StoreReg(c, reg, value));
    AudioCommandSame(stored, i, value);
    if !s.apple {
      var commanded := if reg != 0 then stored else Dma.AudioCommand(stored, i, value);
      TryLcdServes(commanded, i);
      if LcdDma.NoneWaiting(s.dma) {
        assert OnlyWaiting(stored.dma, i);
        assert OnlyWaiting(commanded.dma, i);
      }
    }
  }

  lemma DmaWriteKept(s: Dma.System, offset: nat, value: Word)
    ensures Kept(s, Dma.WriteReg(s, offset, value))
  {
    hide Dma.WriteChannel, Bit;
    if Dma.CH_BASE <= offset < Dma.CH_BASE + Dma.CHANNELS * Dma.STRIDE {
      WriteChannelKept(s, (offset - Dma.CH_BASE) / Dma.STRIDE, offset % Dma.STRIDE, value);
    }
  }

  lemma DmaStatusKept(s: Dma.System, i: nat)
    requires i < Dma.CHANNELS
    ensures Kept(s, Dma.ReadStatus(s, i))
  {
    hide Intc.SetLow, Bit, WithBit;
    assert SameRequests(s, Dma.ReadStatus(s, i));
  }

  // ------------------------------------------------------------------------------- output

  lemma {:induction false} PlaySame(s: I2s.I2s, c: I2s.Codec, n: nat)
    ensures I2s.Play(s, c, n).config == s.config
  {
    if n != 0 {
      hide I2s.Scale;
      PlaySame(s, c, n - 1);
    }
  }

  lemma I2sTickAtRest(s: I2s.I2s, c: I2s.Codec, usec: nat)
    ensures I2sAtRest(I2s.Tick(s, c, usec))
  {
    hide I2s.Play, I2s.SampleRate, I2s.PerTick;
    if I2s.Enabled(s) {
      var t := I2s.SyncRate(s, c);
      var total := t.acc + I2s.PerTick(usec, t.rate);
      PlaySame(t.(acc := total % I2s.MICRO), c, total / I2s.MICRO);
    }
  }

  lemma I2sWriteAtRest(s: I2s.I2s, c: I2s.Codec, offset: nat, size: nat, value: Word)
    requires I2sAtRest(s)
    ensures I2sAtRest(I2s.WriteReg(s, c, offset, size, value))
  {
    hide I2s.ToSample, I2s.SampleRate, Bit;
  }

  // ------------------------------------------------------------------------------ machine

  /** A step that leaves alone everything the invariant is about. */
  predicate Untouched(m: Machine, n: Machine) {
    n.o == m.o && n.timer.phase == m.timer.phase && n.pmu.clock == m.pmu.clock &&
    n.ticks == m.ticks && n.i2s == m.i2s && n.dma == m.dma &&
    n.uart0.lsr == m.uart0.lsr && n.uart1.lsr == m.uart1.lsr
  }

  lemma UntouchedInv(m: Machine, n: Machine)
    requires Inv(m) && Untouched(m, n)
    ensures Inv(n)
  {
    hide LcdDma.NoneWaiting, I2s.Enabled, PmuSpec.Since;
  }

  lemma EngineInv(m: Machine, s: Dma.System)
    requires Inv(m) && Kept(Engine(m), s)
    ensures Inv(WithEngine(m, s))
  {
    hide LcdDma.NoneWaiting, PmuSpec.Since;
  }

  lemma CountedInv(m: Machine)
    requires Inv(m)
    ensures Inv(PmuTick(TimerTick(OptoTick(Count(m)))))
  {
    hide Timer.Steps, Opto.Tick, PmuSpec.Tick, Timer.RaiseBoth, LcdDma.NoneWaiting, I2s.Enabled;
    Pmu.TickClockInOrder(m.pmu, m.ticks, m.o.usec, m.out.mv);
  }

  lemma LaterInv(m: Machine)
    requires Inv(m)
    ensures Inv(LaterTicks(m))
  {
    hide I2s.Tick, I2s.TickLines, Dma.Tick, AtaSpec.Tick, Serial.UpdateIrq, Cores.Tick,
         Cores.CpuInterrupts, Cores.CopInterrupts, Inv;
    I2sStepInv(m);
    var a := I2sTick(m);
    DmaStepInv(a);
    var b := DmaTick(a);
    UntouchedInv(b, IntcTick(DiskTick(CoresTick(SerialTick(b)))));
  }

  lemma I2sStepInv(m: Machine)
    requires Inv(m)
    ensures Inv(I2sTick(m))
  {
    hide I2s.Tick, I2s.TickLines, LcdDma.NoneWaiting, PmuSpec.Since;
    I2sTickAtRest(m.i2s, m.out.codec, m.o.usec);
  }

  lemma DmaStepInv(m: Machine)
    requires Inv(m)
    ensures Inv(DmaTick(m))
  {
    hide Inv, Kept, Dma.TickChannels;
    TickChannelsKept(Engine(m), Dma.CHANNELS);
    EngineInv(m, Dma.Tick(Engine(m)));
  }

  lemma PmuEventInv(m: Machine, p: PmuSpec.Pmu)
    requires Inv(m) && Pmu.ClockInOrder(p, m.ticks, m.o.usec)
    ensures Inv(m.(pmu := p))
  {
    hide LcdDma.NoneWaiting, I2s.Enabled, PmuSpec.Since;
  }

  /** Whatever the guest, the user or the operator does to the power manager. */
  lemma PmuInv(m: Machine, access: PmuSpec.Access)
    requires Inv(m)
    ensures Inv(m.(pmu := PmuSpec.Apply(m.pmu, access, m.ticks, m.o.usec)))
  {
    hide Inv, Pmu.ClockInOrder, PmuSpec.Apply;
    InvClock(m);
    Pmu.AccessClockInOrder(m.pmu, access, m.ticks, m.o.usec);
    PmuEventInv(m, PmuSpec.Apply(m.pmu, access, m.ticks, m.o.usec));
  }

  lemma InvClock(m: Machine)
    requires Inv(m)
    ensures Pmu.ClockInOrder(m.pmu, m.ticks, m.o.usec)
  {
  }

  lemma SetClock(p: PmuSpec.Pmu, now: nat, usec: nat)
    requires p.clock.base == now && p.clock.last == 0
    ensures Pmu.ClockInOrder(p, now, usec)
  {
  }

  lemma KeyInv(m: Machine, e: Event)
    requires Inv(m) && (e.Buttons? || e.TapButton? || e.Wheel?)
    ensures Inv(ButtonEvent(m, e))
  {
    hide Inv, PmuSpec.KeyPressed, Opto.Suppress, Opto.Button, Opto.Tap, Opto.Turn;
    PmuInv(m, PmuSpec.Key);
    if ButtonEvent(m, e) != Key(m) {
      UntouchedInv(m, ButtonEvent(m, e));
    }
  }

  lemma TimerInv(m: Machine, offset: nat, size: nat, value: Word)
    requires Inv(m)
    ensures Inv(m.(timer := Timer.WriteReg(m.timer, offset, size, value)))
  {
    hide Inv, Merge, Timer.WriteCfg;
    UntouchedInv(m, m.(timer := Timer.WriteReg(m.timer, offset, size, value)));
  }

  lemma UartInv(m: Machine, first: bool, offset: nat, byte: Byte)
    requires Inv(m)
    ensures Inv(UartStep(m, first, Serial.WriteReg(if first then m.uart0 else m.uart1, offset, byte)))
    ensures Inv(UartStep(m, first, Serial.ReadIdentification(if first then m.uart0 else m.uart1)))
  {
    hide LcdDma.NoneWaiting, I2s.Enabled, PmuSpec.Since, Bit, Serial.UpdateIrq;
  }

  lemma TickInv(m: Machine)
    requires Inv(m)
    ensures Inv(Tick(m))
  {
    hide Inv, LaterTicks, PmuTick, TimerTick, Opto.Tick;
    InvDivider(m);
    CountedInv(m);
    LaterInv(PmuTick(TimerTick(OptoTick(Count(m)))));
  }

  lemma OutputInv(m: Machine, offset: nat, size: nat, value: Word)
    requires Inv(m)
    ensures Inv(m.(i2s := I2s.WriteReg(m.i2s, m.out.codec, offset, size, value),
                   lines := I2s.WriteLines(m.lines, m.i2s, m.out.codec, offset, size, value)))
  {
    hide I2s.WriteReg, I2s.WriteLines, LcdDma.NoneWaiting, PmuSpec.Since;
    I2sWriteAtRest(m.i2s, m.out.codec, offset, size, value);
  }

  lemma EngineEventInv(m: Machine, offset: nat, value: Word, channel: nat)
    requires Inv(m) && channel < Dma.CHANNELS
    ensures Inv(WithEngine(m, Dma.WriteReg(Engine(m), offset, value)))
    ensures Inv(WithEngine(m, Dma.ReadStatus(Engine(m), channel)))
  {
    hide Inv, Kept, Dma.WriteReg, Dma.ReadStatus;
    DmaWriteKept(Engine(m), offset, value);
    EngineInv(m, Dma.WriteReg(Engine(m), offset, value));
    DmaStatusKept(Engine(m), channel);
    EngineInv(m, Dma.ReadStatus(Engine(m), channel));
  }

  lemma HappenInv(m: Machine, e: Event)
    requires Inv(m)
    ensures Inv(Happen(m, e))
  {
    hide Inv, Tick, ButtonEvent, Dma.WriteReg, Dma.ReadStatus, I2s.WriteReg, I2s.WriteLines,
         Opto.ReleaseAll, Opto.Clear, LcdSpec.WriteReg, AtaSpec.ReadReg, AtaSpec.WriteReg,
         Timer.ReadLines, Timer.WriteReg, Cores.WriteControl, Serial.WriteReg,
         Serial.ReadIdentification, Serial.UpdateIrq, PmuSpec.Apply;
    InvDivider(m);
    match e
    case DeviceTick => TickInv(m);
    case Buttons(_, _, _) => KeyInv(m, e);
    case TapButton(_, _, _) => KeyInv(m, e);
    case Wheel(_) => KeyInv(m, e);
    case TimerWrite(offset, size, value) => TimerInv(m, offset, size, value);
    case PmuAccess(access) => PmuInv(m, access);
    case I2sWrite(offset, size, value) => OutputInv(m, offset, size, value);
    case DmaWrite(offset, value) => EngineEventInv(m, offset, value, 0);
    case DmaStatus(channel) => if channel < Dma.CHANNELS { EngineEventInv(m, 0, 0, channel); }
    case UartWrite(first, offset, byte) => UartInv(m, first, offset, byte);
    case UartRead(first) => UartInv(m, first, 0, 0);
    case _ => PlainInv(m, e);
  }

  /** Events that leave everything the invariant is about alone. */
  predicate Plain(e: Event) {
    e.Hold? || e.ClearStatus? || e.TimerRead? || e.LcdWrite? || e.ControlWrite? || e.DiskRead? ||
    e.DiskWrite? || e.IntcWrite? || e.RamWrite? || e.Change?
  }

  lemma PlainInv(m: Machine, e: Event)
    requires Inv(m) && Plain(e)
    ensures m.o.divider > 0 && Inv(Happen(m, e))
  {
    hide Inv, Tick, ButtonEvent, Opto.ReleaseAll, Opto.Clear, LcdSpec.WriteReg, AtaSpec.ReadReg,
         AtaSpec.WriteReg, Timer.ReadLines, Cores.WriteControl;
    InvDivider(m);
    UntouchedInv(m, Happen(m, e));
  }

  /** The invariants hold in every state a machine can reach from power-on. */
  lemma {:induction false} RunInv(m: Machine, events: seq<Event>)
    requires Inv(m)
    ensures Inv(Run(m, events))
    decreases |events|
  {
    if events != [] {
      hide Inv, Happen;
      InvDivider(m);
      HappenInv(m, events[0]);
      RunInv(Happen(m, events[0]), events[1..]);
    }
  }

  lemma InvDivider(m: Machine)
    requires Inv(m)
    ensures m.o.divider > 0
  {
  }

  lemma PowerOnInv(o: Options, out: Outside, disk: AtaSpec.Disk, ram: Ram.Memory)
    requires o.divider > 0
    ensures Inv(PowerOn(o, out, disk, ram))
  {
    SetClock(PmuSpec.PowerOn(), 0, o.usec);
  }
}
