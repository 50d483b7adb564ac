/** The bus with its devices in place (src/bus.c): one tick runs every device's own tick, in
    order, on the memory and the interrupt lines they share. */
module BusDevice {
  import opened Words
  import M = Machine
  import FastForward
  import Opto
  import Serial
  import Cores
  import Timer
  import PmuSpec
  import PmuDevice
  import I2sSpec
  import DmaSpec
  import DmaDevice
  import AtaSpec
  import AtaDevice

  class Bus {
    const o: M.Options
    const timer: Timer.Device
    const pmu: PmuDevice.Device
    const dma: DmaDevice.Engine
    const disk: AtaDevice.Device
    var ticks: nat
    var fast: nat
    var out: M.Outside
    var opto: Opto.Buttons
    var uart0: Serial.Uart
    var uart1: Serial.Uart
    var cores: Cores.Pair

    /** The devices in the state they are given in. */
    constructor (o: M.Options, out: M.Outside, timer: Timer.Device, pmu: PmuDevice.Device,
                 dma: DmaDevice.Engine, disk: AtaDevice.Device)
      requires timer.Valid() && pmu.Valid() && dma.Valid() && disk.Valid()
      requires o.usec < TWO_TO_32 && 0 < o.divider < TWO_TO_32 && timer.phase < o.divider
      requires dma.apple == o.apple && dma.linked == out.linked
      requires disk.intc == dma.intc && disk.ram == dma.ram && Apart(timer, pmu, dma, disk)
      ensures Valid() && this.o == o && ticks == 0 && fast == 0
      ensures this.timer == timer && this.pmu == pmu && this.dma == dma && this.disk == disk
    {
      this.o, this.out, this.timer, this.pmu, this.dma, this.disk := o, out, timer, pmu, dma, disk;
      ticks, fast, opto := 0, 0, Opto.PowerOn();
      uart0, uart1 := Serial.PowerOn(), Serial.PowerOn();
      cores := Cores.Pair(Cores.PowerOn(), Cores.PowerOn());
    }

    /** No two devices share a buffer. */
    static ghost predicate Apart(timer: Timer.Device, pmu: PmuDevice.Device, dma: DmaDevice.Engine,
                                 disk: AtaDevice.Device)
    {
      pmu.regs !in {disk.media, dma.ram.sdram, dma.ram.fast} && dma.lcd.pixels != disk.identify
    }

    ghost predicate Valid()
      reads this, timer, dma, dma.i2s, dma.i2s.fifo, dma.i2s.ring
    {
      && timer.Valid() && pmu.Valid() && dma.Valid() && disk.Valid()
      && o.usec < TWO_TO_32 && 0 < o.divider < TWO_TO_32 && timer.phase < o.divider
      && dma.apple == o.apple && dma.linked == out.linked
      && disk.intc == dma.intc && disk.ram == dma.ram && Apart(timer, pmu, dma, disk)
    }

    ghost function Value(): M.Machine
      requires Valid()
      reads this, timer, timer.cfg, timer.val, pmu, pmu.regs, dma, dma.ch, dma.i2s, dma.i2s.fifo,
            dma.i2s.ring, dma.lcd, dma.lcd.pixels, dma.intc, dma.ram, dma.ram.sdram, dma.ram.fast,
            disk, disk.media, disk.identify
    {
      M.Machine(ticks, o, out, opto, timer.Value(), pmu.Value(), dma.i2s.State(), dma.State(),
                dma.lcd.State(), uart0, uart1, cores, disk.Disk(), dma.intc.lines, dma.ram.Value())
    }

    // ------------------------------------------------------------ the ticks of the devices

    method TickButtons()
      requires Valid()
      modifies this`opto, dma.intc
      ensures Valid() && Value() == M.OptoTick(old(Value()))
    {
      hide Opto.Tick;
      var w := Opto.Tick(Opto.Wired(opto, dma.intc.lines), ticks);
      opto := w.b;
      dma.intc.lines := w.lines;
    }

    method TickTimers()
      requires Valid()
      modifies timer, timer.cfg, timer.val, dma.intc
      ensures Valid() && Value() == M.TimerTick(old(Value()))
    {
      hide Timer.TimersTick, Timer.RaiseBoth;
      timer.Tick(dma.intc, o.usec, o.divider);
    }

    /** Entering standby halts both cores. */
    method TickPmu()
      requires Valid()
      modifies this`cores, pmu, pmu.regs
      ensures Valid() && Value() == M.PmuTick(old(Value()))
    {
      hide PmuSpec.Tick;
      var before := pmu.power.transitions;
      pmu.Tick(PmuSpec.Env(ticks, o.usec, out.mv));
      if pmu.power.transitions != before {
        cores := M.Halt(cores);
      }
    }

    method TickI2s()
      requires Valid()
      modifies dma.i2s, dma.i2s.ring, dma.intc
      ensures Valid() && Value() == M.I2sTick(old(Value()))
    {
      hide I2sSpec.Tick, I2sSpec.TickLines;
      dma.i2s.Tick(dma.intc, out.codec, o.usec);
    }

    method TickDma()
      requires Valid()
      modifies dma, dma.ch, dma.i2s, dma.i2s.fifo, dma.intc, dma.lcd, dma.lcd.pixels
      ensures Valid() && Value() == M.DmaTick(old(Value()))
    {
      hide DmaSpec.Tick;
      dma.Tick();
    }

    method TickSerial()
      requires Valid()
      modifies dma.intc
      ensures Valid() && Value() == M.SerialTick(old(Value()))
    {
      hide Serial.UpdateIrq;
      dma.intc.lines := Serial.UpdateIrq(dma.intc.lines, uart0, 0);
      dma.intc.lines := Serial.UpdateIrq(dma.intc.lines, uart1, 1);
    }

    method TickCores()
      requires Valid()
      modifies this`cores
      ensures Valid() && Value() == M.CoresTick(old(Value()))
    {
      hide Cores.Tick;
      cores := cores.(cpu := Cores.Tick(cores.cpu));
      cores := cores.(cop := Cores.Tick(cores.cop));
    }

    method TickDisk()
      requires Valid()
      modifies disk, disk.media, disk.identify, dma.intc, dma.ram.sdram, dma.ram.fast
      ensures Valid() && Value() == M.DiskTick(old(Value()))
    {
      hide AtaSpec.Tick;
      disk.Tick();
    }

    method TickIntc()
      requires Valid()
      modifies this`cores
      ensures Valid() && Value() == M.IntcTick(old(Value()))
    {
      hide Cores.CpuInterrupts, Cores.CopInterrupts;
      cores := cores.(cpu := Cores.CpuInterrupts(cores.cpu, dma.intc.lines));
      cores := cores.(cop := Cores.CopInterrupts(cores.cop, dma.intc.lines));
    }

    // ------------------------------------------------------------------ tick and jump

    method Later()
      requires Valid()
      modifies this`cores, dma, dma.ch, dma.i2s, dma.i2s.fifo, dma.i2s.ring, dma.intc, dma.lcd,
               dma.lcd.pixels, disk, disk.media, disk.identify, dma.ram.sdram, dma.ram.fast
      ensures Valid() && Value() == M.LaterTicks(old(Value()))
    {
      hide Value, Valid, M.I2sTick, M.DmaTick, M.SerialTick, M.CoresTick, M.DiskTick, M.IntcTick;
      TickI2s();
      TickDma();
      TickSerial();
      TickCores();
      TickDisk();
      TickIntc();
    }

    method CountTick()
      requires Valid()
      modifies this`ticks
      ensures Valid() && Value() == M.Count(old(Value()))
    {
      ticks := ticks + 1;
    }

    method Earlier()
      requires Valid()
      modifies this`ticks, this`opto, timer, timer.cfg, timer.val, dma.intc
      ensures Valid() && Value() == M.TimerTick(M.OptoTick(M.Count(old(Value()))))
    {
      hide Value, Valid, M.Count, M.OptoTick, M.TimerTick;
      CountTick();
      TickButtons();
      TickTimers();
    }

    /** The devices ticked in place, in the order of the bus, are the tick of the machine. */
    method BusTick()
      requires Valid()
      modifies this`ticks, this`opto, this`cores, timer, timer.cfg, timer.val, pmu, pmu.regs, dma,
               dma.ch, dma.i2s, dma.i2s.fifo, dma.i2s.ring, dma.intc, dma.lcd, dma.lcd.pixels,
               disk, disk.media, disk.identify, dma.ram.sdram, dma.ram.fast
      ensures Valid() && Value() == M.Tick(old(Value()))
    {
      hide Value, Valid, M.Count, M.OptoTick, M.TimerTick, M.PmuTick, M.LaterTicks;
      Earlier();
      TickPmu();
      Later();
    }

    /** Time passes: the tick count and the microsecond timer, but not the prescaler. */
    method SkipTime(k: nat)
      requires Valid()
      modifies this`ticks, timer`usec
      ensures Valid() && Value() == FastForward.Skipped(old(Value()), k)
    {
      ticks := ticks + k;
      timer.usec := Add32(timer.usec, k * o.usec % TWO_TO_32);
    }

    /** The jump, in place. */
    method BusAdvance(k: nat)
      requires Valid()
      modifies this`ticks, this`fast, this`opto, this`cores, timer, timer.cfg, timer.val, pmu,
               pmu.regs, dma, dma.ch, dma.i2s, dma.i2s.fifo, dma.i2s.ring, dma.intc, dma.lcd,
               dma.lcd.pixels, disk, disk.media, disk.identify, dma.ram.sdram, dma.ram.fast
      ensures Valid() && Value() == FastForward.Advance(old(Value()), k)
      ensures fast == old(fast) + if k > 1 then k - 1 else 0
    {
      hide Value, Valid, M.Tick, M.PmuTick, M.IntcTick, FastForward.Skipped;
      if k <= 1 {
        BusTick();
        return;
      }
      SkipTime(k);
      TickPmu();
      TickIntc();
      CountSkipped(k - 1);
    }

    method CountSkipped(k: nat)
      requires Valid()
      modifies this`fast
      ensures Valid() && Value() == old(Value()) && fast == old(fast) + k
    {
      fast := fast + k;
    }
  }
}
