/** The click wheel and buttons (src/dev_opto.c): a queue of status packets. */
module Opto {
  import Intc

  const QUEUE: nat := 8
  const PACKET: bv32 := 0x8000_001a
  const WHEEL_ACTIVE: bv32 := 0x4000_0000
  const WHEEL_STEPS: nat := 96
  const IRQ: bv32 := 0x0000_0100

  datatype Buttons = Buttons(queue: seq<bv32>, down: bv32, release: bv32, releaseTick: nat,
                             wheel: nat, events: nat, suppressed: nat)

  /** The packets and the interrupt words they raise. */
  datatype Wired = Wired(b: Buttons, lines: Intc.Lines)

  function PowerOn(): Buttons {
    Buttons([], 0, 0, 0, 0, 0, 0)
  }

  /** A repeated status is not queued; a full queue loses its oldest entry. */
  function Enqueue(w: Wired, status: bv32): Wired {
    var q := w.b.queue;
    if q != [] && q[|q| - 1] == status then w
    else
      var kept := if |q| >= QUEUE then q[1..] else q;
      Wired(w.b.(queue := kept + [status], events := w.b.events + 1),
            Intc.SetHigh(w.lines, IRQ, true))
  }

  function Clear(w: Wired): Wired {
    var rest := if w.b.queue == [] then [] else w.b.queue[1..];
    Wired(w.b.(queue := rest), Intc.SetHigh(w.lines, IRQ, rest != []))
  }

  function Suppress(w: Wired): Wired {
    w.(b := w.b.(suppressed := w.b.suppressed + 1))
  }

  function Button(w: Wired, bit: bv32, pressed: bool): Wired {
    var down := if pressed then w.b.down | bit else w.b.down & !bit;
    Enqueue(w.(b := w.b.(down := down)), PACKET | down)
  }

  function Release(w: Wired): Wired {
    var down := w.b.down & !w.b.release;
    Enqueue(w.(b := w.b.(down := down)), PACKET | down)
  }

  /** A tap presses now and releases after `hold` ticks; a tap under way is released first. */
  function Tap(w: Wired, bit: bv32, now: nat, hold: nat): Wired {
    var r := if w.b.release != 0 then Release(w) else w;
    var down := r.b.down | bit;
    Enqueue(r.(b := r.b.(down := down, release := bit, releaseTick := now + hold)), PACKET | down)
  }

  function Turn(w: Wired, delta: int): Wired {
    var pos := (w.b.wheel + delta) % WHEEL_STEPS;
    Enqueue(w.(b := w.b.(wheel := pos)),
            PACKET | WHEEL_ACTIVE | ((pos as bv32) << 16) | w.b.down)
  }

  function ReleaseAll(w: Wired): Wired {
    if w.b.down == 0 && w.b.release == 0 then w
    else Enqueue(w.(b := w.b.(down := 0, release := 0, releaseTick := 0)), PACKET)
  }

  function Tick(w: Wired, now: nat): Wired {
    if w.b.release == 0 || now < w.b.releaseTick then w
    else
      var down := w.b.down & !w.b.release;
      Enqueue(w.(b := w.b.(down := down, release := 0, releaseTick := 0)), PACKET | down)
  }
}

/** The two UARTs (src/dev_serial.c): what they transmit is dropped, what matters is the
    transmitter-empty interrupt. */
module Serial {
  import opened Words
  import Intc

  const IER_RX: nat := 1
  const IER_THRE: nat := 2
  const IER_LINE: nat := 4
  const LCR_DLAB: nat := 0x80

  datatype Uart = Uart(lcr: Byte, ier: Byte, fcr: Byte, lsr: Byte, threPending: bool, sent: nat)

  function PowerOn(): Uart {
    Uart(0, 0, 0, 0, false, 0)
  }

  /** Whether the identification register reports a source: line errors, received data, or
      the empty transmitter. */
  predicate Pending(u: Uart) {
    (Bit(u.ier, IER_LINE) && u.lsr / 2 % 16 != 0) ||
    (Bit(u.ier, IER_RX) && Bit(u.lsr, 1)) ||
    (Bit(u.ier, IER_THRE) && u.threPending)
  }

  function Line(channel: nat): bv32 {
    if channel == 0 then 0x10 else 0x20
  }

  function UpdateIrq(lines: Intc.Lines, u: Uart, channel: nat): Intc.Lines {
    Intc.SetHigh(lines, Line(channel), Pending(u))
  }

  function WriteReg(u: Uart, offset: nat, byte: Byte): Uart {
    if offset == 0x00 then
      if Bit(u.lcr, LCR_DLAB) then u
      else u.(sent := u.sent + 1, threPending := Bit(u.ier, IER_THRE))
    else if offset == 0x04 then
      if Bit(u.lcr, LCR_DLAB) then u
      else u.(ier := byte % 16,
              threPending := u.threPending || (!Bit(u.ier, IER_THRE) && Bit(byte, IER_THRE)))
    else if offset == 0x08 then
      u.(fcr := byte % 2,
         threPending := u.threPending || (Bit(byte, 4) && Bit(u.ier, IER_THRE)),
         lsr := if Bit(byte, 2) then u.lsr / 2 * 2 else u.lsr)
    else if offset == 0x0c then u.(lcr := byte)
    else u
  }

  /** Reading the identification register acknowledges the empty transmitter when that is
      what it reports. */
  function ReadIdentification(u: Uart): Uart {
    var line := Bit(u.ier, IER_LINE) && u.lsr / 2 % 16 != 0;
    var rx := Bit(u.ier, IER_RX) && Bit(u.lsr, 1);
    if !line && !rx && Bit(u.ier, IER_THRE) && u.threPending then u.(threPending := false) else u
  }
}

/** The two cores as the devices see them: sleeping, waiting and taking interrupts
    (src/dev_cpucon.c, src/dev_intc.c and the interrupt entry in src/cpu_unicorn.c). */
module Cores {
  import opened Words
  import Intc

  const SLEEP: nat := 0x8000_0000
  const WAIT: nat := 0x4000_0000
  const COUNT_SECONDS: nat := 0x0080_0000
  const COUNT_MILLISECONDS: nat := 0x0100_0000
  const NO_SLEEP: nat := 0x2000_0000

  datatype Core = Core(halted: bool, ctl: Word, wait: nat, irqMasked: bool, fiqMasked: bool,
                       taken: nat)

  datatype Pair = Pair(cpu: Core, cop: Core)

  function PowerOn(): Core {
    Core(false, 0, 0, true, true, 0)
  }

  /** Any of the five unit bits selects a counted wait. */
  predicate Counted(ctl: Word) {
    ctl / 0x80_0000 % 32 != 0
  }

  function WaitCount(ctl: Word): nat {
    var count := if ctl % 0x100 == 0 then 1 else ctl % 0x100;
    if Bit(ctl, COUNT_MILLISECONDS) then count * 1000
    else if Bit(ctl, COUNT_SECONDS) then count * 1_000_000
    else count
  }

  function WriteControl(c: Core, value: Word): Core {
    c.(ctl := value, halted := Bit(value, SLEEP) || Bit(value, WAIT),
       wait := if Bit(value, WAIT) && Counted(value) then WaitCount(value) else 0)
  }

  function Tick(c: Core): Core {
    if !Bit(c.ctl, WAIT) || !c.halted || !Counted(c.ctl) || c.wait == 0 then c
    else if c.wait > 1 then c.(wait := c.wait - 1)
    else c.(wait := 0, ctl := c.ctl % NO_SLEEP / 0x100 * 0x100, halted := false)
  }

  function Ticks(c: Core, n: nat): Core {
    if n == 0 then c else Tick(Ticks(c, n - 1))
  }

  lemma {:induction false} StillWaiting(c: Core, n: nat)
    requires Bit(c.ctl, WAIT) && c.halted && Counted(c.ctl) && n < c.wait
    ensures Ticks(c, n) == c.(wait := c.wait - n)
  {
    hide Bit, Counted;
    if n != 0 {
      StillWaiting(c, n - 1);
    }
  }

  /** A counted wait halts the core for exactly the number of ticks it asks for. */
  lemma WaitLasts(c: Core, value: Word, n: nat)
    requires Bit(value, WAIT) && Counted(value) && n <= WaitCount(value)
    ensures Ticks(WriteControl(c, value), n).halted <==> n < WaitCount(value)
  {
    hide Bit, Counted, WaitCount;
    var w := WriteControl(c, value);
    WaitPositive(value);
    if n < w.wait {
      StillWaiting(w, n);
    } else {
      StillWaiting(w, n - 1);
    }
  }

  lemma WaitPositive(value: Word)
    ensures WaitCount(value) > 0
  {
  }

  /** Interrupts wake a core also while it masks them; it enters the handler when it does
      not. */
  function Fiq(c: Core): Core {
    var woken := c.(halted := false, ctl := c.ctl % NO_SLEEP);
    if c.fiqMasked then woken
    else woken.(irqMasked := true, fiqMasked := true, taken := c.taken + 1)
  }

  function Irq(c: Core): Core {
    var woken := c.(halted := false, ctl := c.ctl % NO_SLEEP);
    if c.irqMasked then woken else woken.(irqMasked := true, taken := c.taken + 1)
  }

  function CpuInterrupts(c: Core, lines: Intc.Lines): Core {
    var f := if Intc.CpuFiq(lines) then Fiq(c) else c;
    if Intc.CpuIrq(lines) then Irq(f) else f
  }

  function CopInterrupts(c: Core, lines: Intc.Lines): Core {
    var f := if Intc.CopFiq(lines) then Fiq(c) else c;
    if Intc.CopIrq(lines) then Irq(f) else f
  }
}
