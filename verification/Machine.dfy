/** The whole device layer (src/bus.c): one device tick, and everything else that can happen
    to the devices between ticks. */
module Machine {
  import opened Words
  import Intc
  import Ram
  import Opto
  import Serial
  import Cores
  import Timer
  import PmuSpec
  import Pmu = PmuTheorems
  import I2sSpec
  import DmaSpec
  import LcdSpec
  import LcdDma
  import AtaSpec

  /** What does not change while the machine runs: the length of a device tick, the timers'
      prescaler and the profile. */
  datatype Options = Options(usec: nat, divider: nat, apple: bool)

  /** What the outside decides: the supply voltage, the codec, whether the firmware's DMA
      manager accepts a completion, and the hold switch. */
  datatype Outside = Outside(mv: nat, codec: I2sSpec.Codec, linked: bool, held: bool)

  datatype Machine = Machine(
    ticks: nat, o: Options, out: Outside,
    opto: Opto.Buttons, timer: Timer.Timers, pmu: PmuSpec.Pmu, i2s: I2sSpec.I2s,
    dma: DmaSpec.Dma, lcd: LcdSpec.Lcd, uart0: Serial.Uart, uart1: Serial.Uart,
    cores: Cores.Pair, disk: AtaSpec.Disk, lines: Intc.Lines, ram: Ram.Memory)

  // -------------------------------------------------------------- one tick of each device

  function Count(m: Machine): Machine {
    m.(ticks := m.ticks + 1)
  }

  function OptoTick(m: Machine): Machine {
    var w := Opto.Tick(Opto.Wired(m.opto, m.lines), m.ticks);
    m.(opto := w.b, lines := w.lines)
  }

  function TimerTick(m: Machine): Machine
    requires m.o.divider > 0
  {
    var ticked := Timer.TimersTick(m.timer, m.o.usec, m.o.divider);
    m.(timer := ticked.t, lines := Timer.RaiseBoth(m.lines, ticked))
  }

  function Halt(p: Cores.Pair): Cores.Pair {
    Cores.Pair(p.cpu.(halted := true), p.cop.(halted := true))
  }

  function Env(m: Machine): PmuSpec.Env {
    PmuSpec.Env(m.ticks, m.o.usec, m.out.mv)
  }

  /** Entering standby halts both cores. */
  function PmuTick(m: Machine): Machine {
    var p := PmuSpec.Tick(m.pmu, Env(m));
    m.(pmu := p, cores := if p.power.transitions != m.pmu.power.transitions then Halt(m.cores) else m.cores)
  }

  function I2sTick(m: Machine): Machine {
    m.(i2s := I2sSpec.Tick(m.i2s, m.out.codec, m.o.usec),
       lines := I2sSpec.TickLines(m.lines, m.i2s, m.out.codec, m.o.usec))
  }

  /** The DMA engine with what it reads and writes. */
  function Engine(m: Machine): DmaSpec.System {
    DmaSpec.System(m.dma, m.i2s, m.lcd, m.lines, Ram.Reader(m.ram), m.o.apple, m.out.linked)
  }

  function WithEngine(m: Machine, s: DmaSpec.System): Machine {
    m.(dma := s.dma, i2s := s.i2s, lcd := s.lcd, lines := s.lines)
  }

  function DmaTick(m: Machine): Machine {
    WithEngine(m, DmaSpec.Tick(Engine(m)))
  }

  function SerialTick(m: Machine): Machine {
    m.(lines := Serial.UpdateIrq(Serial.UpdateIrq(m.lines, m.uart0, 0), m.uart1, 1))
  }

  function CoresTick(m: Machine): Machine {
    m.(cores := Cores.Pair(Cores.Tick(m.cores.cpu), Cores.Tick(m.cores.cop)))
  }

  function Controller(m: Machine): AtaSpec.Ata {
    AtaSpec.Ata(m.disk, m.lines, m.ram)
  }

  function WithController(m: Machine, a: AtaSpec.Ata): Machine {
    m.(disk := a.d, lines := a.lines, ram := a.ram)
  }

  function DiskTick(m: Machine): Machine {
    WithController(m, AtaSpec.Tick(Controller(m)).a)
  }

  function IntcTick(m: Machine): Machine {
    m.(cores := Cores.Pair(Cores.CpuInterrupts(m.cores.cpu, m.lines),
                           Cores.CopInterrupts(m.cores.cop, m.lines)))
  }

  /** Everything after the power manager. */
  function LaterTicks(m: Machine): (r: Machine)
    ensures r.o == m.o && r.ticks == m.ticks
  {
    IntcTick(DiskTick(CoresTick(SerialTick(DmaTick(I2sTick(m))))))
  }

  function Tick(m: Machine): (r: Machine)
    requires m.o.divider > 0
    ensures r.o == m.o && r.ticks == m.ticks + 1
  {
    LaterTicks(PmuTick(TimerTick(OptoTick(Count(m)))))
  }

  // -------------------------------------------------------------------- between the ticks

  datatype Event =
    | DeviceTick
    | Buttons(bit: bv32, pressed: bool, menu: bool)
    | TapButton(bit: bv32, hold: nat, menu: bool)
    | Wheel(delta: int)
    | Hold(on: bool)
    | ClearStatus
    | TimerWrite(offset: nat, size: nat, value: Word)
    | TimerRead(offset: nat)
    | PmuAccess(access: PmuSpec.Access)
    | I2sWrite(offset: nat, size: nat, value: Word)
    | DmaWrite(offset: nat, value: Word)
    | DmaStatus(channel: nat)
    | LcdWrite(offset: nat, value: Word)
    | UartWrite(first: bool, offset: nat, byte: Byte)
    | UartRead(first: bool)
    | ControlWrite(first: bool, value: Word)
    | DiskRead(offset: nat, size: nat)
    | DiskWrite(offset: nat, size: nat, value: Word)
    | IntcWrite(lines: Intc.Lines)
    | RamWrite(ram: Ram.Memory)
    | Change(out: Outside)

  function Key(m: Machine): Machine {
    m.(pmu := PmuSpec.KeyPressed(m.pmu))
  }

  function Wire(m: Machine, w: Opto.Wired): Machine {
    m.(opto := w.b, lines := w.lines)
  }

  function Wired(m: Machine): Opto.Wired {
    Opto.Wired(m.opto, m.lines)
  }

  /** The menu button wakes the machine from standby; a held machine ignores the buttons. */
  function ButtonEvent(m: Machine, e: Event): (r: Machine)
    requires e.Buttons? || e.TapButton? || e.Wheel?
    ensures r.o == m.o
  {
    match e
    case Buttons(bit, pressed, menu) =>
      if pressed && menu && m.pmu.power.standby then Key(m)
      else if m.out.held then Wire(m, Opto.Suppress(Wired(m)))
      else Wire(m, Opto.Button(Wired(m), bit, pressed))
    case TapButton(bit, hold, menu) =>
      if menu && m.pmu.power.standby then Key(m)
      else if m.out.held then Wire(m, Opto.Suppress(Wired(m)))
      else Wire(m, Opto.Tap(Wired(m), bit, m.ticks, hold))
    case Wheel(delta) =>
      if m.out.held then Wire(m, Opto.Suppress(Wired(m))) else Wire(m, Opto.Turn(Wired(m), delta))
  }

  /** Engaging the hold switch lets go of every button. */
  function SetHold(m: Machine, on: bool): Machine {
    if m.out.held == on then m
    else
      var n := if on then Wire(m, Opto.ReleaseAll(Wired(m))) else m;
      n.(out := n.out.(held := on), opto := n.opto.(events := n.opto.events + 1))
  }

  function UartStep(m: Machine, first: bool, u: Serial.Uart): Machine {
    if first then m.(uart0 := u, lines := Serial.UpdateIrq(m.lines, u, 0))
    else m.(uart1 := u, lines := Serial.UpdateIrq(m.lines, u, 1))
  }

  function Happen(m: Machine, e: Event): (r: Machine)
    requires m.o.divider > 0
    ensures r.o == m.o
  {
    match e
    case DeviceTick => Tick(m)
    case Buttons(_, _, _) => ButtonEvent(m, e)
    case TapButton(_, _, _) => ButtonEvent(m, e)
    case Wheel(_) => ButtonEvent(m, e)
    case Hold(on) => SetHold(m, on)
    case ClearStatus => Wire(m, Opto.Clear(Wired(m)))
    case TimerWrite(offset, size, value) =>
      m.(timer := Timer.WriteReg(m.timer, offset, size, value))
    case TimerRead(offset) => m.(lines := Timer.ReadLines(m.lines, offset))
    case PmuAccess(access) => m.(pmu := PmuSpec.Apply(m.pmu, access, m.ticks, m.o.usec))
    case I2sWrite(offset, size, value) =>
      m.(i2s := I2sSpec.WriteReg(m.i2s, m.out.codec, offset, size, value),
         lines := I2sSpec.WriteLines(m.lines, m.i2s, m.out.codec, offset, size, value))
    case DmaWrite(offset, value) => WithEngine(m, DmaSpec.WriteReg(Engine(m), offset, value))
    case DmaStatus(channel) =>
      if channel < DmaSpec.CHANNELS then WithEngine(m, DmaSpec.ReadStatus(Engine(m), channel)) else m
    case LcdWrite(offset, value) => m.(lcd := LcdSpec.WriteReg(m.lcd, m.o.apple, offset, value))
    case UartWrite(first, offset, byte) =>
      UartStep(m, first, Serial.WriteReg(if first then m.uart0 else m.uart1, offset, byte))
    case UartRead(first) =>
      UartStep(m, first, Serial.ReadIdentification(if first then m.uart0 else m.uart1))
    case ControlWrite(first, value) =>
      m.(cores := if first then m.cores.(cpu := Cores.WriteControl(m.cores.cpu, value))
                  else m.cores.(cop := Cores.WriteControl(m.cores.cop, value)))
    case DiskRead(offset, size) =>
      WithController(m, AtaSpec.ReadReg(Controller(m), offset, size).a)
    case DiskWrite(offset, size, value) =>
      WithController(m, AtaSpec.WriteReg(Controller(m), offset, size, value).a)
    case IntcWrite(lines) => m.(lines := lines)
    case RamWrite(ram) => m.(ram := ram)
    case Change(out) => m.(out := out)
  }

  function Run(m: Machine, events: seq<Event>): (r: Machine)
    requires m.o.divider > 0
    ensures r.o == m.o
    decreases |events|
  {
    if events == [] then m else Run(Happen(m, events[0]), events[1..])
  }

  function Ticks(m: Machine, n: nat): (r: Machine)
    requires m.o.divider > 0
    ensures r.o == m.o
  {
    if n == 0 then m else Tick(Ticks(m, n - 1))
  }

  function PowerOn(o: Options, out: Outside, disk: AtaSpec.Disk, ram: Ram.Memory): Machine {
    Machine(0, o, out, Opto.PowerOn(),
            Timer.Timers(Timer.Channel(0, 0), Timer.Channel(0, 0), 0, 0), PmuSpec.PowerOn(),
            I2sSpec.PowerOn(), DmaSpec.PowerOn(), LcdSpec.PowerOn(), Serial.PowerOn(),
            Serial.PowerOn(), Cores.Pair(Cores.PowerOn(), Cores.PowerOn()), disk,
            Intc.Lines(0, 0, 0, 0, 0, 0, 0, 0, 0, 0, 0, 0, 0, 0), ram)
  }

  // --------------------------------------------------------------------- what always holds

  /** A disabled output has no part of a halfword left over and is not starved. */
  predicate I2sAtRest(s: I2sSpec.I2s) {
    I2sSpec.Enabled(s) || (s.acc == 0 && !s.starved)
  }

  /** Nothing is ever received. */
  predicate NothingReceived(m: Machine) {
    m.uart0.lsr == 0 && m.uart1.lsr == 0
  }

  predicate Inv(m: Machine) {
    InvButClock(m) && Pmu.ClockInOrder(m.pmu, m.ticks, m.o.usec)
  }

  predicate InvButClock(m: Machine) {
    && m.o.divider > 0 && m.timer.phase < m.o.divider
    && I2sAtRest(m.i2s)
    && NothingReceived(m)
    && (!m.o.apple ==> LcdDma.NoneWaiting(m.dma))
  }
}
