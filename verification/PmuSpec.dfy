/** The power manager (the PCF50605 part of src/dev_i2c.c): standby, battery supervision,
    analogue conversions, clock and alarm, as functions on values. */
module PmuSpec {
  import opened Words
  import Calendar

  const OOCC1: nat := 0x08
  const INT1: nat := 0x02
  const INT2: nat := 0x03
  const INT3: nat := 0x04
  const INT1M: nat := 0x05
  const INT2M: nat := 0x06
  const OOCS: nat := 0x01
  const RTCSC: nat := 0x0a
  const RTCYR: nat := 0x10
  const RTCSCA: nat := 0x11
  const RTCYRA: nat := 0x17
  const ADCC1: nat := 0x2e
  const ADCC2: nat := 0x2f
  const BVMC: nat := 0x34
  const REGS: nat := 0x40

  const SECOND: nat := 1_000_000

  datatype Wake = NoWake | RtcAlarm | Charger | OnKey

  datatype Power = Power(standby: bool, deadline: nat, transitions: nat, requests: nat,
                         wakes: nat, lastWake: Wake)
  datatype Adc = Adc(deadline: nat, ready: bool, result1: nat, result2: nat, conversions: nat)
  datatype Battery = Battery(low: bool, deadline: nat, standbyDeadline: nat, events: nat)
  datatype Clock = Clock(base: nat, last: nat, seconds: nat, alarms: nat, matching: bool)

  type Registers = r: seq<Byte> | |r| == REGS witness seq(REGS, i => 0)

  /** A deadline of zero means none. `written` holds the registers the guest has set. */
  datatype Pmu = Pmu(regs: Registers, written: set<nat>, power: Power, adc: Adc,
                     battery: Battery, clock: Clock)

  function PowerOn(): Pmu {
    Pmu(seq(REGS, i => 0), {}, Power(false, 0, 0, 0, 0, NoWake), Adc(0, false, 0, 0, 0),
        Battery(false, 0, 0, 0), Clock(0, 0, 0, 0, false))
  }

  /** The device tick, the microseconds a tick stands for, and the supply voltage. */
  datatype Env = Env(now: nat, usec: nat, mv: nat)

  function SetBit(v: Byte, weight: nat): Byte
    requires weight in {1, 2, 0x40, 0x80}
  {
    if Bit(v, weight) then v else v + weight
  }

  function Raise(p: Pmu, reg: nat, weight: nat): Pmu
    requires reg < REGS && weight in {1, 2, 0x40, 0x80}
  {
    p.(regs := p.regs[reg := SetBit(p.regs[reg], weight)])
  }

  /** The ticks that cover a number of microseconds, rounded up and at least one. */
  function TicksFor(usec: nat, duration: nat): (r: nat)
    ensures r >= 1 && r * (if usec != 0 then usec else 1) >= duration
  {
    var scale := if usec != 0 then usec else 1;
    var ticks := (duration + scale - 1) / scale;
    CeilCovers(duration, scale);
    if ticks != 0 then ticks else 1
  }

  lemma CeilCovers(x: nat, d: nat)
    requires d > 0
    ensures (x + d - 1) / d * d >= x
    ensures x > 0 ==> ((x + d - 1) / d - 1) * d < x
  {
    var q := (x + d - 1) / d;
    assert q * d + (x + d - 1) % d == x + d - 1;
    assert (q - 1) * d == q * d - d;
  }

  // ----------------------------------------------------------------------------- power

  function OoccControl(p: Pmu): Byte {
    if OOCC1 in p.written then p.regs[OOCC1] else 0x60
  }

  function WakeUp(p: Pmu, reason: Wake): Pmu {
    if !p.power.standby then p
    else p.(power := p.power.(standby := false, deadline := 0, wakes := p.power.wakes + 1,
                              lastWake := reason))
  }

  /** Entering standby halts both cores; the caller sees it in the transition count. */
  function EnterStandby(p: Pmu): Pmu {
    if p.power.standby then p
    else
      p.(power := p.power.(standby := true, deadline := 0,
                           transitions := p.power.transitions + 1),
         regs := p.regs[OOCC1 := p.regs[OOCC1] / 2 * 2][ADCC1 := 0][ADCC2 := 0],
         written := p.written - {ADCC1, ADCC2},
         adc := p.adc.(deadline := 0, ready := false))
  }

  function StandbyTick(p: Pmu, now: nat): Pmu {
    if !p.power.standby && p.power.deadline != 0 && now >= p.power.deadline
    then EnterStandby(p) else p
  }

  // ------------------------------------------------------------------------------- ADC

  function AdcInput(mv: nat, mux: nat): (r: nat)
    ensures r < 1024
  {
    var raw := if mux == 0 || mux == 2 then (mv * 1024 + 3000) / 6000
               else if mux == 1 || mux == 3 || mux == 12 then
                 if mv > 3000 then ((mv - 3000) * 1024 + 1200) / 2400 else 0
               else if mux == 4 then 512 else 0;
    if raw < 1024 then raw else 1023
  }

  function AdcDone(p: Pmu, mv: nat): Pmu {
    var control := p.regs[ADCC2];
    var mux := control / 2 % 16;
    var r1 := AdcInput(mv, mux);
    var r2 := if mux == 12 then AdcInput(mv, 3) else 0;
    var coarse := Bit(control, 0x80);
    Raise(p.(adc := Adc(0, true, if coarse then r1 / 4 * 4 else r1,
                        if coarse then r2 / 4 * 4 else r2, p.adc.conversions + 1)), INT3, 1)
  }

  function AdcTick(p: Pmu, now: nat, mv: nat): Pmu {
    if p.adc.deadline == 0 || now < p.adc.deadline then p else AdcDone(p, mv)
  }

  // --------------------------------------------------------------------------- battery

  function BvmControl(p: Pmu): Byte {
    if BVMC in p.written then p.regs[BVMC] / 2 % 16 * 2 else 0x0c
  }

  function Threshold(p: Pmu): nat {
    2700 + BvmControl(p) / 2 % 8 * 100
  }

  /** The supply level at which a low battery is cleared. */
  function Recovery(p: Pmu): nat {
    Threshold(p) + Threshold(p) * 4 / 100
  }

  function Debounce(p: Pmu, usec: nat): nat {
    if Bit(BvmControl(p), 0x10) then 1 else TicksFor(usec, 62_000)
  }

  function Hold(usec: nat): nat {
    TicksFor(usec, 8_000_000)
  }

  function BatteryTick(p: Pmu, e: Env): Pmu {
    var below := e.mv < Threshold(p);
    var b := p.battery;
    if !b.low && below then
      if b.deadline == 0 then p.(battery := b.(deadline := e.now + Debounce(p, e.usec)))
      else if e.now >= b.deadline then
        Raise(p.(battery := Battery(true, 0, e.now + Hold(e.usec), b.events + 1)), INT3, 0x40)
      else p
    else if b.low && e.mv >= Recovery(p) then
      p.(battery := b.(low := false, deadline := 0, standbyDeadline := 0))
    else if !below then p.(battery := b.(deadline := 0))
    else p
  }

  predicate ForcesStandby(p: Pmu, now: nat) {
    !p.power.standby && p.battery.standbyDeadline != 0 && now >= p.battery.standbyDeadline
  }

  function ForcedTick(p: Pmu, now: nat): Pmu {
    if ForcesStandby(p, now)
    then EnterStandby(p.(battery := p.battery.(standbyDeadline := 0))) else p
  }

  // ----------------------------------------------------------------------------- clock

  /** Device ticks since the clock was last set; it is never set in the future. */
  function Since(base: nat, now: nat): nat {
    if now >= base then now - base else 0
  }

  const DEFAULT_FIELDS: seq<Byte> := [0x00, 0x00, 0x12, 0x04, 0x01, 0x01, 0x26]

  /** The date and time the clock counts from, and the tick it counts from. */
  function BaseFields(p: Pmu): (f: seq<Byte>)
    ensures |f| == 7
  {
    if RTCSC in p.written then p.regs[RTCSC..RTCYR + 1] else DEFAULT_FIELDS
  }

  function BaseTick(p: Pmu): nat {
    if RTCSC in p.written then p.clock.base else 0
  }

  /** What the clock registers read at a tick. */
  function Reading(p: Pmu, now: nat, usec: nat): (f: seq<Byte>)
    ensures |f| == 7
  {
    Calendar.Advance(BaseFields(p), Since(BaseTick(p), now) * usec / SECOND)
  }

  function ElapsedSeconds(p: Pmu, e: Env): nat {
    Since(p.clock.base, e.now) * e.usec / SECOND
  }

  function AlarmReset(i: nat): Byte
    requires i < 7
  {
    [0x7f, 0x7f, 0x3f, 0x07, 0x3f, 0x1f, 0xff][i]
  }

  /** The low bits a masked field keeps: each mask is one less than a power of two. */
  function Masked(i: nat, v: Byte): Byte
    requires i < 7
  {
    v % (AlarmReset(i) + 1)
  }

  function AlarmField(p: Pmu, i: nat): Byte
    requires i < 7
  {
    Masked(i, if RTCSCA + i in p.written then p.regs[RTCSCA + i] else AlarmReset(i))
  }

  /** A field left at its reset value takes no part in the alarm. */
  predicate AlarmMatches(p: Pmu, current: seq<Byte>)
    requires |current| == 7
  {
    (exists i | 0 <= i < 7 :: AlarmField(p, i) != AlarmReset(i)) &&
    (forall i | 0 <= i < 7 :: AlarmField(p, i) == AlarmReset(i) ||
                              AlarmField(p, i) == Masked(i, current[i]))
  }

  function AlarmFires(p: Pmu): Pmu {
    var q := Raise(p, INT1, 0x80).(clock := p.clock.(alarms := p.clock.alarms + 1));
    if Bit(OoccControl(q), 0x10) && !Bit(q.regs[INT1M], 0x80) then WakeUp(q, RtcAlarm) else q
  }

  function ClockTick(p: Pmu, e: Env): Pmu {
    var elapsed := ElapsedSeconds(p, e);
    if elapsed == p.clock.last then p
    else
      var q := Raise(p.(clock := p.clock.(last := elapsed, seconds := p.clock.seconds + 1)),
                     INT1, 0x40);
      var matches := AlarmMatches(q, Reading(q, e.now, e.usec));
      var r := if matches && !q.clock.matching then AlarmFires(q) else q;
      r.(clock := r.clock.(matching := matches))
  }

  function Tick(p: Pmu, e: Env): Pmu {
    ClockTick(ForcedTick(BatteryTick(AdcTick(StandbyTick(p, e.now), e.now, e.mv), e), e.now), e)
  }

  // ------------------------------------------------------------------- guest and operator

  function Stored(reg: nat, value: Byte): Byte {
    if reg == OOCS then value / 4 % 2 * 4
    else if reg == BVMC then value / 2 % 16 * 2
    else if reg == ADCC2 then value / 2 * 2
    else value
  }

  /** A register write; the interrupt registers are read only. */
  function WriteReg(p: Pmu, reg: nat, value: Byte, now: nat, usec: nat): Pmu {
    if reg >= REGS || INT1 <= reg <= INT3 then p
    else
      var q := p.(regs := p.regs[reg := Stored(reg, value)], written := p.written + {reg});
      if reg == OOCC1 && Bit(value, 1) then
        q.(power := q.power.(
             requests := q.power.requests + 1,
             deadline := if !q.power.standby && q.power.deadline == 0
                         then now + TicksFor(usec, 1000) else q.power.deadline))
      else if reg == ADCC2 && Bit(value, 1) then
        q.(adc := q.adc.(ready := false,
                         deadline := if value / 0x20 % 4 == 0 then now + TicksFor(usec, 25) else 0))
      else if RTCSC <= reg <= RTCYR then q.(clock := q.clock.(base := now, last := 0))
      else if RTCSCA <= reg <= RTCYRA then q.(clock := q.clock.(matching := false))
      else q
  }

  /** Reading an interrupt register clears it. */
  function ReadInt(p: Pmu, reg: nat): Pmu {
    if INT1 <= reg <= INT3 then p.(regs := p.regs[reg := 0]) else p
  }

  function KeyPressed(p: Pmu): Pmu {
    WakeUp(Raise(p, INT1, 2), OnKey)
  }

  function ChargerEvent(p: Pmu, inserted: bool): Pmu {
    var q := Raise(p, INT2, if inserted then 1 else 2);
    if inserted && Bit(OoccControl(q), 0x20) && !Bit(q.regs[INT2M], 1) then WakeUp(q, Charger)
    else q
  }

  // ------------------------------------------------------------------ saving the registers

  datatype Backup = Backup(regs: Registers, written: set<nat>, matching: bool)

  const CLOCK_REGS: set<nat> := set r | RTCSC <= r <= RTCYR

  function WithClock(regs: Registers, fields: seq<Byte>): (r: Registers)
    requires |fields| == 7
    ensures r[RTCSC..RTCYR + 1] == fields
    ensures forall i | 0 <= i < REGS && !(RTCSC <= i <= RTCYR) :: r[i] == regs[i]
  {
    regs[..RTCSC] + fields + regs[RTCYR + 1..]
  }

  /** The backup holds the clock as it reads at the moment of saving. */
  function Save(p: Pmu, now: nat, usec: nat): Backup {
    Backup(WithClock(p.regs, Reading(p, now, usec)), p.written + CLOCK_REGS, p.clock.matching)
  }

  function Restore(p: Pmu, b: Backup, now: nat): Pmu {
    p.(regs := b.regs, written := b.written,
       clock := p.clock.(base := now, last := 0, matching := b.matching))
  }

  /** Moves the clock on by the seconds the machine was off. */
  function AdvanceClock(p: Pmu, seconds: nat, now: nat, usec: nat): Pmu {
    p.(regs := WithClock(p.regs, Calendar.Advance(Reading(p, now, usec), seconds)),
       written := p.written + CLOCK_REGS,
       clock := p.clock.(base := now, last := 0, matching := false))
  }

  // ---------------------------------------------------------------- everything but the ticks

  /** What the guest, the user and the operator do to the power manager between ticks. */
  datatype Access =
    | Write(reg: nat, value: Byte)
    | ReadInterrupt(reg: nat)
    | Key
    | ChargerPlug(inserted: bool)
    | RestoreSaved(backup: Backup)
    | MoveClock(seconds: nat)

  function Apply(p: Pmu, a: Access, now: nat, usec: nat): Pmu {
    match a
    case Write(reg, value) => WriteReg(p, reg, value, now, usec)
    case ReadInterrupt(reg) => ReadInt(p, reg)
    case Key => KeyPressed(p)
    case ChargerPlug(inserted) => ChargerEvent(p, inserted)
    case RestoreSaved(backup) => Restore(p, backup, now)
    case MoveClock(seconds) => AdvanceClock(p, seconds, now, usec)
  }
}
