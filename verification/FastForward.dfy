/** The idle fast-forward (n1g_bus_idle_advance_limit and n1g_bus_advance in src/bus.c): one
    jump in place of many device ticks. */
module FastForward {
  import opened Words
  import opened Machine
  import Serial
  import Cores
  import Timer
  import PmuSpec
  import Pmu = PmuTheorems
  import I2s = I2sSpec
  import Dma = DmaSpec
  import LcdDma
  import Ata = AtaSpec
  import Intc
  import MachineInv

  const MOST: nat := 65536

  // ------------------------------------------------------------------- when nothing stirs

  predicate TimersQuiet(t: Timer.Timers) {
    !t.ch0.Enabled() && !t.ch1.Enabled()
  }

  predicate DiskQuiet(d: Ata.Disk) {
    !d.dma.pending && !d.phase.pioDataPending && !d.phase.pioCompletionPending &&
    !d.phase.nondataPending && !d.phase.resetPending
  }

  predicate DmaQuiet(d: Dma.Dma) {
    forall i | 0 <= i < Dma.CHANNELS :: !d.ch[i].armed && !d.ch[i].active
  }

  predicate BatteryQuiet(p: PmuSpec.Pmu, mv: nat) {
    var below := mv < PmuSpec.Threshold(p);
    !(!p.battery.low && below && p.battery.deadline == 0) &&
    !(p.battery.low && mv >= PmuSpec.Recovery(p)) &&
    !(!below && p.battery.deadline != 0)
  }

  predicate Quiescent(m: Machine) {
    && TimersQuiet(m.timer)
    && m.cores.cpu.wait == 0 && m.cores.cop.wait == 0
    && m.i2s.config == 0 && m.opto.release == 0 && m.opto.queue == [] && m.pmu.power.wakes == 0
    && Intc.Silent(m.lines)
    && DiskQuiet(m.disk)
    && DmaQuiet(m.dma)
    && !m.uart0.threPending && !m.uart1.threPending
    && BatteryQuiet(m.pmu, m.out.mv)
  }

  predicate Idle(m: Machine) {
    m.cores.cpu.halted && m.cores.cop.halted && Quiescent(m)
  }

  // --------------------------------------------------------------------------- the limit

  function TicksUntil(now: nat, deadline: nat): nat {
    if deadline > now then deadline - now else 1
  }

  /** The deadlines of the power manager, zero for none. */
  function Deadlines(p: PmuSpec.Pmu): (r: seq<nat>)
    ensures |r| == 4
  {
    [p.power.deadline, p.adc.deadline, p.battery.deadline, p.battery.standbyDeadline]
  }

  function Sooner(limit: nat, now: nat, deadline: nat): nat {
    if deadline != 0 && TicksUntil(now, deadline) < limit then TicksUntil(now, deadline) else limit
  }

  function DeadlineLimit(now: nat, deadlines: seq<nat>): nat {
    if deadlines == [] then MOST
    else Sooner(DeadlineLimit(now, deadlines[..|deadlines| - 1]), now, deadlines[|deadlines| - 1])
  }

  /** The ticks until the clock reaches its next second. */
  function UntilSecond(p: PmuSpec.Pmu, now: nat, usec: nat): nat
    requires usec > 0
  {
    var target := (p.clock.last + 1) * PmuSpec.SECOND;
    var elapsed := PmuSpec.Since(p.clock.base, now) * usec;
    if target > elapsed then (target - elapsed + usec - 1) / usec else 1
  }

  function Limit(m: Machine): nat {
    if !Idle(m) then 1
    else
      var limit := DeadlineLimit(m.ticks, Deadlines(m.pmu));
      var until := if m.o.usec != 0 then UntilSecond(m.pmu, m.ticks, m.o.usec) else limit;
      var least := if until < limit then until else limit;
      if least == 0 then 1 else least
  }

  /** The jump. */
  function Advance(m: Machine, k: nat): (r: Machine)
    requires m.o.divider > 0
    ensures r.o == m.o && r.ticks == m.ticks + if k <= 1 then 1 else k
  {
    if k <= 1 then Tick(m) else IntcTick(PmuTick(Skipped(m, k)))
  }

  function Skipped(m: Machine, k: nat): Machine {
    m.(ticks := m.ticks + k,
       timer := m.timer.(usec := Add32(m.timer.usec, k * m.o.usec % TWO_TO_32)))
  }

  // ----------------------------------------------------------- a tick that changes nothing

  function PhaseLater(phase: nat, usec: nat, divider: nat, k: nat): nat
    requires divider > 0
  {
    (phase + k * usec) % divider
  }

  /** What a stretch of idle ticks leaves: time has passed. */
  function Passed(m: Machine, k: nat): Machine
    requires m.o.divider > 0
  {
    m.(ticks := m.ticks + k,
       timer := m.timer.(usec := Add32(m.timer.usec, k * m.o.usec),
                         phase := PhaseLater(m.timer.phase, m.o.usec, m.o.divider, k)))
  }

  lemma TimersStill(t: Timer.Timers, usec: nat, divider: nat)
    requires TimersQuiet(t) && divider > 0
    ensures Timer.TimersTick(t, usec, divider) ==
            Timer.Ticked(t.(usec := Add32(t.usec, usec), phase := (t.phase + usec) % divider), false, false)
  {
    hide Bit, Timer.Steps;
    var steps := (t.phase + usec) / divider;
    Timer.StoppedSteps(t.ch0, steps);
    Timer.StoppedSteps(t.ch1, steps);
  }

  lemma I2sStill(s: I2s.I2s, c: I2s.Codec, usec: nat, lines: Intc.Lines)
    requires s.config == 0 && I2sAtRest(s)
    ensures I2s.Tick(s, c, usec) == s && I2s.TickLines(lines, s, c, usec) == lines
  {
    hide I2s.Play, I2s.UpdateIrq;
  }

  /** Nothing asks the DMA engine for anything: it is quiet and no request is waiting. */
  predicate DmaRests(s: Dma.System) {
    DmaQuiet(s.dma) && (!s.apple ==> LcdDma.NoneWaiting(s.dma))
  }

  lemma {:induction false} DmaStill(s: Dma.System, n: nat)
    requires DmaRests(s) && n <= Dma.CHANNELS
    ensures Dma.TickChannels(s, n) == s
  {
    if n != 0 {
      hide Bit, Dma.PourChannel, Dma.Feed, Dma.Mismatch, Dma.Accept;
      DmaStill(s, n - 1);
      assert !s.dma.ch[n - 1].armed && !s.dma.ch[n - 1].active;
    }
  }

  lemma SerialStill(lines: Intc.Lines, a: Serial.Uart, b: Serial.Uart)
    requires Intc.Silent(lines) && a.lsr == 0 && b.lsr == 0 && !a.threPending && !b.threPending
    ensures Serial.UpdateIrq(Serial.UpdateIrq(lines, a, 0), b, 1) == lines
  {
    hide Intc.SetHigh, Intc.Silent;
    Intc.ClearSilent(lines, Serial.Line(0));
    Intc.ClearSilent(lines, Serial.Line(1));
  }

  lemma DiskStill(a: Ata.Ata)
    requires DiskQuiet(a.d)
    ensures Ata.Tick(a).a == a
  {
    hide Ata.CompleteReset, Ata.CompleteDma;
  }

  lemma IntcStill(p: Cores.Pair, lines: Intc.Lines)
    requires Intc.Silent(lines)
    ensures Cores.CpuInterrupts(p.cpu, lines) == p.cpu && Cores.CopInterrupts(p.cop, lines) == p.cop
  {
    hide Intc.Silent, Intc.CpuFiq, Intc.CpuIrq, Intc.CopFiq, Intc.CopIrq;
    Intc.SilentSelectsNothing(lines);
  }

  /** Everything but the timers and the power manager rests. */
  predicate Rests(m: Machine) {
    && m.opto.release == 0 && m.i2s.config == 0 && I2sAtRest(m.i2s)
    && DmaRests(Engine(m))
    && NothingReceived(m) && !m.uart0.threPending && !m.uart1.threPending
    && m.cores.cpu.wait == 0 && m.cores.cop.wait == 0
    && DiskQuiet(m.disk) && Intc.Silent(m.lines)
  }

  lemma LaterStill(m: Machine)
    requires Rests(m)
    ensures LaterTicks(m) == m
  {
    hide I2s.Tick, I2s.TickLines, Dma.TickChannels, Ata.Tick, Serial.UpdateIrq, Intc.Silent,
         DiskQuiet, DmaRests, Cores.CpuInterrupts, Cores.CopInterrupts, I2sAtRest, Bit,
         Cores.Counted;
    I2sStill(m.i2s, m.out.codec, m.o.usec, m.lines);
    DmaStill(Engine(m), Dma.CHANNELS);
    SerialStill(m.lines, m.uart0, m.uart1);
    DiskStill(Controller(m));
    IntcStill(m.cores, m.lines);
  }

  lemma PassedOne(m: Machine)
    requires m.o.divider > 0 && TimersQuiet(m.timer) && m.opto.release == 0
    ensures TimerTick(OptoTick(Count(m))) == Passed(m, 1)
  {
    hide Timer.Steps, Timer.TimersTick, TimersQuiet, Add32;
    TimersStill(m.timer, m.o.usec, m.o.divider);
  }

  /** In a resting machine a tick is the passing of time and a tick of the power manager. */
  lemma RestingTick(m: Machine)
    requires m.o.divider > 0 && TimersQuiet(m.timer) && Rests(m)
    ensures Tick(m) == PmuTick(Passed(m, 1))
  {
    hide Timer.TimersTick, TimersQuiet, Add32, PmuSpec.Tick, LaterTicks, TimerTick, OptoTick, Count,
         I2sAtRest, DmaRests, DiskQuiet, Intc.Silent;
    PassedOne(m);
    LaterStill(PmuTick(Passed(m, 1)));
  }

  // -------------------------------------------------------------------- the power manager

  /** No deadline has been reached and the second is the one last seen. */
  predicate NothingDue(p: PmuSpec.Pmu, e: PmuSpec.Env) {
    && (forall i | 0 <= i < 4 :: Deadlines(p)[i] == 0 || e.now < Deadlines(p)[i])
    && PmuSpec.ElapsedSeconds(p, e) == p.clock.last
  }

  lemma PmuStill(p: PmuSpec.Pmu, e: PmuSpec.Env)
    requires BatteryQuiet(p, e.mv) && NothingDue(p, e)
    ensures PmuSpec.Tick(p, e) == p
  {
    hide PmuSpec.Threshold, PmuSpec.Recovery, PmuSpec.EnterStandby, PmuSpec.Debounce,
         PmuSpec.ElapsedSeconds, PmuSpec.AlarmMatches, PmuSpec.Reading, PmuSpec.AdcInput;
    var d := Deadlines(p);
    assert d[0] == 0 || e.now < d[0];
    assert d[1] == 0 || e.now < d[1];
    assert d[2] == 0 || e.now < d[2];
    assert d[3] == 0 || e.now < d[3];
  }

  lemma {:induction false} BeforeDeadlines(now: nat, deadlines: seq<nat>, j: nat)
    requires 1 <= j < DeadlineLimit(now, deadlines)
    ensures forall i | 0 <= i < |deadlines| :: deadlines[i] == 0 || now + j < deadlines[i]
    ensures j < MOST
  {
    if deadlines != [] {
      BeforeDeadlines(now, deadlines[..|deadlines| - 1], j);
    }
  }

  lemma CeilBelow(x: nat, d: nat, j: nat)
    requires d > 0 && j < (x + d - 1) / d
    ensures j * d < x
  {
    var q := (x + d - 1) / d;
    assert q * d <= x + d - 1;
    assert (q - 1 - j) * d == q * d - d - j * d;
    assert (q - 1 - j) * d >= 0;
  }

  /** Until the next second the clock stays at the one last seen. */
  lemma BeforeSecond(p: PmuSpec.Pmu, now: nat, usec: nat, j: nat)
    requires usec > 0 && Pmu.ClockInOrder(p, now, usec)
    requires 1 <= j < UntilSecond(p, now, usec)
    ensures PmuSpec.Since(p.clock.base, now + j) * usec / PmuSpec.SECOND == p.clock.last
  {
    var target := (p.clock.last + 1) * PmuSpec.SECOND;
    var elapsed := PmuSpec.Since(p.clock.base, now) * usec;
    assert target > elapsed;
    CeilBelow(target - elapsed, usec, j);
    assert PmuSpec.Since(p.clock.base, now + j) * usec == elapsed + j * usec;
    assert j * usec >= 0;
  }

  /** Within the limit, nothing of the power manager falls due. */
  lemma WithinLimit(m: Machine, j: nat)
    requires Idle(m) && Pmu.ClockInOrder(m.pmu, m.ticks, m.o.usec) && 1 <= j < Limit(m)
    ensures NothingDue(m.pmu, PmuSpec.Env(m.ticks + j, m.o.usec, m.out.mv))
    ensures j < MOST
  {
    hide Quiescent, UntilSecond, DeadlineLimit, Pmu.ClockInOrder;
    BeforeDeadlines(m.ticks, Deadlines(m.pmu), j);
    if m.o.usec > 0 {
      BeforeSecond(m.pmu, m.ticks, m.o.usec, j);
    } else {
      ClockLater(m.pmu, m.ticks, j);
    }
  }

  lemma ClockLater(p: PmuSpec.Pmu, now: nat, j: nat)
    requires Pmu.ClockInOrder(p, now, 0)
    ensures Pmu.ClockInOrder(p, now + j, 0)
  {
    assert PmuSpec.Since(p.clock.base, now) * 0 == 0;
    assert PmuSpec.Since(p.clock.base, now + j) * 0 == 0;
  }

  // ---------------------------------------------------------------------------- the jump

  lemma RestsButClock(m: Machine)
    requires InvButClock(m) && Idle(m)
    ensures TimersQuiet(m.timer) && Rests(m) && BatteryQuiet(m.pmu, m.out.mv)
    ensures m.timer.phase < m.o.divider
  {
    hide LcdDma.NoneWaiting, Intc.Silent, DiskQuiet, TimersQuiet, BatteryQuiet, I2s.Enabled, DmaQuiet;
  }

  lemma IdleRests(m: Machine)
    requires Inv(m) && Idle(m)
    ensures TimersQuiet(m.timer) && Rests(m) && BatteryQuiet(m.pmu, m.out.mv)
    ensures Pmu.ClockInOrder(m.pmu, m.ticks, m.o.usec) && m.timer.phase < m.o.divider
  {
    hide InvButClock, Idle, Rests, TimersQuiet, BatteryQuiet, Pmu.ClockInOrder;
    RestsButClock(m);
  }

  lemma PassedMore(m: Machine, j: nat)
    requires m.o.divider > 0
    ensures Passed(Passed(m, j), 1) == Passed(m, j + 1)
  {
    hide Add32, PhaseLater;
    PhaseMore(m.timer.phase, m.o.usec, m.o.divider, j);
    Add32Adds(m.timer.usec, j * m.o.usec, m.o.usec);
  }

  lemma PhaseMore(phase: nat, usec: nat, divider: nat, j: nat)
    requires divider > 0
    ensures PhaseLater(PhaseLater(phase, usec, divider, j), usec, divider, 1) ==
            PhaseLater(phase, usec, divider, j + 1)
    ensures j * usec + usec == (j + 1) * usec
  {
    DivideSum(phase, j * usec, usec, divider);
  }

  lemma PassedRests(m: Machine, j: nat)
    requires m.o.divider > 0 && TimersQuiet(m.timer) && Rests(m)
    ensures TimersQuiet(Passed(m, j).timer) && Rests(Passed(m, j))
  {
    hide DmaRests, DiskQuiet, Intc.Silent, I2sAtRest, Add32;
  }

  /** Every tick within the limit only lets time pass; the machine stays idle. */
  lemma {:induction false} SkippedTicks(m: Machine, j: nat)
    requires Inv(m) && Idle(m) && j < Limit(m)
    ensures Ticks(m, j) == Passed(m, j) && Idle(Passed(m, j))
  {
    hide Limit, Tick, Inv, Rests, TimersQuiet, PmuTick;
    IdleRests(m);
    MachineInv.InvDivider(m);
    PassedIdle(m, j);
    if j == 0 {
      hide Passed;
    } else {
      hide Passed, Idle;
      SkippedTicks(m, j - 1);
      PassedRests(m, j - 1);
      RestingTick(Passed(m, j - 1));
      PassedMore(m, j - 1);
      PmuSkips(m, j);
    }
  }

  lemma PassedIdle(m: Machine, j: nat)
    requires m.o.divider > 0 && Idle(m)
    ensures Idle(Passed(m, j))
  {
    hide DmaQuiet, DiskQuiet, Intc.Silent, BatteryQuiet, Add32, Bit;
  }

  lemma PmuSkips(m: Machine, j: nat)
    requires Inv(m) && Idle(m) && 1 <= j < Limit(m)
    ensures PmuTick(Passed(m, j)) == Passed(m, j)
  {
    hide Limit, Idle, Inv, NothingDue, BatteryQuiet, PmuSpec.Tick, Rests, Pmu.ClockInOrder, Add32,
         TimersQuiet;
    IdleRests(m);
    MachineInv.InvDivider(m);
    WithinLimit(m, j);
    PmuStill(m.pmu, PmuSpec.Env(m.ticks + j, m.o.usec, m.out.mv));
  }

  /** Up to the phase of the timers' prescaler. */
  function WithPhase(m: Machine, phase: nat): Machine {
    m.(timer := m.timer.(phase := phase))
  }

  lemma Add32Wraps(a: Word, b: nat)
    ensures Add32(a, b % TWO_TO_32) == Add32(a, b)
  {
  }

  lemma LastTick(m: Machine, k: nat)
    requires Inv(m) && Idle(m) && 2 <= k <= Limit(m)
    ensures Ticks(m, k) == PmuTick(Passed(m, k))
  {
    hide Limit, Idle, Inv, Tick, Rests, TimersQuiet, PmuTick, Passed;
    MachineInv.InvDivider(m);
    SkippedTicks(m, k - 1);
    IdleRests(m);
    PassedRests(m, k - 1);
    RestingTick(Passed(m, k - 1));
    PassedMore(m, k - 1);
  }

  lemma AdvanceIsPmuTick(m: Machine, k: nat)
    requires m.o.divider > 0 && Idle(m) && k >= 2
    ensures Advance(m, k) == WithPhase(PmuTick(Passed(m, k)), m.timer.phase)
  {
    hide PmuSpec.Tick, Add32, Tick, Cores.CpuInterrupts, Cores.CopInterrupts;
    assert Intc.Silent(m.lines);
    hide Idle, Intc.Silent;
    Add32Wraps(m.timer.usec, k * m.o.usec);
    IntcStill(PmuTick(Passed(m, k)).cores, m.lines);
  }

  /** The jump ends where that many single ticks end, for every idle machine and every number
      of ticks within the limit: the two states differ only in the prescaler's phase, which the
      jump leaves alone. */
  lemma AdvanceIsTicks(m: Machine, k: nat)
    requires Inv(m) && 2 <= k <= Limit(m)
    ensures Advance(m, k) == WithPhase(Ticks(m, k), m.timer.phase)
  {
    hide Inv, Tick, PmuTick, Passed, Idle, Ticks, Advance;
    assert Idle(m);
    hide Limit;
    LastTick(m, k);
    MachineInv.InvDivider(m);
    AdvanceIsPmuTick(m, k);
  }

  lemma PhaseAfter(m: Machine, k: nat)
    requires m.o.divider > 0
    ensures PmuTick(Passed(m, k)).timer.phase == (m.timer.phase + k * m.o.usec) % m.o.divider
  {
    hide PmuSpec.Tick, Add32;
  }

  /** The phase comes out the same exactly when the jump is a whole number of timer steps. */
  lemma SamePhase(phase: nat, elapsed: nat, divider: nat)
    requires phase < divider
    ensures (phase + elapsed) % divider == phase <==> elapsed % divider == 0
  {
    var q, r := elapsed / divider, elapsed % divider;
    assert elapsed == q * divider + r;
    if phase + r < divider {
      ModUnique(phase + elapsed, q, phase + r, divider);
    } else {
      assert (q + 1) * divider == q * divider + divider;
      ModUnique(phase + elapsed, q + 1, phase + r - divider, divider);
    }
  }

  /** The states are equal outright if and only if the time jumped over is a multiple of the
      timers' divider. */
  lemma AdvanceExact(m: Machine, k: nat)
    requires Inv(m) && 2 <= k <= Limit(m)
    ensures Advance(m, k) == Ticks(m, k) <==> k * m.o.usec % m.o.divider == 0
  {
    hide Inv, Tick, PmuTick, Passed, Idle, Ticks, Advance;
    assert Idle(m);
    hide Limit;
    AdvanceIsTicks(m, k);
    LastTick(m, k);
    MachineInv.InvDivider(m);
    PhaseAfter(m, k);
    IdleRests(m);
    SamePhase(m.timer.phase, k * m.o.usec, m.o.divider);
  }

  lemma {:induction false} NoDeadlines(now: nat, deadlines: seq<nat>)
    requires forall i | 0 <= i < |deadlines| :: deadlines[i] == 0
    ensures DeadlineLimit(now, deadlines) == MOST
  {
    if deadlines != [] {
      NoDeadlines(now, deadlines[..|deadlines| - 1]);
    }
  }

  // ------------------------------------------------------------------------- as it is done

  /** The loop over the deadlines, and the clock. */
  method IdleAdvanceLimit(m: Machine) returns (limit: nat)
    ensures limit == Limit(m) && limit >= 1
  {
    hide Idle, UntilSecond;
    if !Idle(m) { return 1; }
    limit := MOST;
    var deadlines := Deadlines(m.pmu);
    for i := 0 to 4
      invariant limit == DeadlineLimit(m.ticks, deadlines[..i])
    {
      assert deadlines[..i + 1][..i] == deadlines[..i];
      if deadlines[i] != 0 {
        var until := TicksUntil(m.ticks, deadlines[i]);
        if until < limit {
          limit := until;
        }
      }
    }
    assert deadlines[..4] == deadlines;
    if m.o.usec != 0 {
      var until := UntilSecond(m.pmu, m.ticks, m.o.usec);
      if until < limit {
        limit := until;
      }
    }
    limit := if limit == 0 then 1 else limit;
  }
}
