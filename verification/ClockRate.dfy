/** Where a jump is not what its ticks are: the prescaler's phase, and the seconds of the clock
    after the length of a tick has been changed. */
module ClockRate {
  import opened Words
  import opened Machine
  import opened FastForward
  import MachineInv
  import AtaInvariant
  import Cores
  import I2s = I2sSpec
  import Opto
  import Intc
  import PmuSpec
  import Pmu = PmuTheorems
  import Ram

  // ------------------------------------------------------------------ seconds over a jump

  /** The second the clock shows `j` ticks from now. */
  function SecondAt(m: Machine, j: nat): nat {
    PmuSpec.Since(m.pmu.clock.base, m.ticks + j) * m.o.usec / PmuSpec.SECOND
  }

  /** The second that was last seen `j` ticks from now. */
  function SeenAt(m: Machine, j: nat): nat {
    if j == 0 then m.pmu.clock.last else SecondAt(m, j)
  }

  /** How often the second shown differs from the one seen before, in `j` ticks. */
  function Changes(m: Machine, j: nat): nat {
    if j == 0 then 0 else Changes(m, j - 1) + if SecondAt(m, j) != SeenAt(m, j - 1) then 1 else 0
  }

  /** A tick of the machine is, for the power manager, a tick of its own. */
  lemma TickOfPmu(m: Machine)
    requires m.o.divider > 0
    ensures Tick(m).pmu == PmuSpec.Tick(m.pmu, PmuSpec.Env(m.ticks + 1, m.o.usec, m.out.mv))
    ensures Tick(m).out == m.out
  {
    hide PmuSpec.Tick, I2sTick, DmaTick, CoresTick, DiskTick, SerialTick, IntcTick,
         TimerTick, Opto.Tick;
    EarlierKeep(m);
    LaterKeep(PmuTick(TimerTick(OptoTick(Count(m)))));
    hide LaterTicks;
  }

  lemma EarlierKeep(m: Machine)
    requires m.o.divider > 0
    ensures var n := TimerTick(OptoTick(Count(m)));
            n.pmu == m.pmu && n.out == m.out && n.o == m.o && n.ticks == m.ticks + 1
  {
  }

  lemma LaterKeep(m: Machine)
    ensures LaterTicks(m).pmu == m.pmu && LaterTicks(m).out == m.out
  {
  }

  /** Every tick sees the second it shows, and counts the change. */
  lemma {:induction false} SecondsOfTicks(m: Machine, j: nat)
    requires m.o.divider > 0
    ensures var n := Ticks(m, j);
            && n.ticks == m.ticks + j && n.out == m.out && n.pmu.clock.base == m.pmu.clock.base
            && n.pmu.clock.last == SeenAt(m, j)
            && n.pmu.clock.seconds == m.pmu.clock.seconds + Changes(m, j)
  {
    hide Tick, PmuSpec.Tick;
    if j != 0 {
      SecondsOfTicks(m, j - 1);
      var n := Ticks(m, j - 1);
      var e := PmuSpec.Env(n.ticks + 1, n.o.usec, n.out.mv);
      TickOfPmu(n);
      Pmu.TickClock(n.pmu, e);
      Pmu.TickSeconds(n.pmu, e);
      assert PmuSpec.ElapsedSeconds(n.pmu, e) == SecondAt(m, j);
    }
  }

  lemma SecondsOfJump(m: Machine, k: nat)
    requires m.o.divider > 0 && k >= 2
    ensures Advance(m, k).pmu.clock.seconds ==
            m.pmu.clock.seconds + if SecondAt(m, k) != m.pmu.clock.last then 1 else 0
  {
    hide PmuSpec.Tick, Tick, Cores.CpuInterrupts, Cores.CopInterrupts;
    var e := PmuSpec.Env(m.ticks + k, m.o.usec, m.out.mv);
    Pmu.TickSeconds(m.pmu, e);
    assert Advance(m, k).pmu == PmuSpec.Tick(m.pmu, e);
    assert PmuSpec.ElapsedSeconds(m.pmu, e) == SecondAt(m, k);
  }

  lemma SecondsGrow(m: Machine, i: nat, j: nat)
    requires m.pmu.clock.base <= m.ticks && i <= j
    ensures SecondAt(m, i) <= SecondAt(m, j)
  {
    var s := m.ticks - m.pmu.clock.base;
    assert (s + j) * m.o.usec == (s + i) * m.o.usec + (j - i) * m.o.usec;
    assert (j - i) * m.o.usec >= 0;
  }

  /** Before the limit the clock does not pass the second last seen. */
  lemma NotYetNext(m: Machine, j: nat)
    requires Idle(m) && m.o.usec > 0 && m.pmu.clock.base <= m.ticks && 1 <= j < Limit(m)
    ensures SecondAt(m, j) <= m.pmu.clock.last
  {
    hide Idle, DeadlineLimit;
    var elapsed := PmuSpec.Since(m.pmu.clock.base, m.ticks) * m.o.usec;
    var target := (m.pmu.clock.last + 1) * PmuSpec.SECOND;
    assert j < UntilSecond(m.pmu, m.ticks, m.o.usec);
    assert target > elapsed;
    CeilBelow(target - elapsed, m.o.usec, j);
    assert PmuSpec.Since(m.pmu.clock.base, m.ticks + j) * m.o.usec == elapsed + j * m.o.usec;
    assert (elapsed + j * m.o.usec) / PmuSpec.SECOND < m.pmu.clock.last + 1;
  }

  /** Between the first tick and a later one there is a change for each of the two that shows
      another second than was seen before. */
  lemma {:induction false} AtLeast(m: Machine, j: nat)
    requires m.pmu.clock.base <= m.ticks && j >= 1
    ensures var first := if SecondAt(m, 1) != m.pmu.clock.last then 1 else 0;
            && (SecondAt(m, j) == SecondAt(m, 1) ==> Changes(m, j) == first)
            && (SecondAt(m, j) != SecondAt(m, 1) ==> Changes(m, j) >= first + 1)
  {
    hide SecondAt;
    assert Changes(m, 0) == 0;
    if j > 1 {
      AtLeast(m, j - 1);
      SecondsGrow(m, 1, j - 1);
      SecondsGrow(m, j - 1, j);
    }
  }

  /** A jump within the limit counts as many seconds as its ticks if and only if the first
      tick shows the second last seen, or no later one shows another. At a constant rate the
      former always holds. */
  lemma SecondsExact(m: Machine, k: nat)
    requires m.o.divider > 0 && Idle(m) && m.o.usec > 0 && m.pmu.clock.base <= m.ticks
    requires 2 <= k <= Limit(m)
    ensures Advance(m, k).pmu.clock.seconds == Ticks(m, k).pmu.clock.seconds <==>
            SecondAt(m, 1) == m.pmu.clock.last || SecondAt(m, 1) == SecondAt(m, k)
  {
    hide SecondAt, Changes, Idle, Limit, Advance, Ticks;
    SecondsOfTicks(m, k);
    SecondsOfJump(m, k);
    AtLeast(m, k);
    if SecondAt(m, 1) == m.pmu.clock.last {
      NotYetNext(m, k - 1);
      SecondsGrow(m, 1, k - 1);
      AtLeast(m, k - 1);
      LastChange(m, k);
    }
  }

  lemma LastChange(m: Machine, k: nat)
    requires k >= 2
    ensures Changes(m, k) ==
            Changes(m, k - 1) + if SecondAt(m, k) != SecondAt(m, k - 1) then 1 else 0
  {
    hide SecondAt;
  }

  // ------------------------------------------------------------ the whole state over a jump

  /** The next tick shows the second last seen; nothing is asked of the last second itself. */
  predicate NextSeen(m: Machine) {
    m.o.usec > 0 && m.pmu.clock.base <= m.ticks && SecondAt(m, 1) == m.pmu.clock.last
  }

  lemma StaysSeen(m: Machine, j: nat)
    requires InvButClock(m) && Idle(m) && NextSeen(m) && 1 <= j < Limit(m)
    ensures PmuTick(Passed(m, j)) == Passed(m, j)
  {
    hide InvButClock, Quiescent, DeadlineLimit, UntilSecond, SecondAt, PhaseLater, Add32, PmuSpec.Tick;
    RestsButClock(m);
    BeforeDeadlines(m.ticks, Deadlines(m.pmu), j);
    NotYetNext(m, j);
    SecondsGrow(m, 1, j);
    SecondIs(m, j);
    PmuStill(m.pmu, PmuSpec.Env(m.ticks + j, m.o.usec, m.out.mv));
  }

  lemma SecondIs(m: Machine, j: nat)
    ensures PmuSpec.ElapsedSeconds(m.pmu, PmuSpec.Env(m.ticks + j, m.o.usec, m.out.mv)) == SecondAt(m, j)
  {
  }

  lemma {:induction false} SkippedWhenSeen(m: Machine, j: nat)
    requires InvButClock(m) && Idle(m) && NextSeen(m) && j < Limit(m)
    ensures Ticks(m, j) == Passed(m, j)
  {
    hide InvButClock, Limit, Tick, Rests, TimersQuiet, PmuTick, Idle, NextSeen, Passed;
    RestsButClock(m);
    if j == 0 {
      PassedNone(m);
    } else {
      SkippedWhenSeen(m, j - 1);
      PassedRests(m, j - 1);
      RestingTick(Passed(m, j - 1));
      PassedMore(m, j - 1);
      StaysSeen(m, j);
    }
  }

  lemma PassedNone(m: Machine)
    requires m.o.divider > 0 && m.timer.phase < m.o.divider
    ensures Passed(m, 0) == m
  {
    assert 0 * m.o.usec == 0;
    ModUnique(m.timer.phase, 0, m.timer.phase, m.o.divider);
  }

  /** A jump is its ticks, up to the prescaler's phase, whenever the next tick shows the second
      last seen. The clock need not be in order otherwise, so this also holds right after the
      length of a tick has been changed. */
  lemma AdvanceWhenSeen(m: Machine, k: nat)
    requires InvButClock(m) && NextSeen(m) && 2 <= k <= Limit(m)
    ensures Advance(m, k) == WithPhase(Ticks(m, k), m.timer.phase)
  {
    hide InvButClock, Tick, PmuTick, Passed, Idle, Advance, NextSeen, Rests, TimersQuiet;
    assert Idle(m);
    hide Limit;
    RestsButClock(m);
    SkippedWhenSeen(m, k - 1);
    PassedRests(m, k - 1);
    RestingTick(Passed(m, k - 1));
    PassedMore(m, k - 1);
    AdvanceIsPmuTick(m, k);
  }

  // ------------------------------------------------------------------- a machine put to sleep

  /** Both cores have put themselves to sleep right after power-on. */
  function Asleep(o: Options, media: seq<Byte>, ram: Ram.Memory, codec: I2s.Codec): Machine
    requires o.divider > 0
  {
    var lines := Intc.Lines(0, 0, 0, 0, 0, 0, 0, 0, 0, 0, 0, 0, 0, 0);
    var m := PowerOn(o, Outside(4000, codec, false, false), AtaInvariant.PowerOn(media, lines, ram).d, ram);
    Happen(Happen(m, ControlWrite(true, Cores.SLEEP)), ControlWrite(false, Cores.SLEEP))
  }

  /** What holds of it from then on: it sleeps, nothing is due but the next second, and the
      second last seen is the one shown. */
  predicate Dozing(m: Machine, o: Options, n: nat) {
    && m.o == o && m.ticks == n && Inv(m) && Idle(m)
    && Deadlines(m.pmu) == [0, 0, 0, 0] && m.pmu.written == {}
    && m.pmu.clock.base == 0 && m.pmu.clock.last == n * o.usec / PmuSpec.SECOND
  }

  lemma AsleepDozes(o: Options, media: seq<Byte>, ram: Ram.Memory, codec: I2s.Codec)
    requires o.divider > 0
    ensures Dozing(Asleep(o, media, ram, codec), o, 0)
  {
    var lines := Intc.Lines(0, 0, 0, 0, 0, 0, 0, 0, 0, 0, 0, 0, 0, 0);
    var disk := AtaInvariant.PowerOn(media, lines, ram).d;
    var out := Outside(4000, codec, false, false);
    MachineInv.PowerOnInv(o, out, disk, ram);
    hide Inv;
    MachineInv.UntouchedInv(PowerOn(o, out, disk, ram), Asleep(o, media, ram, codec));
    assert 0 * o.usec == 0;
  }

  /** Without an alarm, a deadline or a low battery, all a tick does is to see the second. */
  lemma PmuDozes(p: PmuSpec.Pmu, e: PmuSpec.Env)
    requires BatteryQuiet(p, e.mv) && Deadlines(p) == [0, 0, 0, 0] && p.written == {}
    ensures var q := PmuSpec.Tick(p, e);
            && q.written == {} && q.power == p.power && q.adc == p.adc && q.battery == p.battery
            && q.clock.base == p.clock.base && q.clock.last == PmuSpec.ElapsedSeconds(p, e)
            && BatteryQuiet(q, e.mv)
  {
    hide PmuSpec.ElapsedSeconds, PmuSpec.Reading, PmuSpec.EnterStandby, PmuSpec.AdcDone,
         PmuSpec.Debounce, PmuSpec.AlarmMatches, PmuSpec.AlarmFires;
    var d := Deadlines(p);
    assert d[0] == 0 && d[1] == 0 && d[2] == 0 && d[3] == 0;
    assert PmuSpec.BatteryTick(p, e) == p;
    hide PmuSpec.BatteryTick;
    var q := PmuSpec.Raise(p.(clock := p.clock.(last := PmuSpec.ElapsedSeconds(p, e),
                                               seconds := p.clock.seconds + 1)), PmuSpec.INT1, 0x40);
    NoAlarm(q, PmuSpec.Reading(q, e.now, e.usec));
  }

  lemma NoAlarm(p: PmuSpec.Pmu, current: seq<Byte>)
    requires p.written == {} && |current| == 7
    ensures !PmuSpec.AlarmMatches(p, current)
  {
    hide PmuSpec.AlarmReset;
    forall i | 0 <= i < 7 ensures PmuSpec.AlarmField(p, i) == PmuSpec.AlarmReset(i) {
      ModUnique(PmuSpec.AlarmReset(i), 0, PmuSpec.AlarmReset(i), PmuSpec.AlarmReset(i) + 1);
    }
  }

  lemma DozingTick(m: Machine, o: Options, n: nat)
    requires Dozing(m, o, n) && o.divider > 0
    ensures Dozing(Tick(m), o, n + 1)
  {
    hide Inv, Rests, TimersQuiet, Tick, PmuTick, Passed, BatteryQuiet, DiskQuiet, DmaQuiet, Intc.Silent,
         PmuSpec.Tick;
    IdleRests(m);
    MachineInv.TickInv(m);
    RestingTick(m);
    PmuDozes(m.pmu, PmuSpec.Env(n + 1, o.usec, m.out.mv));
    PassedOnly(m);
    assert PmuSpec.ElapsedSeconds(m.pmu, PmuSpec.Env(n + 1, o.usec, m.out.mv)) == (n + 1) * o.usec / PmuSpec.SECOND;
  }

  /** What a tick of the power manager on a machine after one idle tick is made of. */
  lemma PassedOnly(m: Machine)
    requires m.o.divider > 0 && TimersQuiet(m.timer)
    ensures var p := PmuSpec.Tick(m.pmu, PmuSpec.Env(m.ticks + 1, m.o.usec, m.out.mv));
            var n := PmuTick(Passed(m, 1));
            && n == Passed(m, 1).(pmu := p, cores := n.cores)
            && (p.power == m.pmu.power ==> n.cores == m.cores)
            && TimersQuiet(n.timer)
            && n == m.(ticks := m.ticks + 1, timer := n.timer, pmu := p, cores := n.cores)
  {
    hide PmuSpec.Tick, PhaseLater, Add32, Bit;
  }

  lemma {:induction false} DozingTicks(m: Machine, o: Options, n: nat)
    requires Dozing(m, o, 0) && o.divider > 0
    ensures Dozing(Ticks(m, n), o, n)
  {
    hide Dozing, Tick;
    DozingOptions(m, o, 0);
    if n != 0 {
      DozingTicks(m, o, n - 1);
      DozingTick(Ticks(m, n - 1), o, n - 1);
    }
  }

  lemma DozingOptions(m: Machine, o: Options, n: nat)
    requires Dozing(m, o, n)
    ensures m.o == o
  {
    hide Inv, Idle;
  }

  lemma DozingLimit(m: Machine, o: Options, n: nat, k: nat)
    requires Dozing(m, o, n) && o.usec > 0 && k <= MOST
    requires k * o.usec <= (m.pmu.clock.last + 1) * PmuSpec.SECOND - n * o.usec
    ensures k <= Limit(m)
  {
    hide Inv, Idle;
    NoDeadlines(m.ticks, Deadlines(m.pmu));
    var left := (m.pmu.clock.last + 1) * PmuSpec.SECOND - n * o.usec;
    CeilCovers(left, o.usec, k);
  }

  lemma CeilCovers(x: nat, d: nat, k: nat)
    requires d > 0 && k * d <= x
    ensures k <= (x + d - 1) / d
  {
    var q := (x + d - 1) / d;
    assert (q - k) * d == q * d - k * d;
    MulOrder(q - k, d);
  }

  /** The machine after the slice in which it went to sleep, which ends in a device tick. */
  function Settled(o: Options, media: seq<Byte>, ram: Ram.Memory, codec: I2s.Codec): Machine
    requires o.divider > 0
  {
    Ticks(Asleep(o, media, ram, codec), 1)
  }

  lemma SettledDozes(o: Options, media: seq<Byte>, ram: Ram.Memory, codec: I2s.Codec)
    requires o.divider > 0
    ensures Dozing(Settled(o, media, ram, codec), o, 1)
  {
    hide Asleep, Ticks, Dozing;
    AsleepDozes(o, media, ram, codec);
    DozingTicks(Asleep(o, media, ram, codec), o, 1);
  }

  // --------------------------------------------------------------------------- instances

  /** The phase at the default of one microsecond a tick and a divider of 20: the machine may
      jump two ticks, and that leaves another phase than two ticks do. */
  lemma PhaseDiffers(media: seq<Byte>, ram: Ram.Memory, codec: I2s.Codec)
    ensures var m := Settled(Options(1, 20, false), media, ram, codec);
            Inv(m) && 2 <= Limit(m) && Advance(m, 2) != Ticks(m, 2)
  {
    hide Settled, Advance, Ticks, Limit, Inv, Idle, Tick;
    var o := Options(1, 20, false);
    var m := Settled(o, media, ram, codec);
    SettledDozes(o, media, ram, codec);
    DozingLimit(m, o, 1, 2);
    AdvanceExact(m, 2);
  }

  /** A machine that has slept for five seconds at 4096 microseconds a tick, until a tick on
      which the clients are served, and whose ticks are then made half as long. */
  function Slowed(media: seq<Byte>, ram: Ram.Memory, codec: I2s.Codec, n: nat): Machine {
    Ticks(Asleep(Options(4096, 1, false), media, ram, codec), n).(o := Options(2048, 1, false))
  }

  /** A jump of 250 ticks, before the clients are served again, then counts another number of
      seconds than 250 ticks. */
  lemma SlowedLosesSecond(media: seq<Byte>, ram: Ram.Memory, codec: I2s.Codec, n: nat, k: nat)
    requires n == 1280 && k == 250
    ensures n % 256 == 0 && k < 256
    ensures var m := Slowed(media, ram, codec, n);
            k <= Limit(m) && Advance(m, k).pmu.clock.seconds != Ticks(m, k).pmu.clock.seconds
  {
    hide Asleep, Ticks, Advance, Tick, Idle, Limit, Inv;
    var o := Options(4096, 1, false);
    AsleepDozes(o, media, ram, codec);
    DozingTicks(Asleep(o, media, ram, codec), o, n);
    var was := Ticks(Asleep(o, media, ram, codec), n);
    var m := Slowed(media, ram, codec, n);
    assert m.pmu.clock.last == 5;
    SlowedIdle(was);
    SlowedLimit(m, k);
    SecondsExact(m, k);
    assert SecondAt(m, 1) == 2 && SecondAt(m, k) == 3;
  }

  lemma SlowedIdle(m: Machine)
    requires Idle(m)
    ensures Idle(m.(o := Options(2048, 1, false)))
  {
  }

  lemma SlowedLimit(m: Machine, k: nat)
    requires Idle(m) && m.o.usec == 2048 && m.ticks == 1280 && k == 250
    requires m.pmu.clock.base == 0 && m.pmu.clock.last == 5 && Deadlines(m.pmu) == [0, 0, 0, 0]
    ensures k <= Limit(m)
  {
    hide Idle;
    NoDeadlines(m.ticks, Deadlines(m.pmu));
    assert UntilSecond(m.pmu, m.ticks, m.o.usec) == 1650;
  }
}
