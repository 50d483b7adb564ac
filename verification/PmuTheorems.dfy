/** Battery supervision over whole runs, and the clock across saving and restoring. */
module PmuTheorems {
  import opened Words
  import opened PmuSpec
  import Calendar

  // -------------------------------------------------------------------- battery over runs

  /** What happens to the power manager at and between ticks; the supply may differ at every
      tick, and between ticks anything may be done to it. */
  datatype Event = DeviceTick(mv: nat) | Between(access: Access)

  /** One entry for each tick of a run: what the supervision saw and did. */
  datatype Entry = Entry(below: bool, recovered: bool, debounce: nat, low: bool, forced: bool)

  /** A state, the tick it is at, and the ticks of the run so far. */
  datatype History = History(p: Pmu, now: nat, log: seq<Entry>)

  function BeforeBattery(p: Pmu, e: Env): Pmu {
    AdcTick(StandbyTick(p, e.now), e.now, e.mv)
  }

  /** The entry a tick leaves. */
  function Observe(p: Pmu, e: Env): Entry {
    var b := BeforeBattery(p, e);
    Entry(e.mv < Threshold(b), e.mv >= Recovery(b), Debounce(b, e.usec), Tick(p, e).battery.low,
          ForcesStandby(BatteryTick(b, e), e.now))
  }

  function Happen(h: History, event: Event, usec: nat): History {
    match event
    case DeviceTick(mv) =>
      var e := Env(h.now + 1, usec, mv);
      History(Tick(h.p, e), h.now + 1, h.log + [Observe(h.p, e)])
    case Between(access) => h.(p := Apply(h.p, access, h.now, usec))
  }

  function Run(h: History, events: seq<Event>, usec: nat): History
    decreases |events|
  {
    if events == [] then h else Run(Happen(h, events[0], usec), events[1..], usec)
  }

  /** Whether the battery was low before entry `i`. */
  predicate WasLow(log: seq<Entry>, i: nat)
    requires i <= |log|
  {
    i > 0 && log[i - 1].low
  }

  /** From entry `a` on, the supply was below the threshold and low was not latched, and
      debouncing started at `a`. */
  predicate DebouncedSince(log: seq<Entry>, a: nat) {
    a < |log| && forall j | a <= j < |log| :: log[j].below && !log[j].low
  }

  /** Low was latched at entry `l` and has held ever since. */
  predicate HeldSince(log: seq<Entry>, l: nat) {
    l < |log| && !WasLow(log, l) && forall j | l <= j < |log| :: log[j].low
  }

  /** Entry `i` latches low only after its whole debounce window was below the threshold. */
  predicate LatchJustified(log: seq<Entry>, i: nat)
    requires i < |log|
  {
    log[i].low && !WasLow(log, i) ==>
      exists a | 0 <= a < i :: i - a >= log[a].debounce && forall j | a <= j <= i :: log[j].below
  }

  predicate ClearJustified(log: seq<Entry>, i: nat)
    requires i < |log|
  {
    WasLow(log, i) && !log[i].low ==> log[i].recovered
  }

  /** Entry `i` forces standby only after low has held for the whole hold time. */
  predicate ForceJustified(log: seq<Entry>, i: nat, hold: nat)
    requires i < |log|
  {
    log[i].forced ==>
      exists l | 0 <= l < i :: i - l >= hold && !WasLow(log, l) && forall j | l <= j <= i :: log[j].low
  }

  predicate Justified(log: seq<Entry>, hold: nat) {
    forall i | 0 <= i < |log| ::
      LatchJustified(log, i) && ClearJustified(log, i) && ForceJustified(log, i, hold)
  }

  /** How the deadlines of a state remember its log, for a run that started at tick `start`. */
  predicate Remembers(h: History, start: nat, usec: nat) {
    var b := h.p.battery;
    h.now == start + |h.log| && b.low == WasLow(h.log, |h.log|) &&
    (b.deadline != 0 ==> !b.low && exists a | 0 <= a < |h.log| ::
       DebouncedSince(h.log, a) && b.deadline == start + a + 1 + h.log[a].debounce) &&
    (b.standbyDeadline != 0 ==> b.low && exists l | 0 <= l < |h.log| ::
       HeldSince(h.log, l) && b.standbyDeadline == start + l + 1 + Hold(usec))
  }

  /** Only a tick touches the battery supervision. */
  lemma OthersKeepBattery(h: History, event: Event, usec: nat)
    requires !event.DeviceTick?
    ensures Happen(h, event, usec).p.battery == h.p.battery
    ensures Happen(h, event, usec).log == h.log && Happen(h, event, usec).now == h.now
  {
  }

  lemma TickBattery(p: Pmu, e: Env)
    ensures BeforeBattery(p, e).battery == p.battery
    ensures Tick(p, e).battery == ForcedTick(BatteryTick(BeforeBattery(p, e), e), e.now).battery
  {
    hide Reading, AlarmMatches;
  }

  /** The supervision of one tick, from what the tick saw. */
  lemma BatteryCases(p: Pmu, e: Env)
    ensures var o := Observe(p, e); var b := p.battery; var r := Tick(p, e).battery;
            && r.low == o.low
            && (!b.low && r.low ==> o.below && b.deadline != 0 && e.now >= b.deadline &&
                                    r.deadline == 0)
            && (b.low && !r.low ==> o.recovered && r.deadline == 0 && r.standbyDeadline == 0)
            && (!b.low && !r.low ==>
                  r.deadline == (if !o.below then 0
                                 else if b.deadline == 0 then e.now + o.debounce else b.deadline))
            && (b.low && r.low ==> r.deadline == b.deadline || r.deadline == 0)
            && (o.forced ==> r.standbyDeadline == 0)
            && (!o.forced && !b.low && r.low ==> r.standbyDeadline == e.now + Hold(e.usec))
            && (!o.forced && b.low == r.low ==> r.standbyDeadline == b.standbyDeadline)
            && (o.forced && b.low == r.low ==>
                  b.standbyDeadline != 0 && e.now >= b.standbyDeadline)
            && (o.forced && b.low != r.low ==> false)
  {
    TickBattery(p, e);
    hide Tick, BeforeBattery, Threshold, Recovery, Debounce, TicksFor;
  }

  /** What a new entry does to facts about the log. */
  lemma LogGrows(log: seq<Entry>, o: Entry)
    ensures var more := log + [o];
            && WasLow(more, |more|) == o.low && WasLow(more, |log|) == WasLow(log, |log|)
            && (forall a | 0 <= a < |log| :: more[a] == log[a] && WasLow(more, a) == WasLow(log, a))
            && (forall a :: DebouncedSince(log, a) && o.below && !o.low ==> DebouncedSince(more, a))
            && (forall l :: HeldSince(log, l) && o.low ==> HeldSince(more, l))
            && (o.below && !o.low ==> DebouncedSince(more, |log|))
            && (o.low && !WasLow(log, |log|) ==> HeldSince(more, |log|))
  {
  }

  lemma TickRemembers(h: History, mv: nat, usec: nat, start: nat)
    requires Remembers(h, start, usec)
    ensures Remembers(Happen(h, DeviceTick(mv), usec), start, usec)
  {
    hide Tick, Observe, Hold, DebouncedSince, HeldSince;
    var e := Env(h.now + 1, usec, mv);
    var o := Observe(h.p, e);
    var n := Happen(h, DeviceTick(mv), usec);
    BatteryCases(h.p, e);
    LogGrows(h.log, o);
    var b, r := h.p.battery, n.p.battery;
    if r.deadline != 0 {
      if b.deadline == 0 {
        assert DebouncedSince(n.log, |h.log|);
      } else {
        var a :| 0 <= a < |h.log| && DebouncedSince(h.log, a) &&
                 b.deadline == start + a + 1 + h.log[a].debounce;
        assert DebouncedSince(n.log, a);
      }
    }
    if r.standbyDeadline != 0 {
      if !b.low {
        assert HeldSince(n.log, |h.log|);
      } else {
        var l :| 0 <= l < |h.log| && HeldSince(h.log, l) &&
                 b.standbyDeadline == start + l + 1 + Hold(usec);
        assert HeldSince(n.log, l);
      }
    }
  }

  lemma TickJustified(h: History, mv: nat, usec: nat, start: nat)
    requires Remembers(h, start, usec) && Justified(h.log, Hold(usec))
    ensures Justified(Happen(h, DeviceTick(mv), usec).log, Hold(usec))
  {
    hide Tick, Observe, Hold, Remembers, LatchJustified, ClearJustified, ForceJustified;
    var o := Observe(h.p, Env(h.now + 1, usec, mv));
    OldEntries(h.log, o, Hold(usec));
    LatchEntry(h, mv, usec, start);
    ClearEntry(h, mv, usec, start);
    ForceEntry(h, mv, usec, start);
  }

  lemma LatchEntry(h: History, mv: nat, usec: nat, start: nat)
    requires Remembers(h, start, usec)
    ensures LatchJustified(h.log + [Observe(h.p, Env(h.now + 1, usec, mv))], |h.log|)
  {
    hide Tick, Observe, Hold, HeldSince, Recovery, Threshold, Debounce;
    var o := Observe(h.p, Env(h.now + 1, usec, mv));
    var n, log := |h.log|, h.log + [o];
    BatteryCases(h.p, Env(h.now + 1, usec, mv));
    LogGrows(h.log, o);
    if o.low && !WasLow(log, n) {
      var a :| 0 <= a < n && DebouncedSince(h.log, a) &&
               h.p.battery.deadline == start + a + 1 + h.log[a].debounce;
      assert n - a >= log[a].debounce && forall j | a <= j <= n :: log[j].below;
    }
  }

  lemma ClearEntry(h: History, mv: nat, usec: nat, start: nat)
    requires Remembers(h, start, usec)
    ensures ClearJustified(h.log + [Observe(h.p, Env(h.now + 1, usec, mv))], |h.log|)
  {
    hide Tick, Observe, Hold, HeldSince, DebouncedSince, Recovery, Threshold, Debounce;
    BatteryCases(h.p, Env(h.now + 1, usec, mv));
    LogGrows(h.log, Observe(h.p, Env(h.now + 1, usec, mv)));
  }

  lemma ForceEntry(h: History, mv: nat, usec: nat, start: nat)
    requires Remembers(h, start, usec)
    ensures ForceJustified(h.log + [Observe(h.p, Env(h.now + 1, usec, mv))], |h.log|, Hold(usec))
  {
    hide Tick, Observe, Hold, DebouncedSince, Recovery, Threshold, Debounce;
    var o := Observe(h.p, Env(h.now + 1, usec, mv));
    var n, log := |h.log|, h.log + [o];
    BatteryCases(h.p, Env(h.now + 1, usec, mv));
    LogGrows(h.log, o);
    if o.forced {
      var l :| 0 <= l < n && HeldSince(h.log, l) &&
               h.p.battery.standbyDeadline == start + l + 1 + Hold(usec);
      assert n - l >= Hold(usec) && !WasLow(log, l) && forall j | l <= j <= n :: log[j].low;
    }
  }

  lemma OldEntries(log: seq<Entry>, o: Entry, hold: nat)
    requires Justified(log, hold)
    ensures forall i | 0 <= i < |log| ::
              LatchJustified(log + [o], i) && ClearJustified(log + [o], i) &&
              ForceJustified(log + [o], i, hold)
  {
    var more := log + [o];
    LogGrows(log, o);
    forall i | 0 <= i < |log|
      ensures LatchJustified(more, i) && ClearJustified(more, i) && ForceJustified(more, i, hold)
    {
      assert LatchJustified(log, i) && ClearJustified(log, i) && ForceJustified(log, i, hold);
      if log[i].low && !WasLow(log, i) {
        var a :| 0 <= a < i && i - a >= log[a].debounce && forall j | a <= j <= i :: log[j].below;
        assert i - a >= more[a].debounce && forall j | a <= j <= i :: more[j].below;
      }
      if log[i].forced {
        var l :| 0 <= l < i && i - l >= hold && !WasLow(log, l) &&
                 forall j | l <= j <= i :: log[j].low;
        assert !WasLow(more, l) && forall j | l <= j <= i :: more[j].low;
      }
    }
  }

  lemma {:induction false} RunJustified(h: History, events: seq<Event>, usec: nat, start: nat)
    requires Remembers(h, start, usec) && Justified(h.log, Hold(usec))
    ensures var r := Run(h, events, usec);
            Remembers(r, start, usec) && Justified(r.log, Hold(usec))
    decreases |events|
  {
    if events != [] {
      hide Justified;
      var next := Happen(h, events[0], usec);
      if events[0].DeviceTick? {
        TickRemembers(h, events[0].mv, usec, start);
        TickJustified(h, events[0].mv, usec, start);
      } else {
        OthersKeepBattery(h, events[0], usec);
      }
      hide Happen, Remembers;
      RunJustified(next, events[1..], usec, start);
    }
  }

  /** Battery supervision over every run at a constant rate, from power-on: low is latched
      only after the supply was below the programmed threshold at every tick of the debounce
      window, it is cleared only at 104% of the threshold or more, and low battery forces
      standby only after the latch has held for the whole hold time. */
  lemma BatterySupervision(events: seq<Event>, usec: nat, start: nat)
    ensures Justified(Run(History(PowerOn(), start, []), events, usec).log, Hold(usec))
  {
    RunJustified(History(PowerOn(), start, []), events, usec, start);
  }

  /** The hold time is the least number of ticks covering eight seconds, and the debounce
      window the least covering 62 milliseconds unless the guest has disabled it. */
  lemma WindowLengths(p: Pmu, usec: nat)
    requires usec > 0
    ensures Hold(usec) * usec >= 8_000_000 && (Hold(usec) - 1) * usec < 8_000_000
    ensures Debounce(p, usec) != 1 ==>
              Debounce(p, usec) * usec >= 62_000 && (Debounce(p, usec) - 1) * usec < 62_000
  {
    CeilCovers(8_000_000, usec);
    CeilCovers(62_000, usec);
  }

  // ------------------------------------------------------------------- exactly when it latches

  function TickMany(p: Pmu, now: nat, usec: nat, mv: nat, n: nat): Pmu {
    if n == 0 then p else Tick(TickMany(p, now, usec, mv, n - 1), Env(now + n, usec, mv))
  }

  /** The supervision's settings are the battery control register and whether it is set. */
  predicate SameSettings(p: Pmu, q: Pmu) {
    p.regs[BVMC] == q.regs[BVMC] && (BVMC in p.written <==> BVMC in q.written)
  }

  lemma SettingsDecide(p: Pmu, q: Pmu, usec: nat)
    requires SameSettings(p, q)
    ensures Threshold(p) == Threshold(q) && Debounce(p, usec) == Debounce(q, usec)
  {
    assert BvmControl(p) == BvmControl(q);
    hide BvmControl;
  }

  /** No tick changes the supervision's settings. */
  lemma TickSettings(p: Pmu, e: Env)
    ensures SameSettings(p, BeforeBattery(p, e)) && SameSettings(p, Tick(p, e))
  {
    hide Reading, AlarmMatches, AdcInput, Threshold, Recovery, Debounce, OoccControl;
    var a := StandbyTick(p, e.now);
    assert SameSettings(p, a);
    var b := AdcTick(a, e.now, e.mv);
    assert SameSettings(a, b);
    hide StandbyTick, AdcTick;
    var c := BatteryTick(b, e);
    assert SameSettings(b, c);
    hide BatteryTick;
    var d := ForcedTick(c, e.now);
    assert SameSettings(c, d);
    hide ForcedTick;
    assert SameSettings(d, ClockTick(d, e));
  }

  /** With the supply below the threshold and nothing armed, low is latched after exactly one
      tick more than the debounce window. */
  lemma {:induction false} LatchesExactly(p: Pmu, now: nat, usec: nat, mv: nat, n: nat)
    requires !p.battery.low && p.battery.deadline == 0 && mv < Threshold(p)
    requires 1 <= n <= Debounce(p, usec) + 1
    ensures var r := TickMany(p, now, usec, mv, n);
            && (r.battery.low <==> n == Debounce(p, usec) + 1)
            && (n <= Debounce(p, usec) ==> r.battery.deadline == now + 1 + Debounce(p, usec))
            && Threshold(r) == Threshold(p) && Debounce(r, usec) == Debounce(p, usec)
  {
    hide Tick, Threshold, Debounce, TicksFor;
    if n > 1 {
      LatchesExactly(p, now, usec, mv, n - 1);
    }
    LatchStep(p, TickMany(p, now, usec, mv, n - 1), now, usec, mv, n);
  }

  /** Tick `n` of the window. */
  lemma LatchStep(p: Pmu, q: Pmu, now: nat, usec: nat, mv: nat, n: nat)
    requires 1 <= n <= Debounce(p, usec) + 1 && mv < Threshold(p) && !q.battery.low
    requires Threshold(q) == Threshold(p) && Debounce(q, usec) == Debounce(p, usec)
    requires q.battery.deadline == if n == 1 then 0 else now + 1 + Debounce(p, usec)
    ensures var r := Tick(q, Env(now + n, usec, mv));
            && (r.battery.low <==> n == Debounce(p, usec) + 1)
            && (n <= Debounce(p, usec) ==> r.battery.deadline == now + 1 + Debounce(p, usec))
            && Threshold(r) == Threshold(p) && Debounce(r, usec) == Debounce(p, usec)
  {
    DebouncePositive(p, usec);
    hide Tick, BeforeBattery, Threshold, Debounce, TicksFor, SameSettings, SetBit;
    var e := Env(now + n, usec, mv);
    TickSettings(q, e);
    SettingsDecide(q, Tick(q, e), usec);
    SettingsDecide(q, BeforeBattery(q, e), usec);
    TickBattery(q, e);
  }

  lemma DebouncePositive(p: Pmu, usec: nat)
    ensures Debounce(p, usec) >= 1
  {
    hide BvmControl;
  }

  // ------------------------------------------------------------------------------- clock

  /** The clock of a state counts from a valid date set at or before this tick. */
  predicate ClockSet(p: Pmu, now: nat) {
    Calendar.Valid(Calendar.Decode(BaseFields(p))) && BaseTick(p) <= now
  }

  /** Saving at any tick and restoring at any tick: from then on the clock reads as if it
      had never stopped, or exactly one second behind; it is one second behind exactly when
      the fractions of a second before the save and since the restore add up to a second. */
  lemma SaveRestoreKeepsClock(p: Pmu, saved: nat, blank: Pmu, restored: nat, usec: nat, d: nat)
    requires ClockSet(p, saved)
    ensures var r := Restore(blank, Save(p, saved, usec), restored);
            var resumed := Reading(r, restored + d, usec);
            var ran := Reading(p, saved + d, usec);
            var before, since := (saved - BaseTick(p)) * usec, d * usec;
            && (before % SECOND + since % SECOND < SECOND ==> resumed == ran)
            && (before % SECOND + since % SECOND >= SECOND ==> Calendar.Advance(resumed, 1) == ran)
            && ClockSet(r, restored)
  {
    hide Calendar.Advance, Calendar.Valid, Calendar.Decode;
    var base := BaseFields(p);
    var before, since := (saved - BaseTick(p)) * usec, d * usec;
    assert (saved + d - BaseTick(p)) * usec == before + since;
    var a, b := before / SECOND, since / SECOND;
    Calendar.AdvanceAdd(base, a, b);
    Calendar.AdvanceAdd(base, a + b, 1);
    var r := Restore(blank, Save(p, saved, usec), restored);
    assert BaseFields(r) == Reading(p, saved, usec);
  }

  /** The same when the save falls on a whole second: nothing is lost. */
  lemma WholeSecondSave(p: Pmu, saved: nat, blank: Pmu, restored: nat, usec: nat, d: nat)
    requires ClockSet(p, saved) && (saved - BaseTick(p)) * usec % SECOND == 0
    ensures Reading(Restore(blank, Save(p, saved, usec), restored), restored + d, usec) ==
            Reading(p, saved + d, usec)
  {
    hide Reading;
    SaveRestoreKeepsClock(p, saved, blank, restored, usec, d);
  }

  /** Moving the clock on by `n` seconds shows at once the date and time `n` seconds later. */
  lemma AdvanceClockReads(p: Pmu, n: nat, now: nat, usec: nat)
    requires ClockSet(p, now)
    ensures Reading(AdvanceClock(p, n, now, usec), now, usec) ==
            Calendar.Advance(Reading(p, now, usec), n)
  {
    hide Calendar.Advance, Calendar.Valid, Calendar.Decode;
    var e := Since(BaseTick(p), now) * usec / SECOND;
    Calendar.AdvanceAdd(BaseFields(p), e, n);
    Calendar.AdvanceAdd(BaseFields(p), e + n, 0);
    var r := AdvanceClock(p, n, now, usec);
    assert BaseFields(r) == Calendar.Advance(Reading(p, now, usec), n);
    assert Since(BaseTick(r), now) * usec == 0;
  }

  // -------------------------------------------------------------- the second counter

  /** The last second seen is never ahead of the clock, at a constant rate. */
  predicate ClockInOrder(p: Pmu, now: nat, usec: nat) {
    p.clock.base <= now && p.clock.last <= Since(p.clock.base, now) * usec / SECOND
  }

  lemma TickClock(p: Pmu, e: Env)
    ensures Tick(p, e).clock.base == p.clock.base
    ensures Tick(p, e).clock.last == ElapsedSeconds(p, e)
  {
    hide Reading, AlarmMatches, AdcInput, Threshold, Recovery, Debounce;
    var b := ForcedTick(BatteryTick(BeforeBattery(p, e), e), e.now);
    assert b.clock == p.clock;
    hide ForcedTick, BatteryTick, BeforeBattery;
  }

  /** A tick counts a second exactly when the clock shows another one than the last seen. */
  lemma TickSeconds(p: Pmu, e: Env)
    ensures Tick(p, e).clock.seconds ==
            p.clock.seconds + if ElapsedSeconds(p, e) != p.clock.last then 1 else 0
  {
    hide Reading, AlarmMatches, AdcInput, Threshold, Recovery, Debounce;
    var b := ForcedTick(BatteryTick(BeforeBattery(p, e), e), e.now);
    assert b.clock == p.clock;
    hide ForcedTick, BatteryTick, BeforeBattery;
  }

  lemma TickClockInOrder(p: Pmu, now: nat, usec: nat, mv: nat)
    requires ClockInOrder(p, now, usec)
    ensures ClockInOrder(Tick(p, Env(now + 1, usec, mv)), now + 1, usec)
  {
    hide Tick;
    TickClock(p, Env(now + 1, usec, mv));
  }

  /** The clock goes on as it was, or has been restarted at this tick. */
  predicate ClockKept(p: Pmu, q: Pmu, now: nat) {
    (q.clock.base == p.clock.base && q.clock.last == p.clock.last) ||
    (q.clock.base == now && q.clock.last == 0)
  }

  lemma WriteClock(p: Pmu, reg: nat, value: Byte, now: nat, usec: nat)
    ensures ClockKept(p, WriteReg(p, reg, value, now, usec), now)
  {
    hide Bit, Stored, TicksFor;
  }

  lemma AccessClock(p: Pmu, a: Access, now: nat, usec: nat)
    ensures ClockKept(p, Apply(p, a, now, usec), now)
  {
    hide WriteReg, Reading, WithClock, SetBit, Bit, OoccControl;
    if a.Write? {
      WriteClock(p, a.reg, a.value, now, usec);
    }
  }

  /** Setting, restoring and moving the clock restart it at this tick; nothing else touches it. */
  lemma AccessClockInOrder(p: Pmu, a: Access, now: nat, usec: nat)
    requires ClockInOrder(p, now, usec)
    ensures ClockInOrder(Apply(p, a, now, usec), now, usec)
  {
    hide Apply;
    AccessClock(p, a, now, usec);
  }
}
