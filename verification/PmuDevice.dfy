/** The power manager in its own form: a register array and groups of fields changed in
    place, proved against the functions of PmuSpec. */
module PmuDevice {
  import opened Words
  import Spec = PmuSpec
  import Calendar

  class Device {
    const regs: array<Byte>
    var written: set<nat>
    var power: Spec.Power
    var adc: Spec.Adc
    var battery: Spec.Battery
    var clock: Spec.Clock

    ghost predicate Valid() {
      regs.Length == Spec.REGS
    }

    ghost function Value(): Spec.Pmu
      requires Valid()
      reads this, regs
    {
      Spec.Pmu(regs[..], written, power, adc, battery, clock)
    }

    constructor ()
      ensures Valid() && fresh(regs) && Value() == Spec.PowerOn()
    {
      regs := new Byte[Spec.REGS](i => 0);
      written, power := {}, Spec.Power(false, 0, 0, 0, 0, Spec.NoWake);
      adc, battery := Spec.Adc(0, false, 0, 0, 0), Spec.Battery(false, 0, 0, 0);
      clock := Spec.Clock(0, 0, 0, 0, false);
      new;
      assert regs[..] == Spec.PowerOn().regs;
    }

    method Raise(reg: nat, weight: nat)
      requires Valid() && reg < Spec.REGS && weight in {1, 2, 0x40, 0x80}
      modifies regs
      ensures Value() == Spec.Raise(old(Value()), reg, weight)
    {
      hide Spec.SetBit;
      ghost var after := regs[..][reg := Spec.SetBit(regs[reg], weight)];
      regs[reg] := Spec.SetBit(regs[reg], weight);
      assert regs[..] == after;
    }

    method WakeUp(reason: Spec.Wake)
      requires Valid()
      modifies this`power
      ensures Value() == Spec.WakeUp(old(Value()), reason)
    {
      if !power.standby { return; }
      power := power.(standby := false);
      power := power.(deadline := 0);
      power := power.(wakes := power.wakes + 1);
      power := power.(lastWake := reason);
    }

    method EnterStandby()
      requires Valid()
      modifies this, regs
      ensures Value() == Spec.EnterStandby(old(Value()))
    {
      if power.standby { return; }
      power := power.(standby := true, deadline := 0, transitions := power.transitions + 1);
      ghost var after := regs[..][Spec.OOCC1 := regs[Spec.OOCC1] / 2 * 2][Spec.ADCC1 := 0][Spec.ADCC2 := 0];
      regs[Spec.OOCC1] := regs[Spec.OOCC1] / 2 * 2;
      regs[Spec.ADCC1] := 0;
      regs[Spec.ADCC2] := 0;
      assert regs[..] == after;
      written := written - {Spec.ADCC1, Spec.ADCC2};
      adc := adc.(deadline := 0, ready := false);
    }

    method CompleteAdc(mv: nat)
      requires Valid()
      modifies this`adc, regs
      ensures Value() == Spec.AdcDone(old(Value()), mv)
    {
      hide Spec.AdcInput, Spec.Raise;
      var control := regs[Spec.ADCC2];
      var mux := control / 2 % 16;
      var r1 := Spec.AdcInput(mv, mux);
      var r2 := if mux == 12 then Spec.AdcInput(mv, 3) else 0;
      if Bit(control, 0x80) {
        r1 := r1 / 4 * 4;
        r2 := r2 / 4 * 4;
      }
      adc := Spec.Adc(0, true, r1, r2, adc.conversions + 1);
      Raise(Spec.INT3, 1);
    }

    /** Supervision of the battery: the debounce window, the latch, and its recovery. */
    method Supervise(e: Spec.Env)
      requires Valid()
      modifies this`battery, regs
      ensures Value() == Spec.BatteryTick(old(Value()), e)
    {
      hide Spec.Threshold, Spec.Recovery, Spec.Debounce, Spec.Hold, Spec.SetBit;
      ghost var p := Value();
      var control: Byte := if Spec.BVMC in written then regs[Spec.BVMC] / 2 % 16 * 2 else 0x0c;
      assert control == Spec.BvmControl(p);
      var threshold := 2700 + control / 2 % 8 * 100;
      ThresholdIs(p);
      var below := e.mv < threshold;
      if !battery.low && below {
        if battery.deadline == 0 {
          var debounce := if Bit(control, 0x10) then 1 else Spec.TicksFor(e.usec, 62_000);
          DebounceIs(p, e.usec);
          battery := battery.(deadline := e.now + debounce);
        } else if e.now >= battery.deadline {
          battery := battery.(low := true, deadline := 0);
          battery := battery.(events := battery.events + 1, standbyDeadline := e.now + Spec.Hold(e.usec));
          Raise(Spec.INT3, 0x40);
        }
      } else if battery.low && e.mv >= threshold + threshold * 4 / 100 {
        battery := battery.(low := false, deadline := 0, standbyDeadline := 0);
      } else if !below {
        battery := battery.(deadline := 0);
      }
    }

    static lemma ThresholdIs(p: Spec.Pmu)
      ensures Spec.Threshold(p) == 2700 + Spec.BvmControl(p) / 2 % 8 * 100
      ensures Spec.Recovery(p) == Spec.Threshold(p) + Spec.Threshold(p) * 4 / 100
    {
    }

    static lemma DebounceIs(p: Spec.Pmu, usec: nat)
      ensures Spec.Debounce(p, usec) ==
              if Bit(Spec.BvmControl(p), 0x10) then 1 else Spec.TicksFor(usec, 62_000)
    {
      hide Spec.TicksFor;
    }

    /** The clock as it reads at a tick: the base fields moved on in place. */
    method ReadClock(now: nat, usec: nat) returns (fields: array<Byte>)
      requires Valid()
      ensures fresh(fields) && fields[..] == Spec.Reading(Value(), now, usec)
    {
      hide Calendar.Advance;
      fields := new Byte[7];
      var base := 0;
      if Spec.RTCSC in written {
        forall i | 0 <= i < 7 {
          fields[i] := regs[Spec.RTCSC + i];
        }
        base := clock.base;
      } else {
        forall i | 0 <= i < 7 {
          fields[i] := Spec.DEFAULT_FIELDS[i];
        }
      }
      assert fields[..] == Spec.BaseFields(Value());
      Calendar.AdvanceFields(fields, Spec.Since(base, now) * usec / Spec.SECOND);
    }

    /** Compares the alarm registers with the clock, field by field. */
    method AlarmCheck(current: array<Byte>) returns (matches: bool)
      requires Valid() && current.Length == 7
      ensures matches == Spec.AlarmMatches(Value(), current[..])
    {
      hide Spec.AlarmField, Spec.Masked, Spec.AlarmReset;
      var anyEnabled, allMatch := false, true;
      for i := 0 to 7
        invariant anyEnabled <==> exists j :: 0 <= j < i && Spec.AlarmField(Value(), j) != Spec.AlarmReset(j)
        invariant allMatch <==> forall j | 0 <= j < i ::
                    Spec.AlarmField(Value(), j) == Spec.AlarmReset(j) ||
                    Spec.AlarmField(Value(), j) == Spec.Masked(j, current[j])
      {
        var alarm := Alarm(i);
        if alarm == Spec.AlarmReset(i) {
          continue;
        }
        anyEnabled := true;
        if alarm != Spec.Masked(i, current[i]) {
          allMatch := false;
        }
      }
      matches := anyEnabled && allMatch;
    }

    function Alarm(i: nat): (r: Byte)
      requires Valid() && i < 7
      reads this, regs
      ensures r == Spec.AlarmField(Value(), i)
    {
      Spec.Masked(i, if Spec.RTCSCA + i in written then regs[Spec.RTCSCA + i] else Spec.AlarmReset(i))
    }

    method FireAlarm()
      requires Valid()
      modifies this`power, this`clock, regs
      ensures Value() == Spec.AlarmFires(old(Value()))
    {
      hide Spec.SetBit, Bit;
      Raise(Spec.INT1, 0x80);
      clock := clock.(alarms := clock.alarms + 1);
      var oocc: Byte := if Spec.OOCC1 in written then regs[Spec.OOCC1] else 0x60;
      if Bit(oocc, 0x10) && !Bit(regs[Spec.INT1M], 0x80) {
        WakeUp(Spec.RtcAlarm);
      }
    }

    /** The once-a-second part: the second interrupt and the alarm. */
    method TickClock(e: Spec.Env)
      requires Valid()
      modifies this`power, this`clock, regs
      ensures Value() == Spec.ClockTick(old(Value()), e)
    {
      hide Spec.AlarmMatches, Spec.Reading, Spec.AlarmFires, Spec.SetBit, Spec.ElapsedSeconds;
      var elapsed := Seconds(e);
      if elapsed == clock.last { return; }
      clock := clock.(last := elapsed, seconds := clock.seconds + 1);
      Raise(Spec.INT1, 0x40);
      var current := ReadClock(e.now, e.usec);
      var matches := AlarmCheck(current);
      if matches && !clock.matching {
        FireAlarm();
      }
      clock := clock.(matching := matches);
    }

    function Seconds(e: Spec.Env): (r: nat)
      requires Valid()
      reads this, regs
      ensures r == Spec.ElapsedSeconds(Value(), e)
    {
      Spec.Since(clock.base, e.now) * e.usec / Spec.SECOND
    }

    method Tick(e: Spec.Env)
      requires Valid()
      modifies this, regs
      ensures Value() == Spec.Tick(old(Value()), e)
    {
      hide Spec.EnterStandby, Spec.AdcDone, Spec.BatteryTick, Spec.ClockTick;
      if !power.standby && power.deadline != 0 && e.now >= power.deadline {
        EnterStandby();
      }
      if adc.deadline != 0 && e.now >= adc.deadline {
        CompleteAdc(e.mv);
      }
      Supervise(e);
      if !power.standby && battery.standbyDeadline != 0 && e.now >= battery.standbyDeadline {
        battery := battery.(standbyDeadline := 0);
        EnterStandby();
      }
      TickClock(e);
    }

    // ------------------------------------------------------------- registers and the outside

    method Write(reg: nat, value: Byte, now: nat, usec: nat)
      requires Valid()
      modifies this, regs
      ensures Value() == Spec.WriteReg(old(Value()), reg, value, now, usec)
    {
      hide Spec.Stored, Spec.TicksFor, Bit;
      if reg >= Spec.REGS || Spec.INT1 <= reg <= Spec.INT3 { return; }
      ghost var after := regs[..][reg := Spec.Stored(reg, value)];
      regs[reg] := Spec.Stored(reg, value);
      assert regs[..] == after;
      written := written + {reg};
      if reg == Spec.OOCC1 && Bit(value, 1) {
        power := power.(requests := power.requests + 1);
        if !power.standby && power.deadline == 0 {
          power := power.(deadline := now + Spec.TicksFor(usec, 1000));
        }
      } else if reg == Spec.ADCC2 && Bit(value, 1) {
        adc := adc.(ready := false);
        adc := adc.(deadline := if value / 0x20 % 4 == 0 then now + Spec.TicksFor(usec, 25) else 0);
      } else if Spec.RTCSC <= reg <= Spec.RTCYR {
        clock := clock.(base := now, last := 0);
      } else if Spec.RTCSCA <= reg <= Spec.RTCYRA {
        clock := clock.(matching := false);
      }
    }

    /** The registers with the clock as it reads now, for keeping over a power cycle. */
    method Save(now: nat, usec: nat) returns (backup: array<Byte>, kept: set<nat>, matching: bool)
      requires Valid()
      ensures fresh(backup) && backup.Length == Spec.REGS
      ensures Spec.Backup(backup[..], kept, matching) == Spec.Save(Value(), now, usec)
    {
      hide Spec.Reading;
      backup := new Byte[Spec.REGS];
      var fields := ReadClock(now, usec);
      forall i | 0 <= i < Spec.REGS {
        backup[i] := if Spec.RTCSC <= i <= Spec.RTCYR then fields[i - Spec.RTCSC] else regs[i];
      }
      assert backup[..] == Spec.WithClock(regs[..], fields[..]);
      kept, matching := written + Spec.CLOCK_REGS, clock.matching;
    }

    method Restore(backup: array<Byte>, kept: set<nat>, matching: bool, now: nat)
      requires Valid() && backup.Length == Spec.REGS
      modifies this, regs
      ensures Value() == Spec.Restore(old(Value()), Spec.Backup(old(backup[..]), kept, matching), now)
    {
      ghost var all := backup[..];
      forall i | 0 <= i < Spec.REGS {
        regs[i] := backup[i];
      }
      assert regs[..] == all;
      written := kept;
      clock := clock.(base := now, last := 0, matching := matching);
    }

    /** Moves the clock on by the seconds the machine was off. */
    method AdvanceClock(seconds: nat, now: nat, usec: nat)
      requires Valid()
      modifies this, regs
      ensures Value() == Spec.AdvanceClock(old(Value()), seconds, now, usec)
    {
      hide Spec.Reading, Calendar.Advance;
      ghost var was := regs[..];
      var fields := ReadClock(now, usec);
      Calendar.AdvanceFields(fields, seconds);
      forall i | Spec.RTCSC <= i <= Spec.RTCYR {
        regs[i] := fields[i - Spec.RTCSC];
      }
      assert regs[..] == Spec.WithClock(was, fields[..]);
      written := written + Spec.CLOCK_REGS;
      clock := clock.(base := now, last := 0, matching := false);
    }
  }
}
