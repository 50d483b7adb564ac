/** What holds turn by turn over whole runs of the scheduling loop, in every configuration and
    for clients that change anything but the tick count: how many device ticks have gone by,
    where the script is, and when the clients were served. Then what is charged for a jump, and
    where the loops with and without jumps part. */
module LoopRuns {
  import opened Words
  import opened Machine
  import opened InputScript
  import opened MainLoop
  import ClockRate
  import FastForward
  import I2sSpec
  import MachineInv
  import Ram

  // ------------------------------------------------------------------------ turn by turn

  /** The world after `n` turns, or where the loop ended before. */
  ghost function Turns(c: Config, host: Host, w: World, n: nat): World
    requires Fair(c, host, w)
    decreases n
  {
    if n == 0 || !Live(w) then w
    else
      FastTime(c, host, w);
      Turns(c, host, FastStep(c, host, w), n - 1)
  }

  /** From `w` to `t` the budget has paid for the device ticks that went by, and the script has
      had one tick for each. */
  predicate InStep(c: Config, w: World, t: World)
    requires c.slice > 0 && w.m.o.divider > 0
  {
    Undisturbed(t) ==>
      && w.m.ticks <= t.m.ticks
      && TicksFor(w.remaining, c.slice) == TicksFor(t.remaining, c.slice) + (t.m.ticks - w.m.ticks)
      && (c.scripted ==> t.script == ScriptTicks(w.script, w.m, t.m.ticks - w.m.ticks).script)
  }

  lemma TickInStep(c: Config, w: World, t: World)
    requires c.slice > 0 && w.m.o.divider > 0 && Live(w) && OneTick(c, w, t)
    ensures InStep(c, w, t)
  {
    hide TicksFor, ScriptTick;
    FewerTicks(w.remaining, c.slice, 1);
    LessOne(w.remaining, c.slice);
    OneScriptTick(w.script, w.m);
  }

  lemma OneScriptTick(s: Script, m: Machine)
    requires m.o.divider > 0
    ensures ScriptTicks(s, m, 1) == ScriptTick(s, m)
  {
    hide ScriptTick;
    NoScriptTicks(s, m);
  }

  lemma JumpInStep(c: Config, w: World, k: nat, t: World)
    requires c.slice > 0 && w.m.o.divider > 0 && Allowed(c, w, k) && Landed(c, w, k, t)
    ensures InStep(c, w, t)
  {
    hide TicksFor, ScriptTicks, FastForward.Limit, AdvanceWait, Done;
    FewerTicks(w.remaining, c.slice, k);
    if c.scripted {
      WaitTicks(w.script, w.m, k, 0, w.m);
      NoScriptTicks(AdvanceWait(w.script, k), w.m);
    }
  }

  lemma TurnInStep(c: Config, host: Host, w: World)
    requires Fair(c, host, w) && Live(w)
    ensures InStep(c, w, FastStep(c, host, w))
  {
    hide Timely, SlowStep, Jump, JumpLength, InStep, OneTick, Allowed, Landed;
    var k := JumpLength(c, w);
    if k > 1 {
      ClampAllows(c, w);
      JumpTime(c, w, k);
      JumpInStep(c, w, k, Jump(c, w, k));
    } else {
      SlowTime(c, host, w);
      TickInStep(c, w, SlowStep(c, host, w));
    }
  }

  lemma InStepThen(c: Config, w: World, u: World, t: World)
    requires c.slice > 0 && w.m.o.divider > 0 && u.m.o.divider > 0
    requires InStep(c, w, u) && InStep(c, u, t) && Undisturbed(u)
    ensures InStep(c, w, t)
  {
    hide TicksFor, ScriptTicks;
    if c.scripted && Undisturbed(t) {
      TicksThenTicks(w.script, w.m, u.m.ticks - w.m.ticks, t.m.ticks - u.m.ticks, u.m);
    }
  }

  lemma InStepHere(c: Config, w: World)
    requires c.slice > 0 && w.m.o.divider > 0
    ensures InStep(c, w, w)
  {
    NoScriptTicks(w.script, w.m);
  }

  /** After any number of turns, with jumps or without, whatever the clients change. */
  lemma {:induction false} TurnsInStep(c: Config, host: Host, w: World, n: nat)
    requires Fair(c, host, w)
    ensures InStep(c, w, Turns(c, host, w, n))
    decreases n
  {
    hide Timely, FastStep, InStep;
    if n == 0 || !Live(w) {
      InStepHere(c, w);
    } else {
      FastTime(c, host, w);
      var u := FastStep(c, host, w);
      TurnInStep(c, host, w);
      if u.outcome.Running? {
        TurnsInStep(c, host, u, n - 1);
        InStepThen(c, w, u, Turns(c, host, u, n - 1));
      } else {
        StoppedTurns(c, host, u, n - 1);
      }
    }
  }

  lemma StoppedTurns(c: Config, host: Host, w: World, n: nat)
    requires Fair(c, host, w) && !w.outcome.Running?
    ensures Turns(c, host, w, n) == w
  {
  }

  /** A whole run is its turns. */
  lemma {:induction false} RunIsTurns(c: Config, host: Host, w: World, n: nat)
    requires Fair(c, host, w) && n > w.remaining
    ensures RunFast(c, host, w) == Turns(c, host, w, n) && !Live(RunFast(c, host, w))
    decreases n
  {
    hide Timely, FastStep;
    if Live(w) {
      FastTime(c, host, w);
      var u := FastStep(c, host, w);
      if u.outcome.Running? {
        RunIsTurns(c, host, u, n - 1);
      } else {
        StoppedTurns(c, host, u, n - 1);
        Stopped(c, host, u);
      }
    }
  }

  // ----------------------------------------------------------------- the loop without jumps

  /** The configuration that takes every tick. */
  function NoJumps(c: Config): Config {
    c.(jumps := false)
  }

  lemma SameSlow(c: Config, host: Host, w: World)
    requires Fair(c, host, w)
    ensures SlowStep(NoJumps(c), host, w) == SlowStep(c, host, w)
    ensures FastStep(NoJumps(c), host, w) == SlowStep(c, host, w)
  {
    hide Tick, ScriptTick;
  }

  /** The loop without jumps is the loop with its jumps turned off, so what holds turn by turn
      in every configuration holds for both. */
  lemma {:induction false} SlowIsNoJumps(c: Config, host: Host, w: World)
    requires Fair(c, host, w)
    ensures RunSlow(c, host, w) == RunFast(NoJumps(c), host, w)
    decreases w.remaining, if w.outcome.Running? then 1 else 0
  {
    hide Timely, SlowStep, FastStep, OneTick;
    if Live(w) {
      SlowTime(c, host, w);
      SameSlow(c, host, w);
      SlowFewer(c, w, SlowStep(c, host, w));
      SlowIsNoJumps(c, host, SlowStep(c, host, w));
    }
  }

  lemma SlowFewer(c: Config, w: World, t: World)
    requires w.m.o.divider > 0 && OneTick(c, w, t)
    ensures t.remaining <= w.remaining && (t.outcome.Running? ==> t.remaining < w.remaining)
  {
  }

  // --------------------------------------------------------------------- counting the ticks

  /** A run that ends with its budget used up has delivered exactly ceil(budget / slice) device
      ticks. */
  lemma FastTickCount(c: Config, host: Host, w: World)
    requires Fair(c, host, w)
    ensures RunFast(c, host, w).outcome.Running? ==>
              RunFast(c, host, w).m.ticks == w.m.ticks + TicksFor(w.remaining, c.slice)
  {
    hide Timely, TicksFor, ScriptTicks, RunFast, Turns;
    RunIsTurns(c, host, w, w.remaining + 1);
    TurnsInStep(c, host, w, w.remaining + 1);
    NoTicks(c.slice);
  }

  lemma SlowTickCount(c: Config, host: Host, w: World)
    requires Fair(c, host, w)
    ensures RunSlow(c, host, w).outcome.Running? ==>
              RunSlow(c, host, w).m.ticks == w.m.ticks + TicksFor(w.remaining, c.slice)
  {
    hide Timely, TicksFor, RunFast, RunSlow;
    SlowIsNoJumps(c, host, w);
    FastTickCount(NoJumps(c), host, w);
  }

  // ---------------------------------------------------------------------- the script's time

  /** At every turn of the loop, an event of the script has been played if and only if the
      waits before it are fewer than the device ticks that have gone by. */
  lemma EventsOnTime(c: Config, host: Host, w: World, n: nat, i: nat)
    requires Fair(c, host, w) && c.scripted
    requires w.script.cursor == 0 && w.script.waitLeft == 0 && i < |w.script.events|
    ensures var t := Turns(c, host, w, n);
            Undisturbed(t) ==>
              w.m.ticks <= t.m.ticks &&
              (t.script.cursor > i <==> Waits(w.script.events[..i]) < t.m.ticks - w.m.ticks)
  {
    hide Timely, TicksFor, ScriptTicks, Turns, Waits;
    TurnsInStep(c, host, w, n);
    var t := Turns(c, host, w, n);
    if Undisturbed(t) {
      EventTime(w.script.events, w.m, t.m.ticks - w.m.ticks, i);
    }
  }

  /** The turn that plays an event is a single device tick, and which one it is depends only on
      the waits before the event: with jumps and without, on any machine, for any client. */
  lemma PlayedOnTick(c: Config, host: Host, w: World, n: nat, i: nat)
    requires Fair(c, host, w) && c.scripted
    requires w.script.cursor == 0 && w.script.waitLeft == 0 && i < |w.script.events|
    requires var t := Turns(c, host, w, n);
             Fair(c, host, t) && Live(t) && Undisturbed(FastStep(c, host, t)) &&
             t.script.cursor <= i < FastStep(c, host, t).script.cursor
    ensures var next := FastStep(c, host, Turns(c, host, w, n));
            next.m.ticks == w.m.ticks + 1 + Waits(w.script.events[..i])
  {
    hide Timely, Turns, Waits, SlowStep, Jump, JumpLength, Allowed;
    var t := Turns(c, host, w, n);
    EventsOnTime(c, host, w, n, i);
    OneMoreTurn(c, host, w, n);
    EventsOnTime(c, host, w, n + 1, i);
    if JumpLength(c, t) > 1 {
      ClampAllows(c, t);
      JumpTime(c, t, JumpLength(c, t));
    } else {
      SlowTime(c, host, t);
      hide OneTick, ScriptTick;
      SlowTicksOne(c, t, SlowStep(c, host, t));
    }
  }

  lemma SlowTicksOne(c: Config, w: World, t: World)
    requires w.m.o.divider > 0 && OneTick(c, w, t) && Undisturbed(t)
    ensures t.m.ticks == w.m.ticks + 1
  {
  }

  lemma {:induction false} OneMoreTurn(c: Config, host: Host, w: World, n: nat)
    requires Fair(c, host, w)
    ensures var t := Turns(c, host, w, n);
            Fair(c, host, t) && Turns(c, host, w, n + 1) == if Live(t) then FastStep(c, host, t) else t
    decreases n
  {
    hide Timely, FastStep;
    if Live(w) {
      FastTime(c, host, w);
      var u := FastStep(c, host, w);
      assert Turns(c, host, u, 0) == u;
      if n != 0 {
        OneMoreTurn(c, host, u, n - 1);
      }
    }
  }

  // --------------------------------------------------------------------- serving the clients

  /** The turn from `w` to `t` ends with a visit to the clients. */
  predicate Visits(c: Config, w: World, t: World)
    requires c.slice > 0
  {
    c.web && JumpLength(c, w) <= 1 && Undisturbed(t) && t.m.ticks % POLL == 0
  }

  /** The device ticks on which the clients are served in `n` turns. */
  ghost function Served(c: Config, host: Host, w: World, n: nat): seq<nat>
    requires Fair(c, host, w)
    decreases n
  {
    if n == 0 || !Live(w) then []
    else
      FastTime(c, host, w);
      var t := FastStep(c, host, w);
      (if Visits(c, w, t) then [t.m.ticks] else []) + Served(c, host, t, n - 1)
  }

  /** The multiples of 256 after `a`, up to `b`. */
  function Polls(a: nat, b: nat): seq<nat>
    decreases b
  {
    if b <= a then [] else Polls(a, b - 1) + if b % POLL == 0 then [b] else []
  }

  lemma {:induction false} PollsThen(a: nat, b: nat, c: nat)
    requires a <= b <= c
    ensures Polls(a, c) == Polls(a, b) + Polls(b, c)
    decreases c
  {
    if b < c {
      PollsThen(a, b, c - 1);
    }
  }

  lemma {:induction false} NoPolls(a: nat, k: nat)
    requires k + a % POLL < POLL
    ensures Polls(a, a + k) == []
  {
    if k != 0 {
      NoPolls(a, k - 1);
      NotPolled(a, k);
    }
  }

  lemma TurnVisits(c: Config, host: Host, w: World)
    requires Fair(c, host, w) && Live(w) && c.web && Undisturbed(FastStep(c, host, w))
    ensures var t := FastStep(c, host, w);
            w.m.ticks <= t.m.ticks &&
            Polls(w.m.ticks, t.m.ticks) == if Visits(c, w, t) then [t.m.ticks] else []
  {
    hide Timely, SlowStep, Jump, JumpLength;
    var k := JumpLength(c, w);
    if k > 1 {
      ClampAllows(c, w);
      JumpTime(c, w, k);
      hide FastForward.Limit;
      NoPolls(w.m.ticks, k);
    } else {
      SlowTime(c, host, w);
      SlowTicksOne(c, w, SlowStep(c, host, w));
      assert Polls(w.m.ticks, w.m.ticks) == [];
    }
  }

  /** In every configuration the clients have been served on every 256th device tick and on no
      other, with jumps and without. */
  lemma {:induction false} ServedOnTime(c: Config, host: Host, w: World, n: nat)
    requires Fair(c, host, w) && c.web
    ensures var t := Turns(c, host, w, n);
            Undisturbed(t) ==>
              w.m.ticks <= t.m.ticks && Served(c, host, w, n) == Polls(w.m.ticks, t.m.ticks)
    decreases n
  {
    hide Timely, FastStep, Visits;
    if n == 0 || !Live(w) {
      assert Polls(w.m.ticks, w.m.ticks) == [];
    } else {
      FastTime(c, host, w);
      var u := FastStep(c, host, w);
      ServedOnTime(c, host, u, n - 1);
      StoppedOrRunning(c, host, u, n - 1);
      var t := Turns(c, host, u, n - 1);
      if Undisturbed(t) {
        TurnVisits(c, host, w);
        PollsThen(w.m.ticks, u.m.ticks, t.m.ticks);
      }
    }
  }

  /** A disturbance ends the run. */
  lemma StoppedOrRunning(c: Config, host: Host, w: World, n: nat)
    requires Fair(c, host, w)
    ensures Undisturbed(Turns(c, host, w, n)) ==> Undisturbed(w)
  {
    if !w.outcome.Running? {
      StoppedTurns(c, host, w, n);
    }
  }

  // ------------------------------------------------------------------------- what is charged

  /** A jump is charged whole slices, so it counts the same instructions as the ticks it
      replaces if and only if the budget still covers them all. */
  lemma JumpCharges(c: Config, host: Host, w: World, k: nat)
    requires Stretch(c, host, w, k)
    ensures k * Slice(c, w) == w.remaining - After(c, w, k).remaining <==> k * c.slice <= w.remaining
    ensures k * Slice(c, w) >= w.remaining - After(c, w, k).remaining
  {
    hide Inv, Sound, FastForward.Limit, FastForward.Idle, FastForward.Passed, AdvanceWait;
    FullSlices(c, w, k);
    hide Slice;
  }

  // ---------------------------------------------------------------- where the loops part

  /** A machine that has just gone to sleep, with what is left of a budget. */
  function Bedtime(o: Options, slice: nat, budget: nat, media: seq<Byte>, ram: Ram.Memory,
                   codec: I2sSpec.Codec): World
    requires o.divider > 0
  {
    World(ClockRate.Settled(o, media, ram, codec), Script([], 0, 0), budget, Running, 0, 0)
  }

  function Plain(slice: nat): Config {
    Config(slice, true, false, false)
  }

  /** It jumps over its whole budget. */
  lemma BedtimeJumps(o: Options, slice: nat, budget: nat, k: nat, media: seq<Byte>, ram: Ram.Memory,
                     codec: I2sSpec.Codec, host: Host)
    requires 0 < o.usec <= 4096 && o.divider > 0 && Sound(host) && slice > 0
    requires 2 <= k <= 3 && TicksFor(budget, slice) == k && budget > slice
    ensures var w := Bedtime(o, slice, budget, media, ram, codec);
            && Good(Plain(slice), host, w) && Live(w) && JumpLength(Plain(slice), w) == k
            && FastForward.Idle(w.m) && w.m.o == o
  {
    hide ClockRate.Settled, FastForward.Limit, FastForward.Idle, Inv, Sound, Timely;
    var m := ClockRate.Settled(o, media, ram, codec);
    ClockRate.SettledDozes(o, media, ram, codec);
    ClockRate.DozingLimit(m, o, 1, 3);
    assert Timely(host) by { SoundTimely(host); }
    MachineInv.InvDivider(m);
  }

  lemma SoundTimely(host: Host)
    requires Sound(host)
    ensures Timely(host)
  {
  }

  /** A budget of 1000 instructions in slices of 512: the jump over its two ticks is charged
      1024, the ticks themselves 1000. */
  lemma Overcharged(media: seq<Byte>, ram: Ram.Memory, codec: I2sSpec.Codec, host: Host)
    requires Sound(host)
    ensures var c := Plain(512); var w := Bedtime(Options(1, 20, false), 512, 1000, media, ram, codec);
            && Stretch(c, host, w, 2) && JumpLength(c, w) == 2
            && 2 * Slice(c, w) == 1024 && w.remaining - After(c, w, 2).remaining == 1000
  {
    hide ClockRate.Settled, Timely, FastForward.Limit, FastForward.Idle, Inv, Sound, FastForward.Passed, JumpLength;
    var o := Options(1, 20, false);
    BedtimeJumps(o, 512, 1000, 2, media, ram, codec, host);
    ClampAllows(Plain(512), Bedtime(o, 512, 1000, media, ram, codec));
  }

  /** Two or three ticks that are not a whole number of timer steps. */
  function Parting(usec: nat, divider: nat): nat
    requires divider > 0
  {
    if 2 * usec % divider != 0 then 2 else 3
  }

  lemma PartingParts(usec: nat, divider: nat)
    requires divider > 0 && usec % divider != 0
    ensures Parting(usec, divider) * usec % divider != 0
  {
    if 2 * usec % divider == 0 {
      var q := 2 * usec / divider;
      assert 3 * usec == q * divider + usec;
      assert usec == usec / divider * divider + usec % divider;
      assert (q + usec / divider) * divider == q * divider + usec / divider * divider;
      ModUnique(3 * usec, q + usec / divider, usec % divider, divider);
    }
  }

  lemma WholeBudget(k: nat, slice: nat)
    requires slice > 0 && k >= 2
    ensures TicksFor(k * slice, slice) == k && k * slice > slice
    ensures Less(k * slice, k * Min(slice, k * slice)) == 0
  {
    assert k * slice == slice + (k - 1) * slice && (k - 1) * slice >= slice;
    ModUnique(k * slice + slice - 1, k, slice - 1, slice);
  }

  /** Whenever a tick, of a length a client may set, is not a whole number of timer steps, some
      budget makes the two loops end in different machines: the agreement needs its condition. */
  lemma LoopsPart(o: Options, slice: nat, media: seq<Byte>, ram: Ram.Memory, codec: I2sSpec.Codec, host: Host)
    requires 0 < o.usec <= 4096 && o.divider > 0 && o.usec % o.divider != 0
    requires Sound(host) && slice > 0
    ensures var w := Bedtime(o, slice, Parting(o.usec, o.divider) * slice, media, ram, codec);
            Good(Plain(slice), host, w) &&
            !Agree(RunFast(Plain(slice), host, w), RunSlow(Plain(slice), host, w))
  {
    hide Inv, Sound, Timely, ClockRate.Settled, JumpLength, RunSlow, Jump, SlowStep, FastForward.Idle,
         FastForward.Limit, Parting, Slice;
    var c, k := Plain(slice), Parting(o.usec, o.divider);
    PartingIs(o.usec, o.divider);
    WholeBudget(k, slice);
    BedtimeJumps(o, slice, k * slice, k, media, ram, codec, host);
    var w := Bedtime(o, slice, k * slice, media, ram, codec);
    ClampAllows(c, w);
    JumpIsTicks(c, host, w, k);
    PartingParts(o.usec, o.divider);
    OneJump(c, host, w, k);
  }

  lemma PartingIs(usec: nat, divider: nat)
    requires divider > 0
    ensures 2 <= Parting(usec, divider) <= 3
  {
  }

  /** A run that is over after one jump. */
  lemma OneJump(c: Config, host: Host, w: World, k: nat)
    requires Stretch(c, host, w, k) && JumpLength(c, w) == k && w.remaining == k * c.slice
    requires Good(c, host, After(c, w, k - 1)) && Live(After(c, w, k - 1))
    requires RunSlow(c, host, w) == RunSlow(c, host, After(c, w, k - 1))
    requires AgreeButPhase(Jump(c, w, k), SlowStep(c, host, After(c, w, k - 1)), w.m.timer.phase)
    ensures RunFast(c, host, w) == Jump(c, w, k)
    ensures RunSlow(c, host, w) == SlowStep(c, host, After(c, w, k - 1))
  {
    hide Inv, Sound, Timely, JumpLength, After, SlowStep, FastForward.Idle, FastForward.Limit,
         FastForward.Advance, OneTick;
    WholeBudget(k, c.slice);
    JumpTime(c, w, k);
    SlowTime(c, host, After(c, w, k - 1));
    assert !Live(Jump(c, w, k));
    hide Jump;
    assert !Live(SlowStep(c, host, After(c, w, k - 1)));
  }
}
