/** The scheduling loop (src/main.c): the instruction budget in slices, one device tick a
    slice, and jumps over idle stretches. */
module MainLoop {
  import opened Words
  import opened Machine
  import opened InputScript
  import FastForward
  import MachineInv

  const POLL: nat := 256

  /** `slice` is the instructions of one tick. */
  datatype Config = Config(slice: nat, jumps: bool, web: bool, scripted: bool)

  datatype Polled = Polled(m: Machine, restart: bool)

  /** What the loop calls: the cores run for a slice, which may fail, and the web front end
      serves its clients. */
  datatype Host = Host(exec: (Machine, nat) -> Option<Machine>, poll: Machine -> Polled)

  datatype Outcome = Running | Woken | Restart | Failed

  datatype World = World(m: Machine, script: Script, remaining: nat, outcome: Outcome,
                         active: nat, halted: nat)

  /** Neither the cores nor the clients touch the tick count or take the prescaler away. All
      else they may change, the length of a tick among it. */
  ghost predicate Timely(host: Host) {
    && (forall m: Machine, n: nat | m.o.divider > 0 && host.exec(m, n).Some? ::
          SameTime(m, host.exec(m, n).value))
    && (forall m: Machine | m.o.divider > 0 :: SameTime(m, host.poll(m).m))
  }

  predicate SameTime(m: Machine, n: Machine) {
    n.ticks == m.ticks && n.o.divider > 0
  }

  /** They also leave the devices in states that meet the invariants, and sleeping cores do
      nothing. */
  ghost predicate Sound(host: Host) {
    && Timely(host)
    && (forall m, n | Inv(m) && host.exec(m, n).Some? :: Inv(host.exec(m, n).value))
    && (forall m, n | Sleeping(m) :: host.exec(m, n) == Some(m))
    && (forall m | Inv(m) :: Inv(host.poll(m).m))
  }

  /** They also leave a tick that is a whole number of timer steps one. */
  ghost predicate Steady(host: Host) {
    && (forall m, n | Whole(m) && host.exec(m, n).Some? :: Whole(host.exec(m, n).value))
    && (forall m | Whole(m) :: Whole(host.poll(m).m))
  }

  predicate Whole(m: Machine) {
    m.o.divider > 0 && m.o.usec % m.o.divider == 0
  }

  predicate Sleeping(m: Machine) {
    m.cores.cpu.halted && m.cores.cop.halted
  }

  ghost predicate Fair(c: Config, host: Host, w: World) {
    c.slice > 0 && Timely(host) && w.m.o.divider > 0
  }

  ghost predicate Good(c: Config, host: Host, w: World) {
    Fair(c, host, w) && Sound(host) && Inv(w.m)
  }

  predicate Live(w: World) {
    w.outcome.Running? && w.remaining > 0
  }

  // ------------------------------------------------------------------------------ one tick

  function Slice(c: Config, w: World): nat {
    Min(c.slice, w.remaining)
  }

  function AfterScript(c: Config, w: World): World
    requires w.m.o.divider > 0
  {
    if !c.scripted then w
    else
      var p := ScriptTick(w.script, w.m);
      w.(m := p.m, script := p.script)
  }

  /** Every 256th tick the clients are served. */
  function AfterPoll(c: Config, host: Host, w: World): World {
    if !c.web || w.m.ticks % POLL != 0 then w
    else
      var p := host.poll(w.m);
      w.(m := p.m, outcome := if p.restart then Restart else w.outcome)
  }

  /** What follows the cores: the device tick, then, unless it has woken the machine from
      standby, the script, the budget and the clients. */
  function AfterCores(c: Config, host: Host, w: World): World
    requires w.m.o.divider > 0
  {
    var t := w.(m := Tick(w.m));
    if t.m.pmu.power.wakes != 0 then t.(outcome := Woken)
    else
      var u := AfterScript(c, t);
      AfterPoll(c, host, u.(remaining := w.remaining - Slice(c, w)))
  }

  function Counted(w: World): World {
    if Sleeping(w.m) then w.(halted := w.halted + 1) else w.(active := w.active + 1)
  }

  ghost function SlowStep(c: Config, host: Host, w: World): World
    requires Fair(c, host, w)
  {
    match host.exec(w.m, Slice(c, w))
    case None => Counted(w).(outcome := Failed)
    case Some(m) => AfterCores(c, host, Counted(w).(m := m))
  }

  /** What a tick of the loop always does to the time, the budget and the script. */
  predicate OneTick(c: Config, w: World, t: World)
    requires w.m.o.divider > 0
  {
    && t.m.o.divider > 0 && t.remaining <= w.remaining
    && (t.outcome.Running? ==> t.remaining < w.remaining)
    && (Undisturbed(t) ==> t.remaining == w.remaining - Slice(c, w))
    && (t.outcome.Failed? || t.m.ticks == w.m.ticks + 1)
    && (Undisturbed(t) && c.scripted ==> t.script == ScriptTick(w.script, w.m).script)
  }

  /** Neither woken from standby nor stopped by a failure. */
  predicate Undisturbed(w: World) {
    !w.outcome.Woken? && !w.outcome.Failed?
  }

  lemma TailTime(c: Config, host: Host, t: World)
    requires c.slice > 0 && Timely(host) && t.m.o.divider > 0
    ensures var u := AfterPoll(c, host, t);
            SameTime(t.m, u.m) && u.remaining == t.remaining && u.script == t.script
  {
  }

  lemma CoresTime(c: Config, host: Host, w: World, before: Machine)
    requires Fair(c, host, w) && Live(w) && SameTime(before, w.m) && before.o.divider > 0
    ensures OneTick(c, w.(m := before), AfterCores(c, host, w))
  {
    hide Tick, ScriptTick, AfterPoll, Timely;
    var t := w.(m := Tick(w.m));
    TailTime(c, host, AfterScript(c, t).(remaining := w.remaining - Slice(c, w)));
    ScriptTickSame(w.script, before, t.m);
    TailOutcome(c, host, AfterScript(c, t).(remaining := w.remaining - Slice(c, w)));
  }

  lemma TailOutcome(c: Config, host: Host, t: World)
    requires t.outcome.Running?
    ensures var u := AfterPoll(c, host, t); !u.outcome.Woken? && !u.outcome.Failed?
  {
  }

  lemma SlowTime(c: Config, host: Host, w: World)
    requires Fair(c, host, w) && Live(w)
    ensures OneTick(c, w, SlowStep(c, host, w)) && Fair(c, host, SlowStep(c, host, w))
  {
    hide AfterCores, ScriptTick;
    var ran := host.exec(w.m, Slice(c, w));
    if ran.Some? {
      CoresTime(c, host, Counted(w).(m := ran.value), w.m);
    }
  }

  lemma SlowInv(c: Config, host: Host, w: World)
    requires Good(c, host, w) && Live(w)
    ensures Good(c, host, SlowStep(c, host, w))
  {
    hide Inv, Timely, AfterCores;
    SlowTime(c, host, w);
    var ran := host.exec(w.m, Slice(c, w));
    if ran.Some? {
      assert Timely(host);
      ExecTime(host, w.m, Slice(c, w));
      CoresInv(c, host, Counted(w).(m := ran.value));
    }
  }

  lemma ExecTime(host: Host, m: Machine, slice: nat)
    requires Timely(host) && m.o.divider > 0
    ensures host.exec(m, slice).Some? ==> SameTime(m, host.exec(m, slice).value)
  {
  }

  lemma CoresInv(c: Config, host: Host, w: World)
    requires Sound(host) && Inv(w.m) && w.m.o.divider > 0 && w.remaining >= Slice(c, w)
    ensures Inv(AfterCores(c, host, w).m)
  {
    hide Inv, Tick, ScriptTick, Timely;
    MachineInv.TickInv(w.m);
    ScriptTickInv(w.script, Tick(w.m));
  }

  lemma SlowWhole(c: Config, host: Host, w: World)
    requires Fair(c, host, w) && Live(w) && Steady(host) && Whole(w.m)
    ensures Whole(SlowStep(c, host, w).m)
  {
    hide Tick, ScriptTick;
  }

  /** The loop without jumps. */
  ghost function RunSlow(c: Config, host: Host, w: World): World
    requires Fair(c, host, w)
    decreases w.remaining, if w.outcome.Running? then 1 else 0
  {
    if !Live(w) then w
    else
      SlowTime(c, host, w);
      RunSlow(c, host, SlowStep(c, host, w))
  }

  // ------------------------------------------------------------------------------- a jump

  /** How far the script, the clients and the budget let a jump go. */
  function Clamp(c: Config, w: World, limit: nat): nat
    requires c.slice > 0
  {
    var a := if !c.scripted then limit
             else if w.script.waitLeft == 0 then if Done(w.script) then limit else 1
             else Min(limit, w.script.waitLeft);
    var toPoll := POLL - w.m.ticks % POLL;
    var b := if c.web then Min(a, if toPoll > 1 then toPoll - 1 else 1) else a;
    var slice := Slice(c, w);
    if slice == 0 then b else Min(b, (w.remaining + slice - 1) / slice)
  }

  function JumpLength(c: Config, w: World): nat
    requires c.slice > 0
  {
    var limit := if c.jumps then FastForward.Limit(w.m) else 1;
    if limit > 1 then Clamp(c, w, limit) else limit
  }

  function Jump(c: Config, w: World, k: nat): World
    requires w.m.o.divider > 0
  {
    var t := w.(m := FastForward.Advance(w.m, k),
                halted := w.halted + k,
                script := if c.scripted then AdvanceWait(w.script, k) else w.script,
                remaining := Less(w.remaining, k * Slice(c, w)));
    if t.m.pmu.power.wakes != 0 then t.(outcome := Woken) else t
  }

  function Less(a: nat, b: nat): nat {
    if b >= a then 0 else a - b
  }

  ghost function FastStep(c: Config, host: Host, w: World): World
    requires Fair(c, host, w)
  {
    var k := JumpLength(c, w);
    if k > 1 then Jump(c, w, k) else SlowStep(c, host, w)
  }

  /** What the clamps guarantee. */
  predicate Allowed(c: Config, w: World, k: nat)
    requires c.slice > 0
  {
    && 2 <= k <= FastForward.Limit(w.m)
    && (c.scripted ==> Done(w.script) || k <= w.script.waitLeft)
    && (c.web ==> k + w.m.ticks % POLL < POLL)
    && (k - 1) * c.slice < w.remaining
  }

  lemma CeilAbove(remaining: nat, slice: nat, k: nat)
    requires slice > 0 && remaining > 0
    requires 2 <= k <= (remaining + Min(slice, remaining) - 1) / Min(slice, remaining)
    ensures slice < remaining && (k - 1) * slice < remaining
  {
    var least := Min(slice, remaining);
    FastForward.CeilBelow(remaining, least, k - 1);
    assert (k - 1) * least >= least;
  }

  lemma ClampAllows(c: Config, w: World)
    requires c.slice > 0 && Live(w) && JumpLength(c, w) > 1
    ensures Allowed(c, w, JumpLength(c, w))
  {
    hide FastForward.Limit;
    CeilAbove(w.remaining, c.slice, JumpLength(c, w));
  }

  /** What a jump does to the time, the budget and the script. */
  predicate Landed(c: Config, w: World, k: nat, t: World) {
    && t.remaining == Less(w.remaining, k * c.slice) < w.remaining
    && t.m.o == w.m.o && t.m.ticks == w.m.ticks + k
    && (c.scripted ==> t.script == AdvanceWait(w.script, k))
  }

  lemma JumpTime(c: Config, w: World, k: nat)
    requires c.slice > 0 && w.m.o.divider > 0 && Live(w) && Allowed(c, w, k)
    ensures Landed(c, w, k, Jump(c, w, k))
  {
    hide FastForward.Limit, FastForward.Advance, Done, AdvanceWait;
    assert (k - 1) * c.slice >= c.slice;
    assert k * c.slice >= c.slice;
  }

  lemma JumpInv(c: Config, host: Host, w: World, k: nat)
    requires Good(c, host, w) && Live(w) && Allowed(c, w, k)
    ensures Good(c, host, Jump(c, w, k)) && Landed(c, w, k, Jump(c, w, k))
  {
    hide Inv, FastForward.Limit, FastForward.Advance, Sound, Timely, AdvanceWait;
    AdvanceGood(w.m, k);
    JumpTime(c, w, k);
  }

  lemma {:induction false} TicksGood(m: Machine, k: nat)
    requires Inv(m) && m.o.divider > 0
    ensures Inv(Ticks(m, k)) && Ticks(m, k).ticks == m.ticks + k
  {
    hide Inv, Tick;
    if k != 0 {
      TicksGood(m, k - 1);
      MachineInv.TickInv(Ticks(m, k - 1));
    }
  }

  lemma PhaseInv(m: Machine, phase: nat)
    requires Inv(m) && phase < m.o.divider
    ensures Inv(FastForward.WithPhase(m, phase))
  {
  }

  lemma PhaseOf(m: Machine)
    requires Inv(m)
    ensures m.timer.phase < m.o.divider
  {
  }

  lemma AdvanceGood(m: Machine, k: nat)
    requires Inv(m) && m.o.divider > 0 && 2 <= k <= FastForward.Limit(m)
    ensures Inv(FastForward.Advance(m, k)) && FastForward.Advance(m, k).o == m.o
    ensures FastForward.Advance(m, k).ticks == m.ticks + k
  {
    hide Inv, FastForward.Limit, FastForward.Advance, Ticks;
    FastForward.AdvanceIsTicks(m, k);
    TicksGood(m, k);
    PhaseOf(m);
    PhaseInv(Ticks(m, k), m.timer.phase);
  }

  lemma FastTime(c: Config, host: Host, w: World)
    requires Fair(c, host, w) && Live(w)
    ensures var t := FastStep(c, host, w);
            && Fair(c, host, t) && t.remaining <= w.remaining
            && (t.remaining < w.remaining || !t.outcome.Running?)
  {
    hide Timely, SlowStep, Jump, JumpLength, ScriptTick;
    if JumpLength(c, w) > 1 {
      ClampAllows(c, w);
      JumpTime(c, w, JumpLength(c, w));
    } else {
      SlowTime(c, host, w);
    }
  }

  /** The loop as it is. */
  ghost function RunFast(c: Config, host: Host, w: World): World
    requires Fair(c, host, w)
    decreases w.remaining, if w.outcome.Running? then 1 else 0
  {
    if !Live(w) then w
    else
      FastTime(c, host, w);
      RunFast(c, host, FastStep(c, host, w))
  }

  // --------------------------------------------------------------------- counting the ticks

  /** The ticks a budget is good for. */
  function TicksFor(remaining: nat, slice: nat): nat
    requires slice > 0
  {
    (remaining + slice - 1) / slice
  }

  lemma FewerTicks(remaining: nat, slice: nat, k: nat)
    requires slice > 0 && k >= 1 && (k - 1) * slice < remaining
    ensures TicksFor(remaining, slice) == TicksFor(Less(remaining, k * slice), slice) + k
  {
    var p := k * slice;
    assert p == (k - 1) * slice + slice;
    var rest := Less(remaining, p);
    if p >= remaining {
      NoTicks(slice);
      CeilIs(remaining, slice, k, remaining + slice - 1 - p);
    } else {
      var x := rest + slice - 1;
      assert (x / slice + k) * slice == x / slice * slice + p;
      CeilIs(remaining, slice, x / slice + k, x % slice);
    }
  }

  lemma CeilIs(remaining: nat, slice: nat, q: nat, r: nat)
    requires slice > 0 && remaining + slice - 1 == q * slice + r && r < slice
    ensures TicksFor(remaining, slice) == q
  {
    ModUnique(remaining + slice - 1, q, r, slice);
  }

  lemma LessOne(remaining: nat, slice: nat)
    ensures Less(remaining, 1 * slice) == remaining - Min(slice, remaining)
  {
  }

  lemma NoTicks(slice: nat)
    requires slice > 0
    ensures TicksFor(0, slice) == 0
  {
    ModUnique(slice - 1, 0, slice - 1, slice);
  }

  lemma Stopped(c: Config, host: Host, w: World)
    requires Fair(c, host, w) && !w.outcome.Running?
    ensures RunFast(c, host, w) == w && RunSlow(c, host, w) == w
  {
  }

  // ------------------------------------------------------------------- jumps against ticks

  /** The world `j` ticks into an idle stretch. */
  function After(c: Config, w: World, j: nat): World
    requires w.m.o.divider > 0
  {
    w.(m := FastForward.Passed(w.m, j), halted := w.halted + j,
       script := if c.scripted then AdvanceWait(w.script, j) else w.script,
       remaining := Less(w.remaining, j * c.slice))
  }

  ghost predicate Stretch(c: Config, host: Host, w: World, k: nat) {
    Good(c, host, w) && Live(w) && Allowed(c, w, k) && FastForward.Idle(w.m)
  }

  lemma NotPolled(ticks: nat, j: nat)
    requires 1 <= j && j + ticks % POLL < POLL
    ensures (ticks + j) % POLL != 0
  {
  }

  /** The script's part of one idle tick: only a wait goes down. */
  lemma ScriptWaits(s: Script, m: Machine, j: nat)
    requires m.o.divider > 0 && (Done(s) || j < s.waitLeft)
    ensures ScriptTick(AdvanceWait(s, j), m) == Played(AdvanceWait(s, j + 1), m)
  {
    if Done(s) {
      assert AdvanceWait(s, j) == s;
    }
  }

  lemma LessMore(remaining: nat, slice: nat, j: nat)
    requires j * slice < remaining
    ensures Less(remaining, j * slice) > 0
    ensures Less(remaining, (j + 1) * slice) ==
            Less(remaining, j * slice) - Min(slice, Less(remaining, j * slice))
  {
    assert (j + 1) * slice == j * slice + slice;
  }

  lemma MulBelow(j: nat, k: nat, slice: nat, remaining: nat)
    requires j < k && (k - 1) * slice < remaining
    ensures j * slice < remaining
  {
    assert (k - 1 - j) * slice == (k - 1) * slice - j * slice;
    assert (k - 1 - j) * slice >= 0;
  }

  lemma StillWaiting(s: Script, k: nat, j: nat)
    requires j < k && (Done(s) || k <= s.waitLeft)
    ensures Done(s) || j < s.waitLeft
  {
  }

  /** What follows the tick, `j` ticks into the stretch. */
  lemma StretchTail(c: Config, host: Host, w: World, k: nat, j: nat, n: Machine)
    requires c.slice > 0 && Allowed(c, w, k) && w.outcome.Running? && j < k
    requires n.o == w.m.o && n.ticks == w.m.ticks + (j + 1) && n.o.divider > 0
    ensures var t := After(c, w, j).(m := n, halted := w.halted + (j + 1));
            AfterPoll(c, host, AfterScript(c, t).(remaining := t.remaining - Slice(c, t))) ==
            After(c, w, j + 1).(m := n)
  {
    hide ScriptTick, FastForward.Limit, FastForward.Passed, Done, AdvanceWait, Less;
    MulBelow(j, k, c.slice, w.remaining);
    LessMore(w.remaining, c.slice, j);
    if c.scripted {
      StillWaiting(w.script, k, j);
      ScriptWaits(w.script, n, j);
    }
    if c.web {
      NotPolled(w.m.ticks, j + 1);
    }
  }

  lemma SleepersPass(c: Config, host: Host, w: World, j: nat)
    requires Sound(host) && FastForward.Idle(w.m) && w.m.o.divider > 0
    ensures var v := After(c, w, j);
            host.exec(v.m, Slice(c, v)) == Some(v.m) &&
            Counted(v) == v.(halted := w.halted + (j + 1))
  {
    hide FastForward.Quiescent, AdvanceWait, Less, Add32;
    var v := After(c, w, j);
    assert Sleeping(v.m);
  }

  lemma PassedTime(m: Machine, j: nat)
    requires m.o.divider > 0
    ensures FastForward.Passed(m, j).ticks == m.ticks + j && FastForward.Passed(m, j).o == m.o
  {
    hide Add32;
  }

  /** One tick of the loop inside the stretch. */
  lemma StretchStep(c: Config, host: Host, w: World, k: nat, j: nat)
    requires Stretch(c, host, w, k) && j < k && Good(c, host, After(c, w, j))
    ensures var n := Tick(FastForward.Passed(w.m, j));
            SlowStep(c, host, After(c, w, j)) ==
            if n.pmu.power.wakes != 0
            then After(c, w, j).(m := n, halted := w.halted + (j + 1), outcome := Woken)
            else After(c, w, j + 1).(m := n)
  {
    hide Inv, Sound, Tick, FastForward.Limit, FastForward.Passed, FastForward.Idle, AfterPoll,
         AfterScript, AdvanceWait, Less, Min, Counted, Allowed;
    SleepersPass(c, host, w, j);
    PassedTime(w.m, j);
    StretchTail(c, host, w, k, j, Tick(FastForward.Passed(w.m, j)));
  }

  lemma NextPassed(m: Machine, j: nat)
    requires Inv(m) && FastForward.Idle(m) && 1 <= j < FastForward.Limit(m) && m.o.divider > 0
    ensures Tick(FastForward.Passed(m, j - 1)) == FastForward.Passed(m, j)
    ensures FastForward.Passed(m, j).pmu.power.wakes == 0 && Inv(FastForward.Passed(m, j))
  {
    hide Inv, Tick, FastForward.Limit, FastForward.Passed, FastForward.Idle;
    FastForward.SkippedTicks(m, j);
    FastForward.SkippedTicks(m, j - 1);
    TicksGood(m, j);
    NotWoken(FastForward.Passed(m, j));
  }

  lemma NotWoken(m: Machine)
    requires FastForward.Idle(m)
    ensures m.pmu.power.wakes == 0
  {
  }

  lemma Beginning(c: Config, w: World)
    requires w.m.o.divider > 0 && Inv(w.m)
    ensures After(c, w, 0) == w
  {
    hide Inv;
    PhaseOf(w.m);
    assert 0 * c.slice == 0;
  }

  /** The loop without jumps comes to every tick of the stretch. */
  lemma {:induction false} InStretch(c: Config, host: Host, w: World, k: nat, j: nat)
    requires Stretch(c, host, w, k) && j < k
    ensures var v := After(c, w, j);
            Good(c, host, v) && Live(v) && RunSlow(c, host, w) == RunSlow(c, host, v)
  {
    hide Inv, Sound, Timely, Tick, FastForward.Limit, FastForward.Idle, FastForward.Passed, SlowStep,
         AdvanceWait, Less;
    if j == 0 {
      Beginning(c, w);
    } else {
      InStretch(c, host, w, k, j - 1);
      StretchStep(c, host, w, k, j - 1);
      NextPassed(w.m, j);
      MulBelow(j, k, c.slice, w.remaining);
      LessMore(w.remaining, c.slice, j);
      PassedTime(w.m, j);
    }
  }

  lemma WholeSteps(k: nat, usec: nat, divider: nat)
    requires divider > 0 && usec % divider == 0
    ensures k * usec % divider == 0
  {
    var q := usec / divider;
    assert usec == q * divider;
    assert k * usec == k * q * divider;
    ModUnique(k * usec, k * q, 0, divider);
  }

  lemma FullSlices(c: Config, w: World, k: nat)
    requires c.slice > 0 && Allowed(c, w, k)
    ensures Slice(c, w) == c.slice
  {
    assert (k - 1) * c.slice >= c.slice;
  }

  lemma LastPassed(m: Machine, k: nat)
    requires Inv(m) && m.o.divider > 0 && 2 <= k <= FastForward.Limit(m)
    ensures var last := Tick(FastForward.Passed(m, k - 1)); var jumped := FastForward.Advance(m, k);
            && jumped == FastForward.WithPhase(last, m.timer.phase)
            && (jumped == last <==> k * m.o.usec % m.o.divider == 0)
  {
    hide Inv, Tick, FastForward.Advance, FastForward.Passed, FastForward.Idle, FastForward.WithPhase;
    assert FastForward.Idle(m);
    hide FastForward.Limit;
    FastForward.AdvanceExact(m, k);
    FastForward.AdvanceIsTicks(m, k);
    FastForward.SkippedTicks(m, k - 1);
  }

  /** What the loops agree on, even when the last tick wakes the machine. */
  predicate Agree(f: World, s: World) {
    f.m == s.m && f.outcome == s.outcome && f.halted == s.halted && f.active == s.active &&
    (!f.outcome.Woken? ==> f == s)
  }

  /** The same when the prescaler's phase is left out. */
  predicate AgreeButPhase(f: World, s: World, phase: nat) {
    f.m == FastForward.WithPhase(s.m, phase) && Agree(f, s.(m := f.m))
  }

  /** For every configuration a jump is what the same number of ticks of the loop come to,
      except for the prescaler's phase, and it is exactly that if and only if the time jumped
      over is a whole number of timer steps. */
  lemma JumpIsTicks(c: Config, host: Host, w: World, k: nat)
    requires Stretch(c, host, w, k)
    ensures Good(c, host, After(c, w, k - 1)) && Live(After(c, w, k - 1))
    ensures RunSlow(c, host, w) == RunSlow(c, host, After(c, w, k - 1))
    ensures var last := SlowStep(c, host, After(c, w, k - 1));
            && AgreeButPhase(Jump(c, w, k), last, w.m.timer.phase)
            && (Agree(Jump(c, w, k), last) <==> k * w.m.o.usec % w.m.o.divider == 0)
  {
    hide Inv, Sound, Timely, FastForward.Limit, FastForward.Idle, SlowStep, After, Jump, Allowed,
         AgreeButPhase, Agree;
    StretchLong(c, host, w, k);
    InStretch(c, host, w, k, k - 1);
    LastTurn(c, host, w, k);
  }

  lemma StretchLong(c: Config, host: Host, w: World, k: nat)
    requires Stretch(c, host, w, k)
    ensures k >= 2
  {
    hide Inv, Sound, Timely, FastForward.Limit, FastForward.Idle;
  }

  lemma LastTurn(c: Config, host: Host, w: World, k: nat)
    requires Stretch(c, host, w, k) && k >= 2 && Good(c, host, After(c, w, k - 1))
    ensures var last := SlowStep(c, host, After(c, w, k - 1));
            && AgreeButPhase(Jump(c, w, k), last, w.m.timer.phase)
            && (Agree(Jump(c, w, k), last) <==> k * w.m.o.usec % w.m.o.divider == 0)
  {
    hide Inv, Sound, Timely, Tick, FastForward.Limit, FastForward.Idle, FastForward.Passed, SlowStep,
         AdvanceWait, Less, FastForward.Advance, Slice;
    StretchStep(c, host, w, k, k - 1);
    LastPassed(w.m, k);
    FullSlices(c, w, k);
    PassedTime(w.m, k - 1);
  }

  /** The loop with jumps ends in the same machine, for the same reason, having counted the
      same sleeping ticks, as the loop that takes every tick. When a tick is a whole number of
      timer steps this holds for every program, script and budget, and for clients that may
      change the length of a tick as long as it stays one and the clock stays in order. */
  lemma {:induction false} LoopsAgree(c: Config, host: Host, w: World)
    requires Good(c, host, w) && Steady(host) && Whole(w.m)
    ensures Agree(RunFast(c, host, w), RunSlow(c, host, w))
    decreases w.remaining, if w.outcome.Running? then 1 else 0
  {
    hide Inv, Sound, Timely, Steady, SlowStep, Jump, After, OneTick;
    if Live(w) {
      FastTime(c, host, w);
      var k := JumpLength(c, w);
      if k > 1 {
        ClampAllows(c, w);
        JumpInv(c, host, w, k);
        LoopsAgree(c, host, Jump(c, w, k));
        AgreeAfterJump(c, host, w, k);
      } else {
        SlowInv(c, host, w);
        SlowWhole(c, host, w);
        LoopsAgree(c, host, SlowStep(c, host, w));
      }
    }
  }

  lemma AgreeAfterJump(c: Config, host: Host, w: World, k: nat)
    requires Good(c, host, w) && Live(w) && Allowed(c, w, k) && Whole(w.m)
    requires Good(c, host, Jump(c, w, k))
    requires Agree(RunFast(c, host, Jump(c, w, k)), RunSlow(c, host, Jump(c, w, k)))
    ensures Agree(RunFast(c, host, Jump(c, w, k)), RunSlow(c, host, w))
  {
    hide Inv, Sound, Timely, SlowStep, Jump, After, FastForward.Idle, OneTick;
    assert FastForward.Idle(w.m);
    hide FastForward.Limit;
    JumpIsTicks(c, host, w, k);
    WholeSteps(k, w.m.o.usec, w.m.o.divider);
    var v := After(c, w, k - 1);
    SlowTime(c, host, v);
    if Jump(c, w, k).outcome.Woken? {
      Stopped(c, host, Jump(c, w, k));
      Stopped(c, host, SlowStep(c, host, v));
    }
  }

  // ------------------------------------------------------------------------- as it is done

  /** How far a jump may go: the limit of the devices, cut down by the script, the clients and
      the budget. */
  method AdvanceTicks(c: Config, m: Machine, script: Player, remaining: nat) returns (k: nat)
    requires c.slice > 0 && remaining > 0
    ensures k == JumpLength(c, World(m, script.State(), remaining, Running, 0, 0))
  {
    hide FastForward.Limit;
    var slice := Min(c.slice, remaining);
    k := 1;
    if c.jumps {
      k := FastForward.IdleAdvanceLimit(m);
    }
    if k > 1 {
      if c.scripted {
        if script.waitLeft == 0 {
          if script.cursor < script.events.Length {
            k := 1;
          }
        } else if k > script.waitLeft {
          k := script.waitLeft;
        }
      }
      if c.web {
        var toPoll := POLL - m.ticks % POLL;
        var before := if toPoll > 1 then toPoll - 1 else 1;
        if k > before {
          k := before;
        }
      }
      var left := (remaining + slice - 1) / slice;
      if k > left {
        k := left;
      }
    }
  }

  /** Runs a budget of instructions. */
  method Schedule(c: Config, host: Host, start: Machine, script: Player, budget: nat)
    returns (m: Machine, remaining: nat, outcome: Outcome, active: nat, halted: nat)
    requires Fair(c, host, World(start, script.State(), budget, Running, 0, 0))
    modifies script
    ensures World(m, script.State(), remaining, outcome, active, halted) ==
            RunFast(c, host, World(start, old(script.State()), budget, Running, 0, 0))
  {
    hide Timely, FastStep, JumpLength;
    m, remaining, outcome, active, halted := start, budget, Running, 0, 0;
    ghost var first := World(m, script.State(), budget, Running, 0, 0);
    while remaining > 0 && outcome.Running?
      invariant var w := World(m, script.State(), remaining, outcome, active, halted);
                Fair(c, host, w) && RunFast(c, host, w) == RunFast(c, host, first)
      decreases remaining, if outcome.Running? then 1 else 0
    {
      FastTime(c, host, World(m, script.State(), remaining, outcome, active, halted));
      m, remaining, outcome, active, halted := Turn(c, host, m, script, remaining, active, halted);
    }
  }

  /** One turn of the loop. */
  method Turn(c: Config, host: Host, before: Machine, script: Player,
              remaining: nat, active: nat, halted: nat)
    returns (m: Machine, remaining': nat, outcome: Outcome, active': nat, halted': nat)
    requires remaining > 0
    requires Fair(c, host, World(before, script.State(), remaining, Running, active, halted))
    modifies script
    ensures World(m, script.State(), remaining', outcome, active', halted') ==
            FastStep(c, host, World(before, old(script.State()), remaining, Running, active, halted))
  {
    hide Timely, Tick, ScriptTick, FastForward.Advance, FastForward.Limit, Done;
    ghost var w := World(before, script.State(), remaining, Running, active, halted);
    var slice := Min(c.slice, remaining);
    m, remaining', outcome, active', halted' := before, remaining, Running, active, halted;
    var k := AdvanceTicks(c, m, script, remaining);
    assert k == JumpLength(c, w);
    if k > 1 {
      hide JumpLength;
      halted' := halted' + k;
      m := FastForward.Advance(m, k);
      if c.scripted {
        script.SkipWait(k);
      }
      var scheduled := k * slice;
      remaining' := if scheduled >= remaining then 0 else remaining - scheduled;
      if m.pmu.power.wakes != 0 {
        outcome := Woken;
      }
      return;
    }
    hide JumpLength;
    if m.cores.cpu.halted && m.cores.cop.halted {
      halted' := halted' + 1;
    } else {
      active' := active' + 1;
    }
    var ran := host.exec(m, slice);
    if ran.None? {
      outcome := Failed;
      return;
    }
    ExecTime(host, m, slice);
    m := Tick(ran.value);
    if m.pmu.power.wakes != 0 {
      outcome := Woken;
      return;
    }
    if c.scripted {
      m := script.Step(m);
    }
    remaining' := remaining - slice;
    if c.web && m.ticks % POLL == 0 {
      var p := host.poll(m);
      m := p.m;
      if p.restart {
        outcome := Restart;
      }
    }
  }
}
