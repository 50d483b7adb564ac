/** Scripted input (src/input_script.c): events separated by waits, one step per device tick. */
module InputScript {
  import opened Machine
  import MachineInv
  import Opto

  /** A button name the devices do not know has no bit. */
  datatype Input = Wait(ticks: nat) | Press(bit: bv32, menu: bool, pressed: bool)
                 | Turn(delta: int) | Switch(on: bool) | Frame

  datatype Script = Script(events: seq<Input>, cursor: nat, waitLeft: nat)

  datatype Played = Played(script: Script, m: Machine)

  function Apply(m: Machine, e: Input): (r: Machine)
    requires m.o.divider > 0
    ensures r.o == m.o && r.ticks == m.ticks
  {
    match e
    case Press(bit, menu, pressed) => if bit == 0 then m else ButtonEvent(m, Buttons(bit, pressed, menu))
    case Turn(delta) => ButtonEvent(m, Event.Wheel(delta))
    case Switch(on) => SetHold(m, on)
    case _ => m
  }

  /** Plays events until a wait or the end. The tick that comes to a wait is its first. */
  function PlayOn(s: Script, m: Machine): (r: Played)
    requires m.o.divider > 0
    ensures r.m.o == m.o && r.m.ticks == m.ticks && r.script.events == s.events
    decreases if s.cursor < |s.events| then |s.events| - s.cursor else 0
  {
    if s.cursor >= |s.events| then Played(s, m)
    else
      var e := s.events[s.cursor];
      var next := s.(cursor := s.cursor + 1);
      if e.Wait? && e.ticks > 0 then Played(next.(waitLeft := e.ticks - 1), m)
      else PlayOn(next, Apply(m, e))
  }

  function ScriptTick(s: Script, m: Machine): (r: Played)
    requires m.o.divider > 0
    ensures r.m.o == m.o && r.m.ticks == m.ticks && r.script.events == s.events
  {
    if s.waitLeft > 0 then Played(s.(waitLeft := s.waitLeft - 1), m) else PlayOn(s, m)
  }

  function AdvanceWait(s: Script, k: nat): Script {
    s.(waitLeft := if k > s.waitLeft then 0 else s.waitLeft - k)
  }

  predicate Done(s: Script) {
    s.cursor >= |s.events| && s.waitLeft == 0
  }

  lemma ApplyInv(m: Machine, e: Input)
    requires Inv(m)
    ensures m.o.divider > 0 && Inv(Apply(m, e))
  {
    hide Inv, ButtonEvent, Opto.ReleaseAll;
    MachineInv.InvDivider(m);
    match e
    case Press(bit, menu, pressed) => MachineInv.KeyInv(m, Buttons(bit, pressed, menu));
    case Turn(delta) => MachineInv.KeyInv(m, Event.Wheel(delta));
    case Switch(on) => MachineInv.UntouchedInv(m, SetHold(m, on));
    case _ =>
  }

  lemma {:induction false} PlayOnInv(s: Script, m: Machine)
    requires Inv(m)
    ensures m.o.divider > 0 && Inv(PlayOn(s, m).m)
    decreases if s.cursor < |s.events| then |s.events| - s.cursor else 0
  {
    hide Inv, Apply;
    MachineInv.InvDivider(m);
    if s.cursor < |s.events| {
      var e := s.events[s.cursor];
      ApplyInv(m, e);
      PlayOnInv(s.(cursor := s.cursor + 1), Apply(m, e));
    }
  }

  lemma ScriptTickInv(s: Script, m: Machine)
    requires Inv(m)
    ensures m.o.divider > 0 && Inv(ScriptTick(s, m).m)
  {
    hide Inv, PlayOn;
    PlayOnInv(s, m);
  }

  // ----------------------------------------------------------------------- when things play

  function Waits(events: seq<Input>): nat {
    if events == [] then 0
    else
      var last := events[|events| - 1];
      Waits(events[..|events| - 1]) + if last.Wait? then last.ticks else 0
  }

  /** The script after `n` of its ticks, whatever the machine does. */
  function ScriptTicks(s: Script, m: Machine, n: nat): (r: Played)
    requires m.o.divider > 0
    ensures r.m.o == m.o && r.script.events == s.events
  {
    if n == 0 then Played(s, m)
    else
      var before := ScriptTicks(s, m, n - 1);
      ScriptTick(before.script, before.m)
  }

  /** After `n` ticks the script is finished, or it is inside the wait it last came to. */
  predicate InTime(s: Script, n: nat) {
    s.cursor <= |s.events| &&
    if Waits(s.events[..s.cursor]) < n then s.cursor == |s.events| && s.waitLeft == 0
    else
      s.cursor > 0 && s.events[s.cursor - 1].Wait? && s.waitLeft < s.events[s.cursor - 1].ticks &&
      Waits(s.events[..s.cursor]) == n + s.waitLeft
  }

  lemma WaitsStep(events: seq<Input>, c: nat)
    requires c < |events|
    ensures Waits(events[..c + 1]) ==
            Waits(events[..c]) + if events[c].Wait? then events[c].ticks else 0
  {
    assert events[..c + 1][..c] == events[..c];
  }

  lemma {:induction false} PlayOnInTime(s: Script, m: Machine, n: nat)
    requires m.o.divider > 0 && s.cursor <= |s.events| && s.waitLeft == 0
    requires Waits(s.events[..s.cursor]) == n
    ensures InTime(PlayOn(s, m).script, n + 1)
    decreases |s.events| - s.cursor
  {
    hide Apply, Waits;
    if s.cursor < |s.events| {
      WaitsStep(s.events, s.cursor);
      var e := s.events[s.cursor];
      if !(e.Wait? && e.ticks > 0) {
        PlayOnInTime(s.(cursor := s.cursor + 1), Apply(m, e), n);
      }
    }
  }

  lemma {:induction false} TicksInTime(events: seq<Input>, m: Machine, n: nat)
    requires m.o.divider > 0 && n > 0
    ensures InTime(ScriptTicks(Script(events, 0, 0), m, n).script, n)
  {
    hide PlayOn, Waits;
    var before := ScriptTicks(Script(events, 0, 0), m, n - 1);
    if n == 1 {
      NoWaits(events);
      PlayOnInTime(before.script, before.m, 0);
    } else {
      TicksInTime(events, m, n - 1);
      var s := before.script;
      if s.waitLeft == 0 {
        if Waits(s.events[..s.cursor]) == n - 1 {
          PlayOnInTime(s, before.m, n - 1);
        } else {
          AtEnd(s, before.m);
        }
      }
    }
  }

  lemma AtEnd(s: Script, m: Machine)
    requires s.cursor >= |s.events| && m.o.divider > 0
    ensures PlayOn(s, m) == Played(s, m)
  {
  }

  lemma NoWaits(events: seq<Input>)
    ensures Waits(events[..0]) == 0
  {
  }

  lemma {:induction false} WaitsGrow(events: seq<Input>, i: nat, j: nat)
    requires i <= j <= |events|
    ensures Waits(events[..i]) <= Waits(events[..j])
    decreases j - i
  {
    hide Waits;
    if i < j {
      WaitsStep(events, j - 1);
      WaitsGrow(events, i, j - 1);
    }
  }

  /** Event `i` is played on the script's tick number one plus all waits before it. */
  lemma EventTime(events: seq<Input>, m: Machine, n: nat, i: nat)
    requires m.o.divider > 0 && i < |events|
    ensures ScriptTicks(Script(events, 0, 0), m, n).script.cursor > i <==> Waits(events[..i]) < n
  {
    hide ScriptTicks, Waits;
    if n == 0 {
      NotStarted(events, m);
    } else {
      TicksInTime(events, m, n);
      var s := ScriptTicks(Script(events, 0, 0), m, n).script;
      if i < s.cursor {
        WaitsGrow(events, i, s.cursor - 1);
        WaitsStep(events, s.cursor - 1);
      } else {
        WaitsGrow(events, s.cursor, i);
      }
    }
  }

  lemma NotStarted(events: seq<Input>, m: Machine)
    requires m.o.divider > 0
    ensures ScriptTicks(Script(events, 0, 0), m, 0).script.cursor == 0
  {
  }

  // ---------------------------------------------------- the script apart from the machine

  lemma {:induction false} PlayOnSame(s: Script, m: Machine, n: Machine)
    requires m.o.divider > 0 && n.o.divider > 0
    ensures PlayOn(s, m).script == PlayOn(s, n).script
    decreases if s.cursor < |s.events| then |s.events| - s.cursor else 0
  {
    hide Apply;
    if s.cursor < |s.events| {
      var e := s.events[s.cursor];
      PlayOnSame(s.(cursor := s.cursor + 1), Apply(m, e), Apply(n, e));
    }
  }

  /** What the script does next does not depend on the machine. */
  lemma ScriptTickSame(s: Script, m: Machine, n: Machine)
    requires m.o.divider > 0 && n.o.divider > 0
    ensures ScriptTick(s, m).script == ScriptTick(s, n).script
  {
    hide PlayOn;
    PlayOnSame(s, m, n);
  }

  /** One tick and then `n` more. */
  lemma {:induction false} TickThenTicks(s: Script, m: Machine, n: nat, other: Machine)
    requires m.o.divider > 0 && other.o.divider > 0
    ensures ScriptTicks(s, m, n + 1).script == ScriptTicks(ScriptTick(s, m).script, other, n).script
  {
    hide ScriptTick;
    if n == 0 {
      assert ScriptTicks(s, m, 0) == Played(s, m);
    } else {
      TickThenTicks(s, m, n - 1, other);
      var a := ScriptTicks(s, m, n);
      var b := ScriptTicks(ScriptTick(s, m).script, other, n - 1);
      ScriptTickSame(a.script, a.m, b.m);
    }
  }

  /** `a` ticks and then `b` more. */
  lemma {:induction false} TicksThenTicks(s: Script, m: Machine, a: nat, b: nat, other: Machine)
    requires m.o.divider > 0 && other.o.divider > 0
    ensures ScriptTicks(s, m, a + b).script ==
            ScriptTicks(ScriptTicks(s, m, a).script, other, b).script
  {
    hide ScriptTick;
    if b == 0 {
      NoScriptTicks(ScriptTicks(s, m, a).script, other);
    } else {
      TicksThenTicks(s, m, a, b - 1, other);
      var x := ScriptTicks(s, m, a + b - 1);
      var y := ScriptTicks(ScriptTicks(s, m, a).script, other, b - 1);
      ScriptTickSame(x.script, x.m, y.m);
    }
  }

  lemma NoScriptTicks(s: Script, m: Machine)
    requires m.o.divider > 0
    ensures ScriptTicks(s, m, 0) == Played(s, m)
  {
  }

  /** While a wait lasts, ticks of the script only use it up. */
  lemma {:induction false} WaitTicks(s: Script, m: Machine, k: nat, n: nat, other: Machine)
    requires m.o.divider > 0 && other.o.divider > 0 && (Done(s) || k <= s.waitLeft)
    ensures ScriptTicks(s, m, k + n).script == ScriptTicks(AdvanceWait(s, k), other, n).script
    decreases k
  {
    if k == 0 {
      assert AdvanceWait(s, 0) == s;
      SameTicks(s, m, other, n);
    } else {
      TickThenTicks(s, m, k - 1 + n, other);
      hide PlayOn;
      assert ScriptTick(s, m).script == AdvanceWait(s, 1) by {
        if Done(s) {
          AtEnd(s, m);
        }
      }
      hide ScriptTick, ScriptTicks;
      WaitTicks(AdvanceWait(s, 1), other, k - 1, n, other);
    }
  }

  lemma {:induction false} SameTicks(s: Script, m: Machine, other: Machine, n: nat)
    requires m.o.divider > 0 && other.o.divider > 0
    ensures ScriptTicks(s, m, n).script == ScriptTicks(s, other, n).script
  {
    hide ScriptTick;
    if n != 0 {
      SameTicks(s, m, other, n - 1);
      var a, b := ScriptTicks(s, m, n - 1), ScriptTicks(s, other, n - 1);
      ScriptTickSame(a.script, a.m, b.m);
    }
  }

  // ----------------------------------------------------------------------------- in place

  class Player {
    const events: array<Input>
    var cursor: nat
    var waitLeft: nat

    ghost function State(): Script
      reads this, events
    {
      Script(events[..], cursor, waitLeft)
    }

    constructor (events: array<Input>)
      ensures this.events == events && cursor == 0 && waitLeft == 0
    {
      this.events, cursor, waitLeft := events, 0, 0;
    }

    /** One tick of the script; the events act on the machine. */
    method Step(m: Machine) returns (n: Machine)
      requires m.o.divider > 0
      modifies this
      ensures Played(State(), n) == ScriptTick(old(State()), m)
    {
      hide Apply;
      n := m;
      if waitLeft > 0 {
        waitLeft := waitLeft - 1;
        return;
      }
      while cursor < events.Length
        invariant waitLeft == 0 && n.o == m.o
        invariant PlayOn(State(), n) == PlayOn(old(State()), m)
        decreases events.Length - cursor
      {
        var e := events[cursor];
        if e.Wait? {
          cursor := cursor + 1;
          if e.ticks > 0 {
            waitLeft := e.ticks - 1;
            return;
          }
          WaitIsNothing(n, e);
          continue;
        }
        n := Apply(n, e);
        cursor := cursor + 1;
      }
    }

    static lemma WaitIsNothing(m: Machine, e: Input)
      requires e.Wait? && m.o.divider > 0
      ensures Apply(m, e) == m
    {
    }

    method SkipWait(k: nat)
      modifies this
      ensures State() == AdvanceWait(old(State()), k)
    {
      waitLeft := waitLeft - if k > waitLeft then waitLeft else k;
    }
  }
}
