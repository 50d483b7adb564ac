/** The window of played audio served to a browser (send_audio_pcm in src/web_frontend.c). */
module PcmWindow {
  import opened Words
  import opened I2sSpec
  import Clock = I2sTheorems

  const RING: nat := 32768
  const MOST: nat := 16384

  /** The halfwords [start, start + count) and how many the client has missed. */
  datatype Window = Window(start: nat, count: nat, dropped: nat)

  function EvenDown(n: nat): nat {
    n - n % 2
  }

  function Oldest(s: I2s): nat {
    var produced := EvenDown(|s.pcm|);
    var kept := if produced > RING then produced - RING else 0;
    RoundUpEven(if kept < s.streamStart then s.streamStart else kept)
  }

  /** The cursor after it has been moved into the available range. */
  function Clamped(s: I2s, cursor: nat): (r: nat)
    ensures r % 2 == 0 && r <= EvenDown(|s.pcm|)
  {
    var produced := EvenDown(|s.pcm|);
    var c := if cursor < Oldest(s) then Oldest(s) else cursor;
    RoundUpEven(if c > produced then produced else c)
  }

  /** The window for a client that asks from `cursor` on; without a cursor it is empty and at
      the end. */
  function Serve(s: I2s, asked: Option<nat>): Window {
    var produced := EvenDown(|s.pcm|);
    var cursor := if asked.Some? then asked.value else produced;
    var missed := if cursor < Oldest(s) then Oldest(s) - cursor else 0;
    var from := Clamped(s, cursor);
    if produced - from > MOST
    then Window(produced - MOST, MOST, missed + (produced - from - MOST))
    else Window(from, produced - from, missed)
  }

  /** Served ranges are whole stereo frames, at most 16384 halfwords, have been produced, are
      still in the ring, and when not empty lie in the current stream. */
  lemma ServedRange(s: I2s, asked: Option<nat>)
    requires s.streamStart % 2 == 0
    ensures var w := Serve(s, asked);
            && w.start % 2 == 0 && w.count % 2 == 0 && w.count <= MOST
            && w.start + w.count == EvenDown(|s.pcm|) <= |s.pcm| < w.start + RING
            && (w.count > 0 ==> s.streamStart <= w.start)
  {
  }

  /** What a client is told it has missed, for every cursor. Before the oldest halfword it is
      the exact gap. Inside the range it is too, but for the halfword an odd cursor skips to
      the next whole frame. Past the end nothing is missed and nothing is served. */
  lemma DroppedExactly(s: I2s, cursor: nat)
    ensures var w := Serve(s, Some(cursor)); var end := EvenDown(|s.pcm|);
            && (cursor < Oldest(s) ==>
                  cursor + w.dropped == if w.start < Oldest(s) then Oldest(s) else w.start)
            && (Oldest(s) <= cursor <= end ==> cursor + cursor % 2 + w.dropped == w.start)
            && (Oldest(s) <= cursor && end < cursor ==> w == Window(end, 0, 0))
  {
  }

  // --------------------------------------------------------------------- following a stream

  /** The guest does not reset the output. */
  predicate NoReset(e: Clock.Event) {
    e.RegisterWrite? && e.offset - e.offset % 4 == 0x00 ==> !Bit(e.value, RESET)
  }

  lemma EventExtends(s: I2s, e: Clock.Event, discarded: nat)
    requires Clock.Books(s, discarded) && NoReset(e)
    ensures |Clock.Happen(s, e).pcm| >= |s.pcm| && Clock.Happen(s, e).pcm[..|s.pcm|] == s.pcm
  {
    hide Clock.Inputs, ToSample, Play, PerTick;
    match e
    case DeviceTick(c, usec) =>
      if Enabled(s) {
        var t := SyncRate(s, c);
        var total := t.acc + PerTick(usec, t.rate);
        Clock.PlayBooks(t.(acc := total % MICRO), c, discarded, total / MICRO);
      }
    case RegisterWrite(c, offset, size, value) =>
  }

  /** Without a reset, what has been produced stays produced. */
  lemma {:induction false} RunExtends(s: I2s, events: seq<Clock.Event>, discarded: nat)
    requires Clock.Books(s, discarded)
    requires forall i | 0 <= i < |events| :: NoReset(events[i])
    ensures var t := Clock.Run(s, events); |t.pcm| >= |s.pcm| && t.pcm[..|s.pcm|] == s.pcm
    decreases |events|
  {
    if events != [] {
      hide Clock.Happen, Clock.Books, NoReset;
      EventExtends(s, events[0], discarded);
      EventBooks(s, events[0], discarded);
      RunExtends(Clock.Happen(s, events[0]), events[1..], Clock.Discarded(s, events[0], discarded));
    }
  }

  lemma EventBooks(s: I2s, e: Clock.Event, discarded: nat)
    requires Clock.Books(s, discarded)
    ensures Clock.Books(Clock.Happen(s, e), Clock.Discarded(s, e, discarded))
  {
    hide Clock.Books, Tick, WriteReg;
    match e
    case DeviceTick(c, usec) => Clock.TickBooks(s, c, usec, discarded);
    case RegisterWrite(c, offset, size, value) =>
      Clock.WriteBooks(s, c, offset, size, value, discarded);
  }

  /** A client that follows the returned cursor never gets a halfword twice, whatever is
      played in between, as long as the guest does not reset the output. */
  lemma FollowerNeverRepeats(s: I2s, asked: Option<nat>, events: seq<Clock.Event>, discarded: nat)
    requires Clock.Books(s, discarded)
    requires forall i | 0 <= i < |events| :: NoReset(events[i])
    ensures var w := Serve(s, asked);
            var next := Serve(Clock.Run(s, events), Some(w.start + w.count));
            next.start >= w.start + w.count
  {
    hide Clock.Run, Clock.Inputs;
    RunExtends(s, events, discarded);
    ServedRange(s, asked);
  }
}
