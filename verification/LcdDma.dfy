/** A DMA transfer from guest memory to the LCD's block port on the Apple profile, and the
    state of the channels between transfers on the other. */
module LcdDma {
  import opened Words
  import opened DmaSpec
  import opened LcdTheorems
  import Lcd = LcdSpec
  import Audio = AudioDma
  import Intc
  import I2sSpec

  /** Halfword `j` of a buffer. */
  function HalfAt(fetch: Fetch, addr: Word, j: nat): Half {
    match Audio.WordAt(fetch, addr, j / 2)
    case None => 0
    case Some(w) => if j % 2 == 0 then w % TWO_TO_16 else w / TWO_TO_16
  }

  /** Halfwords `j`, `j + 1`, ... of a buffer. */
  function Halfwords(fetch: Fetch, addr: Word, j: nat, n: nat): (r: seq<Half>)
    ensures |r| == n
  {
    seq<Half>(n, i requires 0 <= i < n => HalfAt(fetch, addr, j + i))
  }

  /** What a block of `bytes / 2` pixels still wants after `k` words. */
  function Wanted(bytes: nat, k: nat): nat {
    if bytes / 2 > 2 * k then bytes / 2 - 2 * k else 0
  }

  /** A byte count of one more than a multiple of four has a last word after the last pixel. */
  function Overruns(bytes: nat, k: nat): nat {
    if bytes % 4 == 1 && 4 * k < bytes then 1 else 0
  }

  lemma FirstHalves(fetch: Fetch, addr: Word, k: nat, w: Word, n: nat)
    requires Audio.WordAt(fetch, addr, k) == Some(w)
    ensures n == 1 ==> Halfwords(fetch, addr, 2 * k, n) == [w % TWO_TO_16]
    ensures n >= 2 ==> Halfwords(fetch, addr, 2 * k, n) ==
                       [w % TWO_TO_16, w / TWO_TO_16] + Halfwords(fetch, addr, 2 * (k + 1), n - 2)
  {
    hide Audio.WordAt;
    assert 2 * k / 2 == k && (2 * k + 1) / 2 == k && (2 * k + 1) % 2 == 1;
    assert HalfAt(fetch, addr, 2 * k) == w % TWO_TO_16;
    assert HalfAt(fetch, addr, 2 * k + 1) == w / TWO_TO_16;
    hide HalfAt;
    if n >= 2 {
      var all, rest := Halfwords(fetch, addr, 2 * k, n), Halfwords(fetch, addr, 2 * (k + 1), n - 2);
      forall i | 0 <= i < n ensures all[i] == ([w % TWO_TO_16, w / TWO_TO_16] + rest)[i] {
        assert i >= 2 ==> rest[i - 2] == HalfAt(fetch, addr, 2 * (k + 1) + (i - 2));
        assert 2 * (k + 1) + (i - 2) == 2 * k + i;
      }
    }
  }

  /** One word of the transfer. */
  lemma WordDraws(l: Lcd.Lcd, fetch: Fetch, addr: Word, bytes: nat, k: nat, w: Word)
    requires 4 * k < bytes && l.blockRemaining == Wanted(bytes, k)
    requires Audio.WordAt(fetch, addr, k) == Some(w)
    ensures var r := Lcd.WriteReg(l, true, Lcd.BLOCK_PORT, w);
            && r.blockRemaining == Wanted(bytes, k + 1)
            && r.overruns + Overruns(bytes, k + 1) == l.overruns + Overruns(bytes, k)
            && SamePicture(PushAllFrom(r, fetch, addr, bytes, k + 1), PushAllFrom(l, fetch, addr, bytes, k))
  {
    hide Audio.WordAt, Lcd.PushPixel, Lcd.PushAll, Halfwords;
    FirstHalves(fetch, addr, k, w, Wanted(bytes, k));
    var r := Lcd.WriteReg(l, true, Lcd.BLOCK_PORT, w);
    if l.blockRemaining == 0 {
      PushAllSame(l, r, []);
    } else {
      BlockWordDraws(l, true, w);
      var now := if l.blockRemaining == 1 then [w % TWO_TO_16] else [w % TWO_TO_16, w / TWO_TO_16];
      var later := Halfwords(fetch, addr, 2 * (k + 1), Wanted(bytes, k + 1));
      assert Halfwords(fetch, addr, 2 * k, Wanted(bytes, k)) == now + later;
      PushAllThen(l, now, later);
      PushAllSame(r, Lcd.PushAll(l, now), later);
    }
  }

  /** Drawing what is left of the block. */
  function PushAllFrom(l: Lcd.Lcd, fetch: Fetch, addr: Word, bytes: nat, k: nat): Lcd.Lcd {
    Lcd.PushAll(l, Halfwords(fetch, addr, 2 * k, Wanted(bytes, k)))
  }

  lemma NothingLeft(l: Lcd.Lcd, fetch: Fetch, addr: Word, bytes: nat, k: nat)
    requires 4 * k >= bytes
    ensures Wanted(bytes, k) == 0 && Overruns(bytes, k) == 0
    ensures PushAllFrom(l, fetch, addr, bytes, k) == l
  {
  }

  /** The transfer ends the block exactly, and draws the halfwords of the buffer in order. */
  lemma {:induction false} PourDraws(l: Lcd.Lcd, fetch: Fetch, addr: Word, bytes: nat, k: nat)
    requires Audio.Mapped(fetch, addr, (bytes + 3) / 4) && l.blockRemaining == Wanted(bytes, k)
    ensures var r := Pour(l, fetch, true, addr, 4 * k, bytes, Lcd.BLOCK_PORT);
            && r.blockRemaining == 0
            && r.overruns == l.overruns + Overruns(bytes, k)
            && SamePicture(r, PushAllFrom(l, fetch, addr, bytes, k))
    decreases bytes + 4 - 4 * k
  {
    hide Lcd.WriteReg, PushAllFrom, Wanted, Overruns;
    if 4 * k < bytes {
      assert Audio.WordAt(fetch, addr, k).Some?;
      var w := Audio.WordAt(fetch, addr, k).value;
      WordDraws(l, fetch, addr, bytes, k, w);
      PourDraws(Lcd.WriteReg(l, true, Lcd.BLOCK_PORT, w), fetch, addr, bytes, k + 1);
    } else {
      NothingLeft(l, fetch, addr, bytes, k);
    }
  }

  /** The channel asks for a block transfer from mapped memory, and the open block is as long
      as the transfer. */
  predicate Accepted(s: System, i: nat) {
    s.apple && i < CHANNELS && Bit(Ch(s, i).cmd, WAIT_REQ) && Ch(s, i).armed &&
    Ch(s, i).per == LCD2_BASE + Lcd.BLOCK_PORT &&
    s.lcd.blockRemaining == TransferBytes(Ch(s, i).cmd) / 2 &&
    Audio.Mapped(s.fetch, Ch(s, i).ram, (TransferBytes(Ch(s, i).cmd) + 3) / 4)
  }

  /** What the LCD is given. */
  function Asked(s: System, i: nat): seq<Half>
    requires i < CHANNELS
  {
    Halfwords(s.fetch, Ch(s, i).ram, 0, TransferBytes(Ch(s, i).cmd) / 2)
  }

  lemma AcceptedPours(s: System, i: nat)
    requires Accepted(s, i)
    ensures TargetsLcd(Ch(s, i))
    ensures TryLcd(s, i).lcd ==
            Pour(s.lcd, s.fetch, true, Ch(s, i).ram, 0, TransferBytes(Ch(s, i).cmd), Lcd.BLOCK_PORT)
    ensures TryLcd(s, i).fetch == s.fetch && !Ch(TryLcd(s, i), i).armed
    ensures TryLcd(s, i).dma.accepts == s.dma.accepts + 1
  {
    hide Pour, Audio.Mapped, Bit, WithBit, Intc.SetLow;
  }

  /** An accepted transfer leaves the block finished. Nothing of it is lost unless its byte
      count is one more than a multiple of four, when the last word comes too late. */
  lemma AcceptedEndsBlock(s: System, i: nat)
    requires Accepted(s, i)
    ensures var r := TryLcd(s, i);
            && r.lcd.blockRemaining == 0 && !Ch(r, i).armed && r.dma.accepts == s.dma.accepts + 1
            && SamePicture(r.lcd, Lcd.PushAll(s.lcd, Asked(s, i)))
            && (r.lcd.overruns == s.lcd.overruns <==> TransferBytes(Ch(s, i).cmd) % 4 != 1)
  {
    hide Pour, TryLcd, Audio.Mapped, Lcd.PushAll, Halfwords, Bit;
    AcceptedPours(s, i);
    PourDraws(s.lcd, s.fetch, Ch(s, i).ram, TransferBytes(Ch(s, i).cmd), 0);
  }

  /** From memory to the panel: pixel `k` of the window is halfword `k` of the buffer, and the
      rest of the graphics RAM is unchanged. */
  lemma AcceptedDraws(s: System, i: nat)
    requires Accepted(s, i)
    requires Configured(s.lcd.window) && AtOrigin(s.lcd)
    requires s.lcd.blockRemaining <= Area(s.lcd.window)
    ensures Drawn(TryLcd(s, i).lcd.pixels, s.lcd.pixels, s.lcd.window, Asked(s, i))
    ensures s.lcd.blockRemaining == Area(s.lcd.window) ==> AtOrigin(TryLcd(s, i).lcd)
  {
    hide TryLcd, Drawn, Lcd.PushAll, Area, Audio.Mapped, Bit;
    AcceptedEndsBlock(s, i);
    Raster(s.lcd, Asked(s, i));
  }

  /** From power-on: a block of four pixels is opened, and channel 0 is given an address, the
      block port, and a command for nine bytes. */
  function NineBytes(fetch: Fetch, addr: Word): System {
    var lcd := Lcd.WriteReg(Lcd.WriteReg(Lcd.PowerOn(), true, 0x24, 7), true, 0x20, 0x3000_0000);
    var lines := Intc.Lines(0, 0, 0, 0, 0, 0, 0, 0, 0, 0, 0, 0, 0, 0);
    var s := System(PowerOn(), I2sSpec.PowerOn(), lcd, lines, fetch, true, false);
    WriteReg(WriteReg(WriteReg(s, 0x1010, addr), 0x1018, LCD2_BASE + Lcd.BLOCK_PORT),
             0x1000, WAIT_REQ + 5)
  }

  /** The block is as long as the transfer, which is accepted on the next tick and loses its
      last word. */
  lemma LateWord(fetch: Fetch, addr: Word)
    requires Audio.Mapped(fetch, addr, 3)
    ensures var s := NineBytes(fetch, addr);
            Accepted(s, 0) && TryLcd(s, 0).lcd.overruns == s.lcd.overruns + 1
  {
    hide TryLcd, Lcd.PushAll, Audio.Mapped, Halfwords, Pour;
    var s := NineBytes(fetch, addr);
    NineBytesAccepted(fetch, addr);
    hide NineBytes;
    AcceptedPours(s, 0);
    PourDraws(s.lcd, s.fetch, Ch(s, 0).ram, TransferBytes(Ch(s, 0).cmd), 0);
  }

  lemma NineBytesAccepted(fetch: Fetch, addr: Word)
    requires Audio.Mapped(fetch, addr, 3)
    ensures Accepted(NineBytes(fetch, addr), 0)
    ensures TransferBytes(Ch(NineBytes(fetch, addr), 0).cmd) == 9
  {
    hide Audio.Mapped;
  }

  // -------------------------------------------------------------------- between transfers

  /** Outside the Apple profile no request waits for the LCD. */
  predicate NoneWaiting(d: Dma) {
    forall i | 0 <= i < CHANNELS :: !(Bit(d.ch[i].cmd, WAIT_REQ) && TargetsLcd(d.ch[i]))
  }
}
